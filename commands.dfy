/**
 * The Command of flag.go: its flag tables, the argument list it scans, its
 * subcommands and the chain of parents, with the operations that change them
 * in place: varErr and the features it applies, Set, parseOne, Parse, SubCmd
 * and Init. Each state-changing method is proved against the pure
 * specifications of the Features and Tokenizer modules.
 */
module Commands {
  import opened Base
  import opened Values
  import opened Errors
  import opened Flags
  import opened Config
  import opened Features
  import opened Tokenizer

  /** ErrorHandling: what Parse does with an error. */
  datatype ErrorHandling = ContinueOnError | ExitOnError | PanicOnError

  /** A subcommand's handler function, which this model does not look into. */
  type Handler = nat

  /** subCommand: the handler and the command it is called with. */
  datatype SubCommand = SubCommand(fn: Handler, fs: Command)

  /** The call sc.fn(sc.fs, args) that Parse makes when it dispatches to a subcommand. */
  datatype HandlerCall = HandlerCall(fn: Handler, cmd: Command, args: seq<string>)

  /** How a call that may end in handleError finishes: a return value, os.Exit, or a panic. */
  datatype Completion = Returned(err: Option<FlagError>) | Exited(code: int) | Panicked(reason: FlagError)

  /** Every flag of a is still filed, under the same name, in b. */
  ghost predicate Extends(a: map<string, Flag>, b: map<string, Flag>)
  {
    forall n :: n in a ==> n in b && b[n] == a[n]
  }

  /** What parseSubCommandAndRun does: whether it ran a subcommand, its error, and the handler call. */
  datatype Dispatch = Dispatch(ran: bool, err: Option<FlagError>, call: Option<HandlerCall>)

  /** The result of GetFirstSubCommandWithArgs. */
  datatype FirstSubCommand = FirstSubCommand(name: string, args: seq<string>, ok: bool)

  /** GetFirstSubCommandWithArgs: a first argument without any '-' names a subcommand. */
  function GetFirstSubCommandWithArgs(args: seq<string>): (r: FirstSubCommand)
    ensures r.ok <==> |args| > 0 && '-' !in args[0]
    ensures r.ok ==> [r.name] + r.args == args
    ensures !r.ok ==> r == FirstSubCommand("", [], false)
  {
    if |args| == 0 then FirstSubCommand("", [], false)
    else if '-' !in args[0] then
      assert args == [args[0]] + args[1..];
      FirstSubCommand(args[0], args[1..], true)
    else FirstSubCommand("", [], false)
  }

  /** handleError: return the error, exit the process, or panic, as the command is configured. */
  function HandleError(eh: ErrorHandling, err: FlagError): (c: Completion)
    ensures c.Returned? <==> eh == ContinueOnError
    ensures c.Returned? ==> c.err == Some(err)
    ensures c.Exited? <==> eh == ExitOnError
    ensures c.Exited? ==> (c.code == 0 <==> err == HelpRequested) && (c.code != 0 ==> c.code == 2)
    ensures c.Panicked? ==> c.reason == err
  {
    match eh
    case ContinueOnError => Returned(Some(err))
    case ExitOnError => if err == HelpRequested then Exited(0) else Exited(2)
    case PanicOnError => Panicked(err)
  }

  /** The flags of fs that hold the same value cell as the flag named n. */
  function Shares(fs: map<string, Flag>, n: string): (s: set<string>)
    ensures n in fs ==> n in s
  {
    set m | m in fs && n in fs && fs[m].value == fs[n].value
  }

  class Command {
    var name: string
    var usg: string
    var parsed: bool
    var actual: map<string, Flag>
    var formal: map<string, Flag>
    var args: seq<string>
    var errorHandling: ErrorHandling
    var cfgPath: string
    var subCmds: map<string, SubCommand>
    /** false where Go leaves SubCmds nil: only MainCmd makes the table. */
    const hasSubCmdTable: bool
    const cfg: ConfigTree?
    const parentCmd: Command?
    /** The number of parents above this command, and the set of them. */
    ghost const depth: nat
    ghost const ancestors: set<Command>

    /** The parent links end at a root, and ancestors holds every command on the way. */
    ghost predicate Linked()
      decreases depth
    {
      parentCmd != null ==>
        parentCmd.depth < depth && parentCmd in ancestors
        && parentCmd.ancestors <= ancestors && parentCmd.Linked()
    }

    /**
     * The flag tables agree: every defined flag is filed under its own name,
     * every flag set is the defined flag of that name, and an alias shares its
     * value cell with the flag it stands for.
     */
    ghost predicate Valid()
      reads this`formal, this`actual, formal.Values`aliasFor
    {
      Linked()
      && (forall n :: n in formal ==> formal[n].name == n)
      && (forall n :: n in actual ==> n in formal && actual[n] == formal[n])
      && (forall n :: n in formal && formal[n].aliasFor != "" ==>
            formal[n].aliasFor in formal && formal[formal[n].aliasFor].value == formal[n].value)
    }

    /** MainCmd: a root command with a subcommand table and an empty configuration tree. */
    constructor Main(name: string, usage: string, errorHandling: ErrorHandling)
      ensures this.name == name && usg == usage && this.errorHandling == errorHandling
      ensures hasSubCmdTable && subCmds == map[] && fresh(cfg) && cfg.entries == map[]
      ensures parentCmd == null && formal == map[] && actual == map[] && args == [] && !parsed
      ensures Valid()
    {
      this.name := name;
      usg := usage;
      parsed := false;
      actual := map[];
      formal := map[];
      args := [];
      this.errorHandling := errorHandling;
      cfgPath := "";
      subCmds := map[];
      hasSubCmdTable := true;
      cfg := new ConfigTree();
      parentCmd := null;
      depth := 0;
      ancestors := {};
    }

    /** OneCmd: a root command with neither a subcommand table nor a configuration tree. */
    constructor One(name: string, errorHandling: ErrorHandling)
      ensures this.name == name && usg == "" && this.errorHandling == errorHandling
      ensures !hasSubCmdTable && subCmds == map[] && cfg == null
      ensures parentCmd == null && formal == map[] && actual == map[] && args == [] && !parsed
      ensures Valid()
    {
      this.name := name;
      usg := "";
      parsed := false;
      actual := map[];
      formal := map[];
      args := [];
      this.errorHandling := errorHandling;
      cfgPath := "";
      subCmds := map[];
      hasSubCmdTable := false;
      cfg := null;
      parentCmd := null;
      depth := 0;
      ancestors := {};
    }

    /** The command SubCmd builds under parent. */
    constructor Child(parent: Command, name: string, usage: string)
      requires parent.Linked()
      ensures this.name == name && usg == usage && errorHandling == parent.errorHandling
      ensures cfgPath == parent.cfgPath && cfg == parent.cfg && parentCmd == parent
      ensures !hasSubCmdTable && subCmds == map[]
      ensures formal == map[] && actual == map[] && args == [] && !parsed
      ensures Valid()
    {
      this.name := name;
      usg := usage;
      parsed := false;
      actual := map[];
      formal := map[];
      args := [];
      errorHandling := parent.errorHandling;
      cfgPath := parent.cfgPath;
      subCmds := map[];
      hasSubCmdTable := false;
      cfg := parent.cfg;
      parentCmd := parent;
      depth := parent.depth + 1;
      ancestors := parent.ancestors + {parent};
    }

    /** Init: a new name and error handling, nothing else. */
    method Init(name: string, errorHandling: ErrorHandling)
      modifies this`name, this`errorHandling
      ensures this.name == name && this.errorHandling == errorHandling
    {
      this.name := name;
      this.errorHandling := errorHandling;
    }

    /** The value cells of the defined flags. */
    function Cells(): set<ValueCell>
      reads this`formal
    {
      set n | n in formal :: formal[n].value
    }

    /** The value seen through each defined flag. */
    function Vals(): (m: map<string, Value>)
      reads this`formal, Cells()`v
      ensures m.Keys == formal.Keys
    {
      map n | n in formal :: formal[n].value.v
    }

    /** What parseOne sees of the defined flags. */
    function View(): (v: map<string, FlagView>)
      reads this`formal, formal.Values`enums
      ensures v.Keys == formal.Keys
    {
      map n | n in formal :: FlagView(Shares(formal, n), formal[n].enums)
    }

    /** The state parseOne reads and writes. */
    function Snapshot(): PState
      reads this`formal, this`args, this`actual, Cells()`v
    {
      PState(args, actual.Keys, Vals())
    }

    /** NFlag: how many flags have been set. */
    function NFlag(): (n: nat)
      requires Valid()
      reads this`formal, this`actual, formal.Values`aliasFor
      ensures n == |actual| && n <= |formal|
    {
      assert actual.Keys <= formal.Keys;
      SubsetCardinality(actual.Keys, formal.Keys);
      |actual|
    }

    /** NArg: how many arguments remain after the flags. */
    function NArg(): (n: nat)
      reads this`args
      ensures n == |args|
    {
      |args|
    }

    /** Arg(i): the i'th remaining argument, or "" when there is none. */
    function Arg(i: int): (s: string)
      reads this`args
      ensures 0 <= i < NArg() ==> s == args[i]
      ensures !(0 <= i < NArg()) ==> s == ""
    {
      if i < 0 || i >= |args| then "" else args[i]
    }

    /** The name of this command preceded by the names of its parents, blank-separated. */
    function ChainName(): (s: string)
      requires Linked()
      reads this`name, ancestors`name
      decreases depth
    {
      if parentCmd == null then name else parentCmd.ChainName() + " " + name
    }

    /** The names from the root command down to this one. */
    function Lineage(): (names: seq<string>)
      requires Linked()
      reads this`name, ancestors`name
      ensures |names| > 0 && names[|names| - 1] == name
      decreases depth
    {
      if parentCmd == null then [name] else parentCmd.Lineage() + [name]
    }

    /** The chain is the lineage joined with blanks. */
    lemma {:induction false} ChainIsLineage()
      requires Linked()
      ensures ChainName() == Join(Lineage(), " ")
      decreases depth
    {
      if parentCmd != null {
        parentCmd.ChainIsLineage();
        JoinSnoc(parentCmd.Lineage(), name, " ");
      }
    }

    /** An alias and the flag it stands for hold one value cell, so each sees what is set through the other. */
    lemma AliasShares(n: string)
      requires Valid() && n in formal && formal[n].aliasFor != ""
      ensures formal[n].aliasFor in Shares(formal, n) && n in Shares(formal, formal[n].aliasFor)
      ensures Vals()[n] == Vals()[formal[n].aliasFor]
    {
    }

    /** The usage text's command name: getDefaultUsage's walk up the parent links. */
    method UsageName() returns (commandName: string)
      requires Linked()
      ensures commandName == ChainName()
    {
      var current: Command := this;
      commandName := current.name;
      ghost var suffix := "";
      while current.parentCmd != null
        invariant current.Linked() && current.ancestors <= ancestors && (current == this || current in ancestors)
        invariant commandName == current.name + suffix
        invariant ChainName() == current.ChainName() + suffix
        decreases current.depth
      {
        suffix := " " + current.name + suffix;
        commandName := current.parentCmd.name + " " + commandName;
        current := current.parentCmd;
      }
    }

    /** The part of the state the features of a definition of to can see and change. */
    function StateOf(to: Flag): DefState
      reads this`formal, to`envs, to`cfgs, to`enums, to`alias, to.value`v, cfg
    {
      DefState(to.value.v, to.envs, to.cfgs, to.enums, to.alias, formal.Keys, CfgView())
    }

    function CfgView(): Option<map<string, string>>
      reads cfg
    {
      if cfg == null then None else Some(cfg.entries)
    }

    function TargetOf(to: Flag): Target
      reads this`name
    {
      Target(to.name, to.defValue, name)
    }

    /** to is defined in this command under its own name. */
    ghost predicate Holds(to: Flag)
      reads this`formal
    {
      to.name in formal && formal[to.name] == to
    }

    /** varErr without features: check the name, then file a new flag under it. */
    method Define(value: ValueCell, name: string, usage: string) returns (flag: Flag?, err: Option<FlagError>)
      requires Valid()
      modifies this`formal
      ensures Valid()
      ensures err == NameCheck(this.name, old(formal).Keys, name)
      ensures err.Some? ==> flag == null && formal == old(formal)
      ensures err.None? ==>
                flag != null && fresh(flag) && formal == old(formal)[name := flag]
                && flag.name == name && flag.usage == usage && flag.value == value
                && flag.defValue == Render(value.v)
                && flag.envs == {} && flag.cfgs == {} && flag.enums == {} && flag.alias == {} && flag.aliasFor == ""
    {
      err := NameCheck(this.name, formal.Keys, name);
      if err.Some? {
        return null, err;
      }
      flag := new Flag(name, usage, value, value.String());
      formal := formal[name := flag];
    }

    /** bindEnv(to, envs...) with os.Getenv read from env. */
    method BindEnv(to: Flag, envs: seq<string>, env: map<string, string>) returns (err: Option<FlagError>)
      requires Valid() && Holds(to)
      modifies to`envs, to.value`v
      ensures Valid()
      ensures OutcomeOf(err, StateOf(to)) == EnvSpec(TargetOf(to), env, old(StateOf(to)), envs)
    {
      ghost var t := TargetOf(to);
      for i := 0 to |envs|
        invariant Valid()
        invariant EnvSpec(t, env, old(StateOf(to)), envs) == EnvSpec(t, env, StateOf(to), envs[i..])
      {
        assert envs[i..][0] == envs[i] && envs[i..][1..] == envs[i + 1..];
        err := EnvTurn(to, envs[i], env);
        if err.Some? {
          return;
        }
      }
      return None;
    }

    /** The body of bindEnv's loop: record the variable e, then set the flag from it when it is not empty. */
    method EnvTurn(to: Flag, e: string, env: map<string, string>) returns (err: Option<FlagError>)
      requires Valid() && Holds(to)
      modifies to`envs, to.value`v
      ensures Valid()
      ensures OutcomeOf(err, StateOf(to)) == EnvStep(TargetOf(to), env, old(StateOf(to)), e)
    {
      to.envs := to.envs + {e};
      err := None;
      var val := Getenv(env, e);
      if val != "" {
        var setErr := to.Set(val);
        if setErr.Some? {
          err := Some(EnvSetFailed(to.name, e, val, setErr.value));
        }
      }
    }

    /**
     * bindCfg(to, cfgs...): every path holding text sets the flag, every other
     * path gets the flag's current text written back; then the paths are recorded.
     */
    method BindCfg(to: Flag, paths: seq<string>) returns (err: Option<FlagError>)
      requires Valid() && Holds(to)
      modifies to`cfgs, to.value`v, cfg
      ensures Valid()
      ensures OutcomeOf(err, StateOf(to)) == CfgSpec(TargetOf(to), old(StateOf(to)), paths)
    {
      ghost var t := TargetOf(to);
      for i := 0 to |paths|
        invariant Valid() && to.cfgs == old(to.cfgs)
        invariant CfgPaths(t, old(StateOf(to)), paths) == CfgPaths(t, StateOf(to), paths[i..])
      {
        assert paths[i..][0] == paths[i] && paths[i..][1..] == paths[i + 1..];
        err := CfgTurn(to, paths[i]);
        if err.Some? {
          return;
        }
      }
      assert paths[|paths|..] == [];
      RecordCfgs(to, paths);
      err := None;
    }

    /** bindCfg's second loop: every path is added to the flag's cfgs. */
    method RecordCfgs(to: Flag, paths: seq<string>)
      modifies to`cfgs
      ensures to.cfgs == old(to.cfgs) + Elements(paths)
    {
      for i := 0 to |paths|
        invariant to.cfgs == old(to.cfgs) + Elements(paths[..i])
      {
        ElementsPrefix(paths, i);
        to.cfgs := to.cfgs + {paths[i]};
      }
      assert paths[..|paths|] == paths;
    }

    /**
     * The body of bindCfg's first loop: take the flag's value from the path
     * when the tree holds a non-empty one there, otherwise write the current
     * value back to the tree.
     */
    method CfgTurn(to: Flag, path: string) returns (err: Option<FlagError>)
      requires Valid() && Holds(to)
      modifies to.value`v, cfg
      ensures Valid()
      ensures OutcomeOf(err, StateOf(to)) == CfgStep(TargetOf(to), old(StateOf(to)), path)
    {
      err := None;
      if cfg == null {
        err := Some(NilConfig);
      } else {
        var got := cfg.Get(path);
        if got.Some? && got.value != "" {
          var setErr := to.Set(got.value);
          if setErr.Some? {
            err := Some(CfgSetFailed(path, got.value, to.name));
          }
        } else {
          cfg.Put(path, to.value.String());
        }
      }
    }

    /** bindEnum(to, enums...): the default text must be one of the new values. */
    method BindEnum(to: Flag, values: seq<string>) returns (err: Option<FlagError>)
      requires Valid() && Holds(to)
      modifies to`enums
      ensures Valid()
      ensures OutcomeOf(err, StateOf(to)) == EnumSpec(TargetOf(to), old(StateOf(to)), values)
    {
      var valid := IsEnumValid(to.defValue, values);
      if !valid {
        return Some(EnumDefaultInvalid(to.name, to.defValue, values));
      }
      for i := 0 to |values|
        invariant to.enums == old(to.enums) + Elements(values[..i])
      {
        ElementsPrefix(values, i);
        to.enums := to.enums + {values[i]};
      }
      assert values[..|values|] == values;
      return None;
    }

    /**
     * One turn of alias: file n as a new flag standing for to, and record the
     * two as aliases of each other.
     */
    method AddAlias(to: Flag, n: string) returns (err: Option<FlagError>, f: Flag?)
      requires Valid() && Holds(to)
      modifies this`formal, to`alias
      ensures Valid() && Holds(to)
      ensures OutcomeOf(err, StateOf(to)) == AliasStep(TargetOf(to), old(StateOf(to)), n)
      ensures err.Some? ==> formal == old(formal) && f == null
      ensures err.None? ==>
                f != null && fresh(f) && formal == old(formal)[n := f] && n !in old(formal)
                && StandsFor(f, to) && f.alias == old(to.alias) + {to.name} && to.alias == old(to.alias) + {n}
    {
      ghost var st0 := StateOf(to);
      if n == to.name {
        return Some(AliasSameName(n)), null;
      }
      var defErr;
      f, defErr := Define(to.value, n, to.usage);
      if defErr.Some? {
        return Some(AliasDefine(n, to.name, defErr.value)), null;
      }
      assert StateOf(to) == st0.(names := st0.names + {n});
      f.BecomeAliasOf(to);
      assert StateOf(to) == st0.(names := st0.names + {n}, alias := st0.alias + {n});
      err := None;
    }

    /**
     * What alias(to, names...) has done once made holds the flags it filed for
     * the first |made| names: each is filed under its name, stands for to, and
     * records to and the aliases filed before it.
     */
    ghost predicate Filed(to: Flag, base: map<string, Flag>, baseAlias: set<string>, names: seq<string>, made: seq<Flag>)
      reads this`formal, made, to`envs, to`cfgs, to`enums, to.value
    {
      base.Keys <= formal.Keys && |made| <= |names|
      && formal.Keys <= base.Keys + Elements(names[..|made|])
      && forall k :: 0 <= k < |made| ==>
           names[k] !in base && names[k] in formal && formal[names[k]] == made[k]
           && StandsFor(made[k], to) && made[k].alias == baseAlias + Elements(names[..k]) + {to.name}
    }

    /** The body of alias's loop: file names[i] as one more alias of to. */
    method AliasTurn(to: Flag, names: seq<string>, i: nat, ghost base: map<string, Flag>, ghost baseAlias: set<string>,
                     ghost made: seq<Flag>)
      returns (err: Option<FlagError>, f: Flag?)
      requires Valid() && Holds(to) && to.name in base && i == |made| < |names|
      requires to.alias == baseAlias + Elements(names[..|made|])
      requires Filed(to, base, baseAlias, names, made)
      modifies this`formal, to`alias
      ensures Valid() && Holds(to)
      ensures OutcomeOf(err, StateOf(to)) == AliasStep(TargetOf(to), old(StateOf(to)), names[|made|])
      ensures Extends(old(formal), formal)
      ensures err.None? ==>
                f != null && to.alias == baseAlias + Elements(names[..|made| + 1])
                && Filed(to, base, baseAlias, names, made + [f])
    {
      var n := names[i];
      err, f := AddAlias(to, n);
      if err.Some? {
        return;
      }
      ElementsPrefix(names, i);
      var made' := made + [f];
      forall k | 0 <= k < |made'|
        ensures names[k] !in base && names[k] in formal && formal[names[k]] == made'[k]
                && StandsFor(made'[k], to) && made'[k].alias == baseAlias + Elements(names[..k]) + {to.name}
      {
        if k < |made| {
          assert made[k].name == names[k] && names[k] != n;
          assert made[k] != to;
        }
      }
    }

    /**
     * alias(to, names...): each name becomes a new flag sharing to's value cell,
     * usage and sets, marked as an alias for to; the two record each other, and
     * each new flag also records the aliases filed before it.
     */
    method Alias(to: Flag, names: seq<string>) returns (err: Option<FlagError>)
      requires Valid() && Holds(to)
      modifies this`formal, to`alias
      ensures Valid() && Holds(to)
      ensures OutcomeOf(err, StateOf(to)) == AliasSpec(TargetOf(to), old(StateOf(to)), names)
      ensures Extends(old(formal), formal)
      ensures err.None? ==> forall k :: 0 <= k < |names| ==>
                names[k] in formal && StandsFor(formal[names[k]], to)
                && formal[names[k]].alias == old(to.alias) + Elements(names[..k]) + {to.name}
      ensures err.None? ==> StandIns(old(formal), to)
    {
      ghost var t := TargetOf(to);
      ghost var base, baseAlias := formal, to.alias;
      ghost var made: seq<Flag> := [];
      for i := 0 to |names|
        invariant Valid() && Holds(to) && to.name in base
        invariant AliasSpec(t, old(StateOf(to)), names) == AliasSpec(t, StateOf(to), names[i..])
        invariant Extends(old(formal), formal)
        invariant to.alias == baseAlias + Elements(names[..i])
        invariant |made| == i && Filed(to, base, baseAlias, names, made)
      {
        assert names[i..][0] == names[i] && names[i..][1..] == names[i + 1..];
        var f;
        err, f := AliasTurn(to, names, i, base, baseAlias, made);
        if err.Some? {
          return;
        }
        made := made + [f];
      }
      FiledStandIns(to, base, baseAlias, names, made);
      return None;
    }

    /** Every flag filed since base stands for to. */
    ghost predicate StandIns(base: map<string, Flag>, to: Flag)
      reads this`formal, formal.Values`aliasFor, formal.Values`envs, formal.Values`cfgs, formal.Values`enums
      reads to`envs, to`cfgs, to`enums, to.value
    {
      forall n :: n in formal && n !in base ==> StandsFor(formal[n], to)
    }

    /** Once every name is filed, the flags filed since base are exactly the new aliases of to. */
    lemma FiledStandIns(to: Flag, base: map<string, Flag>, baseAlias: set<string>, names: seq<string>, made: seq<Flag>)
      requires Filed(to, base, baseAlias, names, made) && |made| == |names|
      ensures StandIns(base, to)
    {
      assert names[..|made|] == names;
      forall n | n in formal && n !in base
        ensures StandsFor(formal[n], to)
      {
        var k :| 0 <= k < |names| && names[k] == n;
      }
    }

    /** feature.add(f, to) */
    method ApplyOne(to: Flag, feature: Feature, env: map<string, string>, ghost base: map<string, Flag>)
      returns (err: Option<FlagError>)
      requires Valid() && Holds(to) && to.name in base
      modifies this`formal, to`envs, to`cfgs, to`enums, to`alias, to.value`v, cfg
      ensures Valid() && Holds(to)
      ensures Extends(old(formal), formal)
      ensures OutcomeOf(err, StateOf(to)) == ApplyFeature(TargetOf(to), env, old(StateOf(to)), feature)
      ensures !feature.Alias? ==> formal == old(formal)
      ensures feature.Alias? ==>
                to.envs == old(to.envs) && to.cfgs == old(to.cfgs) && to.enums == old(to.enums)
                && to.value.v == old(to.value.v)
      ensures feature.Alias? && err.None? && old(StandIns(base, to)) ==> StandIns(base, to)
    {
      match feature
      case Env(envs) => err := BindEnv(to, envs, env);
      case Cfg(paths) => err := BindCfg(to, paths);
      case Enum(values) => err := BindEnum(to, values);
      case Alias(names) =>
        ghost var pre := formal;
        err := Alias(to, names);
        if err.None? && old(StandIns(base, to)) {
          forall n | n in formal && n !in base
            ensures StandsFor(formal[n], to)
          {
            if n in pre {
              assert old(StandsFor(pre[n], to));
            }
          }
        }
    }

    /**
     * varErr(value, name, usage, features...): define the flag, then apply its
     * features in priority order; env stands for the process environment.
     */
    method VarErr(value: ValueCell, name: string, usage: string, features: seq<Feature>, env: map<string, string>)
      returns (flag: Flag?, err: Option<FlagError>)
      requires Valid()
      modifies this`formal, value`v, cfg
      ensures Valid()
      ensures Extends(old(formal), formal)
      ensures NameCheck(this.name, old(formal).Keys, name).Some? ==>
                err == NameCheck(this.name, old(formal).Keys, name) && flag == null && formal == old(formal)
      ensures NameCheck(this.name, old(formal).Keys, name).None? ==>
                flag != null && fresh(flag) && Holds(flag) && flag.name == name && flag.usage == usage
                && flag.value == value && flag.defValue == Render(old(value.v))
                && OutcomeOf(err, StateOf(flag)) ==
                   ApplyFeatures(Target(name, Render(old(value.v)), this.name), env,
                                 DefState(old(value.v), {}, {}, {}, {}, old(formal).Keys + {name}, old(CfgView())),
                                 SortByIndex(features))
      ensures NameCheck(this.name, old(formal).Keys, name).None? && err.None? ==>
                forall n :: n in formal && n !in old(formal) && n != name ==> StandsFor(formal[n], flag)
    {
      flag, err := Define(value, name, usage);
      if err.Some? {
        return;
      }
      ghost var start := StateOf(flag);
      assert start == DefState(old(value.v), {}, {}, {}, {}, old(formal).Keys + {name}, old(CfgView()));
      err := ApplyAll(flag, SortByIndex(features), env);
    }

    /** varErr's loop over the sorted features, stopping at the first that panics. */
    method ApplyAll(to: Flag, fs: seq<Feature>, env: map<string, string>) returns (err: Option<FlagError>)
      requires Valid() && Holds(to)
      modifies this`formal, to`envs, to`cfgs, to`enums, to`alias, to.value`v, cfg
      ensures Valid() && Holds(to)
      ensures Extends(old(formal), formal)
      ensures OutcomeOf(err, StateOf(to)) == ApplyFeatures(TargetOf(to), env, old(StateOf(to)), fs)
      ensures SortedByIndex(fs) && err.None? ==> StandIns(old(formal), to)
    {
      ghost var t := TargetOf(to);
      ghost var base := formal;
      err := None;
      for i := 0 to |fs|
        invariant Valid() && Holds(to) && err.None? && to.name in base
        invariant Extends(base, formal)
        invariant ApplyFeatures(t, env, old(StateOf(to)), fs) == ApplyFeatures(t, env, StateOf(to), fs[i..])
        invariant AliasPhase(fs, i, base, to)
      {
        err := ApplyTurn(to, fs, i, env, base);
        if err.Some? {
          return;
        }
      }
      assert fs[|fs|..] == [];
    }

    /**
     * In a sorted feature list nothing is filed before the first alias
     * feature, and every flag filed since base stands for to.
     */
    ghost predicate AliasPhase(fs: seq<Feature>, i: nat, base: map<string, Flag>, to: Flag)
      reads this`formal, formal.Values`aliasFor, formal.Values`envs, formal.Values`cfgs, formal.Values`enums
      reads to`envs, to`cfgs, to`enums, to.value
    {
      SortedByIndex(fs) ==>
        (formal.Keys != base.Keys ==> 0 < i <= |fs| && fs[i - 1].Alias?) && StandIns(base, to)
    }

    /** One turn of varErr's feature loop: apply fs[i], keeping the flags filed since base standing for to. */
    method ApplyTurn(to: Flag, fs: seq<Feature>, i: nat, env: map<string, string>, ghost base: map<string, Flag>)
      returns (err: Option<FlagError>)
      requires Valid() && Holds(to) && i < |fs| && to.name in base && Extends(base, formal)
      requires AliasPhase(fs, i, base, to)
      modifies this`formal, to`envs, to`cfgs, to`enums, to`alias, to.value`v, cfg
      ensures Valid() && Holds(to)
      ensures Extends(old(formal), formal)
      ensures err.Some? ==> ApplyFeatures(TargetOf(to), env, old(StateOf(to)), fs[i..]) == Failed(err.value)
      ensures err.None? ==>
                ApplyFeatures(TargetOf(to), env, old(StateOf(to)), fs[i..])
                == ApplyFeatures(TargetOf(to), env, StateOf(to), fs[i + 1..])
      ensures err.None? ==> AliasPhase(fs, i + 1, base, to)
    {
      assert fs[i..][0] == fs[i] && fs[i..][1..] == fs[i + 1..];
      if SortedByIndex(fs) && 0 < i && fs[i - 1].Alias? {
        AliasLast(fs, i - 1);
      }
      err := ApplyOne(to, fs[i], env, base);
    }

    /** Command.Set: set the named flag and, when that succeeds, record it as set. */
    method Set(name: string, value: string) returns (err: Option<FlagError>)
      requires Valid()
      modifies this`actual, Cells()`v
      ensures Valid()
      ensures name !in formal ==> err == Some(NoSuchFlag(name)) && actual == old(actual) && Vals() == old(Vals())
      ensures name in formal ==>
                var a := FlagSet(name, formal[name].enums, old(formal[name].value.v), value);
                err == a.err && Vals() == Store(old(Vals()), Shares(formal, name), a.value)
                && actual == (if err.None? then old(actual)[name := formal[name]] else old(actual))
    {
      if name !in formal {
        return Some(NoSuchFlag(name));
      }
      var flag := formal[name];
      assert flag.value in Cells();
      err := flag.Set(value);
      if err.None? {
        actual := actual[name := flag];
      }
      ValsAfterSet(name);
    }

    /**
     * Setting the value cell of the flag named name, and no other cell, changes
     * the value seen through exactly the flags that share that cell.
     */
    twostate lemma ValsAfterSet(name: string)
      requires name in formal && formal == old(formal)
      requires forall d :: d in Cells() && d != formal[name].value ==> d.v == old(d.v)
      ensures Vals() == Store(old(Vals()), Shares(formal, name), formal[name].value.v)
    {
      forall m | m in formal
        ensures Vals()[m] == Store(old(Vals()), Shares(formal, name), formal[name].value.v)[m]
      {
        assert formal[m].value in Cells();
      }
    }

    /** The flags and their enum sets are all that View reads. */
    twostate lemma ViewKept()
      requires formal == old(formal)
      requires forall f :: f in formal.Values ==> f.enums == old(f.enums)
      ensures View() == old(View())
    {
    }

    /** The value cells' contents are all that Vals reads. */
    twostate lemma ValsKept()
      requires formal == old(formal)
      requires forall c :: c in Cells() ==> c.v == old(c.v)
      ensures Vals() == old(Vals())
    {
    }

    /** parseOne's setting of a bool flag. */
    method SetBool(flag: Flag, sp: Split) returns (seen: bool, err: Option<FlagError>)
      requires Valid() && sp.name in formal && formal[sp.name] == flag
      modifies this`actual, flag.value`v
      ensures Valid()
      ensures var r := BoolStep(old(Shares(formal, sp.name)), old(Snapshot()), sp);
              seen == r.seen && err == r.err && args == r.st.args && actual.Keys == r.st.actual && Vals() == r.st.vals
    {
      assert flag.value in Cells();
      var e := flag.value.Set(if sp.hasValue then sp.value else "true");
      if e.Some? {
        var cause := BadValue(e.value);
        seen := false;
        err := Some(if sp.hasValue then InvalidBoolValue(sp.value, sp.name, cause) else InvalidBoolFlag(sp.name, cause));
      } else {
        actual := actual[sp.name := flag];
        assert actual.Keys == old(actual).Keys + {sp.name};
        seen, err := true, None;
      }
      ValsAfterSet(sp.name);
    }

    /** parseOne's setting of a flag that takes a value: find the text, then set it. */
    method SetValue(flag: Flag, sp: Split) returns (seen: bool, err: Option<FlagError>)
      requires Valid() && sp.name in formal && formal[sp.name] == flag
      modifies this`args, this`actual, flag.value`v
      ensures Valid()
      ensures var r := ValueStep(old(Shares(formal, sp.name)), old(flag.enums), old(Snapshot()), sp);
              seen == r.seen && err == r.err && args == r.st.args && actual.Keys == r.st.actual && Vals() == r.st.vals
    {
      if sp.hasValue {
        seen, err := SetAndMark(flag, sp.name, sp.value);
      } else {
        seen, err := SetNext(flag, sp.name);
      }
    }

    /** A flag that takes a value and has no "=value" takes the next argument, if there is one. */
    method SetNext(flag: Flag, name: string) returns (seen: bool, err: Option<FlagError>)
      requires Valid() && name in formal && formal[name] == flag
      modifies this`args, this`actual, flag.value`v
      ensures Valid()
      ensures var r := NextStep(old(Shares(formal, name)), old(flag.enums), old(Snapshot()), name);
              seen == r.seen && err == r.err && args == r.st.args && actual.Keys == r.st.actual && Vals() == r.st.vals
    {
      if |args| == 0 {
        return false, Some(NeedsArgument(name));
      }
      ghost var st := Snapshot();
      var value := args[0];
      args := args[1..];
      assert Vals() == st.vals;
      assert Snapshot() == st.(args := st.args[1..]);
      seen, err := SetAndMark(flag, name, value);
    }

    /** Flag.Set on the text of a flag that takes a value, and the flag marked set when it succeeds. */
    method SetAndMark(flag: Flag, name: string, text: string) returns (seen: bool, err: Option<FlagError>)
      requires Valid() && name in formal && formal[name] == flag
      modifies this`actual, flag.value`v
      ensures Valid()
      ensures var r := SetStep(old(Shares(formal, name)), old(flag.enums), old(Snapshot()), name, text);
              seen == r.seen && err == r.err && args == r.st.args && actual.Keys == r.st.actual && Vals() == r.st.vals
    {
      assert flag.value in Cells();
      var e := flag.Set(text);
      if e.Some? {
        seen, err := false, Some(InvalidValue(text, name, e.value));
      } else {
        actual := actual[name := flag];
        assert actual.Keys == old(actual).Keys + {name};
        seen, err := true, None;
      }
      ValsAfterSet(name);
    }

    /**
     * parseOne: scan one flag off the front of args. The result and the new
     * state are what the Tokenizer specification gives for the state on entry.
     */
    method ParseOne() returns (seen: bool, err: Option<FlagError>)
      requires Valid()
      modifies this`args, this`actual, Cells()`v
      ensures Valid()
      ensures Step(seen, err, Snapshot()) == StepSpec(old(View()), old(Snapshot()))
    {
      if |args| == 0 {
        return false, None;
      }
      var s := args[0];
      if |s| < 2 || s[0] != '-' {
        return false, None;
      }
      var numMinuses := 1;
      if s[1] == '-' {
        numMinuses := 2;
        if |s| == 2 {
          args := args[1..];
          ValsKept();
          return false, None;
        }
      }
      var name := s[numMinuses..];
      if |name| == 0 || name[0] == '-' || name[0] == '=' {
        return false, Some(BadSyntax(s));
      }
      assert Classify(args) == FlagArg(numMinuses, name);
      seen, err := SetFlag(numMinuses, name);
    }

    /**
     * The rest of parseOne once the first argument is the flag token -name or
     * --name: split off "=value", then take the token off and set the flag.
     */
    method SetFlag(ghost dashes: nat, name: string) returns (seen: bool, err: Option<FlagError>)
      requires Valid() && Classify(args) == FlagArg(dashes, name)
      modifies this`args, this`actual, Cells()`v
      ensures Valid()
      ensures Step(seen, err, Snapshot()) == StepSpec(old(View()), old(Snapshot()))
    {
      // the search for '=': from the second character, since equals cannot be first
      var i := 1;
      while i < |name| && name[i] != '='
        invariant 1 <= i <= |name|
        invariant forall j :: 1 <= j < i ==> name[j] != '='
      {
        i := i + 1;
      }
      IndexFromFirst(name, '=', 1, i);
      var sp := if i < |name| then Split(name[..i], true, name[i + 1..]) else Split(name, false, "");
      StepFlagArg(View(), Snapshot(), dashes, name);
      seen, err := TakeFlag(sp);
    }

    /** Take the flag token off args, look its name up and set the flag. */
    method TakeFlag(sp: Split) returns (seen: bool, err: Option<FlagError>)
      requires Valid() && |args| > 0
      modifies this`args, this`actual, Cells()`v
      ensures Valid()
      ensures Step(seen, err, Snapshot()) == FlagStep(old(View()), old(Snapshot()).(args := old(args)[1..]), sp)
    {
      args := args[1..];
      if sp.name !in formal {
        seen, err := false, Some(NotDefined(sp.name));
      } else {
        seen, err := SetDefined(formal[sp.name], sp);
      }
    }

    /** The rest of parseOne once the flag is found: set it as a bool flag or as a flag with a value. */
    method SetDefined(flag: Flag, sp: Split) returns (seen: bool, err: Option<FlagError>)
      requires Valid() && sp.name in formal && formal[sp.name] == flag
      modifies this`args, this`actual, flag.value`v
      ensures Valid()
      ensures Step(seen, err, Snapshot()) == FlagStep(old(View()), old(Snapshot()), sp)
    {
      assert View()[sp.name] == FlagView(Shares(formal, sp.name), flag.enums);
      if IsBoolFlag(flag.value.v) {
        seen, err := SetBool(flag, sp);
      } else {
        seen, err := SetValue(flag, sp);
      }
    }

    /** parseSubCommandAndRun: the handler call it makes, if the first argument names a subcommand. */
    function ParseSubCommandAndRun(arguments: seq<string>): (r: Dispatch)
      reads this`subCmds
      ensures var d := GetFirstSubCommandWithArgs(arguments);
              r.ran == (d.ok && d.name in subCmds)
              && (r.err.Some? <==> d.ok && d.name !in subCmds)
              && (r.err.Some? ==> r.err.value == NoSuchSubCommand(d.name))
              && (r.ran <==> r.call.Some?)
              && (r.ran ==> r.call.value == HandlerCall(subCmds[d.name].fn, subCmds[d.name].fs, d.args))
    {
      var d := GetFirstSubCommandWithArgs(arguments);
      if !d.ok then Dispatch(false, None, None)
      else if d.name !in subCmds then Dispatch(false, Some(NoSuchSubCommand(d.name)), None)
      else
        var sc := subCmds[d.name];
        Dispatch(true, None, Some(HandlerCall(sc.fn, sc.fs, d.args)))
    }

    /**
     * Parse: hand the arguments to a subcommand when the first one names it;
     * otherwise scan flags until parseOne stops, and pass an error to handleError.
     */
    method Parse(arguments: seq<string>) returns (result: Completion, call: Option<HandlerCall>)
      requires Valid()
      modifies this`args, this`actual, this`parsed, Cells()`v
      ensures Valid()
      ensures var d := GetFirstSubCommandWithArgs(arguments);
              d.ok ==>
                args == old(args) && actual == old(actual) && Vals() == old(Vals()) && parsed == old(parsed)
                && (d.name in subCmds ==>
                      result == Returned(None) && call == Some(HandlerCall(subCmds[d.name].fn, subCmds[d.name].fs, d.args)))
                && (d.name !in subCmds ==> result == HandleError(errorHandling, NoSuchSubCommand(d.name)) && call == None)
      ensures !GetFirstSubCommandWithArgs(arguments).ok ==>
                var r := RunSpec(old(View()), PState(arguments, old(actual).Keys, old(Vals())));
                   parsed && call == None && Snapshot() == r.st
                   && result == (if r.err.None? then Returned(None) else HandleError(errorHandling, r.err.value))
    {
      var d := ParseSubCommandAndRun(arguments);
      call := d.call;
      if d.err.Some? {
        return HandleError(errorHandling, d.err.value), call;
      }
      if d.ran {
        return Returned(None), call;
      }
      var e := ParseFlags(arguments);
      if e.Some? {
        return HandleError(errorHandling, e.value), call;
      }
      return Returned(None), call;
    }

    /** Parse without a subcommand: mark the command parsed, then parseOne until it sees no more flags. */
    method ParseFlags(arguments: seq<string>) returns (err: Option<FlagError>)
      requires Valid()
      modifies this`args, this`actual, this`parsed, Cells()`v
      ensures Valid() && parsed
      ensures Run(err, Snapshot()) == RunSpec(old(View()), PState(arguments, old(actual).Keys, old(Vals())))
    {
      parsed := true;
      args := arguments;
      ViewKept();
      ValsKept();
      err := ParseArgs();
    }

    /** The loop of Parse: parseOne until it reports no flag seen, with or without an error. */
    method ParseArgs() returns (err: Option<FlagError>)
      requires Valid()
      modifies this`args, this`actual, Cells()`v
      ensures Valid()
      ensures Run(err, Snapshot()) == RunSpec(old(View()), old(Snapshot()))
    {
      while true
        invariant Valid() && View() == old(View())
        invariant RunSpec(old(View()), Snapshot()) == RunSpec(old(View()), old(Snapshot()))
        decreases |args|
      {
        ghost var before := Snapshot();
        var seen;
        seen, err := ParseOne();
        ViewKept();
        if !seen {
          RunStops(old(View()), before, Step(seen, err, Snapshot()));
          return;
        }
        RunSeen(old(View()), before, Step(seen, err, Snapshot()));
      }
    }

    /**
     * SubCmd: file a new child command under name; the child inherits the
     * error handling, the configuration path and the configuration tree.
     */
    method SubCmd(name: string, usage: string, fn: Handler) returns (child: Command)
      requires Linked() && hasSubCmdTable
      modifies this`subCmds
      ensures fresh(child) && subCmds == old(subCmds)[name := SubCommand(fn, child)]
      ensures child.name == name && child.usg == usage && child.parentCmd == this
      ensures child.errorHandling == errorHandling && child.cfg == cfg && child.cfgPath == cfgPath
      ensures child.formal == map[] && child.actual == map[] && !child.hasSubCmdTable && child.Valid()
    {
      child := new Command.Child(this, name, usage);
      subCmds := subCmds[name := SubCommand(fn, child)];
    }
  }

  /**
   * f is an alias for to: it shares to's value cell, usage and default text,
   * holds the same env, cfg and enum sets, and names to as what it stands for.
   */
  ghost predicate StandsFor(f: Flag, to: Flag)
    reads f`aliasFor, f`envs, f`cfgs, f`enums, to`envs, to`cfgs, to`enums, to.value
  {
    f.value == to.value && f.usage == to.usage && f.defValue == Render(to.value.v)
    && f.aliasFor == to.name && f.envs == to.envs && f.cfgs == to.cfgs && f.enums == to.enums
  }

  /** A subset has no more elements than its superset. */
  lemma SubsetCardinality(a: set<string>, b: set<string>)
    requires a <= b
    ensures |a| <= |b|
  {
    assert b == a + (b - a);
  }
}
