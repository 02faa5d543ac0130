/**
 * The flag features (Env, Cfg, Enum, Alias) that varErr applies to a freshly
 * defined flag, as a pure specification: their priority order, and what each
 * one does to the flag, the command's flag names and the configuration tree.
 * The Commands module proves its imperative bind methods against these.
 */
module Features {
  import opened Base
  import opened Values
  import opened Errors
  import opened Flags

  /** A *flagFeature: which feature, and the arguments its constructor captured. */
  datatype Feature =
    | Env(envs: seq<string>)
    | Cfg(paths: seq<string>)
    | Enum(values: seq<string>)
    | Alias(names: seq<string>)

  /** flagFeature.index: the priority each feature constructor gives. */
  function Index(f: Feature): (i: int)
    ensures 7 <= i <= 11
  {
    match f
    case Env(_) => 7
    case Cfg(_) => 8
    case Enum(_) => 10
    case Alias(_) => 11
  }

  predicate SortedByIndex(fs: seq<Feature>)
  {
    forall i, j :: 0 <= i < j < |fs| ==> Index(fs[i]) <= Index(fs[j])
  }

  /** No two features share a priority, so a sort has only one possible outcome. */
  predicate DistinctIndices(fs: seq<Feature>)
  {
    forall i, j :: 0 <= i < j < |fs| ==> Index(fs[i]) != Index(fs[j])
  }

  function Insert(f: Feature, fs: seq<Feature>): (r: seq<Feature>)
    requires SortedByIndex(fs)
    ensures SortedByIndex(r) && multiset(r) == multiset(fs) + multiset{f}
    ensures |r| == |fs| + 1 && (r[0] == f || (|fs| > 0 && r[0] == fs[0]))
  {
    if fs == [] || Index(f) <= Index(fs[0]) then
      ConsSorted(f, fs);
      [f] + fs
    else
      var rest := Insert(f, fs[1..]);
      assert fs == [fs[0]] + fs[1..];
      assert multiset([fs[0]] + rest) == multiset{fs[0]} + multiset(rest);
      ConsSorted(fs[0], rest);
      [fs[0]] + rest
  }

  /** A feature no later than the head of a sorted list may go in front of it. */
  lemma ConsSorted(x: Feature, rest: seq<Feature>)
    requires SortedByIndex(rest) && (rest == [] || Index(x) <= Index(rest[0]))
    ensures SortedByIndex([x] + rest)
  {
    var r := [x] + rest;
    forall i, j | 0 <= i < j < |r|
      ensures Index(r[i]) <= Index(r[j])
    {
      if i > 0 {
        assert r[i] == rest[i - 1] && r[j] == rest[j - 1];
      } else {
        assert r[j] == rest[j - 1];
      }
    }
  }

  /**
   * sort.Sort(flagFeatures) by Less(i, j) = index(i) < index(j). Go's sort is
   * not stable; this insertion sort is one of the orders it may produce, and
   * the only one when indices are distinct (SortedUnique).
   */
  function SortByIndex(fs: seq<Feature>): (r: seq<Feature>)
    ensures SortedByIndex(r) && multiset(r) == multiset(fs)
  {
    if fs == [] then []
    else
      assert fs == [fs[0]] + fs[1..];
      Insert(fs[0], SortByIndex(fs[1..]))
  }

  /** Sorted arrangements of the same features with distinct priorities start alike. */
  lemma HeadsEqual(a: seq<Feature>, b: seq<Feature>)
    requires SortedByIndex(a) && SortedByIndex(b) && multiset(a) == multiset(b)
    requires DistinctIndices(a) && |a| > 0
    ensures |b| > 0 && a[0] == b[0]
  {
    assert a[0] in multiset(b);
    var i :| 0 <= i < |b| && b[i] == a[0];
    assert b[0] in multiset(a);
    var j :| 0 <= j < |a| && a[j] == b[0];
    assert Index(a[0]) <= Index(a[j]);
    assert Index(b[0]) <= Index(b[i]);
    assert Index(a[j]) == Index(a[0]);
    assert j == 0;
  }

  /** Dropping equal heads leaves equal multisets. */
  lemma TailMultiset(a: seq<Feature>, b: seq<Feature>)
    requires |a| > 0 && |b| > 0 && a[0] == b[0] && multiset(a) == multiset(b)
    ensures multiset(a[1..]) == multiset(b[1..])
  {
    assert a == [a[0]] + a[1..] && b == [b[0]] + b[1..];
    assert multiset(a[1..]) == multiset(a) - multiset{a[0]};
    assert multiset(b[1..]) == multiset(b) - multiset{b[0]};
  }

  /** Alias has the highest priority: in a sorted list only aliases follow an alias. */
  lemma AliasLast(fs: seq<Feature>, i: nat)
    requires SortedByIndex(fs) && i < |fs| && fs[i].Alias?
    ensures forall j :: i <= j < |fs| ==> fs[j].Alias?
  {
    forall j | i <= j < |fs|
      ensures fs[j].Alias?
    {
      if j > i {
        assert Index(fs[i]) <= Index(fs[j]);
      }
    }
  }

  /** The tail of a sorted sequence is sorted, and distinct priorities stay distinct. */
  lemma TailSorted(a: seq<Feature>)
    requires |a| > 0 && SortedByIndex(a)
    ensures SortedByIndex(a[1..])
    ensures DistinctIndices(a) ==> DistinctIndices(a[1..])
  {
  }

  /** Two sorted arrangements of the same features with distinct priorities are equal. */
  lemma {:induction false} SortedUnique(a: seq<Feature>, b: seq<Feature>)
    requires SortedByIndex(a) && SortedByIndex(b) && multiset(a) == multiset(b)
    requires DistinctIndices(a)
    ensures a == b
    decreases |a|
  {
    if a == [] {
      assert |b| == |multiset(b)| == 0;
    } else {
      HeadsEqual(a, b);
      TailMultiset(a, b);
      TailSorted(a);
      TailSorted(b);
      SortedUnique(a[1..], b[1..]);
      assert a == [a[0]] + a[1..] && b == [b[0]] + b[1..];
    }
  }

  /**
   * However the features were passed, when no two share a priority the order
   * they are applied in is the same.
   */
  lemma OrderIndependent(fs: seq<Feature>, gs: seq<Feature>)
    requires multiset(fs) == multiset(gs) && DistinctIndices(SortByIndex(fs))
    ensures SortByIndex(fs) == SortByIndex(gs)
  {
    SortedUnique(SortByIndex(fs), SortByIndex(gs));
  }

  /**
   * What the features can see and change while a flag is being defined: its
   * value and its four sets, the flag names of the command, and the
   * command's configuration tree (None when the command has no tree).
   */
  datatype DefState = DefState(
    value: Value,
    envs: set<string>,
    cfgs: set<string>,
    enums: set<string>,
    alias: set<string>,
    names: set<string>,
    cfg: Option<map<string, string>>)

  /** The flag being defined: its name, its default text, and the command's name. */
  datatype Target = Target(name: string, defValue: string, cmdName: string)

  /** Either the state after a feature, or the error that Go raises with panic. */
  datatype Outcome = Done(st: DefState) | Failed(err: FlagError)

  function OutcomeOf(err: Option<FlagError>, st: DefState): Outcome
  {
    if err.Some? then Failed(err.value) else Done(st)
  }

  /** os.Getenv over an explicit environment: "" for an unset variable. */
  function Getenv(env: map<string, string>, name: string): string
  {
    if name in env then env[name] else ""
  }

  /** One turn of bindEnv: record the variable, then set the flag from it when it is not empty. */
  function EnvStep(t: Target, env: map<string, string>, st: DefState, e: string): Outcome
  {
    var st1 := st.(envs := st.envs + {e});
    var val := Getenv(env, e);
    if val == "" then Done(st1)
    else
      var a := FlagSet(t.name, st1.enums, st1.value, val);
      if a.err.Some? then Failed(EnvSetFailed(t.name, e, val, a.err.value))
      else Done(st1.(value := a.value))
  }

  /** bindEnv(to, envs...): the variables in order, stopping at the first failure. */
  function EnvSpec(t: Target, env: map<string, string>, st: DefState, envs: seq<string>): Outcome
    decreases |envs|
  {
    if envs == [] then Done(st)
    else
      match EnvStep(t, env, st, envs[0])
      case Failed(e) => Failed(e)
      case Done(st1) => EnvSpec(t, env, st1, envs[1..])
  }

  /**
   * One turn of bindCfg's first loop: a path holding non-empty text sets the
   * flag from it; any other path gets the flag's current text written back.
   */
  function CfgStep(t: Target, st: DefState, path: string): Outcome
  {
    match st.cfg
    case None => Failed(NilConfig)
    case Some(tree) =>
      if path in tree && tree[path] != "" then
        var a := FlagSet(t.name, st.enums, st.value, tree[path]);
        if a.err.Some? then Failed(CfgSetFailed(path, tree[path], t.name))
        else Done(st.(value := a.value))
      else Done(st.(cfg := Some(tree[path := Render(st.value)])))
  }

  /** bindCfg's first loop over the paths. */
  function CfgPaths(t: Target, st: DefState, paths: seq<string>): Outcome
    decreases |paths|
  {
    if paths == [] then Done(st)
    else
      match CfgStep(t, st, paths[0])
      case Failed(e) => Failed(e)
      case Done(st1) => CfgPaths(t, st1, paths[1..])
  }

  /** bindCfg(to, cfgs...): the paths in order, then all of them recorded in cfgs. */
  function CfgSpec(t: Target, st: DefState, paths: seq<string>): Outcome
  {
    match CfgPaths(t, st, paths)
    case Failed(e) => Failed(e)
    case Done(st1) => Done(st1.(cfgs := st1.cfgs + Elements(paths)))
  }

  /** isEnumValid on a list, as a value. */
  predicate EnumValid(e: string, enums: seq<string>)
  {
    |enums| == 0 || e in enums
  }

  /** bindEnum(to, enums...): the default text must be allowed by the new list. */
  function EnumSpec(t: Target, st: DefState, values: seq<string>): Outcome
  {
    if !EnumValid(t.defValue, values) then Failed(EnumDefaultInvalid(t.name, t.defValue, values))
    else Done(st.(enums := st.enums + Elements(values)))
  }

  /** One turn of alias: the name must differ from the flag's and pass varErr's checks. */
  function AliasStep(t: Target, st: DefState, n: string): Outcome
  {
    if n == t.name then Failed(AliasSameName(n))
    else
      match NameCheck(t.cmdName, st.names, n)
      case Some(e) => Failed(AliasDefine(n, t.name, e))
      case None => Done(st.(names := st.names + {n}, alias := st.alias + {n}))
  }

  /** alias(to, names...) */
  function AliasSpec(t: Target, st: DefState, names: seq<string>): Outcome
    decreases |names|
  {
    if names == [] then Done(st)
    else
      match AliasStep(t, st, names[0])
      case Failed(e) => Failed(e)
      case Done(st1) => AliasSpec(t, st1, names[1..])
  }

  /** feature.add(fs, flag) */
  function ApplyFeature(t: Target, env: map<string, string>, st: DefState, f: Feature): Outcome
  {
    match f
    case Env(envs) => EnvSpec(t, env, st, envs)
    case Cfg(paths) => CfgSpec(t, st, paths)
    case Enum(values) => EnumSpec(t, st, values)
    case Alias(names) => AliasSpec(t, st, names)
  }

  /** The loop of varErr over the sorted features; the first panic ends it. */
  function ApplyFeatures(t: Target, env: map<string, string>, st: DefState, fs: seq<Feature>): Outcome
    decreases |fs|
  {
    if fs == [] then Done(st)
    else
      match ApplyFeature(t, env, st, fs[0])
      case Failed(e) => Failed(e)
      case Done(st1) => ApplyFeatures(t, env, st1, fs[1..])
  }
}
