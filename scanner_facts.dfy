/**
 * What the scanner promises, proved about its specification: which tokens
 * it leaves alone, how much of the argument list each kind of flag takes,
 * what it records as set, and that a Parse loop never reports a help request.
 */
module ScannerFacts {
  import opened Base
  import opened Strconv
  import opened Values
  import opened Errors
  import opened Flags
  import opened Tokenizer

  /** a is what is left of b after some arguments were taken off its front. */
  predicate SuffixOf(a: seq<string>, b: seq<string>)
  {
    |a| <= |b| && a == b[|b| - |a|..]
  }

  /** The name parseOne looks up for a flag token. */
  function TypedName(args: seq<string>): (n: string)
    requires Classify(args).FlagArg?
    ensures |n| >= 1
  {
    SplitAtEquals(Classify(args).body).name
  }

  /**
   * parseOne leaves the state alone and sees nothing when there are no
   * arguments, or the first is shorter than two characters or does not start
   * with '-'.
   */
  lemma NotAFlagUntouched(view: map<string, FlagView>, st: PState)
    requires Covers(view, st.vals)
    requires |st.args| == 0 || |st.args[0]| < 2 || st.args[0][0] != '-'
    ensures StepSpec(view, st) == Step(false, None, st)
    ensures RunSpec(view, st) == Run(None, st)
  {
  }

  /** "--" is consumed, and nothing after it is scanned. */
  lemma TerminatorEnds(view: map<string, FlagView>, st: PState)
    requires Covers(view, st.vals)
    requires |st.args| > 0 && st.args[0] == "--"
    ensures RunSpec(view, st) == Run(None, st.(args := st.args[1..]))
  {
  }

  /**
   * A token of one or two dashes followed by nothing, a further '-' or an
   * '=' is bad syntax, and nothing is consumed.
   */
  lemma BadSyntaxUntouched(view: map<string, FlagView>, st: PState, dashes: nat)
    requires Covers(view, st.vals)
    requires |st.args| > 0 && dashes in {1, 2} && |st.args[0]| >= 2 && st.args[0] != "--"
    requires forall i :: 0 <= i < dashes ==> st.args[0][i] == '-'
    requires dashes == 1 ==> st.args[0][1] != '-'
    requires |st.args[0]| == dashes || st.args[0][dashes] == '=' || st.args[0][dashes] == '-'
    ensures StepSpec(view, st) == Step(false, Some(BadSyntax(st.args[0])), st)
  {
    assert Classify(st.args) == Malformed(st.args[0]);
  }

  /** The token "--name=value" names "name" and carries "value", whatever follows the first '='. */
  lemma SplitsAtFirstEquals(name: string, value: string)
    requires |name| >= 1 && '=' !in name
    ensures SplitAtEquals(name + "=" + value) == Split(name, true, value)
  {
    var body := name + "=" + value;
    IndexFromFirst(body, '=', 1, |name|);
    assert body[..|name|] == name && body[|name| + 1..] == value;
  }

  /** A name that is not defined fails the step after its token is consumed, and marks nothing. */
  lemma UnknownFlagFails(view: map<string, FlagView>, st: PState)
    requires Covers(view, st.vals)
    requires Classify(st.args).FlagArg? && TypedName(st.args) !in view
    ensures StepSpec(view, st) == Step(false, Some(NotDefined(TypedName(st.args))), st.(args := st.args[1..]))
    ensures RunSpec(view, st) == Run(Some(NotDefined(TypedName(st.args))), st.(args := st.args[1..]))
  {
  }

  /**
   * A bool flag never takes the next argument: only its own token is
   * consumed, and a bare "-b" stores true through every flag sharing its value
   * and cannot fail.
   */
  lemma BoolFlagKeepsNext(view: map<string, FlagView>, st: PState)
    requires Covers(view, st.vals) && Classify(st.args).FlagArg?
    requires var n := TypedName(st.args); n in view && IsBoolFlag(st.vals[n])
    ensures StepSpec(view, st).st.args == st.args[1..]
    ensures var n := TypedName(st.args);
            !SplitAtEquals(Classify(st.args).body).hasValue ==>
              StepSpec(view, st) ==
              Step(true, None, st.(args := st.args[1..], actual := st.actual + {n},
                                   vals := Store(st.vals, view[n].shares, BoolValue(true))))
  {
    var sp := SplitAtEquals(Classify(st.args).body);
    var st1 := st.(args := st.args[1..]);
    assert StepSpec(view, st) == BoolStep(view[sp.name].shares, st1, sp);
  }

  /**
   * A bool flag given "=value" is set through its value's own setter, not
   * through Flag.Set: its enum set is never consulted, so a value outside a
   * non-empty enum set is stored as long as it reads as a bool.
   */
  lemma BoolFlagSkipsEnum(view: map<string, FlagView>, st: PState)
    requires Covers(view, st.vals) && Classify(st.args).FlagArg?
    requires var n := TypedName(st.args); n in view && IsBoolFlag(st.vals[n])
    requires SplitAtEquals(Classify(st.args).body).hasValue
    ensures var n := TypedName(st.args);
            var p := ParseBool(SplitAtEquals(Classify(st.args).body).value);
            p.ok ==>
              StepSpec(view, st) ==
              Step(true, None, st.(args := st.args[1..], actual := st.actual + {n},
                                   vals := Store(st.vals, view[n].shares, BoolValue(p.value))))
    ensures var n := TypedName(st.args);
            StepSpec(view, st) == StepSpec(view[n := view[n].(enums := {})], st)
  {
    var sp := SplitAtEquals(Classify(st.args).body);
    var st1 := st.(args := st.args[1..]);
    var view0 := view[sp.name := view[sp.name].(enums := {})];
    assert StepSpec(view, st) == BoolStep(view[sp.name].shares, st1, sp);
    assert StepSpec(view0, st) == BoolStep(view0[sp.name].shares, st1, sp);
  }

  /**
   * Any other flag without "=value" takes the next argument as its value; when
   * there is none it fails with "flag needs an argument".
   */
  lemma ValueFlagTakesNext(view: map<string, FlagView>, st: PState)
    requires Covers(view, st.vals) && Classify(st.args).FlagArg?
    requires !SplitAtEquals(Classify(st.args).body).hasValue
    requires var n := TypedName(st.args); n in view && n in view[n].shares && !IsBoolFlag(st.vals[n])
    ensures var n := TypedName(st.args);
            |st.args| == 1 ==> StepSpec(view, st) == Step(false, Some(NeedsArgument(n)), st.(args := []))
    ensures var n := TypedName(st.args);
            |st.args| >= 2 ==>
              var a := FlagSet(n, view[n].enums, st.vals[n], st.args[1]);
              StepSpec(view, st).st.args == st.args[2..]
              && StepSpec(view, st).st.vals[n] == a.value
              && (StepSpec(view, st).seen <==> a.err.None?)
  {
    var n := TypedName(st.args);
    var st1 := st.(args := st.args[1..]);
    assert StepSpec(view, st) == NextStep(view[n].shares, view[n].enums, st1, n);
    if |st.args| >= 2 {
      assert st1.args[0] == st.args[1] && st1.args[1..] == st.args[2..];
    }
  }

  /** The arguments left after a step are a suffix of those before it. */
  lemma StepSuffix(view: map<string, FlagView>, st: PState)
    requires Covers(view, st.vals)
    ensures SuffixOf(StepSpec(view, st).st.args, st.args)
  {
    var r := StepSpec(view, st);
    match Classify(st.args)
    case NotAFlag =>
      assert st.args[0..] == st.args;
    case Terminator =>
    case Malformed(_) =>
      assert st.args[0..] == st.args;
    case FlagArg(_, body) =>
      var sp := SplitAtEquals(body);
      var st1 := st.(args := st.args[1..]);
      if sp.name in view && !IsBoolFlag(st1.vals[sp.name]) && !sp.hasValue && |st1.args| > 0 {
        assert r.st.args == st.args[2..];
      } else {
        assert r.st.args == st.args[1..];
      }
  }

  lemma SuffixTrans(a: seq<string>, b: seq<string>, c: seq<string>)
    requires SuffixOf(a, b) && SuffixOf(b, c)
    ensures SuffixOf(a, c)
  {
    assert c[|c| - |b|..][|b| - |a|..] == c[|c| - |a|..];
  }

  /** A Parse loop only ever takes arguments off the front. */
  lemma {:induction false} RunSuffix(view: map<string, FlagView>, st: PState)
    requires Covers(view, st.vals)
    ensures SuffixOf(RunSpec(view, st).st.args, st.args)
    decreases |st.args|
  {
    var s := StepSpec(view, st);
    StepSuffix(view, st);
    if s.seen {
      RunSuffix(view, s.st);
      SuffixTrans(RunSpec(view, s.st).st.args, s.st.args, st.args);
    }
  }

  /**
   * A step that sees a flag adds the name as typed (the alias name when an
   * alias was used) to the set flags, and that name is defined; a step that
   * sees none leaves the set flags as they were.
   */
  lemma StepMarks(view: map<string, FlagView>, st: PState)
    requires Covers(view, st.vals)
    ensures var r := StepSpec(view, st);
            (r.seen ==> Classify(st.args).FlagArg? && TypedName(st.args) in view
                        && r.st.actual == st.actual + {TypedName(st.args)})
            && (!r.seen ==> r.st.actual == st.actual)
  {
  }

  /** After a Parse loop the set flags have only grown, and only by defined names. */
  lemma {:induction false} RunMarks(view: map<string, FlagView>, st: PState)
    requires Covers(view, st.vals)
    ensures st.actual <= RunSpec(view, st).st.actual <= st.actual + view.Keys
    ensures RunSpec(view, st).st.vals.Keys == st.vals.Keys
    decreases |st.args|
  {
    var s := StepSpec(view, st);
    StepMarks(view, st);
    if s.seen {
      RunMarks(view, s.st);
    }
  }

  /** parseOne never reports a help request: -h and -help are ordinary names. */
  lemma StepNoHelp(view: map<string, FlagView>, st: PState)
    requires Covers(view, st.vals)
    ensures StepSpec(view, st).err != Some(HelpRequested)
  {
  }

  /** Hence a Parse loop never ends with ErrHelp either. */
  lemma {:induction false} RunNoHelp(view: map<string, FlagView>, st: PState)
    requires Covers(view, st.vals)
    ensures RunSpec(view, st).err != Some(HelpRequested)
    decreases |st.args|
  {
    var s := StepSpec(view, st);
    StepNoHelp(view, st);
    if s.seen {
      RunNoHelp(view, s.st);
    }
  }
}
