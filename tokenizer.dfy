/**
 * The command-line scanner of flag.go (parseOne and the Parse loop) as a
 * pure specification over a snapshot of the state it touches: the remaining
 * arguments, the names in the actual map of flags set so far, and the value
 * seen through every defined flag. Commands.Command.ParseOne and Parse are
 * proved against it.
 */
module Tokenizer {
  import opened Base
  import opened Values
  import opened Errors
  import opened Flags

  /**
   * What parseOne sees of a defined flag: the names of all defined flags that
   * hold the same value cell (the flag itself, and the flag it aliases or its
   * aliases), and its enum set.
   */
  datatype FlagView = FlagView(shares: set<string>, enums: set<string>)

  /**
   * The state parseOne reads and writes: the remaining arguments, the names
   * in the actual map, and the current value seen through each defined flag.
   */
  datatype PState = PState(args: seq<string>, actual: set<string>, vals: map<string, Value>)

  /** parseOne's two results and the state it leaves. */
  datatype Step = Step(seen: bool, err: Option<FlagError>, st: PState)

  /** Parse's result (before handleError) and the state it leaves. */
  datatype Run = Run(err: Option<FlagError>, st: PState)

  /** Every defined flag has a value in the snapshot. */
  predicate Covers(view: map<string, FlagView>, vals: map<string, Value>)
  {
    view.Keys <= vals.Keys
  }

  /** Storing v in a cell is seen through every flag named in shares, and through no other. */
  function Store(vals: map<string, Value>, shares: set<string>, v: Value): (r: map<string, Value>)
    ensures r.Keys == vals.Keys
    ensures forall m :: m in r ==> r[m] == (if m in shares then v else vals[m])
  {
    map m | m in vals :: if m in shares then v else vals[m]
  }

  /** A flag token after its dashes: the name, whether "=value" followed, and the value. */
  datatype Split = Split(name: string, hasValue: bool, value: string)

  /** parseOne's search for '=': from the second character on, since equals cannot be first. */
  function SplitAtEquals(body: string): (r: Split)
    requires |body| >= 1
    ensures r.hasValue ==> body == r.name + "=" + r.value && |r.name| >= 1 && '=' !in r.name[1..]
    ensures !r.hasValue ==> r == Split(body, false, "") && '=' !in body[1..]
  {
    var k := IndexFrom(body, '=', 1);
    if k < |body| then
      assert body == body[..k] + "=" + body[k + 1..];
      Split(body[..k], true, body[k + 1..])
    else
      Split(body, false, "")
  }

  /** How parseOne classifies the first argument. */
  datatype Head =
    | NotAFlag                                  // no arguments, or the first is not -x...
    | Terminator                                // exactly "--"
    | Malformed(token: string)                  // bad flag syntax
    | FlagArg(dashes: nat, body: string)        // -body or --body

  function Classify(args: seq<string>): (h: Head)
    ensures h.FlagArg? ==>
              (|args| > 0 && h.dashes in {1, 2} && |h.body| >= 1
               && args[0] == (if h.dashes == 1 then "-" else "--") + h.body
               && h.body[0] != '-' && h.body[0] != '=')
    ensures h.Terminator? <==> |args| > 0 && args[0] == "--"
    ensures h.NotAFlag? <==> |args| == 0 || |args[0]| < 2 || args[0][0] != '-'
  {
    if |args| == 0 then NotAFlag
    else
      var s := args[0];
      if |s| < 2 || s[0] != '-' then NotAFlag
      else
        var dashes := if s[1] == '-' then 2 else 1;
        if dashes == 2 && |s| == 2 then Terminator
        else
          var body := s[dashes..];
          if |body| == 0 || body[0] == '-' || body[0] == '=' then Malformed(s)
          else
            assert s == (if dashes == 1 then "-" else "--") + body;
            FlagArg(dashes, body)
  }

  /**
   * parseOne on a bool flag (one whose value reports IsBoolFlag): "=value"
   * or, without it, "true" goes to the value's setter, with no enum check;
   * the setter's result is stored even when it reports an error, and it is
   * seen through every flag in shares.
   */
  function BoolStep(shares: set<string>, st: PState, sp: Split): (r: Step)
    requires sp.name in st.vals
    ensures r.seen <==> r.err.None?
    ensures r.st.args == st.args && r.st.vals.Keys == st.vals.Keys
  {
    var r := SetText(st.vals[sp.name], if sp.hasValue then sp.value else "true");
    var vals := Store(st.vals, shares, r.value);
    if r.err.Some? then
      var cause := BadValue(r.err.value);
      var e := if sp.hasValue then InvalidBoolValue(sp.value, sp.name, cause) else InvalidBoolFlag(sp.name, cause);
      Step(false, Some(e), st.(vals := vals))
    else Step(true, None, st.(actual := st.actual + {sp.name}, vals := vals))
  }

  /**
   * parseOne on any other flag: the text is "=value" or else the next
   * argument, which is then consumed; it goes through Flag.Set.
   */
  function ValueStep(shares: set<string>, enums: set<string>, st: PState, sp: Split): (r: Step)
    requires sp.name in st.vals
    ensures r.seen ==> r.err.None?
    ensures |r.st.args| <= |st.args| && r.st.vals.Keys == st.vals.Keys
  {
    if sp.hasValue then SetStep(shares, enums, st, sp.name, sp.value)
    else NextStep(shares, enums, st, sp.name)
  }

  /** parseOne on a flag that takes a value and has no "=value": the value is the next argument. */
  function NextStep(shares: set<string>, enums: set<string>, st: PState, name: string): (r: Step)
    requires name in st.vals
    ensures r.seen ==> r.err.None?
    ensures |r.st.args| <= |st.args| && r.st.vals.Keys == st.vals.Keys
  {
    if |st.args| == 0 then Step(false, Some(NeedsArgument(name)), st)
    else SetStep(shares, enums, st.(args := st.args[1..]), name, st.args[0])
  }

  /**
   * The end of parseOne on a flag that takes a value, once the text is known:
   * Flag.Set, whose result is stored even when it reports an error, then the
   * flag is marked set when there was none.
   */
  function SetStep(shares: set<string>, enums: set<string>, st: PState, name: string, text: string): (r: Step)
    requires name in st.vals
    ensures r.seen <==> r.err.None?
    ensures r.st.args == st.args && r.st.vals.Keys == st.vals.Keys
  {
    var a := FlagSet(name, enums, st.vals[name], text);
    var vals := Store(st.vals, shares, a.value);
    if a.err.Some? then Step(false, Some(InvalidValue(text, name, a.err.value)), st.(vals := vals))
    else Step(true, None, st.(actual := st.actual + {name}, vals := vals))
  }

  /**
   * The part of parseOne after a flag token has been taken off the front of
   * st.args: look the name up, then set the flag as a bool flag or a value flag.
   */
  function FlagStep(view: map<string, FlagView>, st: PState, sp: Split): (r: Step)
    requires Covers(view, st.vals)
    ensures r.seen ==> r.err.None?
    ensures |r.st.args| <= |st.args| && r.st.vals.Keys == st.vals.Keys
  {
    if sp.name !in view then Step(false, Some(NotDefined(sp.name)), st)
    else if IsBoolFlag(st.vals[sp.name]) then BoolStep(view[sp.name].shares, st, sp)
    else ValueStep(view[sp.name].shares, view[sp.name].enums, st, sp)
  }

  /** parseOne */
  function StepSpec(view: map<string, FlagView>, st: PState): (r: Step)
    requires Covers(view, st.vals)
    ensures r.seen ==> r.err.None? && |r.st.args| < |st.args|
    ensures |r.st.args| <= |st.args| && r.st.vals.Keys == st.vals.Keys
  {
    match Classify(st.args)
    case NotAFlag => Step(false, None, st)
    case Terminator => Step(false, None, st.(args := st.args[1..]))
    case Malformed(token) => Step(false, Some(BadSyntax(token)), st)
    case FlagArg(_, body) => FlagStep(view, st.(args := st.args[1..]), SplitAtEquals(body))
  }

  /** The loop of Parse: parseOne until it reports no flag seen, with or without an error. */
  function RunSpec(view: map<string, FlagView>, st: PState): (r: Run)
    requires Covers(view, st.vals)
    decreases |st.args|
  {
    var s := StepSpec(view, st);
    if s.seen then RunSpec(view, s.st) else Run(s.err, s.st)
  }

  /** A step that sees a flag leaves the rest of the run to the state after it. */
  lemma RunSeen(view: map<string, FlagView>, st: PState, step: Step)
    requires Covers(view, st.vals)
    requires StepSpec(view, st) == step && step.seen
    ensures RunSpec(view, st) == RunSpec(view, step.st)
  {
  }

  /** A step that sees no flag ends the run where it stops. */
  lemma RunStops(view: map<string, FlagView>, st: PState, step: Step)
    requires Covers(view, st.vals)
    requires StepSpec(view, st) == step && !step.seen
    ensures RunSpec(view, st) == Run(step.err, step.st)
  {
  }

  /** On a flag token, parseOne takes the token off and sets the flag it names. */
  lemma StepFlagArg(view: map<string, FlagView>, st: PState, dashes: nat, body: string)
    requires Covers(view, st.vals) && Classify(st.args) == FlagArg(dashes, body)
    ensures StepSpec(view, st) == FlagStep(view, st.(args := st.args[1..]), SplitAtEquals(body))
  {
  }
}
