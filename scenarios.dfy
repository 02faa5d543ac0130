/**
 * Runs of the scanner specification on the argument lists of the
 * repository's own table tests (flag_test.go), with the outcome those tests
 * expect.
 */
module Scenarios {
  import opened Base
  import opened Values
  import opened Errors
  import opened Flags
  import opened Tokenizer

  /** A string flag "password" with its alias "p", both holding one cell. */
  function PasswordView(): map<string, FlagView>
  {
    map["password" := FlagView({"password", "p"}, {}), "p" := FlagView({"password", "p"}, {})]
  }

  /** TestFlagSet_Alias: "-p 12345" sets the password through its alias and marks "p" as set. */
  lemma AliasScenario()
    ensures var r := RunSpec(PasswordView(), PState(["-p", "12345"], {}, map["password" := StringValue(""), "p" := StringValue("")]));
            r.err == None && r.st.args == [] && r.st.actual == {"p"}
            && r.st.vals["password"] == StringValue("12345") && r.st.vals["p"] == StringValue("12345")
  {
    var view := PasswordView();
    var st := PState(["-p", "12345"], {}, map["password" := StringValue(""), "p" := StringValue("")]);
    assert Classify(st.args) == FlagArg(1, "p");
    IndexFromFirst("p", '=', 1, 1);
    assert SplitAtEquals("p") == Split("p", false, "");
    var vals := map["password" := StringValue("12345"), "p" := StringValue("12345")];
    assert Store(st.vals, {"password", "p"}, StringValue("12345")) == vals;
    var s := StepSpec(view, st);
    assert s == Step(true, None, PState([], {"p"}, vals));
    assert Classify([]) == NotAFlag;
    assert RunSpec(view, s.st) == Run(None, s.st);
  }

  /** The string flag "options" of TestFlagSet_Enums, limited to a, b and c (its alias and variables left out). */
  function OptionsView(): map<string, FlagView>
  {
    map["options" := FlagView({"options"}, {"a", "b", "c"})]
  }

  /** TestFlagSet_Enums: "-options z" is refused by the enum set and the value stays "c". */
  lemma EnumScenario()
    ensures var r := RunSpec(OptionsView(), PState(["-options", "z"], {}, map["options" := StringValue("c")]));
            r.err == Some(InvalidValue("z", "options", EnumViolation("options", {"a", "b", "c"})))
            && r.st.actual == {} && r.st.vals["options"] == StringValue("c") && r.st.args == []
  {
    var view := OptionsView();
    var st := PState(["-options", "z"], {}, map["options" := StringValue("c")]);
    assert Classify(st.args) == FlagArg(1, "options");
    IndexFromFirst("options", '=', 1, 7);
    assert SplitAtEquals("options") == Split("options", false, "");
    assert "z" !in {"a", "b", "c"};
    assert Store(st.vals, {"options"}, StringValue("c")) == st.vals;
    assert StepSpec(view, st) == Step(false, Some(InvalidValue("z", "options", EnumViolation("options", {"a", "b", "c"}))), st.(args := []));
  }

  /** TestFlagSet_Enums: "-options a" is allowed and set. */
  lemma EnumAllowedScenario()
    ensures var r := RunSpec(OptionsView(), PState(["-options", "a"], {}, map["options" := StringValue("c")]));
            r.err == None && r.st.actual == {"options"} && r.st.vals["options"] == StringValue("a") && r.st.args == []
  {
    var view := OptionsView();
    var st := PState(["-options", "a"], {}, map["options" := StringValue("c")]);
    assert Classify(st.args) == FlagArg(1, "options");
    IndexFromFirst("options", '=', 1, 7);
    assert SplitAtEquals("options") == Split("options", false, "");
    var vals := map["options" := StringValue("a")];
    assert Store(st.vals, {"options"}, StringValue("a")) == vals;
    var s := StepSpec(view, st);
    assert s == Step(true, None, PState([], {"options"}, vals));
    assert RunSpec(view, s.st) == Run(None, s.st);
  }

  /** Two bool flags "bool" and "bool2" and a string flag "string". */
  function MixView(): map<string, FlagView>
  {
    map["bool" := FlagView({"bool"}, {}), "bool2" := FlagView({"bool2"}, {}), "string" := FlagView({"string"}, {})]
  }

  function MixVals(): map<string, Value>
  {
    map["bool" := BoolValue(false), "bool2" := BoolValue(false), "string" := StringValue("0")]
  }

  function MixState0(): PState
  {
    PState(["-bool", "-bool2=true", "-string", "hello", "one-extra-argument"], {}, MixVals())
  }

  function MixState1(): PState
  {
    PState(["-bool2=true", "-string", "hello", "one-extra-argument"], {"bool"},
           map["bool" := BoolValue(true), "bool2" := BoolValue(false), "string" := StringValue("0")])
  }

  function MixState2(): PState
  {
    PState(["-string", "hello", "one-extra-argument"], {"bool", "bool2"},
           map["bool" := BoolValue(true), "bool2" := BoolValue(true), "string" := StringValue("0")])
  }

  function MixState3(): PState
  {
    PState(["one-extra-argument"], {"bool", "bool2", "string"},
           map["bool" := BoolValue(true), "bool2" := BoolValue(true), "string" := StringValue("hello")])
  }

  /** A bare "-bool" sets true and takes nothing else. */
  lemma MixStep1()
    ensures StepSpec(MixView(), MixState0()) == Step(true, None, MixState1())
  {
    var st := MixState0();
    assert Classify(st.args) == FlagArg(1, "bool");
    IndexFromFirst("bool", '=', 1, 4);
    assert Store(st.vals, {"bool"}, BoolValue(true)) == MixState1().vals;
  }

  /** "-bool2=true" sets true from its own token. */
  lemma MixStep2()
    ensures StepSpec(MixView(), MixState1()) == Step(true, None, MixState2())
  {
    var st := MixState1();
    assert Classify(st.args) == FlagArg(1, "bool2=true");
    IndexFromFirst("bool2=true", '=', 1, 5);
    assert "bool2=true"[..5] == "bool2" && "bool2=true"[6..] == "true";
    assert Store(st.vals, {"bool2"}, BoolValue(true)) == MixState2().vals;
  }

  /** "-string hello" takes the next argument. */
  lemma MixStep3()
    ensures StepSpec(MixView(), MixState2()) == Step(true, None, MixState3())
  {
    var st := MixState2();
    assert Classify(st.args) == FlagArg(1, "string");
    IndexFromFirst("string", '=', 1, 6);
    assert Store(st.vals, {"string"}, StringValue("hello")) == MixState3().vals;
  }

  /**
   * From testParse: "-bool -bool2=true -string hello one-extra-argument" sets
   * all three and leaves the extra argument.
   */
  lemma MixScenario()
    ensures var r := RunSpec(MixView(), MixState0());
            r.err == None && r.st.args == ["one-extra-argument"] && r.st.actual == {"bool", "bool2", "string"}
            && r.st.vals == map["bool" := BoolValue(true), "bool2" := BoolValue(true), "string" := StringValue("hello")]
  {
    var view := MixView();
    MixStep1();
    RunSeen(view, MixState0(), Step(true, None, MixState1()));
    MixStep2();
    RunSeen(view, MixState1(), Step(true, None, MixState2()));
    MixStep3();
    RunSeen(view, MixState2(), Step(true, None, MixState3()));
    assert Classify(MixState3().args) == NotAFlag;
    RunStops(view, MixState3(), Step(false, None, MixState3()));
  }
}
