/**
 * TestFlagSet_Alias from end to end on the command itself: define the string
 * flag "password" with the alias "p" through varErr, then parse "-p 12345".
 * The view Parse scans with is derived from what varErr promises, not assumed.
 */
module Walkthrough {
  import opened Base
  import opened Values
  import opened Flags
  import opened Features
  import opened Tokenizer
  import opened Commands
  import opened Scenarios

  /** The definition state of "password" before its features, and after its one alias. */
  function Fresh(): DefState
  {
    DefState(StringValue(""), {}, {}, {}, {}, {"password"}, None)
  }

  function Aliased(): DefState
  {
    DefState(StringValue(""), {}, {}, {}, {"p"}, {"password", "p"}, None)
  }

  /** Neither name starts with a dash or holds '=': both pass varErr's checks. */
  lemma NamesOk()
    ensures NameCheck("test", {}, "password") == None
    ensures NameCheck("test", {"password"}, "p") == None
  {
    var pw := "password";
    assert forall k :: 0 <= k < |pw| ==> pw[k] != '=';
    assert pw[..1] == "p" && "p"[..1] == "p";
  }

  /** The feature list [Alias("p")] files "p" and nothing else, and cannot fail. */
  lemma PasswordFeatures()
    ensures ApplyFeatures(Target("password", "", "test"), map[], Fresh(), SortByIndex([Alias(["p"])])) == Done(Aliased())
  {
    var fs := [Alias(["p"])];
    assert fs[1..] == [] && ["p"][1..] == [];
    assert SortByIndex(fs[1..]) == [];
    assert SortByIndex(fs) == fs;
    NamesOk();
  }

  /** After varErr, Parse sees "password" and "p" as one cell, without enums. */
  lemma PasswordView(cmd: Command, flag: Flag, password: ValueCell)
    requires cmd.formal.Keys == {"password", "p"} && cmd.formal["password"] == flag && flag.value == password
    requires StandsFor(cmd.formal["p"], flag) && flag.enums == {}
    ensures cmd.View() == Scenarios.PasswordView()
    ensures cmd.Vals() == map["password" := password.v, "p" := password.v]
  {
    assert Shares(cmd.formal, "password") == {"password", "p"};
    assert Shares(cmd.formal, "p") == {"password", "p"};
  }

  /** Define "password" with the alias "p" on a fresh command. */
  method DefinePassword() returns (cmd: Command, password: ValueCell)
    ensures cmd.Valid() && cmd.errorHandling == ContinueOnError && cmd.args == [] && cmd.actual == map[]
    ensures cmd.View() == Scenarios.PasswordView()
    ensures cmd.Vals() == map["password" := StringValue(""), "p" := StringValue("")]
    ensures "password" in cmd.formal && cmd.formal["password"].value == password
    ensures fresh(cmd) && fresh(password) && cmd.Cells() == {password}
  {
    cmd := new Command.One("test", ContinueOnError);
    password := new ValueCell(StringValue(""));
    NamesOk();
    PasswordFeatures();
    assert Render(StringValue("")) == "" && cmd.CfgView() == None;
    assert DefState(StringValue(""), {}, {}, {}, {}, cmd.formal.Keys + {"password"}, cmd.CfgView()) == Fresh();
    var flag, err := cmd.VarErr(password, "password", "", [Alias(["p"])], map[]);
    assert OutcomeOf(err, cmd.StateOf(flag)) == Done(Aliased());
    assert err == None && cmd.formal.Keys == {"password", "p"};
    PasswordView(cmd, flag, password);
    assert cmd.formal["p"].value == password;
  }

  /**
   * The command ends with the password set through its alias, "p" recorded as
   * set, no arguments left and no error.
   */
  method AliasWalkthrough() returns (cmd: Command, password: ValueCell, result: Completion)
    ensures result == Returned(None) && password.v == StringValue("12345")
    ensures cmd.actual.Keys == {"p"} && cmd.NArg() == 0
  {
    cmd, password := DefinePassword();
    ghost var r := RunSpec(cmd.View(), PState(["-p", "12345"], cmd.actual.Keys, cmd.Vals()));
    assert cmd.actual.Keys == {};
    AliasScenario();
    assert r.err == None && r.st.args == [] && r.st.actual == {"p"} && r.st.vals["password"] == StringValue("12345");
    assert !GetFirstSubCommandWithArgs(["-p", "12345"]).ok by {
      assert "-p"[0] == '-';
    }
    var call;
    result, call := cmd.Parse(["-p", "12345"]);
    assert cmd.Snapshot() == r.st;
    assert cmd.Vals()["password"] == password.v;
  }
}
