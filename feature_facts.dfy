/**
 * What the feature machinery of varErr promises, proved about its
 * specification: the priority order, a config value overriding an
 * environment value, environment text escaping a later enum, the config
 * write-back of the flag's current text, the last variable set winning, and
 * when alias succeeds.
 */
module FeatureFacts {
  import opened Base
  import opened Values
  import opened Errors
  import opened Flags
  import opened Features

  /** However one of each feature is passed, they are applied as Env, Cfg, Enum, Alias. */
  lemma PriorityOrder(e: seq<string>, c: seq<string>, v: seq<string>, a: seq<string>, fs: seq<Feature>)
    requires multiset(fs) == multiset([Env(e), Cfg(c), Enum(v), Alias(a)])
    ensures SortByIndex(fs) == [Env(e), Cfg(c), Enum(v), Alias(a)]
  {
    var canon := [Env(e), Cfg(c), Enum(v), Alias(a)];
    assert SortedByIndex(canon) && DistinctIndices(canon);
    SortedUnique(canon, SortByIndex(fs));
  }

  /** Env then Cfg, as the sort puts them. */
  lemma EnvBeforeCfg(e: seq<string>, c: seq<string>)
    ensures SortByIndex([Cfg(c), Env(e)]) == [Env(e), Cfg(c)]
    ensures SortByIndex([Env(e), Cfg(c)]) == [Env(e), Cfg(c)]
  {
    var canon := [Env(e), Cfg(c)];
    assert SortedByIndex(canon) && DistinctIndices(canon);
    assert multiset([Cfg(c), Env(e)]) == multiset(canon);
    SortedUnique(canon, SortByIndex([Cfg(c), Env(e)]));
    SortedUnique(canon, SortByIndex([Env(e), Cfg(c)]));
  }

  /** Env then Enum, as the sort puts them. */
  lemma EnvBeforeEnum(e: seq<string>, v: seq<string>)
    ensures SortByIndex([Enum(v), Env(e)]) == [Env(e), Enum(v)]
  {
    var canon := [Env(e), Enum(v)];
    assert SortedByIndex(canon) && DistinctIndices(canon);
    assert multiset([Enum(v), Env(e)]) == multiset(canon);
    SortedUnique(canon, SortByIndex([Enum(v), Env(e)]));
  }

  /** One environment variable: recorded, and its non-empty text set through Flag.Set. */
  lemma EnvOne(t: Target, env: map<string, string>, st: DefState, e: string)
    ensures EnvSpec(t, env, st, [e]) == EnvStep(t, env, st, e)
  {
    assert [e][1..] == [];
  }

  /** One config path: either it sets the flag or the flag's text is written back; then it is recorded. */
  lemma CfgOne(t: Target, st: DefState, p: string)
    ensures CfgSpec(t, st, [p]) ==
            match CfgStep(t, st, p)
            case Failed(err) => Failed(err)
            case Done(st1) => Done(st1.(cfgs := st1.cfgs + {p}))
  {
    assert [p][1..] == [];
    assert Elements([p]) == {p};
    match CfgStep(t, st, p)
    case Failed(err) =>
      assert CfgPaths(t, st, [p]) == Failed(err);
    case Done(st1) =>
      assert CfgPaths(t, st1, []) == Done(st1);
      assert CfgPaths(t, st, [p]) == Done(st1);
  }

  /** Two features: the second runs on what the first left, unless the first failed. */
  lemma ApplyTwo(t: Target, env: map<string, string>, st: DefState, f: Feature, g: Feature)
    ensures ApplyFeatures(t, env, st, [f, g]) ==
            match ApplyFeature(t, env, st, f)
            case Failed(err) => Failed(err)
            case Done(st1) => ApplyFeature(t, env, st1, g)
  {
    var fs := [f, g];
    assert fs[1..] == [g] && fs[1..][1..] == [];
    match ApplyFeature(t, env, st, f)
    case Failed(_) =>
    case Done(st1) =>
      match ApplyFeature(t, env, st1, g)
      case Failed(_) =>
      case Done(st2) =>
        assert ApplyFeatures(t, env, st2, []) == Done(st2);
  }

  /**
   * With both an environment variable and a config path holding text, the
   * config text is set last, on top of what the environment left, whatever
   * order the two features were passed in.
   */
  lemma CfgOverridesEnv(t: Target, env: map<string, string>, st: DefState, e: string, p: string, fs: seq<Feature>)
    requires fs == [Env([e]), Cfg([p])] || fs == [Cfg([p]), Env([e])]
    requires st.enums == {} && st.cfg.Some? && p in st.cfg.value && st.cfg.value[p] != ""
    ensures var envd := EnvSpec(t, env, st, [e]);
            var o := ApplyFeatures(t, env, st, SortByIndex(fs));
            envd.Done? ==>
              var a := SetText(envd.st.value, st.cfg.value[p]);
              (a.err.None? ==> o.Done? && o.st.value == a.value)
              && (a.err.Some? ==> o == Failed(CfgSetFailed(p, st.cfg.value[p], t.name)))
    ensures st.value.StringValue? ==>
              var o := ApplyFeatures(t, env, st, SortByIndex(fs));
              o.Done? && o.st.value == StringValue(st.cfg.value[p])
  {
    EnvBeforeCfg([e], [p]);
    ApplyTwo(t, env, st, Env([e]), Cfg([p]));
    EnvOne(t, env, st, e);
    var envd := EnvSpec(t, env, st, [e]);
    if envd.Done? {
      CfgOne(t, envd.st, p);
      assert envd.st.enums == {} && envd.st.cfg == st.cfg;
    }
  }

  /**
   * Environment text is not checked against an enum list given with it: Env
   * runs while the flag's enum set is still empty, so text outside the list
   * is stored, and Enum then only checks the default.
   */
  lemma EnvValueEscapesEnum(t: Target, env: map<string, string>, st: DefState, e: string, values: seq<string>)
    requires st.enums == {} && Getenv(env, e) != "" && EnumValid(t.defValue, values)
    requires SetText(st.value, Getenv(env, e)).err.None?
    ensures var o := ApplyFeatures(t, env, st, SortByIndex([Enum(values), Env([e])]));
            o.Done? && o.st.value == SetText(st.value, Getenv(env, e)).value && o.st.enums == Elements(values)
  {
    EnvBeforeEnum([e], values);
    ApplyTwo(t, env, st, Env([e]), Enum(values));
    EnvOne(t, env, st, e);
  }

  /** bindEnum decides on the default text and the list alone, never on the current value. */
  lemma EnumChecksDefaultOnly(t: Target, st: DefState, values: seq<string>)
    ensures EnumSpec(t, st, values).Failed? <==> |values| > 0 && t.defValue !in values
    ensures EnumSpec(t, st, values).Done? ==> EnumSpec(t, st, values).st == st.(enums := st.enums + Elements(values))
    ensures forall v :: EnumSpec(t, st.(value := v), values).Failed? == EnumSpec(t, st, values).Failed?
  {
  }

  /**
   * A config path with no text gets the flag's current text written back:
   * after an environment variable set the flag, that is the environment's
   * text, not the default.
   */
  lemma CfgWritesBackCurrent(t: Target, env: map<string, string>, st: DefState, e: string, p: string)
    requires st.cfg.Some? && p !in st.cfg.value
    ensures var envd := EnvSpec(t, env, st, [e]);
            var o := ApplyFeatures(t, env, st, SortByIndex([Cfg([p]), Env([e])]));
            envd.Done? ==>
              o.Done? && o.st.value == envd.st.value && p in o.st.cfgs
              && o.st.cfg == Some(st.cfg.value[p := Render(envd.st.value)])
    ensures st.value.StringValue? && st.enums == {} && Getenv(env, e) != "" ==>
              var o := ApplyFeatures(t, env, st, SortByIndex([Cfg([p]), Env([e])]));
              o.Done? && o.st.cfg.Some? && p in o.st.cfg.value && o.st.cfg.value[p] == Getenv(env, e)
  {
    EnvBeforeCfg([e], [p]);
    ApplyTwo(t, env, st, Env([e]), Cfg([p]));
    EnvOne(t, env, st, e);
    var envd := EnvSpec(t, env, st, [e]);
    if envd.Done? {
      CfgOne(t, envd.st, p);
      assert envd.st.cfg == st.cfg;
    }
  }

  /** The text of the last variable of envs that is set to something non-empty. */
  function LastSet(env: map<string, string>, envs: seq<string>): (r: Option<string>)
    ensures r.Some? ==> r.value != "" && exists k :: 0 <= k < |envs| && Getenv(env, envs[k]) == r.value
    decreases |envs|
  {
    if envs == [] then None
    else
      match LastSet(env, envs[1..])
      case Some(text) =>
        var k :| 0 <= k < |envs[1..]| && Getenv(env, envs[1..][k]) == text;
        assert Getenv(env, envs[k + 1]) == text;
        Some(text)
      case None => if Getenv(env, envs[0]) != "" then Some(Getenv(env, envs[0])) else None
  }

  /**
   * For a string flag with no enum set, bindEnv records every variable and
   * cannot fail, and the flag ends with the text of the last variable that
   * is set (or keeps its value when none is).
   */
  lemma {:induction false} EnvLastWins(t: Target, env: map<string, string>, st: DefState, envs: seq<string>)
    requires st.enums == {} && st.value.StringValue?
    ensures EnvSpec(t, env, st, envs) ==
            Done(st.(envs := st.envs + Elements(envs),
                     value := match LastSet(env, envs) case Some(text) => StringValue(text) case None => st.value))
    decreases |envs|
  {
    if envs != [] {
      var e, rest := envs[0], envs[1..];
      var st1 := st.(envs := st.envs + {e}, value := if Getenv(env, e) != "" then StringValue(Getenv(env, e)) else st.value);
      assert EnvStep(t, env, st, e) == Done(st1);
      assert EnvSpec(t, env, st, envs) == EnvSpec(t, env, st1, rest);
      EnvLastWins(t, env, st1, rest);
      assert Elements(envs) == {e} + Elements(rest) by {
        assert envs == [e] + rest;
      }
    }
  }

  /**
   * Each name differs from the flag's own and passes varErr's checks against
   * the flags in defined plus the names before it, one name at a time.
   */
  predicate AliasNamesOk(t: Target, defined: set<string>, names: seq<string>)
    decreases |names|
  {
    names == []
    || (names[0] != t.name && NameCheck(t.cmdName, defined, names[0]).None?
        && AliasNamesOk(t, defined + {names[0]}, names[1..]))
  }

  /** AliasNamesOk says of every name that it passes the checks against all names before it. */
  lemma {:induction false} AliasNamesOkAll(t: Target, defined: set<string>, names: seq<string>)
    ensures AliasNamesOk(t, defined, names) <==>
            forall k :: 0 <= k < |names| ==>
              names[k] != t.name && NameCheck(t.cmdName, defined + Elements(names[..k]), names[k]).None?
    decreases |names|
  {
    if names != [] {
      var n, rest := names[0], names[1..];
      AliasNamesOkAll(t, defined + {n}, rest);
      assert Elements(names[..0]) == {};
      forall k | 1 <= k < |names|
        ensures names[k] == rest[k - 1]
        ensures defined + {n} + Elements(rest[..k - 1]) == defined + Elements(names[..k])
      {
        assert names[..k] == [n] + rest[..k - 1];
        assert Elements(names[..k]) == {n} + Elements(rest[..k - 1]);
      }
    }
  }

  /**
   * alias succeeds exactly when its names pass AliasNamesOk against the
   * flags defined before it; then every name is defined and recorded as an
   * alias.
   */
  lemma {:induction false} AliasSpecDone(t: Target, st: DefState, names: seq<string>)
    ensures AliasSpec(t, st, names).Done? <==> AliasNamesOk(t, st.names, names)
    ensures AliasSpec(t, st, names).Done? ==>
            AliasSpec(t, st, names).st == st.(names := st.names + Elements(names), alias := st.alias + Elements(names))
    decreases |names|
  {
    if names != [] {
      var n, rest := names[0], names[1..];
      match AliasStep(t, st, n)
      case Failed(_) =>
        assert !(n != t.name && NameCheck(t.cmdName, st.names, n).None?);
      case Done(st1) =>
        assert st1 == st.(names := st.names + {n}, alias := st.alias + {n});
        AliasSpecDone(t, st1, rest);
        assert AliasSpec(t, st, names) == AliasSpec(t, st1, rest);
        assert names == [n] + rest;
        assert Elements(names) == {n} + Elements(rest);
    }
  }

  /**
   * alias succeeds exactly when no name is the flag's own and each passes
   * varErr's checks against the flags defined before it, the earlier new
   * names included.
   */
  lemma AliasSpecNames(t: Target, st: DefState, names: seq<string>)
    ensures AliasSpec(t, st, names).Done? <==>
            forall k :: 0 <= k < |names| ==>
              names[k] != t.name && NameCheck(t.cmdName, st.names + Elements(names[..k]), names[k]).None?
  {
    AliasSpecDone(t, st, names);
    AliasNamesOkAll(t, st.names, names);
  }

  /** A name given twice to alias is refused the second time. */
  lemma AliasRepeatFails(t: Target, st: DefState, names: seq<string>, i: nat, j: nat)
    requires i < j < |names| && names[i] == names[j]
    ensures AliasSpec(t, st, names).Failed?
  {
    AliasSpecNames(t, st, names);
    assert names[i] in Elements(names[..j]) by {
      assert names[..j][i] == names[i];
    }
    assert NameCheck(t.cmdName, st.names + Elements(names[..j]), names[j]).Some?;
  }
}
