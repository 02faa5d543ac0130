/**
 * The Flag record of flag.go and the checks around setting it: isEnumValid,
 * keys and Flag.Set, plus the name rules varErr applies before defining one.
 */
module Flags {
  import opened Base
  import opened Values
  import opened Errors

  /**
   * A defined flag. Name, usage, the value it points to and the default text
   * never change after definition; the four sets and aliasFor are filled in
   * by the features (Env, Cfg, Enum, Alias) right after.
   */
  class Flag {
    const name: string
    const usage: string
    const value: ValueCell
    const defValue: string
    var envs: set<string>
    var cfgs: set<string>
    var enums: set<string>
    var alias: set<string>
    var aliasFor: string

    /** The &Flag{...} literal of varErr: every set empty, not an alias. */
    constructor (name: string, usage: string, value: ValueCell, defValue: string)
      ensures this.name == name && this.usage == usage && this.value == value && this.defValue == defValue
      ensures envs == {} && cfgs == {} && enums == {} && alias == {} && aliasFor == ""
    {
      this.name := name;
      this.usage := usage;
      this.value := value;
      this.defValue := defValue;
      envs := {};
      cfgs := {};
      enums := {};
      alias := {};
      aliasFor := "";
    }

    /** Flag.Set: the enum check, then Value.Set. */
    method Set(s: string) returns (err: Option<FlagError>)
      modifies value`v
      ensures Assign(value.v, err) == FlagSet(name, enums, old(value.v), s)
    {
      var ks := Keys(enums);
      var valid := IsEnumValid(s, ks);
      if !valid {
        return Some(EnumViolation(name, enums));
      }
      var e := value.Set(s);
      err := if e.None? then None else Some(BadValue(e.value));
    }


    /**
     * The body of alias's loop after varErr has made this flag: take to's
     * feature sets, stand for to, and record the two as aliases of each other.
     */
    method BecomeAliasOf(to: Flag)
      requires to != this
      modifies this`envs, this`cfgs, this`enums, this`aliasFor, this`alias, to`alias
      ensures envs == to.envs && cfgs == to.cfgs && enums == to.enums && aliasFor == to.name
      ensures alias == old(alias) + old(to.alias) + {to.name}
      ensures to.alias == old(to.alias) + {name}
    {
      envs := to.envs;
      cfgs := to.cfgs;
      enums := to.enums;
      aliasFor := to.name;
      alias := alias + to.alias;
      to.alias := to.alias + {name};
      alias := alias + {to.name};
    }
  }

  /** What setting a flag leaves in its value, and the error it reports. */
  datatype Assign = Assign(value: Value, err: Option<FlagError>)

  /**
   * Flag.Set on a flag named name with enum set enums whose value is v: text
   * outside a non-empty enum set is refused before the value is touched;
   * otherwise the value's own setter runs, and its error is passed on.
   */
  function FlagSet(name: string, enums: set<string>, v: Value, s: string): (r: Assign)
    ensures SameKind(v, r.value)
    ensures r.err.None? ==> enums == {} || s in enums
    ensures r.err.Some? ==> r.err.value.EnumViolation? || r.err.value.BadValue?
    ensures r.err.Some? && r.err.value.EnumViolation? ==> r.value == v && s !in enums
  {
    if enums != {} && s !in enums then Assign(v, Some(EnumViolation(name, enums)))
    else
      var r := SetText(v, s);
      Assign(r.value, if r.err.None? then None else Some(BadValue(r.err.value)))
  }

  /** isEnumValid: e is one of enums, or enums is empty. */
  method IsEnumValid(e: string, enums: seq<string>) returns (valid: bool)
    ensures valid <==> |enums| == 0 || e in enums
  {
    valid := false;
    if |enums| > 0 {
      for i := 0 to |enums|
        invariant valid <==> e in enums[..i]
      {
        if e == enums[i] {
          valid := true;
        }
      }
      assert enums[..|enums|] == enums;
    } else {
      valid := true;
    }
  }

  /** keys: the members of a set, each once, in an order the model leaves open. */
  method Keys(m: set<string>) returns (ks: seq<string>)
    ensures Elements(ks) == m && |ks| == |m|
  {
    ks := [];
    var rest := m;
    while rest != {}
      invariant Elements(ks) + rest == m && Elements(ks) !! rest
      invariant |ks| + |rest| == |m|
      decreases |rest|
    {
      var k :| k in rest;
      assert Elements(ks + [k]) == Elements(ks) + {k};
      NotInElements(ks, k);
      ks := ks + [k];
      rest := rest - {k};
    }
  }

  /** A key not yet listed adds one to the length and one to the set alike. */
  lemma NotInElements(ks: seq<string>, k: string)
    requires |ks| == |Elements(ks)| && k !in Elements(ks)
    ensures |Elements(ks + [k])| == |ks + [k]|
  {
    assert Elements(ks + [k]) == Elements(ks) + {k};
  }

  /**
   * The checks varErr makes before it defines name on a command called
   * cmdName whose flags are names: no leading '-', no '=', not yet defined.
   */
  function NameCheck(cmdName: string, names: set<string>, name: string): (r: Option<FlagError>)
    ensures r.None? <==> !HasPrefix(name, "-") && '=' !in name && name !in names
    ensures r.Some? ==> r.value in {BeginsWithDash(name), ContainsEquals(name), Redefined(cmdName, name)}
  {
    if HasPrefix(name, "-") then Some(BeginsWithDash(name))
    else if '=' in name then Some(ContainsEquals(name))
    else if name in names then Some(Redefined(cmdName, name))
    else None
  }

  /**
   * Flag.Set refuses text outside a non-empty enum set and leaves the value as
   * it was; otherwise it stores exactly what the value's setter stores, and
   * fails exactly when that setter fails.
   */
  lemma FlagSetEnumGuard(name: string, enums: set<string>, v: Value, s: string)
    ensures enums != {} && s !in enums ==>
      FlagSet(name, enums, v, s) == Assign(v, Some(EnumViolation(name, enums)))
    ensures enums == {} || s in enums ==>
      FlagSet(name, enums, v, s).value == SetText(v, s).value
      && (FlagSet(name, enums, v, s).err.None? <==> SetText(v, s).err.None?)
  {
  }

  /**
   * Setting a flag from the text of any value of its kind restores that value
   * without error, as long as the text is allowed by the enum set.
   */
  lemma FlagSetRenderRoundTrip(name: string, enums: set<string>, v: Value, w: Value)
    requires SameKind(v, w)
    requires enums == {} || Render(v) in enums
    ensures FlagSet(name, enums, w, Render(v)) == Assign(v, None)
  {
    SetRenderRoundTrip(v, w);
  }

  /** A name passes the checks exactly when it has no leading '-', no '=' and is new. */
  lemma NameCheckNone(cmdName: string, names: set<string>, name: string)
    ensures NameCheck(cmdName, names, name).None? <==>
      !HasPrefix(name, "-") && '=' !in name && name !in names
  {
  }
}
