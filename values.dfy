/**
 * The Value interface of flag.go and its built-in variants bool, int, int64,
 * uint, uint64 and string, as one tagged union. The Go variable that a
 * *boolValue, *intValue, ... wraps is a ValueCell: several flags (a flag and its
 * aliases) may hold the same cell, so setting one is seen through all of them.
 * Go's int and uint are taken to be 64 bits wide (strconv.IntSize == 64).
 */
module Values {
  import opened Base
  import opened Strconv

  datatype Value =
    | BoolValue(b: bool)
    | IntValue(i: Int64)
    | Int64Value(i: Int64)
    | UintValue(u: Uint64)
    | Uint64Value(u: Uint64)
    | StringValue(s: string)

  /** The sentinel errors errParse ("parse error") and errRange ("value out of range"). */
  datatype ValueError = ErrParse | ErrRange

  datatype SetResult = SetResult(value: Value, err: Option<ValueError>)

  predicate SameKind(v: Value, w: Value)
  {
    match v
    case BoolValue(_) => w.BoolValue?
    case IntValue(_) => w.IntValue?
    case Int64Value(_) => w.Int64Value?
    case UintValue(_) => w.UintValue?
    case Uint64Value(_) => w.Uint64Value?
    case StringValue(_) => w.StringValue?
  }

  /** The zero value of v's variant. */
  function Zero(v: Value): (z: Value)
    ensures SameKind(v, z)
  {
    match v
    case BoolValue(_) => BoolValue(false)
    case IntValue(_) => IntValue(0)
    case Int64Value(_) => Int64Value(0)
    case UintValue(_) => UintValue(0)
    case Uint64Value(_) => Uint64Value(0)
    case StringValue(_) => StringValue("")
  }

  /** A bound of v's numeric variant: what ParseInt and ParseUint return on overflow. */
  predicate IsBound(v: Value)
  {
    match v
    case IntValue(i) => i == MaxInt64 || i == MinInt64
    case Int64Value(i) => i == MaxInt64 || i == MinInt64
    case UintValue(u) => u == MaxUint64
    case Uint64Value(u) => u == MaxUint64
    case _ => false
  }

  /** numError: a *strconv.NumError carrying ErrSyntax becomes errParse, one carrying ErrRange becomes errRange. */
  function NumError(status: NumStatus): (e: Option<ValueError>)
    ensures e.None? <==> status == Ok
    ensures status == Syntax ==> e == Some(ErrParse)
    ensures status == Range ==> e == Some(ErrRange)
  {
    match status
    case Ok => None
    case Syntax => Some(ErrParse)
    case Range => Some(ErrRange)
  }

  /**
   * Value.Set for the built-in variants. The variant never changes, and a
   * numeric or bool setter stores what the strconv call returned even when it
   * also returns an error: the zero value on a syntax error, the bound on an overflow.
   */
  function SetText(v: Value, s: string): (r: SetResult)
    ensures SameKind(v, r.value)
    ensures r.err == Some(ErrParse) ==> r.value == Zero(v)
    ensures r.err == Some(ErrRange) ==> IsBound(r.value)
    ensures v.StringValue? ==> r == SetResult(StringValue(s), None)
    ensures v.BoolValue? ==> (r.err.None? <==> ParseBool(s).ok)
  {
    match v
    case BoolValue(_) =>
      var p := ParseBool(s);
      SetResult(BoolValue(p.value), if p.ok then None else Some(ErrParse))
    case IntValue(_) =>
      var p := ParseInt(s);
      SetResult(IntValue(p.value), NumError(p.status))
    case Int64Value(_) =>
      var p := ParseInt(s);
      SetResult(Int64Value(p.value), NumError(p.status))
    case UintValue(_) =>
      var p := ParseUint(s);
      SetResult(UintValue(p.value), NumError(p.status))
    case Uint64Value(_) =>
      var p := ParseUint(s);
      SetResult(Uint64Value(p.value), NumError(p.status))
    case StringValue(_) =>
      SetResult(StringValue(s), None)
  }

  /** Value.String for the built-in variants. */
  function Render(v: Value): (s: string)
    ensures v.BoolValue? ==> s == (if v.b then "true" else "false")
    ensures v.IntValue? || v.Int64Value? ==> Canonical(Unsigned(s)) && SignedValue(s) == v.i
    ensures v.UintValue? || v.Uint64Value? ==> Canonical(s) && DecimalValue(s) == v.u
    ensures v.StringValue? ==> s == v.s
  {
    match v
    case BoolValue(b) => FormatBool(b)
    case IntValue(i) => FormatInt(i)
    case Int64Value(i) => FormatInt(i)
    case UintValue(u) => FormatUint(u)
    case Uint64Value(u) => FormatUint(u)
    case StringValue(s) => s
  }

  /** The boolFlag interface: only *boolValue reports IsBoolFlag() == true. */
  function IsBoolFlag(v: Value): (b: bool)
    ensures b <==> v.BoolValue?
    ensures b ==> SetText(v, "true") == SetResult(BoolValue(true), None)
  {
    v.BoolValue?
  }

  /** valueTypeName: the type word usage text shows after a flag name; empty for a switch. */
  function ValueTypeName(v: Value): (name: string)
    ensures name == "" <==> IsBoolFlag(v)
    ensures name == "int" <==> v.IntValue? || v.Int64Value?
    ensures name == "uint" <==> v.UintValue? || v.Uint64Value?
    ensures name == "string" <==> v.StringValue?
  {
    match v
    case BoolValue(_) => ""
    case IntValue(_) => "int"
    case Int64Value(_) => "int"
    case UintValue(_) => "uint"
    case Uint64Value(_) => "uint"
    case StringValue(_) => "string"
  }

  /**
   * Setting any value of a variant from the text another value of that variant
   * renders gives back that other value, with no error: Set inverts String.
   */
  lemma SetRenderRoundTrip(v: Value, w: Value)
    requires SameKind(v, w)
    ensures SetText(w, Render(v)) == SetResult(v, None)
  {
    match v
    case BoolValue(b) => ParseFormatBool(b);
    case IntValue(i) => ParseFormatInt(i);
    case Int64Value(i) => ParseFormatInt(i);
    case UintValue(u) => ParseFormatUint(u);
    case Uint64Value(u) => ParseFormatUint(u);
    case StringValue(_) =>
  }

  /** render(parse(render(x))) == render(x) for every built-in value. */
  lemma RenderSetRender(v: Value)
    ensures Render(SetText(v, Render(v)).value) == Render(v)
  {
    SetRenderRoundTrip(v, v);
  }

  /** The cell a built-in Value points into; newBoolValue, newIntValue, ... store the default in it. */
  class ValueCell {
    var v: Value

    constructor (initial: Value)
      ensures v == initial
    {
      v := initial;
    }

    /** Value.Set: stores the parsed result, even when it also reports an error. */
    method Set(s: string) returns (err: Option<ValueError>)
      modifies this`v
      ensures SetText(old(v), s) == SetResult(v, err)
    {
      var r := SetText(v, s);
      v := r.value;
      err := r.err;
    }

    /** Value.String */
    function String(): (s: string)
      reads this
      ensures s == Render(v)
    {
      Render(v)
    }
  }
}
