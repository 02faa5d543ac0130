/**
 * The part of Go's strconv package that the built-in flag values rely on:
 * ParseBool/FormatBool and, for bit size 64, ParseInt/ParseUint/FormatInt/FormatUint.
 *
 * The flag values call ParseInt and ParseUint with base 0. This model reads the
 * decimal part of that grammar only (an optional sign for ParseInt, then digits
 * with no leading zero); a text that starts with '0' and goes on is a base-prefixed
 * or octal number for Go and a syntax error here. Within that subset the results
 * follow Go's: the digits are scanned left to right, an overflow is reported as a
 * range error with the bound as value, a bad character as a syntax error with 0.
 */
module Strconv {

  const MaxInt64: int := 0x7fff_ffff_ffff_ffff
  const MinInt64: int := -0x8000_0000_0000_0000
  const MaxUint64: int := 0xffff_ffff_ffff_ffff

  type Int64 = x: int | MinInt64 <= x <= MaxInt64
  type Uint64 = x: int | 0 <= x <= MaxUint64

  /** nil, or a *NumError carrying strconv.ErrSyntax or strconv.ErrRange */
  datatype NumStatus = Ok | Syntax | Range

  datatype UintParse = UintParse(status: NumStatus, value: Uint64)
  datatype IntParse = IntParse(status: NumStatus, value: Int64)
  datatype BoolParse = BoolParse(value: bool, ok: bool)

  predicate IsDigit(c: char) { '0' <= c <= '9' }

  predicate AllDigits(s: string) { forall i :: 0 <= i < |s| ==> IsDigit(s[i]) }

  /** Decimal digits with no leading zero: the only text the model's ParseUint can accept. */
  predicate Canonical(s: string)
  {
    |s| > 0 && AllDigits(s) && (s[0] == '0' ==> |s| == 1)
  }

  function DigitValue(c: char): nat
    requires IsDigit(c)
  {
    c as int - '0' as int
  }

  function DigitChar(d: nat): (c: char)
    requires d < 10
    ensures IsDigit(c) && DigitValue(c) == d
  {
    ('0' as int + d) as char
  }

  /** The number a string of decimal digits denotes: the reference ParseUint is held to. */
  function DecimalValue(s: string): nat
    requires AllDigits(s)
  {
    if s == [] then 0 else DecimalValue(s[..|s| - 1]) * 10 + DigitValue(s[|s| - 1])
  }

  /** The text after an optional leading sign. */
  function Unsigned(s: string): string
  {
    if |s| > 0 && (s[0] == '+' || s[0] == '-') then s[1..] else s
  }

  /** The number a sign and canonical decimal digits denote: the reference ParseInt is held to. */
  function SignedValue(s: string): int
    requires Canonical(Unsigned(s))
  {
    var d: int := DecimalValue(Unsigned(s));
    if s[0] == '-' then -d else d
  }

  /** One turn of ParseUint's digit loop: the first error ends the scan. */
  function ScanStep(acc: UintParse, c: char): UintParse
  {
    if acc.status != Ok then acc
    else if !IsDigit(c) then UintParse(Syntax, 0)
    else if acc.value * 10 + DigitValue(c) > MaxUint64 then UintParse(Range, MaxUint64)
    else UintParse(Ok, acc.value * 10 + DigitValue(c))
  }

  /** ParseUint's digit loop over all of s, scanning from the left. */
  function ScanDigits(s: string): (r: UintParse)
    ensures r.status == Ok ==> AllDigits(s) && r.value == DecimalValue(s)
    ensures r.status == Syntax ==> r.value == 0 && !AllDigits(s)
    ensures r.status == Range ==> r.value == MaxUint64
    ensures AllDigits(s) ==> (r.status == Ok <==> DecimalValue(s) <= MaxUint64)
  {
    if s == [] then UintParse(Ok, 0)
    else
      var prefix := ScanDigits(s[..|s| - 1]);
      assert forall i :: 0 <= i < |s| - 1 ==> s[..|s| - 1][i] == s[i];
      ScanStep(prefix, s[|s| - 1])
  }

  /** strconv.ParseUint(s, 0, 64), decimal subset */
  function ParseUint(s: string): (r: UintParse)
    ensures r.status == Ok ==> Canonical(s) && r.value == DecimalValue(s)
    ensures r.status == Syntax ==> r.value == 0
    ensures r.status == Range ==> r.value == MaxUint64
    ensures Canonical(s) ==>
              r == if DecimalValue(s) <= MaxUint64 then UintParse(Ok, DecimalValue(s)) else UintParse(Range, MaxUint64)
  {
    if s == "" then UintParse(Syntax, 0)
    else if s[0] == '0' && |s| > 1 then UintParse(Syntax, 0)
    else ScanDigits(s)
  }

  /** strconv.ParseInt(s, 0, 64), decimal subset: a sign, then ParseUint's digits, then the signed bounds. */
  function ParseInt(s: string): (r: IntParse)
    ensures r.status == Syntax ==> r.value == 0
    ensures r.status == Range ==> r.value == MaxInt64 || r.value == MinInt64
    ensures r.status == Ok && r.value < 0 ==> |s| > 0 && s[0] == '-'
    ensures r.status == Ok ==> Canonical(Unsigned(s)) && r.value == SignedValue(s)
    ensures Canonical(Unsigned(s)) ==>
              r == if SignedValue(s) > MaxInt64 then IntParse(Range, MaxInt64)
                   else if SignedValue(s) < MinInt64 then IntParse(Range, MinInt64)
                   else IntParse(Ok, SignedValue(s))
  {
    if s == "" then IntParse(Syntax, 0)
    else
      var neg := s[0] == '-';
      var body := Unsigned(s);
      var u := ParseUint(body);
      if u.status == Syntax then IntParse(Syntax, 0)
      else if !neg && u.value >= 0x8000_0000_0000_0000 then IntParse(Range, MaxInt64)
      else if neg && u.value > 0x8000_0000_0000_0000 then IntParse(Range, MinInt64)
      else IntParse(Ok, if neg then -(u.value as int) else u.value as int)
  }

  /** strconv.FormatUint(n, 10) */
  function FormatUint(n: nat): (s: string)
    ensures Canonical(s) && DecimalValue(s) == n
    ensures s[0] == '0' ==> n == 0
  {
    if n < 10 then [DigitChar(n)]
    else
      var s := FormatUint(n / 10) + [DigitChar(n % 10)];
      assert s[..|s| - 1] == FormatUint(n / 10);
      s
  }

  /** strconv.FormatInt(n, 10), strconv.Itoa */
  function FormatInt(n: int): (s: string)
    ensures Canonical(Unsigned(s)) && SignedValue(s) == n
    ensures s[0] == '-' <==> n < 0
  {
    if n < 0 then
      var s := "-" + FormatUint(-n);
      assert Unsigned(s) == FormatUint(-n);
      s
    else FormatUint(n)
  }

  /** strconv.ParseBool */
  function ParseBool(s: string): (r: BoolParse)
    ensures !r.ok ==> !r.value
  {
    if s in {"1", "t", "T", "TRUE", "true", "True"} then BoolParse(true, true)
    else if s in {"0", "f", "F", "FALSE", "false", "False"} then BoolParse(false, true)
    else BoolParse(false, false)
  }

  /** strconv.FormatBool */
  function FormatBool(b: bool): string
  {
    if b then "true" else "false"
  }

  /** The digit loop reads back the number FormatUint wrote. */
  lemma {:induction false} ScanFormatUint(n: nat)
    requires n <= MaxUint64
    ensures ScanDigits(FormatUint(n)) == UintParse(Ok, n)
  {
    var s := FormatUint(n);
    if n < 10 {
      assert s[..|s| - 1] == [];
    } else {
      ScanFormatUint(n / 10);
      assert s[..|s| - 1] == FormatUint(n / 10);
      assert s[|s| - 1] == DigitChar(n % 10);
    }
  }

  /** ParseUint inverts FormatUint on every 64-bit unsigned value. */
  lemma ParseFormatUint(n: Uint64)
    ensures ParseUint(FormatUint(n)) == UintParse(Ok, n)
  {
    ScanFormatUint(n);
  }

  /** ParseInt inverts FormatInt on every 64-bit signed value. */
  lemma ParseFormatInt(n: Int64)
    ensures ParseInt(FormatInt(n)) == IntParse(Ok, n)
  {
    var s := FormatInt(n);
    if n < 0 {
      ParseFormatUint(-(n as int));
      assert Unsigned(s) == FormatUint(-(n as int));
    } else {
      ParseFormatUint(n);
      assert Unsigned(s) == FormatUint(n);
    }
  }

  /** ParseBool inverts FormatBool. */
  lemma ParseFormatBool(b: bool)
    ensures ParseBool(FormatBool(b)) == BoolParse(b, true)
  {
  }
}
