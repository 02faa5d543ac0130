/** Small shared definitions: an optional value and a few text and search helpers. */
module Base {

  datatype Option<+T> = None | Some(value: T)

  /** strings.HasPrefix */
  predicate HasPrefix(s: string, prefix: string) {
    |prefix| <= |s| && s[..|prefix|] == prefix
  }

  /** strings.HasSuffix */
  predicate HasSuffix(s: string, suffix: string) {
    |suffix| <= |s| && s[|s| - |suffix|..] == suffix
  }

  /** The elements of a sequence, as a set. */
  function Elements(s: seq<string>): set<string>
  {
    set x | x in s
  }

  /** strings.Join */
  function Join(parts: seq<string>, sep: string): string
  {
    if |parts| == 0 then ""
    else if |parts| == 1 then parts[0]
    else parts[0] + sep + Join(parts[1..], sep)
  }

  /** Extending a prefix by one element adds that element to its set. */
  lemma ElementsPrefix(s: seq<string>, i: nat)
    requires i < |s|
    ensures Elements(s[..i + 1]) == Elements(s[..i]) + {s[i]}
  {
    assert s[..i + 1] == s[..i] + [s[i]];
  }

  /** The first position at or after from where s holds c, or |s| when there is none. */
  function IndexFrom(s: string, c: char, from: nat): (k: nat)
    requires from <= |s|
    ensures from <= k <= |s|
    ensures forall j :: from <= j < k ==> s[j] != c
    ensures k < |s| ==> s[k] == c
    decreases |s| - from
  {
    if from == |s| || s[from] == c then from else IndexFrom(s, c, from + 1)
  }

  /** IndexFrom is the first match: any k with no c before it from from on, at a c or the end, is it. */
  lemma {:induction false} IndexFromFirst(s: string, c: char, from: nat, k: nat)
    requires from <= k <= |s|
    requires forall j :: from <= j < k ==> s[j] != c
    requires k == |s| || s[k] == c
    ensures IndexFrom(s, c, from) == k
    decreases k - from
  {
    if from < k {
      IndexFromFirst(s, c, from + 1, k);
    }
  }

  /** Join with one more part at the end: the separator and that part are appended. */
  lemma {:induction false} JoinSnoc(parts: seq<string>, x: string, sep: string)
    requires |parts| > 0
    ensures Join(parts + [x], sep) == Join(parts, sep) + sep + x
    decreases |parts|
  {
    if |parts| > 1 {
      JoinSnoc(parts[1..], x, sep);
      assert (parts + [x])[1..] == parts[1..] + [x];
    } else {
      assert (parts + [x])[1..] == [x];
    }
  }
}
