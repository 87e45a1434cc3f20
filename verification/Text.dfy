/** String order by code unit, and the sorted duplicate-free list built from `new Set` and `sort`. */
module Text {

  predicate Less(a: string, b: string) {
    if b == "" then false
    else if a == "" then true
    else a[0] < b[0] || (a[0] == b[0] && Less(a[1..], b[1..]))
  }

  predicate StrictlySorted(s: seq<string>) {
    forall i, j :: 0 <= i < j < |s| ==> Less(s[i], s[j])
  }

  lemma {:induction false} LessIsStrictOrder(a: string, b: string, c: string)
    ensures !Less(a, a)
    ensures Less(a, b) || a == b || Less(b, a)
    ensures !(Less(a, b) && Less(b, a))
    ensures Less(a, b) && Less(b, c) ==> Less(a, c)
  {
    if a != "" && b != "" && c != "" {
      LessIsStrictOrder(a[1..], b[1..], c[1..]);
      assert a == [a[0]] + a[1..] && b == [b[0]] + b[1..];
    } else if a != "" && b != "" {
      LessIsStrictOrder(a[1..], b[1..], "");
      assert a == [a[0]] + a[1..] && b == [b[0]] + b[1..];
    } else if a != "" {
      LessIsStrictOrder(a[1..], "", "");
    }
  }

  lemma SameHead(a: string, b: string, k: nat)
    requires 0 < k <= |a| && k <= |b| && a[..k] == b[..k]
    ensures a[0] == b[0]
  {
    assert a[..k][0] == b[..k][0];
  }

  /** String order: at the first difference the smaller unit comes first, and a prefix before what it begins. */
  lemma {:induction false} LessMeans(a: string, b: string)
    ensures Less(a, b) <==> exists k: nat :: k <= |a| && k < |b| && a[..k] == b[..k] && (k == |a| || a[k] < b[k])
    decreases |a|
  {
    if b == "" {
    } else if a == "" {
      assert a[..0] == b[..0];
    } else {
      LessMeans(a[1..], b[1..]);
      forall k: nat | 0 < k <= |a| && k < |b| && a[..k] == b[..k] ensures a[0] == b[0] { SameHead(a, b, k); }
      if a[0] == b[0] {
        if k: nat :| k <= |a[1..]| && k < |b[1..]| && a[1..][..k] == b[1..][..k] && (k == |a[1..]| || a[1..][k] < b[1..][k]) {
          assert a[..k + 1] == [a[0]] + a[1..][..k] && b[..k + 1] == [b[0]] + b[1..][..k];
        }
        if k: nat :| k <= |a| && k < |b| && a[..k] == b[..k] && (k == |a| || a[k] < b[k]) {
          if k > 0 { assert a[1..][..k - 1] == a[..k][1..] && b[1..][..k - 1] == b[..k][1..]; }
        }
      } else {
        assert a[..0] == b[..0];
      }
    }
  }

  function InsertUnique(x: string, s: seq<string>): seq<string> {
    if s == [] || Less(x, s[0]) then [x] + s
    else if x == s[0] then s
    else [s[0]] + InsertUnique(x, s[1..])
  }

  function SortedUnique(s: seq<string>): seq<string> {
    if s == [] then [] else InsertUnique(s[0], SortedUnique(s[1..]))
  }

  lemma {:induction false} InsertUniqueSorts(x: string, s: seq<string>)
    requires StrictlySorted(s)
    ensures StrictlySorted(InsertUnique(x, s))
    ensures forall y :: y in InsertUnique(x, s) <==> y == x || y in s
  {
    if s != [] {
      LessIsStrictOrder(x, s[0], x);
      if Less(x, s[0]) {
        forall j | 0 <= j < |s| ensures Less(x, s[j]) { LessIsStrictOrder(x, s[0], s[j]); }
      } else if x != s[0] {
        InsertUniqueSorts(x, s[1..]);
        var r := InsertUnique(x, s[1..]);
        forall j | 0 <= j < |r| ensures Less(s[0], r[j]) { assert r[j] in r; }
        forall y ensures y in [s[0]] + r <==> y == x || y in s { assert s == [s[0]] + s[1..]; }
      }
    }
  }

  /** The list holds exactly the given members, each once, in order. */
  lemma {:induction false} SortedUniqueIsCanonical(s: seq<string>)
    ensures StrictlySorted(SortedUnique(s))
    ensures forall y :: y in SortedUnique(s) <==> y in s
  {
    if s != [] {
      SortedUniqueIsCanonical(s[1..]);
      InsertUniqueSorts(s[0], SortedUnique(s[1..]));
      assert s == [s[0]] + s[1..];
    }
  }

  lemma SortedMembersDiffer(s: seq<string>)
    requires StrictlySorted(s)
    ensures forall i, j :: 0 <= i < j < |s| ==> s[i] != s[j]
  {
    forall i, j | 0 <= i < j < |s| ensures s[i] != s[j] { LessIsStrictOrder(s[i], s[j], s[i]); }
  }
}
