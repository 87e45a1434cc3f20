/** The compiler's checks on components, dishes and recipes, and what a bundle that passes them guarantees. */
module ContentCompiler {
  import opened Basics
  import opened Text
  import opened ContentBundle

  // ---------------------------------------------------------------- derived facts

  /** A set-like list is sorted by code point without duplicates. */
  predicate Canonical(values: seq<string>) {
    values == SortedUnique(values)
  }

  predicate CanonicalTags(t: Tags) {
    Canonical(t.contains) && Canonical(t.mayContain) && Canonical(t.crossContact)
  }

  function Gathered(components: seq<Component>): Tags {
    if components == [] then Tags([], [], [])
    else
      var head, rest := components[0].tags, Gathered(components[1..]);
      Tags(head.contains + rest.contains, head.mayContain + rest.mayContain, head.crossContact + rest.crossContact)
  }

  function SortedTags(t: Tags): Tags {
    Tags(SortedUnique(t.contains), SortedUnique(t.mayContain), SortedUnique(t.crossContact))
  }

  datatype DishFacts = DishFacts(tags: Tags, noticeRequired: bool)

  function DeriveFacts(components: seq<Component>): DishFacts {
    DishFacts(SortedTags(Gathered(components)), exists i :: 0 <= i < |components| && components[i].noticeRequired)
  }

  predicate NoticeTreatment(t: Treatment) {
    t == Raw || t == Cured || t == Smoked || t == SurfaceSeared
  }

  predicate Includes(all: seq<string>, some: seq<string>) {
    forall x :: x in some ==> x in all
  }

  predicate IncludesTags(all: Tags, some: Tags) {
    Includes(all.contains, some.contains) && Includes(all.mayContain, some.mayContain) && Includes(all.crossContact, some.crossContact)
  }

  lemma {:induction false} GatheredIncludes(components: seq<Component>, c: Component)
    requires c in components
    ensures IncludesTags(Gathered(components), c.tags)
  {
    if c != components[0] {
      assert components == [components[0]] + components[1..];
      GatheredIncludes(components[1..], c);
    }
  }

  /** The facts hold every tag of every component, and nothing else. */
  lemma {:induction false} GatheredOnly(components: seq<Component>, x: string)
    ensures x in Gathered(components).contains ==> exists c :: c in components && x in c.tags.contains
    ensures x in Gathered(components).mayContain ==> exists c :: c in components && x in c.tags.mayContain
    ensures x in Gathered(components).crossContact ==> exists c :: c in components && x in c.tags.crossContact
  {
    if components != [] {
      assert components == [components[0]] + components[1..] && components[0] in components;
      GatheredOnly(components[1..], x);
    }
  }

  lemma SortedTagsInclude(t: Tags)
    ensures forall x :: x in SortedTags(t).contains <==> x in t.contains
    ensures forall x :: x in SortedTags(t).mayContain <==> x in t.mayContain
    ensures forall x :: x in SortedTags(t).crossContact <==> x in t.crossContact
  {
    SortedUniqueIsCanonical(t.contains);
    SortedUniqueIsCanonical(t.mayContain);
    SortedUniqueIsCanonical(t.crossContact);
  }

  // ---------------------------------------------------------------- signatures

  function RoleName(r: Role): string {
    match r
    case Binding => "binding"
    case Filling => "filling"
    case Garnish => "garnish"
    case Rice => "rice"
    case Topping => "topping"
    case Wrapper => "wrapper"
  }

  function Signature(p: Part): string {
    RoleName(p.role) + ":" + p.component
  }

  function Signatures(parts: seq<Part>): seq<string> {
    if parts == [] then [] else [Signature(parts[0])] + Signatures(parts[1..])
  }

  function Insert(x: string, s: seq<string>): seq<string> {
    if s == [] || !Less(s[0], x) then [x] + s else [s[0]] + Insert(x, s[1..])
  }

  /** `sort(compare)`, which keeps repetitions. */
  function Sorted(s: seq<string>): seq<string> {
    if s == [] then [] else Insert(s[0], Sorted(s[1..]))
  }

  predicate InOrder(s: seq<string>) {
    forall i, j :: 0 <= i < j < |s| ==> !Less(s[j], s[i])
  }

  lemma {:induction false} InsertKeeps(x: string, s: seq<string>)
    requires InOrder(s)
    ensures InOrder(Insert(x, s)) && multiset(Insert(x, s)) == multiset(s) + multiset{x}
  {
    if s == [] {
    } else if !Less(s[0], x) {
      forall j | 0 <= j < |s| ensures !Less(s[j], x) {
        assert j > 0 ==> !Less(s[j], s[0]);
        LessIsStrictOrder(s[j], x, s[0]);
        LessIsStrictOrder(x, s[0], s[j]);
      }
    } else {
      assert s == [s[0]] + s[1..];
      InsertKeeps(x, s[1..]);
      var r := Insert(x, s[1..]);
      LessIsStrictOrder(s[0], x, s[0]);
      forall j | 0 <= j < |r| ensures !Less(r[j], s[0]) {
        assert r[j] in multiset(r);
        assert r[j] == x || r[j] in s[1..];
      }
    }
  }

  lemma {:induction false} SortedKeeps(s: seq<string>)
    ensures InOrder(Sorted(s)) && multiset(Sorted(s)) == multiset(s)
  {
    if s != [] {
      SortedKeeps(s[1..]);
      InsertKeeps(s[0], Sorted(s[1..]));
      assert s == [s[0]] + s[1..];
    }
  }

  lemma HeadIsLeast(s: seq<string>, x: string)
    requires InOrder(s) && x in multiset(s)
    ensures s != [] && !Less(x, s[0])
  {
    assert x in s;
    var i :| 0 <= i < |s| && s[i] == x;
    LessIsStrictOrder(x, x, x);
    hide Less;
  }

  lemma Tail(s: seq<string>)
    requires InOrder(s) && s != []
    ensures InOrder(s[1..]) && multiset(s) == multiset(s[1..]) + multiset{s[0]}
  {
    hide Less;
    assert s == [s[0]] + s[1..];
  }

  /** One multiset has one sorted listing. */
  lemma {:induction false} InOrderIsUnique(a: seq<string>, b: seq<string>)
    requires InOrder(a) && InOrder(b) && multiset(a) == multiset(b)
    ensures a == b
  {
    hide Less, InOrder;
    if a == [] {
      assert |multiset(b)| == 0;
    } else {
      assert a[0] in multiset(a);
      HeadIsLeast(b, a[0]);
      assert b[0] in multiset(b);
      HeadIsLeast(a, b[0]);
      LessIsStrictOrder(a[0], b[0], a[0]);
      Tail(a);
      Tail(b);
      assert multiset(a[1..]) == multiset(a) - multiset{a[0]} && multiset(b[1..]) == multiset(b) - multiset{b[0]};
      InOrderIsUnique(a[1..], b[1..]);
      assert a == [a[0]] + a[1..] && b == [b[0]] + b[1..];
    }
  }

  lemma SortedAlike(a: seq<string>, b: seq<string>)
    ensures Sorted(a) == Sorted(b) <==> multiset(a) == multiset(b)
  {
    SortedKeeps(a);
    SortedKeeps(b);
    if multiset(a) == multiset(b) { InOrderIsUnique(Sorted(a), Sorted(b)); }
  }

  /** A signature tells its role and its component apart: no role name holds a colon. */
  lemma SignatureIsInjective(p: Part, q: Part)
    requires Signature(p) == Signature(q)
    ensures p == q
  {
    var a, b := RoleName(p.role), RoleName(q.role);
    var s := Signature(p);
    assert s[|a|] == ':' && s[|b|] == ':';
    assert |a| == |b|;
    assert s[..|a|] == a && s[..|b|] == b;
    assert s[|a| + 1..] == p.component && s[|b| + 1..] == q.component;
  }

  lemma {:induction false} SignaturesHold(parts: seq<Part>, s: string)
    ensures multiset(Signatures(parts))[s] > 0 <==> exists p :: p in parts && Signature(p) == s
    ensures forall p :: Signature(p) == s ==> multiset(Signatures(parts))[s] == multiset(parts)[p]
  {
    if parts != [] {
      SignaturesHold(parts[1..], s);
      assert parts == [parts[0]] + parts[1..];
      forall p | Signature(p) == s && Signature(parts[0]) == s ensures p == parts[0] { SignatureIsInjective(p, parts[0]); }
      hide Signature;
    }
  }

  /** The sorted signature lists agree exactly when the two part lists are the same multiset. */
  lemma SignaturesAgree(a: seq<Part>, b: seq<Part>)
    ensures Sorted(Signatures(a)) == Sorted(Signatures(b)) <==> multiset(a) == multiset(b)
  {
    SortedAlike(Signatures(a), Signatures(b));
    if multiset(a) == multiset(b) {
      forall s ensures multiset(Signatures(a))[s] == multiset(Signatures(b))[s] {
        SignaturesHold(a, s);
        SignaturesHold(b, s);
        if p :| p in a && Signature(p) == s { assert multiset(a)[p] == multiset(b)[p]; }
        if p :| p in b && Signature(p) == s { assert multiset(a)[p] == multiset(b)[p]; }
      }
      assert multiset(Signatures(a)) == multiset(Signatures(b));
    }
    if multiset(Signatures(a)) == multiset(Signatures(b)) {
      forall p ensures multiset(a)[p] == multiset(b)[p] {
        SignaturesHold(a, Signature(p));
        SignaturesHold(b, Signature(p));
      }
    }
  }
}
