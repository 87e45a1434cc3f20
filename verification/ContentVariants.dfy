/** Variants of a recipe: finite substitutions of its components, and what the compiler's checks make of them. */
module ContentVariants {
  import opened Basics
  import opened ContentBundle
  import opened ContentCompiler
  import opened ContentGuarantees
  import opened SubstitutionGraph

  datatype Substitution = Substitution(source: Key, target: Key)

  datatype Variant = Variant(base: Key, result: Key, substitutions: seq<Substitution>)

  /** What stands in for a component; of several substitutions for one source the last counts. */
  function Replacement(subs: seq<Substitution>, key: Key): Key {
    if subs == [] then key
    else
      var last := |subs| - 1;
      if subs[last].source == key then subs[last].target else Replacement(subs[..last], key)
  }

  function Expanded(subs: seq<Substitution>, parts: seq<Part>): seq<Part> {
    if parts == [] then [] else [Part(parts[0].role, Replacement(subs, parts[0].component))] + Expanded(subs, parts[1..])
  }

  predicate InputOf(parts: seq<Part>, key: Key) {
    exists p :: p in parts && p.component == key
  }

  function Sources(subs: seq<Substitution>): set<Key> {
    set s | s in subs :: s.source
  }

  /** A real substitution of an input of the base recipe, the first for its source. */
  predicate SubstitutionOk(b: Bundle, v: Variant, i: nat)
    requires i < |v.substitutions|
  {
    var s := v.substitutions[i];
    && s.source != s.target && s.source !in Sources(v.substitutions[..i]) && Known(b.components, s.target)
    && (Known(b.recipes, v.base) ==> InputOf(Lookup(b.recipes, v.base).value.amounts, s.source))
  }

  predicate SubstitutionsOk(b: Bundle, v: Variant, n: nat)
    requires n <= |v.substitutions|
  {
    forall i :: 0 <= i < n ==> SubstitutionOk(b, v, i)
  }

  /** The resulting dish is made of the base recipe's inputs after substitution. */
  predicate VariantOk(b: Bundle, v: Variant) {
    && Known(b.recipes, v.base) && Known(b.dishes, v.result) && v.substitutions != [] && SubstitutionsOk(b, v, |v.substitutions|)
    && SameParts(Expanded(v.substitutions, Lookup(b.recipes, v.base).value.amounts), Lookup(b.dishes, v.result).value.slots)
  }

  predicate SameExpansion(v: Variant, w: Variant) {
    v.base == w.base && multiset(v.substitutions) == multiset(w.substitutions)
  }

  predicate DistinctExpansions(vs: seq<Variant>) {
    forall i, j :: 0 <= i < j < |vs| ==> !SameExpansion(vs[i], vs[j])
  }

  /** One more edge, unless it is there already. */
  function AddEdge(edges: Edges, s: Substitution): Edges {
    var known := Destinations(edges, s.source);
    edges[s.source := if s.target in known then known else known + [s.target]]
  }

  function AddEdges(edges: Edges, subs: seq<Substitution>): Edges {
    if subs == [] then edges else AddEdge(AddEdges(edges, subs[..|subs| - 1]), subs[|subs| - 1])
  }

  function EdgesOf(vs: seq<Variant>): Edges {
    if vs == [] then map[] else AddEdges(EdgesOf(vs[..|vs| - 1]), vs[|vs| - 1].substitutions)
  }

  predicate Offered(vs: seq<Variant>, s: Substitution) {
    exists v :: v in vs && s in v.substitutions
  }

  ghost predicate VariantsOk(b: Bundle, vs: seq<Variant>) {
    EachOk(b, vs) && DistinctExpansions(vs) && !HasCycle(EdgesOf(vs))
  }

  // ---------------------------------------------------------------- the compile pass over the variants

  lemma SourcesNext(subs: seq<Substitution>, i: nat)
    requires i < |subs|
    ensures Sources(subs[..i + 1]) == Sources(subs[..i]) + {subs[i].source}
  {
    assert subs[..i + 1] == subs[..i] + [subs[i]];
  }

  lemma ReplacementNext(subs: seq<Substitution>, i: nat, key: Key)
    requires i < |subs|
    ensures Replacement(subs[..i + 1], key) == if subs[i].source == key then subs[i].target else Replacement(subs[..i], key)
  {
    assert subs[..i + 1][..i] == subs[..i];
  }

  /** One pass over the substitutions fills the set of sources, the replacement table and the graph. */
  method WalkSubstitutions(b: Bundle, v: Variant, edges: Edges) returns (issues: nat, substituted: map<Key, Key>, grown: Edges)
    ensures issues == 0 <==> SubstitutionsOk(b, v, |v.substitutions|)
    ensures Tabulates(substituted, v.substitutions)
    ensures grown == AddEdges(edges, v.substitutions)
  {
    hide SubstitutionOk, Known, Lookup, InputOf, Sources, AddEdge;
    var seen: set<Key> := {};
    issues, substituted, grown := 0, map[], edges;
    var subs := v.substitutions;
    assert subs[..0] == [] && subs[..|subs|] == subs;
    NoSources();
    for i := 0 to |subs|
      invariant seen == Sources(subs[..i]) && grown == AddEdges(edges, subs[..i])
      invariant issues == 0 <==> SubstitutionsOk(b, v, i)
      invariant forall k :: (if k in substituted then substituted[k] else k) == Replacement(subs[..i], k)
    {
      var ok := CheckSubstitution(b, v, i, seen);
      if !ok { issues := issues + 1; }
      SourcesNext(subs, i);
      forall k ensures Replacement(subs[..i + 1], k) == if subs[i].source == k then subs[i].target else Replacement(subs[..i], k) { ReplacementNext(subs, i, k); }
      assert subs[..i + 1][..i] == subs[..i];
      seen := seen + {subs[i].source};
      substituted := substituted[subs[i].source := subs[i].target];
      grown := AddEdge(grown, subs[i]);
    }
  }

  lemma NoSources()
    ensures Sources([]) == {}
  {
  }

  method CheckSubstitution(b: Bundle, v: Variant, i: nat, seen: set<Key>) returns (ok: bool)
    requires i < |v.substitutions| && seen == Sources(v.substitutions[..i])
    ensures ok == SubstitutionOk(b, v, i)
  {
    hide Lookup, Sources, InputOf;
    var s := v.substitutions[i];
    ok := s.source != s.target && s.source !in seen && Known(b.components, s.target);
    if Known(b.recipes, v.base) && !InputOf(Lookup(b.recipes, v.base).value.amounts, s.source) { ok := false; }
  }

  /** The replacement table `substituted.get(key) ?? key`. */
  ghost predicate Tabulates(substituted: map<Key, Key>, subs: seq<Substitution>) {
    forall k :: (if k in substituted then substituted[k] else k) == Replacement(subs, k)
  }

  lemma ExpandedNext(subs: seq<Substitution>, parts: seq<Part>, i: nat)
    requires i < |parts|
    ensures Expanded(subs, parts[i..]) == [Part(parts[i].role, Replacement(subs, parts[i].component))] + Expanded(subs, parts[i + 1..])
  {
    assert parts[i..][1..] == parts[i + 1..];
  }

  /** The expected inputs, looked up in the replacement table one by one. */
  method Substitute(parts: seq<Part>, substituted: map<Key, Key>, ghost subs: seq<Substitution>) returns (expected: seq<Part>)
    requires Tabulates(substituted, subs)
    ensures expected == Expanded(subs, parts)
  {
    expected := [];
    assert parts[0..] == parts && parts[|parts|..] == [];
    assert Expanded(subs, []) == [];
    hide Replacement, Expanded;
    for i := 0 to |parts|
      invariant expected + Expanded(subs, parts[i..]) == Expanded(subs, parts)
    {
      var key := parts[i].component;
      ExpandedNext(subs, parts, i);
      expected := expected + [Part(parts[i].role, if key in substituted then substituted[key] else key)];
    }
  }

  method CheckVariant(b: Bundle, v: Variant, edges: Edges) returns (issues: nat, grown: Edges)
    ensures issues == 0 <==> VariantOk(b, v)
    ensures grown == AddEdges(edges, v.substitutions)
  {
    hide Lookup, SubstitutionsOk, SameParts, AddEdges, Replacement, Expanded;
    var substituted: map<Key, Key>;
    issues, substituted, grown := WalkSubstitutions(b, v, edges);
    if !Known(b.recipes, v.base) || !Known(b.dishes, v.result) || v.substitutions == [] { issues := issues + 1; }
    if Known(b.recipes, v.base) && Known(b.dishes, v.result) {
      var expected := Substitute(Lookup(b.recipes, v.base).value.amounts, substituted, v.substitutions);
      if !SameParts(expected, Lookup(b.dishes, v.result).value.slots) { issues := issues + 1; }
    }
  }

  /** The expansions met among the first variants. */
  function Expansions(vs: seq<Variant>): set<(Key, multiset<Substitution>)> {
    set v | v in vs :: ExpansionOf(v)
  }

  predicate EachOk(b: Bundle, vs: seq<Variant>) {
    forall v :: v in vs ==> VariantOk(b, v)
  }

  /** The first half of the pass: each variant on its own, the expansions seen so far, and the graph of them all. */
  method CheckVariants(b: Bundle, vs: seq<Variant>) returns (issues: nat, edges: Edges)
    ensures issues == 0 <==> EachOk(b, vs) && DistinctExpansions(vs)
    ensures edges == EdgesOf(vs)
  {
    issues, edges := 0, map[];
    var seen: set<(Key, multiset<Substitution>)> := {};
    assert vs[..|vs|] == vs && vs[..0] == [];
    hide VariantOk, AddEdges, EachOk, DistinctExpansions, Expansions;
    NoVariants(b);
    for i := 0 to |vs|
      invariant edges == EdgesOf(vs[..i]) && seen == Expansions(vs[..i])
      invariant issues == 0 <==> EachOk(b, vs[..i]) && DistinctExpansions(vs[..i])
    {
      var found: nat;
      VariantsNext(b, vs, i);
      found, edges := CheckVariant(b, vs[i], edges);
      issues := issues + found;
      if ExpansionOf(vs[i]) in seen { issues := issues + 1; }
      seen := seen + {ExpansionOf(vs[i])};
    }
  }

  lemma NoVariants(b: Bundle)
    ensures EachOk(b, []) && DistinctExpansions([]) && Expansions([]) == {}
  {
  }

  function ExpansionOf(v: Variant): (Key, multiset<Substitution>) {
    (v.base, multiset(v.substitutions))
  }

  lemma VariantsNext(b: Bundle, vs: seq<Variant>, i: nat)
    requires i < |vs|
    ensures EachOk(b, vs[..i + 1]) <==> EachOk(b, vs[..i]) && VariantOk(b, vs[i])
    ensures Expansions(vs[..i + 1]) == Expansions(vs[..i]) + {ExpansionOf(vs[i])}
    ensures DistinctExpansions(vs[..i + 1]) <==> DistinctExpansions(vs[..i]) && ExpansionOf(vs[i]) !in Expansions(vs[..i])
    ensures EdgesOf(vs[..i + 1]) == AddEdges(EdgesOf(vs[..i]), vs[i].substitutions)
  {
    hide VariantOk, AddEdges, DistinctExpansions, ExpansionOf, SameExpansion;
    assert vs[..i + 1] == vs[..i] + [vs[i]] && vs[..i + 1][..i] == vs[..i];
    ExpansionsNext(vs, i);
    ExpansionSeen(vs, i);
  }

  lemma ExpansionSeen(vs: seq<Variant>, i: nat)
    requires i < |vs|
    ensures ExpansionOf(vs[i]) in Expansions(vs[..i]) <==> exists j :: 0 <= j < i && SameExpansion(vs[j], vs[i])
  {
    if ExpansionOf(vs[i]) in Expansions(vs[..i]) {
      var v :| v in vs[..i] && ExpansionOf(v) == ExpansionOf(vs[i]);
      var j :| 0 <= j < |vs[..i]| && vs[..i][j] == v;
      assert SameExpansion(vs[j], vs[i]);
    }
    if j :| 0 <= j < i && SameExpansion(vs[j], vs[i]) { assert vs[..i][j] in vs[..i]; }
  }

  lemma ExpansionsNext(vs: seq<Variant>, i: nat)
    requires i < |vs|
    ensures DistinctExpansions(vs[..i + 1]) <==> DistinctExpansions(vs[..i]) && forall j :: 0 <= j < i ==> !SameExpansion(vs[j], vs[i])
  {
    hide SameExpansion;
    var longer, shorter := vs[..i + 1], vs[..i];
    assert forall j :: 0 <= j < i ==> longer[j] == shorter[j] == vs[j];
    assert longer[i] == vs[i];
  }

  /** The pass over the variants finds nothing exactly when each is sound, no two expand alike and no chain of substitutions closes. */
  method CompileVariants(b: Bundle, vs: seq<Variant>) returns (issues: nat)
    ensures issues == 0 <==> VariantsOk(b, vs)
  {
    hide EachOk, DistinctExpansions, EdgesOf, HasCycle;
    var edges: Edges;
    issues, edges := CheckVariants(b, vs);
    var cyclic := ReportsCycle(edges);
    if cyclic { issues := issues + 1; }
  }

  // ---------------------------------------------------------------- guarantees

  lemma {:induction false} EdgesAdded(edges: Edges, subs: seq<Substitution>, n: Key, d: Key)
    ensures d in Destinations(AddEdges(edges, subs), n) <==> d in Destinations(edges, n) || Substitution(n, d) in subs
  {
    if subs != [] {
      var front, last := subs[..|subs| - 1], subs[|subs| - 1];
      EdgesAdded(edges, front, n, d);
      assert subs == front + [last];
      var before, after := AddEdges(edges, front), AddEdge(AddEdges(edges, front), last);
      assert Destinations(after, n) == if n != last.source then Destinations(before, n)
        else if last.target in Destinations(before, n) then Destinations(before, n) else Destinations(before, n) + [last.target];
    }
  }

  /** The graph has an edge for exactly the substitutions some variant offers. */
  lemma {:induction false} EdgesAreOffers(vs: seq<Variant>, n: Key, d: Key)
    ensures d in Destinations(EdgesOf(vs), n) <==> Offered(vs, Substitution(n, d))
  {
    if vs != [] {
      var front, last := vs[..|vs| - 1], vs[|vs| - 1];
      assert vs == front + [last];
      EdgesAreOffers(front, n, d);
      EdgesAdded(EdgesOf(front), last.substitutions, n, d);
      hide AddEdges;
    }
  }

  predicate OfferedPath(vs: seq<Variant>, p: seq<Key>) {
    forall k :: 0 <= k < |p| - 1 ==> Offered(vs, Substitution(p[k], p[k + 1]))
  }

  lemma ReturnIsCycle(vs: seq<Variant>, p: seq<Key>, i: nat, j: nat)
    requires OfferedPath(vs, p) && i < j < |p| && p[i] == p[j]
    ensures HasCycle(EdgesOf(vs))
  {
    hide EdgesOf, Offered, Destinations;
    var loop := p[i..j + 1];
    forall k | 0 <= k < |loop| - 1 ensures loop[k + 1] in Destinations(EdgesOf(vs), loop[k]) {
      assert Offered(vs, Substitution(p[i + k], p[i + k + 1]));
      EdgesAreOffers(vs, loop[k], loop[k + 1]);
    }
    assert IsCycle(EdgesOf(vs), loop);
  }

  /** Substituting along the variants of a compiled bundle, in any combination, never comes back to a component. */
  lemma SubstitutionsNeverReturn(b: Bundle, vs: seq<Variant>, p: seq<Key>, i: nat, j: nat)
    requires VariantsOk(b, vs) && OfferedPath(vs, p) && i < j < |p|
    ensures p[i] != p[j]
  {
    hide EachOk, DistinctExpansions, EdgesOf, OfferedPath, HasCycle;
    if p[i] == p[j] { ReturnIsCycle(vs, p, i, j); }
  }

  lemma {:induction false} ReplacedBy(v: Variant, b: Bundle, n: nat, i: nat)
    requires i < n <= |v.substitutions| && SubstitutionsOk(b, v, n)
    ensures Replacement(v.substitutions[..n], v.substitutions[i].source) == v.substitutions[i].target
    decreases n
  {
    hide Known, Lookup, InputOf;
    var subs := v.substitutions;
    assert subs[..n][..n - 1] == subs[..n - 1];
    if i < n - 1 {
      assert SubstitutionOk(b, v, n - 1);
      assert subs[i] == subs[..n - 1][i] && subs[i].source in Sources(subs[..n - 1]);
      ReplacedBy(v, b, n - 1, i);
    }
  }

  lemma {:induction false} ExpandedHas(subs: seq<Substitution>, parts: seq<Part>, p: Part)
    requires p in parts
    ensures Part(p.role, Replacement(subs, p.component)) in Expanded(subs, parts)
  {
    hide Replacement;
    if p != parts[0] {
      assert parts == [parts[0]] + parts[1..];
      ExpandedHas(subs, parts[1..], p);
    }
  }

  /** The dish a variant results in is, slot for slot, the base recipe's inputs after substitution. */
  lemma VariantDish(b: Bundle, v: Variant, p: Part)
    requires VariantOk(b, v)
    ensures multiset(Lookup(b.dishes, v.result).value.slots) == multiset(Expanded(v.substitutions, Lookup(b.recipes, v.base).value.amounts))
    ensures p in Lookup(b.recipes, v.base).value.amounts ==>
      Part(p.role, Replacement(v.substitutions, p.component)) in Lookup(b.dishes, v.result).value.slots
  {
    hide Lookup, SubstitutionsOk, Expanded, Replacement;
    var expected, slots := Expanded(v.substitutions, Lookup(b.recipes, v.base).value.amounts), Lookup(b.dishes, v.result).value.slots;
    SignaturesAgree(expected, slots);
    if p in Lookup(b.recipes, v.base).value.amounts {
      ExpandedHas(v.substitutions, Lookup(b.recipes, v.base).value.amounts, p);
      assert Part(p.role, Replacement(v.substitutions, p.component)) in multiset(expected);
    }
  }

  /** Whatever a substitute brings along is declared: its ingredients' allergens and cross-contact tags are on the resulting dish. */
  lemma SubstituteIsDeclared(b: Bundle, v: Variant, i: nat, ingredient: Key)
    requires Clean(b) && VariantOk(b, v) && i < |v.substitutions| && Known(b.components, v.substitutions[i].target)
    requires var c := Lookup(b.components, v.substitutions[i].target).value; ingredient == c.ingredient || ingredient in c.preparations
    ensures Known(b.ingredients, ingredient)
    ensures IncludesTags(Lookup(b.dishes, v.result).value.tags, Lookup(b.ingredients, ingredient).value.base)
  {
    hide Clean, Lookup, IncludesTags, Expanded, Replacement, SameParts;
    var subs := v.substitutions;
    assert SubstitutionOk(b, v, i);
    var p :| p in Lookup(b.recipes, v.base).value.amounts && p.component == subs[i].source;
    assert subs[..|subs|] == subs;
    ReplacedBy(v, b, |subs|, i);
    VariantDish(b, v, p);
    IngredientReachesDish(b, v.result, Part(p.role, subs[i].target), ingredient);
  }
}
