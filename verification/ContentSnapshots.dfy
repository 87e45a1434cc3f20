/** What a snapshot holds and what a variant makes, row by row; and a bundle, a variant and a snapshot that exist. */
module ContentSnapshots {
  import opened Basics
  import opened Text
  import opened ContentBundle
  import opened ContentCompiler
  import opened ContentGuarantees
  import opened ContentVariants
  import opened SubstitutionGraph

  /** The first row with this key has this body. */
  predicate RowIs<T(==)>(rows: seq<Row<T>>, key: Key, body: T) {
    exists i :: 0 <= i < |rows| && rows[i] == Row(key, body) && forall j :: 0 <= j < i ==> rows[j].key != key
  }

  predicate HasRow<T>(rows: seq<Row<T>>, key: Key) {
    exists i :: 0 <= i < |rows| && rows[i].key == key
  }

  lemma {:induction false} LookupMeans<T>(rows: seq<Row<T>>, key: Key, body: T)
    ensures Lookup(rows, key) == Some(body) <==> RowIs(rows, key, body)
    ensures Known(rows, key) <==> HasRow(rows, key)
  {
    LookupFinds(rows, key);
    if rows != [] {
      var rest := rows[1..];
      LookupMeans(rest, key, body);
      if rows[0].key == key {
        assert rows[0] == Row(key, rows[0].body);
      } else {
        if RowIs(rest, key, body) {
          var i :| 0 <= i < |rest| && rest[i] == Row(key, body) && forall j :: 0 <= j < i ==> rest[j].key != key;
          assert rows[i + 1] == rest[i];
          forall j | 0 <= j < i + 1 ensures rows[j].key != key { if j > 0 { assert rows[j] == rest[j - 1]; } }
        }
        if RowIs(rows, key, body) {
          var i :| 0 <= i < |rows| && rows[i] == Row(key, body) && forall j :: 0 <= j < i ==> rows[j].key != key;
          assert i > 0 && rest[i - 1] == rows[i];
          forall j | 0 <= j < i - 1 ensures rest[j].key != key { assert rest[j] == rows[j + 1]; }
        }
      }
    }
  }

  // ---------------------------------------------------------------- snapshots

  /** One part: the amount as written, its component, and the ingredients that go into it, in order. */
  predicate HoldsPart(b: Bundle, amount: Part, p: PartSnapshot) {
    && p.part == amount && RowIs(b.components, amount.component, p.component)
    && RowIs(b.ingredients, p.component.ingredient, p.ingredient)
    && |p.preparations| == |p.component.preparations|
    && (forall i :: 0 <= i < |p.preparations| ==> RowIs(b.ingredients, p.component.preparations[i], p.preparations[i]))
    && (p.component.cutStyle.Some? ==> p.component.cutStyle.value in b.cutStyles)
  }

  /** The recipe, its dish and its parts, each the bundle's own row, with nothing it refers to missing. */
  predicate Holds(b: Bundle, key: Key, s: Snapshot) {
    && RowIs(b.recipes, key, s.recipe) && RowIs(b.dishes, s.recipe.dish, s.dish) && s.dish.family in b.families
    && |s.parts| == |s.recipe.amounts| && (forall i :: 0 <= i < |s.parts| ==> HoldsPart(b, s.recipe.amounts[i], s.parts[i]))
    && forall rule :: rule in s.recipe.rules ==> rule in b.rules
  }

  predicate AllRows(b: Bundle, keys: seq<Key>, rows: seq<Ingredient>) {
    |rows| == |keys| && forall i :: 0 <= i < |rows| ==> RowIs(b.ingredients, keys[i], rows[i])
  }

  lemma {:induction false} IngredientsMean(b: Bundle, keys: seq<Key>, rows: seq<Ingredient>)
    ensures Ingredients(b, keys) == Success(rows) <==> AllRows(b, keys, rows)
    decreases |keys|
  {
    if keys != [] && rows != [] {
      LookupMeans(b.ingredients, keys[0], rows[0]);
      IngredientsMean(b, keys[1..], rows[1..]);
      hide Lookup, RowIs;
      assert rows == [rows[0]] + rows[1..] && keys == [keys[0]] + keys[1..];
      if AllRows(b, keys, rows) {
        forall i | 0 <= i < |rows[1..]| ensures RowIs(b.ingredients, keys[1..][i], rows[1..][i]) { assert keys[1..][i] == keys[i + 1] && rows[1..][i] == rows[i + 1]; }
      }
      if AllRows(b, keys[1..], rows[1..]) && RowIs(b.ingredients, keys[0], rows[0]) {
        forall i | 0 <= i < |rows| ensures RowIs(b.ingredients, keys[i], rows[i]) {
          if i > 0 { assert keys[i] == keys[1..][i - 1] && rows[i] == rows[1..][i - 1]; }
        }
      }
    }
  }

  lemma PartMeans(b: Bundle, amount: Part, p: PartSnapshot)
    ensures SnapshotPart(b, amount) == Success(p) <==> HoldsPart(b, amount, p)
  {
    LookupMeans(b.components, amount.component, p.component);
    LookupMeans(b.ingredients, p.component.ingredient, p.ingredient);
    IngredientsMean(b, p.component.preparations, p.preparations);
    hide Lookup, RowIs, Ingredients;
  }

  predicate HoldsParts(b: Bundle, amounts: seq<Part>, parts: seq<PartSnapshot>) {
    |parts| == |amounts| && forall i :: 0 <= i < |parts| ==> HoldsPart(b, amounts[i], parts[i])
  }

  lemma {:induction false} PartsMean(b: Bundle, amounts: seq<Part>, parts: seq<PartSnapshot>)
    ensures SnapshotParts(b, amounts) == Success(parts) <==> HoldsParts(b, amounts, parts)
    decreases |amounts|
  {
    if amounts != [] && parts != [] {
      PartMeans(b, amounts[0], parts[0]);
      PartsMean(b, amounts[1..], parts[1..]);
      hide SnapshotPart, HoldsPart;
      assert parts == [parts[0]] + parts[1..] && amounts == [amounts[0]] + amounts[1..];
      if HoldsParts(b, amounts, parts) {
        forall i | 0 <= i < |parts[1..]| ensures HoldsPart(b, amounts[1..][i], parts[1..][i]) { assert amounts[1..][i] == amounts[i + 1] && parts[1..][i] == parts[i + 1]; }
      }
      if HoldsParts(b, amounts[1..], parts[1..]) && HoldsPart(b, amounts[0], parts[0]) {
        forall i | 0 <= i < |parts| ensures HoldsPart(b, amounts[i], parts[i]) {
          if i > 0 { assert amounts[i] == amounts[1..][i - 1] && parts[i] == parts[1..][i - 1]; }
        }
      }
    }
  }

  /** A snapshot is taken exactly when everything it must hold is there, and it is that. */
  lemma SnapshotExactly(b: Bundle, key: Key, s: Snapshot)
    ensures RecipeSnapshot(b, key) == Success(s) <==> Holds(b, key, s)
  {
    LookupMeans(b.recipes, key, s.recipe);
    LookupMeans(b.dishes, s.recipe.dish, s.dish);
    PartsMean(b, s.recipe.amounts, s.parts);
    NothingUnknown(s.recipe.rules, b.rules);
    assert AllIn(s.recipe.rules, b.rules) <==> forall rule :: rule in s.recipe.rules ==> rule in b.rules;
    hide Lookup, RowIs, SnapshotParts, FirstUnknown, AllIn, HoldsPart;
  }

  // ---------------------------------------------------------------- canonical lists

  /** A list counts as canonical exactly when it rises strictly. */
  lemma {:induction false} CanonicalMeans(values: seq<string>)
    ensures Canonical(values) <==> StrictlySorted(values)
  {
    SortedUniqueIsCanonical(values);
    if StrictlySorted(values) && values != [] {
      CanonicalMeans(values[1..]);
      assert StrictlySorted(values[1..]);
      if |values| > 1 { assert Less(values[0], values[1]) && values[1..][0] == values[1]; }
      hide Less, SortedUnique;
      SortedFirst(values);
    }
  }

  lemma SortedFirst(values: seq<string>)
    requires values != [] && SortedUnique(values[1..]) == values[1..] && (|values| > 1 ==> Less(values[0], values[1]))
    ensures SortedUnique(values) == values
  {
    assert values == [values[0]] + values[1..];
    hide Less;
  }

  // ---------------------------------------------------------------- variants

  /** Slot by slot: same role, and the component, or what replaces it. */
  predicate Swapped(subs: seq<Substitution>, parts: seq<Part>, made: seq<Part>) {
    |made| == |parts| && forall i :: 0 <= i < |parts| ==> SwappedPart(subs, parts[i], made[i])
  }

  predicate SwappedPart(subs: seq<Substitution>, before: Part, after: Part) {
    && after.role == before.role
    && (forall s :: s in subs && s.source == before.component ==> after.component == s.target)
    && ((forall s :: s in subs ==> s.source != before.component) ==> after.component == before.component)
  }

  predicate OncePerSource(subs: seq<Substitution>) {
    forall i, j :: 0 <= i < j < |subs| ==> subs[i].source != subs[j].source
  }

  /**
   * A variant of a recipe: real substitutions of inputs of the recipe by known components, one per source, and a dish
   * made, slot for slot, of the recipe's inputs with those replaced.
   */
  ghost predicate Makes(b: Bundle, v: Variant, recipe: Recipe, dish: Dish) {
    && RowIs(b.recipes, v.base, recipe) && RowIs(b.dishes, v.result, dish) && v.substitutions != [] && OncePerSource(v.substitutions)
    && (forall s :: s in v.substitutions ==> s.source != s.target && HasRow(b.components, s.target) && exists p :: p in recipe.amounts && p.component == s.source)
    && exists made :: Swapped(v.substitutions, recipe.amounts, made) && multiset(made) == multiset(dish.slots)
  }

  lemma {:induction false} ReplacementMeans(subs: seq<Substitution>, key: Key)
    requires OncePerSource(subs)
    ensures forall s :: s in subs && s.source == key ==> Replacement(subs, key) == s.target
    ensures (forall s :: s in subs ==> s.source != key) ==> Replacement(subs, key) == key
  {
    if subs != [] {
      var n := |subs| - 1;
      ReplacementMeans(subs[..n], key);
      assert subs == subs[..n] + [subs[n]];
      forall s | s in subs[..n] ensures s.source != subs[n].source {
        var i :| 0 <= i < n && subs[..n][i] == s;
        assert subs[i].source != subs[n].source;
      }
    }
  }

  lemma {:induction false} ExpandedIs(subs: seq<Substitution>, parts: seq<Part>, i: nat)
    requires i < |parts|
    ensures |Expanded(subs, parts)| == |parts| && Expanded(subs, parts)[i] == Part(parts[i].role, Replacement(subs, parts[i].component))
    decreases |parts|
  {
    if |parts| > 1 { ExpandedIs(subs, parts[1..], if i > 0 then i - 1 else 0); }
  }

  lemma ExpandedSwaps(subs: seq<Substitution>, parts: seq<Part>, made: seq<Part>)
    requires OncePerSource(subs)
    ensures Swapped(subs, parts, made) <==> made == Expanded(subs, parts)
  {
    var e := Expanded(subs, parts);
    if parts != [] { ExpandedIs(subs, parts, 0); }
    forall i | 0 <= i < |parts| && i < |made| ensures SwappedPart(subs, parts[i], made[i]) <==> made[i] == e[i] {
      ExpandedIs(subs, parts, i);
      ReplacementMeans(subs, parts[i].component);
      if s :| s in subs && s.source == parts[i].component { assert e[i].component == s.target; }
    }
    hide SwappedPart, Expanded;
  }

  lemma SubstitutionsMean(b: Bundle, v: Variant, recipe: Recipe)
    requires Lookup(b.recipes, v.base) == Some(recipe)
    ensures SubstitutionsOk(b, v, |v.substitutions|) <==>
      && OncePerSource(v.substitutions)
      && forall s :: s in v.substitutions ==> s.source != s.target && HasRow(b.components, s.target) && exists p :: p in recipe.amounts && p.component == s.source
  {
    var subs := v.substitutions;
    forall key ensures Known(b.components, key) <==> HasRow(b.components, key) { LookupFinds(b.components, key); }
    hide Lookup, HasRow;
    forall i | 0 <= i < |subs|
      ensures SubstitutionOk(b, v, i) <==>
        && (forall j :: 0 <= j < i ==> subs[j].source != subs[i].source)
        && subs[i].source != subs[i].target && HasRow(b.components, subs[i].target) && exists p :: p in recipe.amounts && p.component == subs[i].source
    {
      SourcesBefore(subs, i);
    }
    hide SubstitutionOk;
    if SubstitutionsOk(b, v, |subs|) {
      forall s | s in subs ensures s.source != s.target && HasRow(b.components, s.target) && exists p :: p in recipe.amounts && p.component == s.source {
        var i :| 0 <= i < |subs| && subs[i] == s;
      }
    }
  }

  lemma SourcesBefore(subs: seq<Substitution>, i: nat)
    requires i < |subs|
    ensures subs[i].source !in Sources(subs[..i]) <==> forall j :: 0 <= j < i ==> subs[j].source != subs[i].source
  {
    if subs[i].source in Sources(subs[..i]) {
      var s :| s in subs[..i] && s.source == subs[i].source;
      var j :| 0 <= j < i && subs[..i][j] == s;
    }
    if j :| 0 <= j < i && subs[j].source == subs[i].source { assert subs[..i][j] in subs[..i]; }
  }

  /** A variant passes exactly when it makes its dish out of its recipe. */
  lemma VariantExactly(b: Bundle, v: Variant)
    ensures VariantOk(b, v) <==> exists recipe, dish :: Makes(b, v, recipe, dish)
  {
    if Known(b.recipes, v.base) && Known(b.dishes, v.result) {
      VariantMakes(b, v, Lookup(b.recipes, v.base).value, Lookup(b.dishes, v.result).value);
    }
    if recipe, dish :| Makes(b, v, recipe, dish) {
      LookupMeans(b.recipes, v.base, recipe);
      LookupMeans(b.dishes, v.result, dish);
      hide Lookup, RowIs, Swapped, OncePerSource, HasRow;
      VariantMakes(b, v, recipe, dish);
    }
    hide Lookup, Makes, SubstitutionsOk, SameParts;
  }

  lemma VariantMakes(b: Bundle, v: Variant, recipe: Recipe, dish: Dish)
    requires Lookup(b.recipes, v.base) == Some(recipe) && Lookup(b.dishes, v.result) == Some(dish)
    ensures VariantOk(b, v) <==> Makes(b, v, recipe, dish)
  {
    LookupMeans(b.recipes, v.base, recipe);
    LookupMeans(b.dishes, v.result, dish);
    SubstitutionsMean(b, v, recipe);
    var expected := Expanded(v.substitutions, recipe.amounts);
    SignaturesAgree(expected, dish.slots);
    if OncePerSource(v.substitutions) {
      forall made ensures Swapped(v.substitutions, recipe.amounts, made) <==> made == expected { ExpandedSwaps(v.substitutions, recipe.amounts, made); }
    }
    hide Lookup, RowIs, Swapped, OncePerSource, HasRow, SubstitutionsOk, Expanded, Sorted, Signatures;
    if VariantOk(b, v) {
      assert Swapped(v.substitutions, recipe.amounts, expected) && multiset(expected) == multiset(dish.slots);
    }
    if Makes(b, v, recipe, dish) {
      var made :| Swapped(v.substitutions, recipe.amounts, made) && multiset(made) == multiset(dish.slots);
      assert made == expected;
    }
  }

  // ---------------------------------------------------------------- a bundle that passes

  const SESAME := Tags(["sesame"], [], [])
  const PRESS := Step("counter", "press")
  const SEED := Ingredient(SESAME)
  const BALL := Component("seed", [], None, Plant, false, SESAME, [PRESS])
  const PLATE := Dish("rolls", [Part(Rice, "ball")], SESAME, false)
  const METHOD := Recipe("plate", [Part(Rice, "ball")], [PRESS], "plate", [])

  function Sample(): Bundle {
    Bundle([Row("seed", SEED)], [], [Row("ball", BALL)], ["rolls"], [Row("plate", PLATE)], [Row("method", METHOD)], [])
  }

  lemma SampleTags()
    ensures CanonicalTags(SESAME) && SortedTags(SESAME) == SESAME
  {
    assert SortedUnique(["sesame"][1..]) == [];
    assert ["sesame"][1..] == [];
  }

  lemma SampleComponent()
    ensures ComponentOk(Sample(), BALL)
  {
    SampleTags();
    hide CanonicalTags;
  }

  lemma SampleDish()
    ensures DishOk(Sample(), PLATE)
  {
    SampleTags();
    var slots := [Part(Rice, "ball")];
    assert slots[1..] == [] && slots[0] in slots;
    assert Resolved(Sample(), slots) == [BALL];
    assert [BALL][1..] == [];
    assert Gathered([BALL]) == SESAME;
    hide CanonicalTags, SortedTags, Resolved, Gathered;
    assert !exists i :: 0 <= i < |[BALL]| && [BALL][i].noticeRequired;
  }

  lemma SampleRecipe()
    ensures RecipeOk(Sample(), METHOD)
  {
    assert EmbedsAt([PRESS], [PRESS], [0]);
    hide Sorted, Signatures;
  }

  /** Bundles that compile exist, and give snapshots. */
  lemma SampleCompiles()
    ensures Clean(Sample()) && RecipeSnapshot(Sample(), "method").Success?
  {
    SampleComponent();
    SampleDish();
    SampleRecipe();
    SnapshotNeverMisses(Sample(), "method");
    hide ComponentOk, DishOk, RecipeOk, RecipeSnapshot;
  }
}
