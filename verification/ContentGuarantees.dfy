/** Compiling a bundle, and what holds of every bundle that compiles, across two levels of references. */
module ContentGuarantees {
  import opened Basics
  import opened Text
  import opened ContentBundle
  import opened ContentCompiler

  // ---------------------------------------------------------------- the checks

  predicate CarriesTags(b: Bundle, c: Component, ingredient: Key) {
    Known(b.ingredients, ingredient) && IncludesTags(c.tags, Lookup(b.ingredients, ingredient).value.base)
  }

  /** A component knows its ingredients, repeats none, carries all their tags, and declares its notice by treatment. */
  predicate ComponentOk(b: Bundle, c: Component) {
    && CarriesTags(b, c, c.ingredient) && (forall p :: p in c.preparations ==> p != c.ingredient && CarriesTags(b, c, p))
    && (c.cutStyle.Some? ==> c.cutStyle.value in b.cutStyles)
    && CanonicalTags(c.tags) && (c.noticeRequired <==> NoticeTreatment(c.treatment))
  }

  function Resolved(b: Bundle, parts: seq<Part>): seq<Component> {
    if parts == [] then []
    else (if Known(b.components, parts[0].component) then [Lookup(b.components, parts[0].component).value] else []) + Resolved(b, parts[1..])
  }

  predicate AllKnown(b: Bundle, parts: seq<Part>) {
    forall p :: p in parts ==> Known(b.components, p.component)
  }

  /** A dish's facts are exactly those derived from its components. */
  predicate DishOk(b: Bundle, d: Dish) {
    && d.family in b.families && AllKnown(b, d.slots) && CanonicalTags(d.tags)
    && DishFacts(d.tags, d.noticeRequired) == DeriveFacts(Resolved(b, d.slots))
  }

  ghost predicate StepsPresent(b: Bundle, r: Recipe, p: Part) {
    Known(b.components, p.component) && Embeds(r.stations, Lookup(b.components, p.component).value.steps)
  }

  predicate SameParts(a: seq<Part>, c: seq<Part>) {
    Sorted(Signatures(a)) == Sorted(Signatures(c))
  }

  predicate AllIn(keys: seq<Key>, known: seq<Key>) {
    forall k :: k in keys ==> k in known
  }

  /** A recipe makes its own dish from exactly the dish's parts, in an order that contains every component's steps. */
  ghost predicate RecipeOk(b: Bundle, r: Recipe) {
    && Known(b.dishes, r.dish) && r.result == r.dish && SameParts(r.amounts, Lookup(b.dishes, r.dish).value.slots)
    && r.stations != [] && (forall p :: p in r.amounts ==> StepsPresent(b, r, p))
    && AllIn(r.rules, b.rules)
  }

  ghost predicate Clean(b: Bundle) {
    && DistinctKeys(b.ingredients) && DistinctKeys(b.components) && DistinctKeys(b.dishes) && DistinctKeys(b.recipes)
    && (forall i :: 0 <= i < |b.components| ==> ComponentOk(b, b.components[i].body))
    && (forall i :: 0 <= i < |b.dishes| ==> DishOk(b, b.dishes[i].body))
    && (forall i :: 0 <= i < |b.recipes| ==> RecipeOk(b, b.recipes[i].body))
  }

  /** Every listed ingredient row is carried by the tags: the `every` over `every` of the three facts. */
  method CarriesAll(tags: Tags, rows: seq<Ingredient>) returns (carries: bool)
    ensures carries <==> forall r :: r in rows ==> IncludesTags(tags, r.base)
  {
    hide IncludesTags;
    for i := 0 to |rows|
      invariant forall j :: 0 <= j < i ==> IncludesTags(tags, rows[j].base)
    {
      if !IncludesTags(tags, rows[i].base) { assert rows[i] in rows; return false; }
    }
    return true;
  }

  /** What the walk over the preparation inputs has collected. */
  ghost predicate Collected(b: Bundle, c: Component, n: nat, rows: seq<Ingredient>, issues: nat)
    requires n <= |c.preparations|
  {
    && (issues == 0 <==> forall j :: 0 <= j < n ==> Known(b.ingredients, c.preparations[j]) && c.preparations[j] != c.ingredient)
    && (issues == 0 ==> forall r :: r in rows <==> exists j :: 0 <= j < n && r == Lookup(b.ingredients, c.preparations[j]).value)
  }

  /** Resolve the preparation inputs one by one, keeping the rows found. */
  method ResolvePreparations(b: Bundle, c: Component) returns (issues: nat, rows: seq<Ingredient>)
    ensures Collected(b, c, |c.preparations|, rows, issues)
  {
    hide Lookup;
    issues, rows := 0, [];
    for i := 0 to |c.preparations|
      invariant Collected(b, c, i, rows, issues)
    {
      if c.preparations[i] == c.ingredient { issues := issues + 1; }
      if Known(b.ingredients, c.preparations[i]) {
        rows := rows + [Lookup(b.ingredients, c.preparations[i]).value];
      } else {
        issues := issues + 1;
      }
    }
  }

  /** With every ingredient known, carrying the rows collected is carrying the ingredients named. */
  lemma CollectedCarries(b: Bundle, c: Component, rows: seq<Ingredient>)
    requires Collected(b, c, |c.preparations|, rows, 0) && Known(b.ingredients, c.ingredient)
    ensures (forall r :: r in [Lookup(b.ingredients, c.ingredient).value] + rows ==> IncludesTags(c.tags, r.base))
      <==> CarriesTags(b, c, c.ingredient) && forall p :: p in c.preparations ==> p != c.ingredient && CarriesTags(b, c, p)
  {
    hide Lookup, IncludesTags;
    var own := Lookup(b.ingredients, c.ingredient).value;
    var all := [own] + rows;
    assert own in all && forall r :: r in all <==> r == own || r in rows;
    forall p | p in c.preparations ensures p != c.ingredient && Known(b.ingredients, p) && Lookup(b.ingredients, p).value in rows {
      var j :| 0 <= j < |c.preparations| && c.preparations[j] == p;
    }
    forall r | r in rows ensures exists p :: p in c.preparations && Known(b.ingredients, p) && r == Lookup(b.ingredients, p).value {
      var j :| 0 <= j < |c.preparations| && r == Lookup(b.ingredients, c.preparations[j]).value;
      assert c.preparations[j] in c.preparations;
    }
  }

  /** The checks on one component: references, canonical tag lists, its notice, and its ingredients' facts. */
  method CheckComponent(b: Bundle, c: Component) returns (issues: nat)
    ensures issues == 0 <==> ComponentOk(b, c)
  {
    hide Lookup, CanonicalTags, NoticeTreatment, IncludesTags, Collected;
    var rows: seq<Ingredient>;
    issues, rows := ResolvePreparations(b, c);
    CollectedKnown(b, c, rows, issues);
    if c.cutStyle.Some? && c.cutStyle.value !in b.cutStyles { issues := issues + 1; }
    if !CanonicalTags(c.tags) { issues := issues + 1; }
    if Known(b.ingredients, c.ingredient) {
      if c.noticeRequired != NoticeTreatment(c.treatment) { issues := issues + 1; }
      if issues == 0 { CollectedCarries(b, c, rows); }
      var carries := CarriesAll(c.tags, [Lookup(b.ingredients, c.ingredient).value] + rows);
      if !carries { issues := issues + 1; }
    } else {
      issues := issues + 1;
    }
  }

  lemma CollectedKnown(b: Bundle, c: Component, rows: seq<Ingredient>, issues: nat)
    requires Collected(b, c, |c.preparations|, rows, issues)
    ensures issues == 0 <==> Collected(b, c, |c.preparations|, rows, 0)
    ensures issues != 0 ==> exists p :: p in c.preparations && (p == c.ingredient || !Known(b.ingredients, p))
  {
    hide Lookup;
    if issues != 0 {
      var j :| 0 <= j < |c.preparations| && !(Known(b.ingredients, c.preparations[j]) && c.preparations[j] != c.ingredient);
      assert c.preparations[j] in c.preparations;
    }
  }

  /** Resolve the slots one by one, keeping the components found. */
  method ResolveSlots(b: Bundle, slots: seq<Part>) returns (issues: nat, components: seq<Component>)
    ensures issues == 0 <==> AllKnown(b, slots)
    ensures components == Resolved(b, slots)
  {
    issues, components := 0, [];
    assert slots[..|slots|] == slots && slots[..0] == [];
    hide Known, Lookup;
    for i := 0 to |slots|
      invariant components == Resolved(b, slots[..i]) && (issues == 0 <==> AllKnown(b, slots[..i]))
    {
      ResolvedNext(b, slots, i);
      if Known(b.components, slots[i].component) {
        components := components + [KnownComponent(b, slots[i].component)];
      } else {
        issues := issues + 1;
      }
    }
  }

  function KnownComponent(b: Bundle, key: Key): Component
    requires Known(b.components, key)
  {
    Lookup(b.components, key).value
  }

  lemma {:induction false} ResolvedAppend(b: Bundle, parts: seq<Part>, p: Part)
    ensures Resolved(b, parts + [p]) == Resolved(b, parts) + if Known(b.components, p.component) then [KnownComponent(b, p.component)] else []
  {
    if parts == [] {
      assert [p][1..] == [] && parts + [p] == [p];
    } else {
      assert (parts + [p])[1..] == parts[1..] + [p];
      ResolvedAppend(b, parts[1..], p);
      hide Known, Lookup;
    }
  }

  lemma ResolvedNext(b: Bundle, slots: seq<Part>, i: nat)
    requires i < |slots|
    ensures Resolved(b, slots[..i + 1]) == Resolved(b, slots[..i]) + if Known(b.components, slots[i].component) then [KnownComponent(b, slots[i].component)] else []
    ensures AllKnown(b, slots[..i + 1]) <==> AllKnown(b, slots[..i]) && Known(b.components, slots[i].component)
  {
    hide Known, Lookup, Resolved, KnownComponent;
    assert slots[..i + 1] == slots[..i] + [slots[i]];
    ResolvedAppend(b, slots[..i], slots[i]);
  }

  /** The checks on one dish against the facts derived from the components found. */
  method CheckDish(b: Bundle, d: Dish) returns (issues: nat)
    ensures issues == 0 <==> DishOk(b, d)
  {
    hide AllKnown, CanonicalTags, Resolved, DeriveFacts;
    var components: seq<Component>;
    issues, components := ResolveSlots(b, d.slots);
    var facts := DeriveFacts(components);
    if d.family !in b.families { issues := issues + 1; }
    if !CanonicalTags(d.tags) { issues := issues + 1; }
    if d.tags.contains != facts.tags.contains || d.tags.mayContain != facts.tags.mayContain || d.tags.crossContact != facts.tags.crossContact {
      issues := issues + 1;
    }
    if d.noticeRequired != facts.noticeRequired { issues := issues + 1; }
  }

  method CheckRecipe(b: Bundle, r: Recipe) returns (issues: nat)
    ensures issues == 0 <==> RecipeOk(b, r)
  {
    issues := 0;
    if !Known(b.dishes, r.dish) || r.result != r.dish { issues := issues + 1; }
    else if !SameParts(r.amounts, Lookup(b.dishes, r.dish).value.slots) { issues := issues + 1; }
    if r.stations == [] || !AllIn(r.rules, b.rules) { issues := issues + 1; }
    var missing := CheckSteps(b, r);
    issues := issues + missing;
  }

  method CheckSteps(b: Bundle, r: Recipe) returns (issues: nat)
    ensures issues == 0 <==> forall p :: p in r.amounts ==> StepsPresent(b, r, p)
  {
    issues := 0;
    var i := 0;
    hide Embeds;
    while i < |r.amounts|
      invariant i <= |r.amounts| && (issues == 0 <==> forall j :: 0 <= j < i ==> StepsPresent(b, r, r.amounts[j]))
    {
      if Known(b.components, r.amounts[i].component) {
        var contained := ContainsOrderedSteps(r.stations, Lookup(b.components, r.amounts[i].component).value.steps);
        if !contained { issues := issues + 1; }
      } else {
        issues := issues + 1;
      }
      i := i + 1;
    }
    hide StepsPresent;
    assert forall p :: p in r.amounts <==> exists j :: 0 <= j < |r.amounts| && r.amounts[j] == p;
  }

  /** The compile pass: indexes, components, dishes, recipes, in that order; no issue exactly on clean bundles. */
  method Compile(b: Bundle) returns (issues: nat)
    ensures issues == 0 <==> Clean(b)
  {
    hide ComponentOk, DishOk, RecipeOk, DistinctKeys, Known, Lookup;
    var _, a := CreateIndex(b.ingredients);
    var _, c := CreateIndex(b.components);
    var _, d := CreateIndex(b.dishes);
    var _, r := CreateIndex(b.recipes);
    issues := a + c + d + r;
    ghost var keysOk := issues == 0;
    var i := 0;
    while i < |b.components|
      invariant i <= |b.components| && (issues == 0 <==> keysOk && forall j :: 0 <= j < i ==> ComponentOk(b, b.components[j].body))
    {
      var found := CheckComponent(b, b.components[i].body);
      issues := issues + found;
      i := i + 1;
    }
    ghost var componentsOk := issues == 0;
    i := 0;
    while i < |b.dishes|
      invariant i <= |b.dishes| && (issues == 0 <==> componentsOk && forall j :: 0 <= j < i ==> DishOk(b, b.dishes[j].body))
    {
      var found := CheckDish(b, b.dishes[i].body);
      issues := issues + found;
      i := i + 1;
    }
    ghost var dishesOk := issues == 0;
    i := 0;
    while i < |b.recipes|
      invariant i <= |b.recipes| && (issues == 0 <==> dishesOk && forall j :: 0 <= j < i ==> RecipeOk(b, b.recipes[j].body))
    {
      var found := CheckRecipe(b, b.recipes[i].body);
      issues := issues + found;
      i := i + 1;
    }
  }

  // ---------------------------------------------------------------- guarantees

  lemma KnownComponentOk(b: Bundle, key: Key)
    requires Clean(b) && Known(b.components, key)
    ensures ComponentOk(b, Lookup(b.components, key).value)
  {
    LookupFinds(b.components, key);
    hide ComponentOk, DishOk, RecipeOk, DistinctKeys, Known, Lookup;
  }

  lemma KnownDishOk(b: Bundle, key: Key)
    requires Clean(b) && Known(b.dishes, key)
    ensures DishOk(b, Lookup(b.dishes, key).value)
  {
    LookupFinds(b.dishes, key);
    hide ComponentOk, DishOk, RecipeOk, DistinctKeys, Known, Lookup;
  }

  lemma KnownRecipeOk(b: Bundle, key: Key)
    requires Clean(b) && Known(b.recipes, key)
    ensures RecipeOk(b, Lookup(b.recipes, key).value)
  {
    LookupFinds(b.recipes, key);
    hide ComponentOk, DishOk, RecipeOk, DistinctKeys, Known, Lookup;
  }

  lemma {:induction false} ResolvedIs(b: Bundle, parts: seq<Part>)
    ensures forall c :: c in Resolved(b, parts) <==> exists p :: p in parts && Known(b.components, p.component) && Lookup(b.components, p.component).value == c
  {
    if parts != [] {
      assert parts == [parts[0]] + parts[1..] && parts[0] in parts;
      ResolvedIs(b, parts[1..]);
      hide Known, Lookup;
    }
  }

  lemma IncludesChain(a: Tags, b: Tags, c: Tags)
    requires IncludesTags(a, b) && IncludesTags(b, c)
    ensures IncludesTags(a, c)
  {
  }

  /** A dish that passes holds every tag of every component it uses. */
  lemma DishHoldsComponent(b: Bundle, d: Dish, p: Part)
    requires DishOk(b, d) && p in d.slots
    ensures Known(b.components, p.component) && IncludesTags(d.tags, Lookup(b.components, p.component).value.tags)
  {
    var components, c := Resolved(b, d.slots), Lookup(b.components, p.component).value;
    ResolvedIs(b, d.slots);
    assert c in components;
    GatheredIncludes(components, c);
    SortedTagsInclude(Gathered(components));
    hide Resolved, Gathered, SortedTags, Known, Lookup, Canonical;
  }

  /** Every allergen and cross-contact tag of every primary or preparation ingredient reaches every dish that uses it. */
  lemma IngredientReachesDish(b: Bundle, dish: Key, p: Part, ingredient: Key)
    requires Clean(b) && Known(b.dishes, dish) && p in Lookup(b.dishes, dish).value.slots && Known(b.components, p.component)
    requires var c := Lookup(b.components, p.component).value; ingredient == c.ingredient || ingredient in c.preparations
    ensures Known(b.ingredients, ingredient)
    ensures IncludesTags(Lookup(b.dishes, dish).value.tags, Lookup(b.ingredients, ingredient).value.base)
  {
    var d, c := Lookup(b.dishes, dish).value, Lookup(b.components, p.component).value;
    KnownDishOk(b, dish);
    KnownComponentOk(b, p.component);
    DishHoldsComponent(b, d, p);
    assert CarriesTags(b, c, ingredient);
    IncludesChain(d.tags, c.tags, Lookup(b.ingredients, ingredient).value.base);
    hide Clean, DishOk, IncludesTags, Known, Lookup;
  }

  /** No tag of a dish is invented: each comes from one of its components. */
  lemma DishTagHasSource(b: Bundle, d: Dish, x: string)
    requires DishOk(b, d)
    ensures x in d.tags.contains ==> exists p :: p in d.slots && Known(b.components, p.component) && x in Lookup(b.components, p.component).value.tags.contains
    ensures x in d.tags.mayContain ==> exists p :: p in d.slots && Known(b.components, p.component) && x in Lookup(b.components, p.component).value.tags.mayContain
    ensures x in d.tags.crossContact ==> exists p :: p in d.slots && Known(b.components, p.component) && x in Lookup(b.components, p.component).value.tags.crossContact
  {
    var components := Resolved(b, d.slots);
    SortedTagsInclude(Gathered(components));
    GatheredOnly(components, x);
    ResolvedIs(b, d.slots);
    hide Resolved, Gathered, SortedTags, Known, Lookup, Canonical;
  }

  /** A dish carries the raw notice exactly when some component of it was treated in a way that requires one. */
  lemma RawNoticeIsExact(b: Bundle, dish: Key)
    requires Clean(b) && Known(b.dishes, dish)
    ensures var d := Lookup(b.dishes, dish).value;
      d.noticeRequired <==>
        exists p | p in d.slots && Known(b.components, p.component) :: Lookup(b.components, p.component).value.treatment in {Raw, Cured, Smoked, SurfaceSeared}
  {
    var d := Lookup(b.dishes, dish).value;
    var components := Resolved(b, d.slots);
    KnownDishOk(b, dish);
    ResolvedIs(b, d.slots);
    forall p | p in d.slots && Known(b.components, p.component)
      ensures Lookup(b.components, p.component).value.noticeRequired <==> NoticeTreatment(Lookup(b.components, p.component).value.treatment)
    {
      KnownComponentOk(b, p.component);
      hide Clean, Known, Lookup, CarriesTags, CanonicalTags;
    }
    assert d.noticeRequired <==> exists c :: c in components && c.noticeRequired;
    hide Clean, Resolved, Known, Lookup, DishOk, NoticeTreatment;
  }

  /** Recipe inputs and dish slots are the same multiset, and each component's steps occur in order in the recipe. */
  lemma RecipeMatchesDish(b: Bundle, recipe: Key)
    requires Clean(b) && Known(b.recipes, recipe)
    ensures var r := Lookup(b.recipes, recipe).value;
      && Known(b.dishes, r.dish) && multiset(r.amounts) == multiset(Lookup(b.dishes, r.dish).value.slots)
      && forall p :: p in r.amounts ==> Known(b.components, p.component) && Embeds(r.stations, Lookup(b.components, p.component).value.steps)
  {
    var r := Lookup(b.recipes, recipe).value;
    KnownRecipeOk(b, recipe);
    SignaturesAgree(r.amounts, Lookup(b.dishes, r.dish).value.slots);
    hide Clean, Known, Lookup, Embeds, Sorted, Signatures;
  }

  /** Whatever goes into a recipe, its tags are on the dish the recipe makes. */
  lemma RecipeTagsReachDish(b: Bundle, recipe: Key, p: Part, ingredient: Key)
    requires Clean(b) && Known(b.recipes, recipe) && p in Lookup(b.recipes, recipe).value.amounts && Known(b.components, p.component)
    requires var c := Lookup(b.components, p.component).value; ingredient == c.ingredient || ingredient in c.preparations
    ensures var r := Lookup(b.recipes, recipe).value;
      && Known(b.dishes, r.dish) && Known(b.ingredients, ingredient)
      && IncludesTags(Lookup(b.dishes, r.dish).value.tags, Lookup(b.ingredients, ingredient).value.base)
  {
    RecipeMatchesDish(b, recipe);
    var r := Lookup(b.recipes, recipe).value;
    hide Clean, IncludesTags, Embeds;
    assert p in multiset(r.amounts);
    assert p in multiset(Lookup(b.dishes, r.dish).value.slots);
    IngredientReachesDish(b, r.dish, p, ingredient);
    hide Known, Lookup;
  }

  // ---------------------------------------------------------------- snapshots

  datatype PartSnapshot = PartSnapshot(part: Part, component: Component, ingredient: Ingredient, preparations: seq<Ingredient>)

  datatype Snapshot = Snapshot(recipe: Recipe, dish: Dish, parts: seq<PartSnapshot>)

  /** Each lookup must find its row; the first that does not is the failure. */
  function Ingredients(b: Bundle, keys: seq<Key>): Result<seq<Ingredient>, Key> {
    if keys == [] then Success([])
    else
      var head := Lookup(b.ingredients, keys[0]);
      if head.None? then Failure(keys[0])
      else
        match Ingredients(b, keys[1..])
        case Failure(k) => Failure(k)
        case Success(rest) => Success([head.value] + rest)
  }

  function SnapshotPart(b: Bundle, p: Part): Result<PartSnapshot, Key> {
    var c := Lookup(b.components, p.component);
    if c.None? then Failure(p.component)
    else
      var ingredient := Lookup(b.ingredients, c.value.ingredient);
      if ingredient.None? then Failure(c.value.ingredient)
      else
        match Ingredients(b, c.value.preparations)
        case Failure(k) => Failure(k)
        case Success(preparations) =>
          if c.value.cutStyle.Some? && c.value.cutStyle.value !in b.cutStyles then Failure(c.value.cutStyle.value)
          else Success(PartSnapshot(p, c.value, ingredient.value, preparations))
  }

  function SnapshotParts(b: Bundle, parts: seq<Part>): Result<seq<PartSnapshot>, Key> {
    if parts == [] then Success([])
    else
      match SnapshotPart(b, parts[0])
      case Failure(k) => Failure(k)
      case Success(head) =>
        match SnapshotParts(b, parts[1..])
        case Failure(k) => Failure(k)
        case Success(rest) => Success([head] + rest)
  }

  function FirstUnknown(keys: seq<Key>, known: seq<Key>): Option<Key> {
    if keys == [] then None else if keys[0] !in known then Some(keys[0]) else FirstUnknown(keys[1..], known)
  }

  function RecipeSnapshot(b: Bundle, key: Key): Result<Snapshot, Key> {
    var recipe := Lookup(b.recipes, key);
    if recipe.None? then Failure(key)
    else
      var dish := Lookup(b.dishes, recipe.value.dish);
      if dish.None? then Failure(recipe.value.dish)
      else if dish.value.family !in b.families then Failure(dish.value.family)
      else
        match SnapshotParts(b, recipe.value.amounts)
        case Failure(k) => Failure(k)
        case Success(parts) =>
          var unknown := FirstUnknown(recipe.value.rules, b.rules);
          if unknown.Some? then Failure(unknown.value) else Success(Snapshot(recipe.value, dish.value, parts))
  }

  lemma {:induction false} IngredientsFound(b: Bundle, keys: seq<Key>)
    requires forall k :: k in keys ==> Known(b.ingredients, k)
    ensures Ingredients(b, keys).Success?
  {
    if keys != [] {
      assert keys[0] in keys && Known(b.ingredients, keys[0]);
      IngredientsFound(b, keys[1..]);
    }
  }

  lemma {:induction false} PartsFound(b: Bundle, parts: seq<Part>)
    requires Clean(b) && AllKnown(b, parts)
    ensures SnapshotParts(b, parts).Success?
  {
    if parts != [] {
      KnownComponentOk(b, parts[0].component);
      var c := Lookup(b.components, parts[0].component).value;
      IngredientsFound(b, c.preparations);
      PartsFound(b, parts[1..]);
      hide Clean, Ingredients, Lookup, CanonicalTags, IncludesTags;
    }
  }

  lemma AllInFirst(keys: seq<Key>, known: seq<Key>)
    requires keys != []
    ensures AllIn(keys, known) <==> keys[0] in known && AllIn(keys[1..], known)
  {
    assert keys == [keys[0]] + keys[1..] && keys[0] in keys;
  }

  lemma {:induction false} NothingUnknown(keys: seq<Key>, known: seq<Key>)
    ensures FirstUnknown(keys, known).None? <==> AllIn(keys, known)
  {
    if keys != [] {
      NothingUnknown(keys[1..], known);
      AllInFirst(keys, known);
      hide AllIn;
    }
  }

  /** Taking a snapshot of a compiled bundle fails only for a recipe the bundle does not have. */
  lemma SnapshotNeverMisses(b: Bundle, key: Key)
    requires Clean(b)
    ensures RecipeSnapshot(b, key).Failure? <==> !Known(b.recipes, key)
    ensures RecipeSnapshot(b, key).Failure? ==> RecipeSnapshot(b, key).error == key
  {
    if Known(b.recipes, key) {
      var r := Lookup(b.recipes, key).value;
      KnownRecipeOk(b, key);
      KnownDishOk(b, r.dish);
      assert AllKnown(b, r.amounts);
      PartsFound(b, r.amounts);
      NothingUnknown(r.rules, b.rules);
      hide Clean, Lookup, SnapshotParts, FirstUnknown, Embeds, SameParts, CanonicalTags, DeriveFacts;
    }
  }
}
