/** A clean bundle, row by row: what the compiler's checks on components, dishes and recipes come to. */
module ContentClean {
  import opened Basics
  import opened Text
  import opened ContentBundle
  import opened ContentCompiler
  import opened ContentGuarantees
  import opened ContentSnapshots

  ghost predicate KeysDiffer<T>(rows: seq<Row<T>>) {
    forall i, j :: 0 <= i < j < |rows| ==> rows[i].key != rows[j].key
  }

  predicate RisingTags(t: Tags) {
    StrictlySorted(t.contains) && StrictlySorted(t.mayContain) && StrictlySorted(t.crossContact)
  }

  /** The ingredient has a row, and each of its three kinds of tags is on the component. */
  ghost predicate Carried(b: Bundle, c: Component, key: Key) {
    exists row | RowIs(b.ingredients, key, row) ::
      && (forall x :: x in row.base.contains ==> x in c.tags.contains)
      && (forall x :: x in row.base.mayContain ==> x in c.tags.mayContain)
      && (forall x :: x in row.base.crossContact ==> x in c.tags.crossContact)
  }

  ghost predicate Prepared(b: Bundle, c: Component) {
    && Carried(b, c, c.ingredient) && (forall key :: key in c.preparations ==> key != c.ingredient && Carried(b, c, key))
    && (c.cutStyle == None || exists style :: style in b.cutStyles && c.cutStyle == Some(style))
    && RisingTags(c.tags)
    && (c.noticeRequired <==> c.treatment in {Raw, Cured, Smoked, SurfaceSeared})
  }

  /** Component `c` is in one of the dish's slots. */
  ghost predicate Slotted(b: Bundle, d: Dish, c: Component) {
    exists p :: p in d.slots && RowIs(b.components, p.component, c)
  }

  /** Every slot's component has a row, and the dish's tags and notice are those of its components together. */
  ghost predicate Assembled(b: Bundle, d: Dish) {
    && d.family in b.families && (forall p :: p in d.slots ==> HasRow(b.components, p.component)) && RisingTags(d.tags)
    && (forall x :: x in d.tags.contains <==> exists c :: Slotted(b, d, c) && x in c.tags.contains)
    && (forall x :: x in d.tags.mayContain <==> exists c :: Slotted(b, d, c) && x in c.tags.mayContain)
    && (forall x :: x in d.tags.crossContact <==> exists c :: Slotted(b, d, c) && x in c.tags.crossContact)
    && (d.noticeRequired <==> exists c :: Slotted(b, d, c) && c.noticeRequired)
  }

  /** The recipe makes its own dish, of that dish's parts, in an order that has each part's steps one after another. */
  ghost predicate Cooked(b: Bundle, r: Recipe) {
    && (exists dish :: RowIs(b.dishes, r.dish, dish) && multiset(r.amounts) == multiset(dish.slots)) && r.result == r.dish && r.stations != []
    && (forall p :: p in r.amounts ==> StepsInOrder(b, r, p)) && forall rule :: rule in r.rules ==> rule in b.rules
  }

  ghost predicate StepsInOrder(b: Bundle, r: Recipe, p: Part) {
    exists c :: RowIs(b.components, p.component, c) && Embeds(r.stations, c.steps)
  }

  lemma CarriedMeans(b: Bundle, c: Component, key: Key)
    ensures Carried(b, c, key) <==> CarriesTags(b, c, key)
  {
    forall row: Ingredient ensures RowIs(b.ingredients, key, row) <==> Lookup(b.ingredients, key) == Some(row) { LookupMeans(b.ingredients, key, row); }
    hide RowIs, Lookup;
  }

  lemma RisingMeans(t: Tags)
    ensures RisingTags(t) <==> CanonicalTags(t)
  {
    CanonicalMeans(t.contains);
    CanonicalMeans(t.mayContain);
    CanonicalMeans(t.crossContact);
    hide StrictlySorted, Canonical;
  }

  lemma ComponentExactly(b: Bundle, c: Component)
    ensures ComponentOk(b, c) <==> Prepared(b, c)
  {
    forall key: Key ensures Carried(b, c, key) <==> CarriesTags(b, c, key) { CarriedMeans(b, c, key); }
    RisingMeans(c.tags);
    hide Carried, CarriesTags, RisingTags, CanonicalTags;
  }

  // ---------------------------------------------------------------- dishes

  /** Rising lists with the same members are the same list. */
  lemma {:induction false} RisingSame(s: seq<string>, t: seq<string>)
    requires StrictlySorted(s) && StrictlySorted(t) && forall x :: x in s <==> x in t
    ensures s == t
    decreases |s|
  {
    assert t != [] ==> t[0] in t;
    if s != [] {
      assert s[0] in t;
      SameFirst(s, t);
      RestOf(s);
      RestOf(t);
      RisingSame(s[1..], t[1..]);
      assert s == [s[0]] + s[1..] && t == [t[0]] + t[1..];
    }
  }

  lemma SameFirst(s: seq<string>, t: seq<string>)
    requires StrictlySorted(s) && StrictlySorted(t) && s != [] && t != [] && s[0] in t && t[0] in s
    ensures s[0] == t[0]
  {
    LessIsStrictOrder(s[0], t[0], s[0]);
    hide Less;
  }

  lemma RestOf(s: seq<string>)
    requires StrictlySorted(s) && s != []
    ensures StrictlySorted(s[1..]) && forall x :: x in s[1..] <==> x in s && x != s[0]
  {
    SortedMembersDiffer(s);
    assert s == [s[0]] + s[1..];
    hide Less;
  }

  lemma ResolvedHolds(b: Bundle, d: Dish, c: Component)
    ensures c in Resolved(b, d.slots) <==> Slotted(b, d, c)
  {
    ResolvedIs(b, d.slots);
    forall p: Part ensures RowIs(b.components, p.component, c) <==> Lookup(b.components, p.component) == Some(c) { LookupMeans(b.components, p.component, c); }
    hide RowIs, Lookup, Resolved;
  }

  /** The tags gathered from a list of components, kind by kind. */
  lemma GatheredMeans(cs: seq<Component>)
    ensures forall x :: x in Gathered(cs).contains <==> exists c :: c in cs && x in c.tags.contains
    ensures forall x :: x in Gathered(cs).mayContain <==> exists c :: c in cs && x in c.tags.mayContain
    ensures forall x :: x in Gathered(cs).crossContact <==> exists c :: c in cs && x in c.tags.crossContact
  {
    forall c | c in cs ensures IncludesTags(Gathered(cs), c.tags) { GatheredIncludes(cs, c); }
    hide Gathered;
    forall x
      ensures x in Gathered(cs).contains ==> exists c :: c in cs && x in c.tags.contains
      ensures x in Gathered(cs).mayContain ==> exists c :: c in cs && x in c.tags.mayContain
      ensures x in Gathered(cs).crossContact ==> exists c :: c in cs && x in c.tags.crossContact
    {
      GatheredOnly(cs, x);
    }
  }

  /** One kind of tags is the derived list exactly when it rises and has its members. */
  lemma DerivedList(tags: seq<string>, gathered: seq<string>)
    ensures tags == SortedUnique(gathered) <==> StrictlySorted(tags) && forall x :: x in tags <==> x in gathered
  {
    SortedUniqueIsCanonical(gathered);
    hide SortedUnique, StrictlySorted;
    if StrictlySorted(tags) && forall x :: x in tags <==> x in gathered { RisingSame(tags, SortedUnique(gathered)); }
  }

  lemma DishExactly(b: Bundle, d: Dish)
    ensures DishOk(b, d) <==> Assembled(b, d)
  {
    var cs := Resolved(b, d.slots);
    forall c: Component ensures c in cs <==> Slotted(b, d, c) { ResolvedHolds(b, d, c); }
    forall key: Key ensures Known(b.components, key) <==> HasRow(b.components, key) { LookupFinds(b.components, key); }
    GatheredMeans(cs);
    RisingMeans(d.tags);
    DerivedList(d.tags.contains, Gathered(cs).contains);
    DerivedList(d.tags.mayContain, Gathered(cs).mayContain);
    DerivedList(d.tags.crossContact, Gathered(cs).crossContact);
    NoticeMeans(cs);
    hide Resolved, Slotted, Gathered, SortedUnique, StrictlySorted, Canonical, Known, HasRow;
  }

  lemma NoticeMeans(cs: seq<Component>)
    ensures DeriveFacts(cs).noticeRequired <==> exists c :: c in cs && c.noticeRequired
  {
    hide Gathered, SortedTags;
    if c :| c in cs && c.noticeRequired {
      var i :| 0 <= i < |cs| && cs[i] == c;
    }
  }

  // ---------------------------------------------------------------- recipes and bundles

  lemma RecipeExactly(b: Bundle, r: Recipe)
    ensures RecipeOk(b, r) <==> Cooked(b, r)
  {
    forall dish: Dish ensures RowIs(b.dishes, r.dish, dish) <==> Lookup(b.dishes, r.dish) == Some(dish) { LookupMeans(b.dishes, r.dish, dish); }
    if Known(b.dishes, r.dish) { SignaturesAgree(r.amounts, Lookup(b.dishes, r.dish).value.slots); }
    forall p | p in r.amounts ensures StepsPresent(b, r, p) <==> StepsInOrder(b, r, p) {
      forall c: Component ensures RowIs(b.components, p.component, c) <==> Lookup(b.components, p.component) == Some(c) { LookupMeans(b.components, p.component, c); }
      hide Lookup, RowIs, Embeds;
    }
    hide Lookup, RowIs, StepsPresent, StepsInOrder, Sorted, Signatures;
  }

  /** A bundle is clean exactly when no key repeats and every component, dish and recipe is in order, as written out above. */
  lemma CleanExactly(b: Bundle)
    ensures Clean(b) <==>
      && KeysDiffer(b.ingredients) && KeysDiffer(b.components) && KeysDiffer(b.dishes) && KeysDiffer(b.recipes)
      && (forall i :: 0 <= i < |b.components| ==> Prepared(b, b.components[i].body))
      && (forall i :: 0 <= i < |b.dishes| ==> Assembled(b, b.dishes[i].body))
      && (forall i :: 0 <= i < |b.recipes| ==> Cooked(b, b.recipes[i].body))
  {
    forall c: Component ensures ComponentOk(b, c) <==> Prepared(b, c) { ComponentExactly(b, c); }
    forall d: Dish ensures DishOk(b, d) <==> Assembled(b, d) { DishExactly(b, d); }
    forall r: Recipe ensures RecipeOk(b, r) <==> Cooked(b, r) { RecipeExactly(b, r); }
    hide ComponentOk, DishOk, RecipeOk, Prepared, Assembled, Cooked;
  }
}
