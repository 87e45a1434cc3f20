/** The part of a content bundle that carries culinary facts, the compiler's checks on it, and its derived facts. */
module ContentBundle {
  import opened Basics
  import opened Text

  /** A reference key, `id@version`. */
  type Key = string

  datatype Row<T> = Row(key: Key, body: T)

  datatype Tags = Tags(contains: seq<string>, mayContain: seq<string>, crossContact: seq<string>)

  datatype Treatment = Raw | Cooked | Cured | Smoked | SurfaceSeared | Seasoned | Plant

  datatype Role = Binding | Filling | Garnish | Rice | Topping | Wrapper

  datatype Step = Step(station: string, action: string)

  datatype Ingredient = Ingredient(base: Tags)

  datatype Component = Component(
    ingredient: Key, preparations: seq<Key>, cutStyle: Option<Key>, treatment: Treatment, noticeRequired: bool, tags: Tags, steps: seq<Step>)

  datatype Part = Part(role: Role, component: Key)

  datatype Dish = Dish(family: Key, slots: seq<Part>, tags: Tags, noticeRequired: bool)

  datatype Recipe = Recipe(dish: Key, amounts: seq<Part>, stations: seq<Step>, result: Key, rules: seq<Key>)

  datatype Bundle = Bundle(
    ingredients: seq<Row<Ingredient>>, cutStyles: seq<Key>, components: seq<Row<Component>>, families: seq<Key>,
    dishes: seq<Row<Dish>>, recipes: seq<Row<Recipe>>, rules: seq<Key>)

  // ---------------------------------------------------------------- lookups

  /** The first row with this key. */
  function Lookup<T>(rows: seq<Row<T>>, key: Key): Option<T> {
    if rows == [] then None else if rows[0].key == key then Some(rows[0].body) else Lookup(rows[1..], key)
  }

  predicate Known<T>(rows: seq<Row<T>>, key: Key) {
    Lookup(rows, key).Some?
  }

  predicate DistinctKeys<T>(rows: seq<Row<T>>) {
    forall i, j :: 0 <= i < j < |rows| ==> rows[i].key != rows[j].key
  }

  lemma {:induction false} LookupOwn<T>(rows: seq<Row<T>>, i: nat)
    requires DistinctKeys(rows) && i < |rows|
    ensures Lookup(rows, rows[i].key) == Some(rows[i].body)
  {
    if i > 0 {
      LookupOwn(rows[1..], i - 1);
      assert rows[0].key != rows[i].key;
    }
  }

  lemma {:induction false} LookupFinds<T>(rows: seq<Row<T>>, key: Key)
    ensures Known(rows, key) <==> exists i :: 0 <= i < |rows| && rows[i].key == key
    ensures Known(rows, key) ==> exists i :: 0 <= i < |rows| && rows[i].key == key && rows[i].body == Lookup(rows, key).value
  {
    if rows != [] {
      LookupFinds(rows[1..], key);
      if rows[0].key == key {
      } else if Known(rows[1..], key) {
        var i :| 0 <= i < |rows[1..]| && rows[1..][i].key == key && rows[1..][i].body == Lookup(rows[1..], key).value;
        assert rows[i + 1].key == key;
      } else {
        forall i | 0 <= i < |rows| ensures rows[i].key != key { assert i > 0 ==> rows[i] == rows[1..][i - 1]; }
      }
    }
  }

  /** The index maps each key to its first row and reports every repetition. */
  method CreateIndex<T>(rows: seq<Row<T>>) returns (index: map<Key, T>, issues: nat)
    ensures issues == 0 <==> DistinctKeys(rows)
    ensures forall k :: (k in index <==> Known(rows, k)) && (k in index ==> index[k] == Lookup(rows, k).value)
  {
    index, issues := map[], 0;
    var position := 0;
    while position < |rows|
      invariant position <= |rows|
      invariant issues == 0 <==> DistinctKeys(rows[..position])
      invariant forall k :: (k in index <==> Known(rows[..position], k)) && (k in index ==> index[k] == Lookup(rows[..position], k).value)
    {
      var row := rows[position];
      LookupFinds(rows[..position], row.key);
      IndexGrows(rows[..position], row);
      assert rows[..position + 1] == rows[..position] + [row];
      if row.key in index { issues := issues + 1; } else { index := index[row.key := row.body]; }
      position := position + 1;
    }
    assert rows[..|rows|] == rows;
  }

  lemma IndexGrows<T>(rows: seq<Row<T>>, row: Row<T>)
    ensures DistinctKeys(rows + [row]) <==> DistinctKeys(rows) && !Known(rows, row.key)
    ensures forall k :: Lookup(rows + [row], k) == if Known(rows, k) then Lookup(rows, k) else if k == row.key then Some(row.body) else None
  {
    LookupFinds(rows, row.key);
    forall k { LookupAppend(rows, row, k); }
    assert (rows + [row])[|rows|] == row && forall i :: 0 <= i < |rows| ==> (rows + [row])[i] == rows[i];
    hide Lookup, Known;
  }

  lemma {:induction false} LookupAppend<T>(rows: seq<Row<T>>, row: Row<T>, k: Key)
    ensures Lookup(rows + [row], k) == if Known(rows, k) then Lookup(rows, k) else if k == row.key then Some(row.body) else None
  {
    if rows != [] {
      LookupAppend(rows[1..], row, k);
      assert (rows + [row])[1..] == rows[1..] + [row];
    }
  }

  // ---------------------------------------------------------------- ordered steps

  /** Positions in the sequence, strictly rising, at which the required steps occur one after another. */
  predicate EmbedsAt(sequence: seq<Step>, required: seq<Step>, at: seq<nat>) {
    && |at| == |required|
    && (forall i :: 0 <= i < |at| ==> at[i] < |sequence| && sequence[at[i]] == required[i])
    && (forall i, j :: 0 <= i < j < |at| ==> at[i] < at[j])
  }

  ghost predicate Embeds(sequence: seq<Step>, required: seq<Step>) {
    exists at :: EmbedsAt(sequence, required, at)
  }

  lemma EmbedNone(sequence: seq<Step>)
    ensures Embeds(sequence, [])
  {
    assert EmbedsAt(sequence, [], []);
  }

  lemma {:induction false} RisesFast(at: seq<nat>, i: nat)
    requires i < |at| && forall i, j :: 0 <= i < j < |at| ==> at[i] < at[j]
    ensures at[i] >= i
  {
    if i > 0 { RisesFast(at, i - 1); }
  }

  lemma EmbedLength(sequence: seq<Step>, required: seq<Step>, at: seq<nat>)
    requires EmbedsAt(sequence, required, at)
    ensures |required| <= |sequence|
  {
    if required != [] { RisesFast(at, |required| - 1); }
  }

  lemma EmbedInNone(required: seq<Step>)
    ensures Embeds([], required) <==> required == []
  {
    if required == [] { EmbedNone([]); }
    forall at | EmbedsAt([], required, at) ensures |required| <= 0 { EmbedLength([], required, at); }
  }

  /** An embedding of a longer list, cut off before its last step. */
  lemma EmbedPrefix(sequence: seq<Step>, required: seq<Step>, y: Step)
    requires Embeds(sequence, required + [y])
    ensures Embeds(sequence, required)
  {
    var at :| EmbedsAt(sequence, required + [y], at);
    assert forall i :: 0 <= i < |required| ==> (required + [y])[i] == required[i];
    assert EmbedsAt(sequence, required, at[..|required|]);
  }

  lemma EmbedWider(sequence: seq<Step>, x: Step, required: seq<Step>)
    requires Embeds(sequence, required)
    ensures Embeds(sequence + [x], required)
  {
    var at :| EmbedsAt(sequence, required, at);
    assert EmbedsAt(sequence + [x], required, at);
  }

  lemma EmbedBoth(sequence: seq<Step>, required: seq<Step>, x: Step)
    requires Embeds(sequence, required)
    ensures Embeds(sequence + [x], required + [x])
  {
    var at :| EmbedsAt(sequence, required, at);
    var last: nat := |sequence|;
    var longer := at + [last];
    assert forall i :: 0 <= i < |at| ==> longer[i] == at[i] && longer[i] < last;
    assert EmbedsAt(sequence + [x], required + [x], longer);
  }

  /** The last required step is matched by the last step of the sequence, or the last step is not needed. */
  lemma EmbedLast(sequence: seq<Step>, x: Step, required: seq<Step>, y: Step)
    requires Embeds(sequence + [x], required + [y])
    ensures Embeds(sequence, required + [y]) || (x == y && Embeds(sequence, required))
  {
    var at :| EmbedsAt(sequence + [x], required + [y], at);
    var n := |required|;
    assert (sequence + [x])[at[n]] == y;
    assert forall i :: 0 <= i < n ==> at[i] < at[n] && (required + [y])[i] == required[i];
    if at[n] < |sequence| {
      assert EmbedsAt(sequence, required + [y], at);
    } else {
      assert EmbedsAt(sequence, required, at[..n]);
    }
  }

  /** One cursor over the required steps, one pass over the sequence: it succeeds exactly when an embedding exists. */
  method ContainsOrderedSteps(sequence: seq<Step>, required: seq<Step>) returns (contains: bool)
    ensures contains <==> Embeds(sequence, required)
  {
    var cursor, i := 0, 0;
    EmbedNone([]);
    if required != [] { EmbedInNone(required[..1]); }
    hide Embeds;
    while i < |sequence|
      invariant i <= |sequence| && cursor <= |required| && Embeds(sequence[..i], required[..cursor])
      invariant cursor < |required| ==> !Embeds(sequence[..i], required[..cursor + 1])
    {
      ScanStep(sequence, required, i, cursor);
      if cursor < |required| && sequence[i] == required[cursor] { cursor := cursor + 1; }
      i := i + 1;
    }
    contains := cursor == |required|;
    assert sequence[..|sequence|] == sequence && required[..|required|] == required;
    if !contains && Embeds(sequence, required) { PrefixEmbeds(sequence, required, cursor + 1); }
  }

  /** What one step of the scan may conclude. */
  lemma ScanStep(sequence: seq<Step>, required: seq<Step>, i: nat, cursor: nat)
    requires i < |sequence| && cursor <= |required| && Embeds(sequence[..i], required[..cursor])
    requires cursor < |required| ==> !Embeds(sequence[..i], required[..cursor + 1])
    ensures var next := if cursor < |required| && sequence[i] == required[cursor] then cursor + 1 else cursor;
      && Embeds(sequence[..i + 1], required[..next])
      && (next < |required| ==> !Embeds(sequence[..i + 1], required[..next + 1]))
  {
    hide Embeds;
    var s, x := sequence[..i], sequence[i];
    assert sequence[..i + 1] == s + [x];
    if cursor == |required| {
      EmbedWider(s, x, required[..cursor]);
    } else {
      var r, y := required[..cursor], required[cursor];
      assert required[..cursor + 1] == r + [y];
      if x == y {
        EmbedBoth(s, r, x);
        if cursor + 1 < |required| {
          var z := required[cursor + 1];
          assert required[..cursor + 2] == (r + [y]) + [z];
          if Embeds(s + [x], (r + [y]) + [z]) {
            EmbedLast(s, x, r + [y], z);
            if Embeds(s, (r + [y]) + [z]) { EmbedPrefix(s, r + [y], z); }
          }
        }
      } else {
        EmbedWider(s, x, r);
        if Embeds(s + [x], r + [y]) { EmbedLast(s, x, r, y); }
      }
    }
  }

  lemma {:induction false} PrefixEmbeds(sequence: seq<Step>, required: seq<Step>, n: nat)
    requires n <= |required| && Embeds(sequence, required)
    ensures Embeds(sequence, required[..n])
    decreases |required|
  {
    hide Embeds;
    if n == |required| {
      assert required[..n] == required;
    } else {
      var init := required[..|required| - 1];
      assert required == init + [required[|required| - 1]];
      EmbedPrefix(sequence, init, required[|required| - 1]);
      PrefixEmbeds(sequence, init, n);
      assert init[..n] == required[..n];
    }
  }
}
