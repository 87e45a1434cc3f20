/** The limits on an untrusted value as limits on one tree: the graph below it with every shared object written out again. */
module PreflightTrees {
  import opened Basics
  import opened JsonText
  import opened JsonPrinted
  import opened Preflight
  import CommandTrees

  datatype Tree = Tree(value: Value, names: seq<Text>, kids: seq<Tree>)

  /** Surrogates paired, but for a high one that may end the text. */
  predicate Formed(s: Text) {
    Paired(s) || (s != [] && 0xD800 <= s[|s| - 1] <= 0xDBFF && Paired(s[..|s| - 1]))
  }

  /** Plain array of at most 127 items, or plain object of at most 128 well formed names. */
  predicate Sound(cell: Cell) {
    match cell
    case ArrayCell(items, regular) => regular && |items| <= 127
    case ObjectCell(names, values, regular) => regular && |names| <= 128 && |values| == |names| && forall i :: 0 <= i < |names| ==> Formed(names[i])
  }

  predicate SoundScalar(v: Value) {
    v == Plain || v == Number(true) || (v.Str? && Formed(v.s))
  }

  /** The tree writes out the value: a sound scalar, or a sound object with a subtree for each thing it holds. */
  predicate Unfolds(g: Graph, v: Value, t: Tree)
    decreases t
  {
    && t.value == v
    && if v.Ref? then
      && v.id in g && Sound(g[v.id]) && t.names == Names(g[v.id]) && |t.kids| == |Children(g[v.id])|
      && forall i :: 0 <= i < |t.kids| ==> Unfolds(g, Children(g[v.id])[i], t.kids[i])
    else SoundScalar(v) && t.names == [] && t.kids == []
  }

  /** No node lies more than so many levels below the top. */
  predicate Levels(t: Tree, below: int)
    decreases t
  {
    below >= 0 && forall i :: 0 <= i < |t.kids| ==> Levels(t.kids[i], below - 1)
  }

  function Nodes(t: Tree): nat
    decreases t, 0
  {
    1 + AllNodes(t.kids)
  }

  function AllNodes(ts: seq<Tree>): nat
    decreases ts, 0
  {
    if ts == [] then 0 else Nodes(ts[0]) + AllNodes(ts[1..])
  }

  function NameBytes(names: seq<Text>): nat {
    if names == [] then 0 else |CommandTrees.Utf8(names[0])| + NameBytes(names[1..])
  }

  /** Bytes of the strings and of the property names. */
  function Bytes(t: Tree): nat
    decreases t, 0
  {
    (if t.value.Str? then |CommandTrees.Utf8(t.value.s)| else 0) + NameBytes(t.names) + AllBytes(t.kids)
  }

  function AllBytes(ts: seq<Tree>): nat
    decreases ts, 0
  {
    if ts == [] then 0 else Bytes(ts[0]) + AllBytes(ts[1..])
  }

  lemma FormedMeans(s: Text)
    ensures Formed(s) <==> LooselyFormed(s)
  {
    LooseEnds(s);
    WellFormedMeans(s);
    if s != [] { WellFormedMeans(s[..|s| - 1]); }
    hide Paired, WellFormed, LooselyFormed;
  }

  lemma {:induction false} NamesMean(names: seq<Text>)
    ensures NamesWeight(names) ==
      if forall i :: 0 <= i < |names| ==> Formed(names[i]) then Some(Weight(0, NameBytes(names))) else None
  {
    if names != [] {
      FormedMeans(names[0]);
      CommandTrees.Utf8LengthMeans(names[0]);
      NamesMean(names[1..]);
      hide Formed, LooselyFormed;
      assert (forall i :: 0 <= i < |names| ==> Formed(names[i])) <==> Formed(names[0]) && forall i :: 0 <= i < |names[1..]| ==> Formed(names[1..][i]) by {
        assert names == [names[0]] + names[1..];
      }
    }
  }

  lemma SoundMeans(cell: Cell)
    ensures Sound(cell) <==> CellFits(cell) && NamesWeight(Names(cell)).Some?
    ensures Sound(cell) ==> NamesWeight(Names(cell)) == Some(Weight(0, NameBytes(Names(cell))))
  {
    NamesMean(Names(cell));
    hide Formed, NamesWeight, NameBytes;
  }

  lemma ScalarMeans(v: Value)
    requires !v.Ref?
    ensures ScalarWeight(v) == if SoundScalar(v) then Some(Weight(1, if v.Str? then |CommandTrees.Utf8(v.s)| else 0)) else None
  {
    if v.Str? {
      FormedMeans(v.s);
      CommandTrees.Utf8LengthMeans(v.s);
    }
    hide Formed, LooselyFormed, Utf8Length;
  }

  // ---------------------------------------------------------------- trees and weights

  /** Values and the trees under them. */
  predicate Grows(g: Graph, vs: seq<Value>, kids: seq<Tree>, below: int) {
    |kids| == |vs| && forall i :: 0 <= i < |kids| ==> Unfolds(g, vs[i], kids[i]) && Levels(kids[i], below)
  }

  lemma RefUnfolds(g: Graph, id: ObjectId, kids: seq<Tree>, below: int)
    requires id in g
    ensures var t := Tree(Ref(id), Names(g[id]), kids);
      Unfolds(g, Ref(id), t) && Levels(t, below) <==> Sound(g[id]) && Grows(g, Children(g[id]), kids, below - 1) && below >= 0
  {
    hide Sound;
  }

  lemma GrowsTail(g: Graph, vs: seq<Value>, kids: seq<Tree>, below: int)
    requires vs != [] && |kids| == |vs|
    ensures Grows(g, vs, kids, below) <==> Unfolds(g, vs[0], kids[0]) && Levels(kids[0], below) && Grows(g, vs[1..], kids[1..], below)
  {
    hide Unfolds, Levels;
    if Grows(g, vs, kids, below) {
      forall i | 0 <= i < |kids[1..]| ensures Unfolds(g, vs[1..][i], kids[1..][i]) && Levels(kids[1..][i], below) {
        assert vs[1..][i] == vs[i + 1] && kids[1..][i] == kids[i + 1];
      }
    }
    if Unfolds(g, vs[0], kids[0]) && Levels(kids[0], below) && Grows(g, vs[1..], kids[1..], below) {
      forall i | 0 <= i < |kids| ensures Unfolds(g, vs[i], kids[i]) && Levels(kids[i], below) {
        if i > 0 { assert vs[1..][i - 1] == vs[i] && kids[1..][i - 1] == kids[i]; }
      }
    }
  }

  lemma UnfoldParts(g: Graph, v: Value, t: Tree)
    requires Unfolds(g, v, t)
    ensures t.value == v && Nodes(t) == 1 + AllNodes(t.kids)
    ensures v.Ref? ==> v.id in g && Sound(g[v.id]) && t == Tree(v, Names(g[v.id]), t.kids)
    ensures !v.Ref? ==> SoundScalar(v) && t == Tree(v, [], []) && Nodes(t) == 1 && Bytes(t) == if v.Str? then |CommandTrees.Utf8(v.s)| else 0
  {
    hide Sound, SoundScalar;
    assert AllNodes([]) == 0 && AllBytes([]) == 0 && NameBytes([]) == 0;
  }

  /** What the weighing makes of an object and of a scalar. */
  lemma UnfoldOpens(g: Graph, v: Value, depth: nat)
    ensures Unfold(g, v, depth).Some? ==> depth <= 32
    ensures depth <= 32 && !v.Ref? ==> Unfold(g, v, depth) == ScalarWeight(v)
    ensures v.Ref? && Unfold(g, v, depth).Some? ==>
      v.id in g && CellFits(g[v.id]) && NamesWeight(Names(g[v.id])).Some? && UnfoldAll(g, Children(g[v.id]), depth + 1).Some?
    ensures depth <= 32 && v.Ref? && v.id in g && CellFits(g[v.id]) ==>
      Unfold(g, v, depth) == Plus(Some(Weight(1, 0)), Plus(NamesWeight(Names(g[v.id])), UnfoldAll(g, Children(g[v.id]), depth + 1)))
  {
    hide CellFits, NamesWeight, UnfoldAll;
  }

  /** The weight of an object from the weight of what it holds. */
  lemma RefWeighs(g: Graph, id: ObjectId, t: Tree, depth: nat)
    requires depth <= 32 && id in g && Sound(g[id]) && t == Tree(Ref(id), Names(g[id]), t.kids)
    requires UnfoldAll(g, Children(g[id]), depth + 1) == Some(Weight(AllNodes(t.kids), AllBytes(t.kids)))
    ensures Unfold(g, Ref(id), depth) == Some(Weight(Nodes(t), Bytes(t)))
  {
    UnfoldOpens(g, Ref(id), depth);
    SoundMeans(g[id]);
    hide Unfold, UnfoldAll, Sound, CellFits, NamesWeight, AllNodes, AllBytes, NameBytes, Names, Children;
  }

  lemma ScalarWeighs(g: Graph, v: Value, t: Tree, depth: nat)
    requires depth <= 32 && Unfolds(g, v, t) && !v.Ref?
    ensures Unfold(g, v, depth) == Some(Weight(Nodes(t), Bytes(t)))
  {
    UnfoldParts(g, v, t);
    UnfoldOpens(g, v, depth);
    ScalarMeans(v);
    hide Unfold, Unfolds, Nodes, Bytes, SoundScalar, ScalarWeight;
  }

  lemma {:induction false} TreeWeighs(g: Graph, v: Value, t: Tree, depth: nat)
    requires depth <= 32 && Unfolds(g, v, t) && Levels(t, 32 - depth)
    ensures Unfold(g, v, depth) == Some(Weight(Nodes(t), Bytes(t)))
    decreases Nodes(t), 0
  {
    hide *;
    UnfoldParts(g, v, t);
    if v.Ref? {
      RefUnfolds(g, v.id, t.kids, 32 - depth);
      TreesWeigh(g, Children(g[v.id]), t.kids, depth + 1);
      RefWeighs(g, v.id, t, depth);
    } else {
      ScalarWeighs(g, v, t, depth);
    }
  }

  lemma AllNone(g: Graph, depth: nat)
    ensures UnfoldAll(g, [], depth) == Some(Weight(AllNodes([]), AllBytes([])))
  {
  }

  /** One more value and its tree. */
  lemma AllNext(g: Graph, v: Value, vs: seq<Value>, t: Tree, kids: seq<Tree>, depth: nat)
    ensures UnfoldAll(g, [v] + vs, depth) == Plus(Unfold(g, v, depth), UnfoldAll(g, vs, depth))
    ensures AllNodes([t] + kids) == Nodes(t) + AllNodes(kids) && AllBytes([t] + kids) == Bytes(t) + AllBytes(kids)
  {
    assert ([v] + vs)[1..] == vs && ([t] + kids)[1..] == kids;
    hide Unfold, Nodes, Bytes;
  }

  lemma PlusMeans(a: Weight, b: Weight)
    ensures Plus(Some(a), Some(b)) == Some(Weight(a.nodes + b.nodes, a.bytes + b.bytes))
  {
  }

  lemma GrowsLength(g: Graph, vs: seq<Value>, kids: seq<Tree>, below: int)
    requires Grows(g, vs, kids, below)
    ensures |kids| == |vs|
    ensures kids != [] ==> below >= 0
  {
    if kids != [] { assert Levels(kids[0], below); }
    hide Unfolds;
  }

  /** A list of values and their trees, taken apart; the trees have nodes. */
  lemma GrowsFirst(g: Graph, vs: seq<Value>, kids: seq<Tree>, below: int) returns (v: Value, others: seq<Value>, t: Tree, rest: seq<Tree>)
    requires Grows(g, vs, kids, below) && vs != []
    ensures vs == [v] + others && kids == [t] + rest
    ensures Unfolds(g, v, t) && Levels(t, below) && Grows(g, others, rest, below) && below >= 0
    ensures AllNodes(kids) == Nodes(t) + AllNodes(rest) && Nodes(t) > AllNodes(t.kids)
  {
    GrowsLength(g, vs, kids, below);
    GrowsTail(g, vs, kids, below);
    v, others, t, rest := vs[0], vs[1..], kids[0], kids[1..];
    hide Unfolds, Levels, Grows;
  }

  lemma {:induction false} TreesWeigh(g: Graph, vs: seq<Value>, kids: seq<Tree>, depth: nat)
    requires Grows(g, vs, kids, 32 - depth)
    ensures UnfoldAll(g, vs, depth) == Some(Weight(AllNodes(kids), AllBytes(kids)))
    decreases AllNodes(kids), 1
  {
    hide *;
    GrowsLength(g, vs, kids, 32 - depth);
    if vs == [] {
      assert kids == [];
      AllNone(g, depth);
    } else {
      var first, others, t, rest := GrowsFirst(g, vs, kids, 32 - depth);
      TreeWeighs(g, first, t, depth);
      TreesWeigh(g, others, rest, depth);
      AllNext(g, first, others, t, rest, depth);
      PlusMeans(Weight(Nodes(t), Bytes(t)), Weight(AllNodes(rest), AllBytes(rest)));
    }
  }

  lemma ScalarGrows(g: Graph, v: Value, below: int)
    requires !v.Ref? && SoundScalar(v) && below >= 0
    ensures Unfolds(g, v, Tree(v, [], [])) && Levels(Tree(v, [], []), below)
  {
    hide SoundScalar;
  }

  lemma {:induction false} WeightGrows(g: Graph, v: Value, depth: nat) returns (t: Tree)
    requires Unfold(g, v, depth).Some?
    ensures depth <= 32 && Unfolds(g, v, t) && Levels(t, 32 - depth)
    decreases 33 - depth, 1, 0
  {
    hide *;
    UnfoldOpens(g, v, depth);
    if v.Ref? {
      SoundMeans(g[v.id]);
      var kids := WeightsGrow(g, Children(g[v.id]), depth + 1);
      RefUnfolds(g, v.id, kids, 32 - depth);
      t := Tree(v, Names(g[v.id]), kids);
      assert 32 - (depth + 1) == 32 - depth - 1;
    } else {
      ScalarMeans(v);
      ScalarGrows(g, v, 32 - depth);
      t := Tree(v, [], []);
    }
  }

  lemma NothingGrows(g: Graph, below: int)
    ensures Grows(g, [], [], below)
  {
  }

  lemma {:induction false} WeightsGrow(g: Graph, vs: seq<Value>, depth: nat) returns (kids: seq<Tree>)
    requires UnfoldAll(g, vs, depth).Some?
    ensures Grows(g, vs, kids, 32 - depth)
    decreases 33 - depth, 2, |vs|
  {
    hide *;
    kids := [];
    if vs == [] {
      NothingGrows(g, 32 - depth);
    } else {
      var first, others := FirstOfAll(g, vs, depth);
      var t := WeightGrows(g, first, depth);
      var rest := WeightsGrow(g, others, depth);
      kids := [t] + rest;
      GrowsMore(g, first, others, t, rest, 32 - depth);
    }
  }

  lemma GrowsMore(g: Graph, v: Value, vs: seq<Value>, t: Tree, kids: seq<Tree>, below: int)
    requires Unfolds(g, v, t) && Levels(t, below) && Grows(g, vs, kids, below)
    ensures Grows(g, [v] + vs, [t] + kids, below)
  {
    hide Unfolds, Levels;
  }

  lemma FirstOfAll(g: Graph, vs: seq<Value>, depth: nat) returns (v: Value, others: seq<Value>)
    requires UnfoldAll(g, vs, depth).Some? && vs != []
    ensures vs == [v] + others && Unfold(g, v, depth).Some? && UnfoldAll(g, others, depth).Some?
  {
    hide Unfold;
    v, others := vs[0], vs[1..];
  }

  /**
   * A value passes exactly when it can be written out as a tree of sound parts with at most 1024 nodes, 32 levels and
   * 48 KiB of text; a cyclic value cannot be written out at all.
   */
  lemma AcceptableExactly(g: Graph, v: Value)
    ensures Acceptable(g, v) <==> exists t :: Unfolds(g, v, t) && Levels(t, 32) && Nodes(t) <= 1024 && Bytes(t) <= 49152
  {
    ActiveSetIsRedundant(g, v);
    hide Acceptable, Unfold, Unfolds, Levels, Nodes, Bytes;
    if Acceptable(g, v) {
      var t := WeightGrows(g, v, 0);
      TreeWeighs(g, v, t, 0);
    }
    if t :| Unfolds(g, v, t) && Levels(t, 32) && Nodes(t) <= 1024 && Bytes(t) <= 49152 {
      TreeWeighs(g, v, t, 0);
    }
  }
}
