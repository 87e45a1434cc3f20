/** The limits on a command as limits on one tree: the value with every shared object written out again. */
module CommandTrees {
  import opened Basics
  import opened JsonText
  import opened Preflight
  import opened CommandBounds

  // ---------------------------------------------------------------- bytes

  /** The UTF-8 bytes of a code point. */
  function Encoded(point: int): seq<int> {
    if point < 0x80 then [point]
    else if point < 0x800 then [0xC0 + point / 64, 0x80 + point % 64]
    else if point < 0x10000 then [0xE0 + point / 4096, 0x80 + point / 64 % 64, 0x80 + point % 64]
    else [0xF0 + point / 262144, 0x80 + point / 4096 % 64, 0x80 + point / 64 % 64, 0x80 + point % 64]
  }

  /** Surrogate pairs are one code point, an unpaired surrogate becomes the replacement character. */
  function Utf8(s: Text): seq<int> {
    if s == [] then []
    else if |s| >= 2 && 0xD800 <= s[0] <= 0xDBFF && 0xDC00 <= s[1] <= 0xDFFF
    then Encoded(0x10000 + (s[0] as int - 0xD800) * 1024 + (s[1] as int - 0xDC00)) + Utf8(s[2..])
    else Encoded(if 0xD800 <= s[0] <= 0xDFFF then 0xFFFD else s[0]) + Utf8(s[1..])
  }

  /** The length used by the limits is that of the encoding. */
  lemma {:induction false} Utf8LengthMeans(s: Text)
    ensures |Utf8(s)| == Utf8Length(s)
    decreases |s|
  {
    if s != [] {
      if |s| >= 2 && High(s[0]) && Low(s[1]) { Utf8LengthMeans(s[2..]); } else { Utf8LengthMeans(s[1..]); }
    }
  }

  // ---------------------------------------------------------------- the tree of a command

  datatype Tree = Tree(item: Item, names: seq<Name>, kids: seq<Tree>)

  /** The tree writes out the value: under an object, one subtree for each own property, which must hold a value. */
  predicate Unfolds(g: Objects, item: Item, t: Tree)
    decreases t
  {
    && t.item == item && |t.names| == |t.kids|
    && |t.kids| == (if item.Held? then |Own(g, item.id)| else 0)
    && forall i :: 0 <= i < |t.kids| ==> Own(g, item.id)[i] == Data(t.names[i], t.kids[i].item) && Unfolds(g, t.kids[i].item, t.kids[i])
  }

  /** No node lies more than so many levels below the top. */
  predicate Levels(t: Tree, below: int)
    decreases t
  {
    below >= 0 && forall i :: 0 <= i < |t.kids| ==> Levels(t.kids[i], below - 1)
  }

  function Nodes(t: Tree): nat
    decreases t, 0
  {
    1 + AllNodes(t.kids)
  }

  function AllNodes(ts: seq<Tree>): nat
    decreases ts, 0
  {
    if ts == [] then 0 else Nodes(ts[0]) + AllNodes(ts[1..])
  }

  /** Bytes of the strings and of the property names. */
  function Bytes(t: Tree): nat
    decreases t, 0
  {
    (if t.item.Chars? then |Utf8(t.item.s)| else 0) + AllBytes(t.names, t.kids)
  }

  function AllBytes(names: seq<Name>, ts: seq<Tree>): nat
    decreases ts, 0
  {
    if ts == [] || names == [] then 0 else (if names[0].Key? then |Utf8(names[0].s)| else 0) + Bytes(ts[0]) + AllBytes(names[1..], ts[1..])
  }

  /** No string and no name is longer than 16 KiB, and no name is a symbol. */
  predicate Short(t: Tree)
    decreases t
  {
    && (t.item.Chars? ==> |Utf8(t.item.s)| <= 16384)
    && (forall i :: 0 <= i < |t.names| ==> t.names[i].Key? && |Utf8(t.names[i].s)| <= 16384)
    && forall i :: 0 <= i < |t.kids| ==> Short(t.kids[i])
  }

  /** An own property, its name and the tree under it. */
  predicate GrowsAt(g: Objects, p: Property, name: Name, kid: Tree, below: int) {
    && p == Data(name, kid.item) && name.Key? && |Utf8(name.s)| <= 16384
    && Unfolds(g, kid.item, kid) && Short(kid) && Levels(kid, below)
  }

  predicate Grows(g: Objects, ps: seq<Property>, names: seq<Name>, kids: seq<Tree>, below: int) {
    |names| == |kids| == |ps| && forall i :: 0 <= i < |kids| ==> GrowsAt(g, ps[i], names[i], kids[i], below)
  }

  /** A tree over an object is what grows from its own properties. */
  lemma HeldUnfolds(g: Objects, id: ObjectId, names: seq<Name>, kids: seq<Tree>, below: int)
    ensures var t := Tree(Held(id), names, kids);
      Unfolds(g, Held(id), t) && Short(t) && Levels(t, below) <==> Grows(g, Own(g, id), names, kids, below - 1) && below >= 0
  {
    var t := Tree(Held(id), names, kids);
    if Unfolds(g, Held(id), t) && Short(t) && Levels(t, below) {
      forall i | 0 <= i < |kids| ensures GrowsAt(g, Own(g, id)[i], names[i], kids[i], below - 1) {
        assert t.kids[i] == kids[i] && t.names[i] == names[i];
      }
    }
    if Grows(g, Own(g, id), names, kids, below - 1) && below >= 0 {
      forall i | 0 <= i < |kids|
        ensures Own(g, id)[i] == Data(names[i], kids[i].item) && Unfolds(g, kids[i].item, kids[i]) && Short(kids[i]) && Levels(kids[i], below - 1)
        ensures names[i].Key? && |Utf8(names[i].s)| <= 16384
      {
        assert GrowsAt(g, Own(g, id)[i], names[i], kids[i], below - 1);
      }
    }
    hide Utf8, Own;
  }

  lemma GrowsTail(g: Objects, ps: seq<Property>, names: seq<Name>, kids: seq<Tree>, below: int)
    requires ps != [] && |names| == |kids| == |ps|
    ensures Grows(g, ps, names, kids, below) <==> GrowsAt(g, ps[0], names[0], kids[0], below) && Grows(g, ps[1..], names[1..], kids[1..], below)
  {
    hide GrowsAt;
    if Grows(g, ps, names, kids, below) {
      forall i | 0 <= i < |kids[1..]| ensures GrowsAt(g, ps[1..][i], names[1..][i], kids[1..][i], below) {
        assert ps[1..][i] == ps[i + 1] && names[1..][i] == names[i + 1] && kids[1..][i] == kids[i + 1];
      }
    }
    if GrowsAt(g, ps[0], names[0], kids[0], below) && Grows(g, ps[1..], names[1..], kids[1..], below) {
      forall i | 0 <= i < |kids| ensures GrowsAt(g, ps[i], names[i], kids[i], below) {
        if i > 0 { assert ps[1..][i - 1] == ps[i] && names[1..][i - 1] == names[i] && kids[1..][i - 1] == kids[i]; }
      }
    }
  }

  lemma LeafLoads(g: Objects, t: Tree, depth: nat)
    requires depth <= 32 && Unfolds(g, t.item, t) && Short(t) && !t.item.Held?
    ensures Load(g, t.item, depth) == Some(Weight(Nodes(t), Bytes(t)))
  {
    if t.item.Chars? { Utf8LengthMeans(t.item.s); }
    assert t.kids == [] && AllNodes(t.kids) == 0 && AllBytes(t.names, t.kids) == 0;
  }

  lemma {:induction false} TreeLoads(g: Objects, t: Tree, depth: nat)
    requires depth <= 32 && Unfolds(g, t.item, t) && Short(t) && Levels(t, 32 - depth)
    ensures Load(g, t.item, depth) == Some(Weight(Nodes(t), Bytes(t)))
    decreases Nodes(t), 0
  {
    if t.item.Held? {
      var id := t.item.id;
      assert t == Tree(Held(id), t.names, t.kids);
      HeldUnfolds(g, id, t.names, t.kids, 32 - depth);
      hide Unfolds, Short, Levels, Own, LoadAll, Grows;
      TreesLoad(g, Own(g, id), t.names, t.kids, depth + 1);
    } else {
      LeafLoads(g, t, depth);
    }
  }

  lemma FirstLoads(g: Objects, p: Property, name: Name, kid: Tree, depth: nat)
    requires GrowsAt(g, p, name, kid, 32 - depth) && depth >= 1
    ensures depth <= 32 && p.Data? && p.item == kid.item && Unfolds(g, kid.item, kid) && Short(kid) && Levels(kid, 32 - depth)
    ensures name.Key? && NameLoad(p) == Some(Weight(0, |Utf8(name.s)|))
  {
    Utf8LengthMeans(name.s);
    hide Unfolds, Short, Utf8, Utf8Length;
  }

  /** The first property and its tree come on top of the rest. */
  lemma LoadsNext(g: Objects, ps: seq<Property>, depth: nat)
    requires ps != [] && ps[0].Data?
    ensures LoadAll(g, ps, depth) == Plus(Plus(NameLoad(ps[0]), Load(g, ps[0].item, depth)), LoadAll(g, ps[1..], depth))
  {
  }

  lemma PlusThree(named: nat, nodes: nat, bytes: nat, more: nat, further: nat)
    ensures Plus(Plus(Some(Weight(0, named)), Some(Weight(nodes, bytes))), Some(Weight(more, further))) == Some(Weight(nodes + more, named + bytes + further))
  {
  }

  lemma SumsNext(names: seq<Name>, kids: seq<Tree>)
    requires kids != [] && names != []
    ensures AllNodes(kids) == Nodes(kids[0]) + AllNodes(kids[1..]) && Nodes(kids[0]) > 0
    ensures AllBytes(names, kids) == (if names[0].Key? then |Utf8(names[0].s)| else 0) + Bytes(kids[0]) + AllBytes(names[1..], kids[1..])
  {
  }

  lemma NothingLoads(g: Objects, depth: nat)
    ensures LoadAll(g, [], depth) == Some(Weight(AllNodes([]), AllBytes([], [])))
  {
  }

  lemma {:induction false} TreesLoad(g: Objects, ps: seq<Property>, names: seq<Name>, kids: seq<Tree>, depth: nat)
    requires depth >= 1 && Grows(g, ps, names, kids, 32 - depth)
    ensures LoadAll(g, ps, depth) == Some(Weight(AllNodes(kids), AllBytes(names, kids)))
    decreases AllNodes(kids), 1
  {
    GrowsLength(g, ps, names, kids, 32 - depth);
    hide Load, LoadAll, Unfolds, Short, Levels, Grows, GrowsAt, Utf8, Utf8Length, NameLoad, AllNodes, AllBytes, Nodes, Bytes, Plus;
    if ps == [] {
      NothingLoads(g, depth);
    } else {
      GrowsTail(g, ps, names, kids, 32 - depth);
      FirstLoads(g, ps[0], names[0], kids[0], depth);
      SumsNext(names, kids);
      TreeLoads(g, kids[0], depth);
      TreesLoad(g, ps[1..], names[1..], kids[1..], depth);
      LoadsNext(g, ps, depth);
      PlusThree(|Utf8(names[0].s)|, Nodes(kids[0]), Bytes(kids[0]), AllNodes(kids[1..]), AllBytes(names[1..], kids[1..]));
    }
  }

  lemma LoadOpens(g: Objects, item: Item, depth: nat)
    requires Load(g, item, depth).Some?
    ensures depth <= 32
    ensures item.Held? ==> LoadAll(g, Own(g, item.id), depth + 1).Some?
    ensures !item.Held? ==> var t := Tree(item, [], []); Unfolds(g, item, t) && Short(t) && Levels(t, 32 - depth)
  {
    if item.Chars? { Utf8LengthMeans(item.s); }
    hide LoadAll, Own, Utf8, Utf8Length;
  }

  lemma {:induction false} LoadGrows(g: Objects, item: Item, depth: nat) returns (t: Tree)
    requires Load(g, item, depth).Some?
    ensures depth <= 32 && t.item == item && Unfolds(g, item, t) && Short(t) && Levels(t, 32 - depth)
    decreases MAX_COMMAND_DEPTH + 1 - depth, 1, 0
  {
    hide Load, LoadAll, Unfolds, Short, Levels, Own, Grows;
    LoadOpens(g, item, depth);
    if item.Held? {
      var names, kids := LoadsGrow(g, Own(g, item.id), depth + 1);
      t := Tree(item, names, kids);
      HeldUnfolds(g, item.id, names, kids, 32 - depth);
      assert 32 - (depth + 1) == 32 - depth - 1;
    } else {
      t := Tree(item, [], []);
    }
  }

  lemma FirstGrows(g: Objects, ps: seq<Property>, depth: nat)
    requires LoadAll(g, ps, depth).Some? && ps != []
    ensures ps[0].Data? && ps[0].name.Key? && |Utf8(ps[0].name.s)| <= 16384
    ensures Load(g, ps[0].item, depth).Some? && LoadAll(g, ps[1..], depth).Some?
  {
    if ps[0].name.Key? { Utf8LengthMeans(ps[0].name.s); }
    hide Load, Utf8, Utf8Length;
  }

  lemma {:induction false} LoadsGrow(g: Objects, ps: seq<Property>, depth: nat) returns (names: seq<Name>, kids: seq<Tree>)
    requires LoadAll(g, ps, depth).Some?
    ensures Grows(g, ps, names, kids, 32 - depth)
    decreases MAX_COMMAND_DEPTH + 1 - depth, 2, |ps|
  {
    hide Load, LoadAll, Unfolds, Short, Levels, Utf8, Utf8Length, Grows, GrowsAt;
    names, kids := [], [];
    if ps == [] {
      NothingGrows(g, 32 - depth);
    } else {
      FirstGrows(g, ps, depth);
      var t := LoadGrows(g, ps[0].item, depth);
      var others, rest := LoadsGrow(g, ps[1..], depth);
      names, kids := [ps[0].name] + others, [t] + rest;
      assert names[1..] == others && kids[1..] == rest;
      GrowsLength(g, ps[1..], others, rest, 32 - depth);
      assert GrowsAt(g, ps[0], names[0], kids[0], 32 - depth) by { JustGrows(g, ps[0], t, 32 - depth); }
      GrowsTail(g, ps, names, kids, 32 - depth);
    }
  }

  lemma NothingGrows(g: Objects, below: int)
    ensures Grows(g, [], [], [], below)
  {
  }

  lemma JustGrows(g: Objects, p: Property, t: Tree, below: int)
    requires p.Data? && p.name.Key? && |Utf8(p.name.s)| <= 16384 && t.item == p.item && Unfolds(g, p.item, t) && Short(t) && Levels(t, below)
    ensures GrowsAt(g, p, p.name, t, below)
  {
    hide Utf8, Unfolds, Short, Levels;
  }

  lemma GrowsLength(g: Objects, ps: seq<Property>, names: seq<Name>, kids: seq<Tree>, below: int)
    requires Grows(g, ps, names, kids, below)
    ensures |names| == |kids| == |ps|
  {
  }

  /** A command passes exactly when it can be written out as a tree of at most 2048 nodes, 32 levels and 256 KiB of text. */
  lemma BoundedExactly(g: Objects, root: Item)
    ensures Bounded(g, root) <==>
      exists t :: Unfolds(g, root, t) && Short(t) && Levels(t, 32) && Nodes(t) <= 2048 && Bytes(t) <= 262144
  {
    hide Load, Unfolds, Short, Levels, Nodes, Bytes;
    if Bounded(g, root) {
      var t := LoadGrows(g, root, 0);
      TreeLoads(g, t, 0);
    }
    if t :| Unfolds(g, root, t) && Short(t) && Levels(t, 32) && Nodes(t) <= 2048 && Bytes(t) <= 262144 {
      assert t.item == root by { UnfoldsItem(g, root, t); }
      TreeLoads(g, t, 0);
    }
  }

  lemma UnfoldsItem(g: Objects, item: Item, t: Tree)
    requires Unfolds(g, item, t)
    ensures t.item == item
  {
  }
}
