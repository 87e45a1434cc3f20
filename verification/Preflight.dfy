/**
 * The structural check of an untrusted value graph before it is copied: an explicit stack with entry and exit
 * frames, against a recursive weighing of the graph's unfolding.
 */
module Preflight {
  import opened Basics
  import opened JsonText

  type ObjectId = nat

  /** A JavaScript value; `Number(false)` is one that is not a safe integer, `Foreign` any other type. */
  datatype Value = Plain | Number(safe: bool) | Str(s: Text) | Foreign | Ref(id: ObjectId)

  /** An object: a dense array or named properties.  `regular` covers prototype, symbols, holes and accessors. */
  datatype Cell = ArrayCell(items: seq<Value>, regular: bool) | ObjectCell(names: seq<Text>, values: seq<Value>, regular: bool)

  type Graph = map<ObjectId, Cell>

  const MAX_NODES: nat := 1024
  const MAX_DEPTH: nat := 32
  const MAX_STRING_BYTES: nat := 48 * 1024
  const MAX_OBJECT_PROPERTIES: nat := 128
  const MAX_ARRAY_LENGTH: nat := 256

  /** Length of the UTF-8 encoding; an unpaired surrogate is encoded as the three-byte replacement character. */
  function Utf8Length(s: Text): nat {
    if s == [] then 0
    else if |s| >= 2 && High(s[0]) && Low(s[1]) then 4 + Utf8Length(s[2..])
    else (if s[0] < 0x80 then 1 else if s[0] < 0x800 then 2 else 3) + Utf8Length(s[1..])
  }

  /** Own property names: an array has its indices and `length`. */
  function NameCount(cell: Cell): nat {
    match cell
    case ArrayCell(items, _) => |items| + 1
    case ObjectCell(names, _, _) => |names|
  }

  function Children(cell: Cell): seq<Value> {
    match cell
    case ArrayCell(items, _) => items
    case ObjectCell(_, values, _) => values
  }

  function Names(cell: Cell): seq<Text> {
    match cell
    case ArrayCell(_, _) => []
    case ObjectCell(names, _, _) => names
  }

  predicate CellFits(cell: Cell) {
    && cell.regular && NameCount(cell) <= MAX_OBJECT_PROPERTIES
    && (cell.ArrayCell? ==> |cell.items| <= MAX_ARRAY_LENGTH)
    && (cell.ObjectCell? ==> |cell.values| == |cell.names|)
  }

  /** Nodes and string bytes of an unfolding; `None` is an unfolding that may not be accepted at all. */
  datatype Weight = Weight(nodes: nat, bytes: nat)

  function Plus(a: Option<Weight>, b: Option<Weight>): Option<Weight> {
    if a.Some? && b.Some? then Some(Weight(a.value.nodes + b.value.nodes, a.value.bytes + b.value.bytes)) else None
  }

  function NamesWeight(names: seq<Text>): Option<Weight> {
    if names == [] then Some(Weight(0, 0))
    else Plus(if LooselyFormed(names[0]) then Some(Weight(0, Utf8Length(names[0]))) else None, NamesWeight(names[1..]))
  }

  function ScalarWeight(v: Value): Option<Weight>
    requires !v.Ref?
  {
    match v
    case Plain => Some(Weight(1, 0))
    case Number(safe) => if safe then Some(Weight(1, 0)) else None
    case Str(s) => if LooselyFormed(s) then Some(Weight(1, Utf8Length(s))) else None
    case Foreign => None
  }

  /** The recursive definition: no object below itself, every limit kept on the way down, shared objects counted each time. */
  function Weigh(g: Graph, v: Value, depth: nat, path: set<ObjectId>): Option<Weight>
    decreases MAX_DEPTH + 1 - depth, 1, 0
  {
    if depth > MAX_DEPTH then None
    else if v.Ref? then
      var id := v.id;
      if id !in g || id in path || !CellFits(g[id]) then None
      else Plus(Some(Weight(1, 0)), Plus(NamesWeight(Names(g[id])), WeighAll(g, Children(g[id]), depth + 1, path + {id})))
    else ScalarWeight(v)
  }

  function WeighAll(g: Graph, vs: seq<Value>, depth: nat, path: set<ObjectId>): Option<Weight>
    decreases MAX_DEPTH + 1 - depth, 2, |vs|
  {
    if vs == [] then Some(Weight(0, 0)) else Plus(Weigh(g, vs[0], depth, path), WeighAll(g, vs[1..], depth, path))
  }

  predicate Within(w: Option<Weight>) {
    w.Some? && w.value.nodes <= MAX_NODES && w.value.bytes <= MAX_STRING_BYTES
  }

  predicate Acceptable(g: Graph, v: Value) {
    Within(Weigh(g, v, 0, {}))
  }

  // ---------------------------------------------------------------- the explicit stack

  /** The top of the stack is its last frame. */
  datatype Frame = Enter(value: Value, depth: nat) | Exit(id: ObjectId)

  /** What the frames still weigh, each entered value judged under the objects then active. */
  function Rest(g: Graph, stack: seq<Frame>, active: set<ObjectId>): Option<Weight> {
    if stack == [] then Some(Weight(0, 0))
    else
      var below := stack[..|stack| - 1];
      match stack[|stack| - 1]
      case Exit(id) => Rest(g, below, active - {id})
      case Enter(v, depth) => Plus(Weigh(g, v, depth, active), Rest(g, below, active))
  }

  /** The active objects are the ancestors of the frame on top, one exit frame each, and its depth is their number. */
  predicate Ancestors(stack: seq<Frame>, active: set<ObjectId>) {
    if stack == [] then active == {}
    else
      var below := stack[..|stack| - 1];
      match stack[|stack| - 1]
      case Exit(id) => id in active && Ancestors(below, active - {id})
      case Enter(v, depth) => depth == |active| && Ancestors(below, active)
  }

  /** Frames for a list of values, the first on top. */
  function Pushed(vs: seq<Value>, depth: nat): seq<Frame> {
    if vs == [] then [] else Pushed(vs[1..], depth) + [Enter(vs[0], depth)]
  }

  /** Taking the top frame off the stack. */
  lemma Popped(g: Graph, stack: seq<Frame>, active: set<ObjectId>)
    requires stack != []
    ensures var top, below := stack[|stack| - 1], stack[..|stack| - 1];
      Rest(g, stack, active) == match top
        case Exit(id) => Rest(g, below, active - {id})
        case Enter(v, depth) => Plus(Weigh(g, v, depth, active), Rest(g, below, active))
    ensures var top, below := stack[|stack| - 1], stack[..|stack| - 1];
      Ancestors(stack, active) <==> match top
        case Exit(id) => id in active && Ancestors(below, active - {id})
        case Enter(v, depth) => depth == |active| && Ancestors(below, active)
  {
    hide Weigh;
  }

  lemma PushedFirst(base: seq<Frame>, vs: seq<Value>, depth: nat)
    requires vs != []
    ensures base + Pushed(vs, depth) == base + Pushed(vs[1..], depth) + [Enter(vs[0], depth)]
  {
  }

  lemma WeighAllFirst(g: Graph, vs: seq<Value>, depth: nat, active: set<ObjectId>)
    requires vs != []
    ensures WeighAll(g, vs, depth, active) == Plus(Weigh(g, vs[0], depth, active), WeighAll(g, vs[1..], depth, active))
  {
  }

  lemma PlusRegroups(a: Option<Weight>, b: Option<Weight>, c: Option<Weight>)
    ensures Plus(Plus(a, b), c) == Plus(a, Plus(b, c))
  {
  }

  lemma {:induction false} RestPushed(g: Graph, base: seq<Frame>, vs: seq<Value>, depth: nat, active: set<ObjectId>)
    ensures Rest(g, base + Pushed(vs, depth), active) == Plus(WeighAll(g, vs, depth, active), Rest(g, base, active))
  {
    if vs == [] {
      assert base + Pushed(vs, depth) == base;
    } else {
      hide Weigh, WeighAll, Pushed, Rest, Plus;
      var stack, below := base + Pushed(vs, depth), base + Pushed(vs[1..], depth);
      RestPushed(g, base, vs[1..], depth, active);
      PushedFirst(base, vs, depth);
      WeighAllFirst(g, vs, depth, active);
      assert stack[..|stack| - 1] == below;
      Popped(g, stack, active);
      PlusRegroups(Weigh(g, vs[0], depth, active), WeighAll(g, vs[1..], depth, active), Rest(g, base, active));
    }
  }

  lemma {:induction false} AncestorsPushed(base: seq<Frame>, vs: seq<Value>, depth: nat, active: set<ObjectId>)
    requires Ancestors(base, active) && depth == |active|
    ensures Ancestors(base + Pushed(vs, depth), active)
  {
    if vs == [] {
      assert base + Pushed(vs, depth) == base;
    } else {
      var stack, below := base + Pushed(vs, depth), base + Pushed(vs[1..], depth);
      AncestorsPushed(base, vs[1..], depth, active);
      assert stack == below + [Enter(vs[0], depth)];
      assert stack[..|stack| - 1] == below;
    }
  }

  /** Entering an object: the rest of the stack weighs its children under itself, then what was there before. */
  lemma ObjectEntered(g: Graph, below: seq<Frame>, id: ObjectId, depth: nat, active: set<ObjectId>)
    requires depth <= MAX_DEPTH && id in g && id !in active && CellFits(g[id])
    ensures Plus(Weigh(g, Ref(id), depth, active), Rest(g, below, active))
      == Plus(Some(Weight(1, 0)), Plus(NamesWeight(Names(g[id])), Rest(g, below + [Exit(id)] + Pushed(Children(g[id]), depth + 1), active + {id})))
  {
    var base := below + [Exit(id)];
    assert base[..|base| - 1] == below && active + {id} - {id} == active;
    Popped(g, base, active + {id});
    WeighRef(g, id, depth, active);
    hide Rest, Weigh, WeighAll, NamesWeight, CellFits, Pushed;
    RestPushed(g, base, Children(g[id]), depth + 1, active + {id});
  }

  lemma WeighRef(g: Graph, id: ObjectId, depth: nat, path: set<ObjectId>)
    requires depth <= MAX_DEPTH && id in g && id !in path && CellFits(g[id])
    ensures Weigh(g, Ref(id), depth, path)
      == Plus(Some(Weight(1, 0)), Plus(NamesWeight(Names(g[id])), WeighAll(g, Children(g[id]), depth + 1, path + {id})))
  {
    hide WeighAll, NamesWeight, CellFits;
  }

  lemma ObjectAncestors(below: seq<Frame>, id: ObjectId, vs: seq<Value>, depth: nat, active: set<ObjectId>)
    requires Ancestors(below, active) && depth == |active| && id !in active
    ensures Ancestors(below + [Exit(id)] + Pushed(vs, depth + 1), active + {id})
  {
    var base := below + [Exit(id)];
    assert base[..|base| - 1] == below && active + {id} - {id} == active;
    AncestorsPushed(base, vs, depth + 1, active + {id});
  }

  lemma EveryNodeCounts(g: Graph, v: Value, depth: nat, path: set<ObjectId>)
    ensures Weigh(g, v, depth, path).Some? ==> Weigh(g, v, depth, path).value.nodes >= 1
  {
    hide WeighAll, NamesWeight, CellFits;
  }

  lemma {:induction false} NamesSuffix(names: seq<Text>, i: nat)
    requires i <= |names| && NamesWeight(names).Some?
    ensures NamesWeight(names[i..]).Some? && NamesWeight(names[i..]).value.bytes <= NamesWeight(names).value.bytes
    ensures i < |names| ==> LooselyFormed(names[i])
    ensures NamesWeight(names).value.nodes == 0
  {
    if i == 0 {
      assert names[0..] == names;
      if names != [] { NamesSuffix(names[1..], 0); }
    } else {
      NamesSuffix(names[1..], i - 1);
      assert names[1..][i - 1..] == names[i..];
    }
  }

  /** Push the children of an array, last first. */
  method PushItems(vs: seq<Value>, depth: nat, base: seq<Frame>) returns (stack: seq<Frame>)
    ensures stack == base + Pushed(vs, depth)
  {
    stack := base;
    var index := |vs|;
    while index > 0
      invariant 0 <= index <= |vs| && stack == base + Pushed(vs[index..], depth)
    {
      index := index - 1;
      assert vs[index..][1..] == vs[index + 1..];
      stack := stack + [Enter(vs[index], depth)];
    }
    assert vs[0..] == vs;
  }

  /** Push the properties of an object, last first, checking and counting each name. */
  method PushProperties(names: seq<Text>, vs: seq<Value>, depth: nat, base: seq<Frame>, bytes: nat)
    returns (ok: bool, stack: seq<Frame>, total: nat)
    requires |names| == |vs| && bytes <= MAX_STRING_BYTES
    ensures ok <==> NamesWeight(names).Some? && bytes + NamesWeight(names).value.bytes <= MAX_STRING_BYTES
    ensures ok ==> stack == base + Pushed(vs, depth) && total == bytes + NamesWeight(names).value.bytes
  {
    stack, total := base, bytes;
    var index := |names|;
    assert names[index..] == [];
    while index > 0
      invariant 0 <= index <= |names| && stack == base + Pushed(vs[index..], depth)
      invariant NamesWeight(names[index..]).Some? && total == bytes + NamesWeight(names[index..]).value.bytes <= MAX_STRING_BYTES
    {
      index := index - 1;
      assert names[index..][1..] == names[index + 1..] && vs[index..][1..] == vs[index + 1..];
      if NamesWeight(names).Some? { NamesSuffix(names, index); }
      var formed := AssertValidUnicode(names[index]);
      if !formed { return false, stack, total; }
      total := total + Utf8Length(names[index]);
      if total > MAX_STRING_BYTES { return false, stack, total; }
      stack := stack + [Enter(vs[index], depth)];
    }
    assert names[0..] == names && vs[0..] == vs;
    return true, stack, total;
  }

  method EnterScalar(v: Value, bytes: nat) returns (ok: bool, total: nat)
    requires !v.Ref? && bytes <= MAX_STRING_BYTES
    ensures ok <==> ScalarWeight(v).Some? && bytes + ScalarWeight(v).value.bytes <= MAX_STRING_BYTES
    ensures ok ==> total == bytes + ScalarWeight(v).value.bytes && ScalarWeight(v).value.nodes == 1
  {
    total := bytes;
    match v {
      case Plain => ok := true;
      case Number(safe) => ok := safe;
      case Str(s) =>
        ok := AssertValidUnicode(s);
        total := total + Utf8Length(s);
        ok := ok && total <= MAX_STRING_BYTES;
      case Foreign => ok := false;
    }
  }

  /** Enter an object that is not active: hold it, leave its exit frame, push its children. */
  method EnterObject(g: Graph, id: ObjectId, depth: nat, active: set<ObjectId>, below: seq<Frame>, bytes: nat)
    returns (ok: bool, stack: seq<Frame>, total: nat)
    requires depth <= MAX_DEPTH && bytes <= MAX_STRING_BYTES
    ensures ok <==> (
      && id in g && id !in active && CellFits(g[id]) && NamesWeight(Names(g[id])).Some?
      && bytes + NamesWeight(Names(g[id])).value.bytes <= MAX_STRING_BYTES)
    ensures ok ==> (
      && total == bytes + NamesWeight(Names(g[id])).value.bytes && NamesWeight(Names(g[id])).value.nodes == 0
      && stack == below + [Exit(id)] + Pushed(Children(g[id]), depth + 1))
  {
    stack, total := below, bytes;
    if id !in g || id in active || !CellFits(g[id]) { return false, stack, total; }
    if NamesWeight(Names(g[id])).Some? { NamesSuffix(Names(g[id]), 0); }
    if g[id].ArrayCell? {
      ok := true;
      stack := PushItems(g[id].items, depth + 1, below + [Exit(id)]);
    } else {
      ok, stack, total := PushProperties(g[id].names, g[id].values, depth + 1, below + [Exit(id)], bytes);
    }
  }

  lemma TooDeep(g: Graph, v: Value, depth: nat, path: set<ObjectId>)
    ensures depth > MAX_DEPTH ==> Weigh(g, v, depth, path) == None
    ensures depth <= MAX_DEPTH && !v.Ref? ==> Weigh(g, v, depth, path) == ScalarWeight(v)
    ensures v.Ref? && (v.id !in g || v.id in path || !CellFits(g[v.id])) ==> Weigh(g, v, depth, path) == None
    ensures depth <= MAX_DEPTH && v.Ref? && v.id in g && v.id !in path && CellFits(g[v.id]) && NamesWeight(Names(g[v.id])).None? ==> Weigh(g, v, depth, path) == None
    ensures depth <= MAX_DEPTH && v.Ref? && v.id in g && NamesWeight(Names(g[v.id])).Some? && Weigh(g, v, depth, path).Some? ==>
      Weigh(g, v, depth, path).value.bytes >= NamesWeight(Names(g[v.id])).value.bytes
  {
    hide WeighAll, NamesWeight, CellFits;
  }

  /** The weight of what was counted, a value about to be entered, and the frames below it. */
  function Total(g: Graph, nodes: nat, bytes: nat, v: Value, depth: nat, active: set<ObjectId>, below: seq<Frame>): Option<Weight> {
    Plus(Some(Weight(nodes, bytes)), Plus(Weigh(g, v, depth, active), Rest(g, below, active)))
  }

  lemma RefTotal(g: Graph, nodes: nat, bytes: nat, id: ObjectId, depth: nat, active: set<ObjectId>, below: seq<Frame>)
    requires depth <= MAX_DEPTH
    ensures id in g && id !in active && CellFits(g[id]) && NamesWeight(Names(g[id])).Some? ==>
      NamesWeight(Names(g[id])).value.nodes == 0
      && Total(g, nodes, bytes, Ref(id), depth, active, below)
        == Plus(Some(Weight(nodes + 1, bytes + NamesWeight(Names(g[id])).value.bytes)),
                Rest(g, below + [Exit(id)] + Pushed(Children(g[id]), depth + 1), active + {id}))
    ensures !(id in g && id !in active && CellFits(g[id]) && NamesWeight(Names(g[id])).Some? && bytes + NamesWeight(Names(g[id])).value.bytes <= MAX_STRING_BYTES)
      ==> !Within(Total(g, nodes, bytes, Ref(id), depth, active, below))
  {
    TooDeep(g, Ref(id), depth, active);
    if id in g && id !in active && CellFits(g[id]) {
      ObjectEntered(g, below, id, depth, active);
      if NamesWeight(Names(g[id])).Some? { NamesSuffix(Names(g[id]), 0); }
    }
    hide Weigh, Rest, NamesWeight, CellFits, Pushed, Names, Children;
  }

  lemma ScalarTotal(g: Graph, nodes: nat, bytes: nat, v: Value, depth: nat, active: set<ObjectId>, below: seq<Frame>)
    requires depth <= MAX_DEPTH && !v.Ref?
    ensures ScalarWeight(v).Some? ==>
      ScalarWeight(v).value.nodes == 1
      && Total(g, nodes, bytes, v, depth, active, below) == Plus(Some(Weight(nodes + 1, bytes + ScalarWeight(v).value.bytes)), Rest(g, below, active))
    ensures !(ScalarWeight(v).Some? && bytes + ScalarWeight(v).value.bytes <= MAX_STRING_BYTES) ==> !Within(Total(g, nodes, bytes, v, depth, active, below))
  {
    TooDeep(g, v, depth, active);
    hide Weigh, Rest;
  }

  lemma LimitTotal(g: Graph, nodes: nat, bytes: nat, v: Value, depth: nat, active: set<ObjectId>, below: seq<Frame>)
    ensures nodes >= MAX_NODES || depth > MAX_DEPTH ==> !Within(Total(g, nodes, bytes, v, depth, active, below))
  {
    EveryNodeCounts(g, v, depth, active);
    TooDeep(g, v, depth, active);
    hide Weigh, Rest;
  }

  /** One non-exit frame: refuse it, or count it and leave what is still to be visited. */
  method EnterValue(g: Graph, v: Value, depth: nat, nodes: nat, bytes: nat, active: set<ObjectId>, below: seq<Frame>)
    returns (kept: bool, stack: seq<Frame>, held: set<ObjectId>, total: nat)
    requires bytes <= MAX_STRING_BYTES && Ancestors(below, active) && depth == |active|
    ensures kept ==> nodes < MAX_NODES && total <= MAX_STRING_BYTES && Ancestors(stack, held)
    ensures kept ==> Total(g, nodes, bytes, v, depth, active, below) == Plus(Some(Weight(nodes + 1, total)), Rest(g, stack, held))
    ensures !kept ==> !Within(Total(g, nodes, bytes, v, depth, active, below))
  {
    hide Weigh, Total, Rest, Ancestors, NamesWeight, CellFits, Pushed, ScalarWeight, Names, Children, Within, Plus;
    stack, held, total := below, active, bytes;
    LimitTotal(g, nodes, bytes, v, depth, active, below);
    if nodes + 1 > MAX_NODES || depth > MAX_DEPTH {
      kept := false;
    } else if v.Ref? {
      RefTotal(g, nodes, bytes, v.id, depth, active, below);
      if v.id in g && v.id !in active { ObjectAncestors(below, v.id, Children(g[v.id]), depth, active); }
      kept, stack, total := EnterObject(g, v.id, depth, active, below, bytes);
      held := active + {v.id};
    } else {
      ScalarTotal(g, nodes, bytes, v, depth, active, below);
      kept, total := EnterScalar(v, bytes);
    }
  }

  /** The check accepts exactly the graphs whose unfolding the recursive definition accepts, and always halts. */
  method Preflight(g: Graph, input: Value) returns (ok: bool)
    ensures ok == Acceptable(g, input)
  {
    var stack, active: set<ObjectId> := [Enter(input, 0)], {};
    var nodes: nat, bytes: nat := 0, 0;
    ghost var want := Weigh(g, input, 0, {});
    hide Weigh, Rest, Ancestors, Within, Plus;
    NothingLeft(g, nodes, bytes, want, stack, active);
    while stack != []
      invariant want == Plus(Some(Weight(nodes, bytes)), Rest(g, stack, active))
      invariant nodes <= MAX_NODES && bytes <= MAX_STRING_BYTES && Ancestors(stack, active)
      decreases MAX_NODES - nodes, |stack|
    {
      Popped(g, stack, active);
      var frame := stack[|stack| - 1];
      stack := stack[..|stack| - 1];
      if frame.Exit? {
        active := active - {frame.id};
      } else {
        var kept: bool;
        kept, stack, active, bytes := EnterValue(g, frame.value, frame.depth, nodes, bytes, active, stack);
        if !kept { return false; }
        nodes := nodes + 1;
      }
    }
    AllCounted(g, nodes, bytes, active);
    return true;
  }

  lemma NothingLeft(g: Graph, nodes: nat, bytes: nat, want: Option<Weight>, stack: seq<Frame>, active: set<ObjectId>)
    requires nodes == 0 && bytes == 0 && |stack| == 1 && stack[0].Enter? && stack[0].depth == 0 && active == {}
    requires want == Weigh(g, stack[0].value, 0, {})
    ensures want == Plus(Some(Weight(nodes, bytes)), Rest(g, stack, active)) && Ancestors(stack, active)
  {
    assert stack[..0] == [];
    hide Weigh;
  }

  lemma AllCounted(g: Graph, nodes: nat, bytes: nat, active: set<ObjectId>)
    requires nodes <= MAX_NODES && bytes <= MAX_STRING_BYTES
    ensures Within(Plus(Some(Weight(nodes, bytes)), Rest(g, [], active)))
  {
  }

  // ---------------------------------------------------------------- what acceptance means for the graph

  /** Each object is held by the one before it. */
  predicate Chain(g: Graph, p: seq<ObjectId>) {
    forall i :: 0 <= i < |p| - 1 ==> p[i] in g && Ref(p[i + 1]) in Children(g[p[i]])
  }

  /** The same weighing without any memory of ancestors: only the depth limit stops it. */
  function Unfold(g: Graph, v: Value, depth: nat): Option<Weight>
    decreases MAX_DEPTH + 1 - depth, 1, 0
  {
    if depth > MAX_DEPTH then None
    else if v.Ref? then
      if v.id !in g || !CellFits(g[v.id]) then None
      else Plus(Some(Weight(1, 0)), Plus(NamesWeight(Names(g[v.id])), UnfoldAll(g, Children(g[v.id]), depth + 1)))
    else ScalarWeight(v)
  }

  function UnfoldAll(g: Graph, vs: seq<Value>, depth: nat): Option<Weight>
    decreases MAX_DEPTH + 1 - depth, 2, |vs|
  {
    if vs == [] then Some(Weight(0, 0)) else Plus(Unfold(g, vs[0], depth), UnfoldAll(g, vs[1..], depth))
  }

  lemma {:induction false} UnfoldMember(g: Graph, vs: seq<Value>, depth: nat, v: Value)
    requires UnfoldAll(g, vs, depth).Some? && v in vs
    ensures Unfold(g, v, depth).Some?
  {
    if v != vs[0] {
      assert vs == [vs[0]] + vs[1..];
      UnfoldMember(g, vs[1..], depth, v);
    }
  }

  lemma {:induction false} ChainUnfolds(g: Graph, p: seq<ObjectId>, depth: nat)
    requires p != [] && Chain(g, p) && Unfold(g, Ref(p[0]), depth).Some?
    ensures Unfold(g, Ref(p[|p| - 1]), depth + |p| - 1).Some? && depth + |p| - 1 <= MAX_DEPTH
    decreases |p|
  {
    if |p| > 1 {
      assert Ref(p[1]) in Children(g[p[0]]);
      UnfoldMember(g, Children(g[p[0]]), depth + 1, Ref(p[1]));
      hide UnfoldAll, NamesWeight, CellFits, Children;
      ChainPart(g, p, 1, |p|);
      assert p[1..|p|] == p[1..];
      ChainUnfolds(g, p[1..], depth + 1);
    }
  }

  /** An object below itself is refused at every depth. */
  lemma {:induction false} LoopIsRefused(g: Graph, p: seq<ObjectId>, depth: nat)
    requires |p| >= 2 && Chain(g, p) && p[0] == p[|p| - 1]
    ensures Unfold(g, Ref(p[0]), depth) == None
    decreases MAX_DEPTH + 1 - depth
  {
    if depth <= MAX_DEPTH && Unfold(g, Ref(p[0]), depth).Some? {
      ChainUnfolds(g, p, depth);
      LoopIsRefused(g, p, depth + |p| - 1);
    }
  }

  lemma TrailCloses(g: Graph, trail: seq<ObjectId>, id: ObjectId, depth: nat)
    requires Chain(g, trail) && id in trail && trail[|trail| - 1] in g && Ref(id) in Children(g[trail[|trail| - 1]])
    ensures Unfold(g, Ref(id), depth) == None
  {
    var i :| 0 <= i < |trail| && trail[i] == id;
    var p := trail[i..] + [id];
    forall j | 0 <= j < |p| - 1 ensures p[j] in g && Ref(p[j + 1]) in Children(g[p[j]]) {
      assert p[j] == trail[i + j];
      if j < |p| - 2 { assert p[j + 1] == trail[i + j + 1]; }
    }
    LoopIsRefused(g, p, depth);
  }

  /** Below a trail of distinct ancestors, remembering them makes no difference. */
  lemma {:induction false} MemoryIsRedundant(g: Graph, v: Value, depth: nat, path: set<ObjectId>, trail: seq<ObjectId>)
    requires Chain(g, trail) && (forall o :: o in path ==> o in trail)
    requires trail != [] ==> trail[|trail| - 1] in g && v in Children(g[trail[|trail| - 1]])
    ensures Weigh(g, v, depth, path) == Unfold(g, v, depth)
    decreases MAX_DEPTH + 1 - depth, 1, 0
  {
    if depth <= MAX_DEPTH && v.Ref? && v.id in g && CellFits(g[v.id]) {
      hide NamesWeight, CellFits, Children;
      if v.id in path {
        TrailCloses(g, trail, v.id, depth);
      } else {
        var longer := trail + [v.id];
        forall i | 0 <= i < |longer| - 1 ensures longer[i] in g && Ref(longer[i + 1]) in Children(g[longer[i]]) {
          if i < |trail| - 1 { assert longer[i] == trail[i] && longer[i + 1] == trail[i + 1]; }
        }
        AllRedundant(g, Children(g[v.id]), depth + 1, path + {v.id}, longer);
      }
    }
  }

  lemma {:induction false} AllRedundant(g: Graph, vs: seq<Value>, depth: nat, path: set<ObjectId>, trail: seq<ObjectId>)
    requires Chain(g, trail) && (forall o :: o in path ==> o in trail)
    requires trail != [] && trail[|trail| - 1] in g && forall v :: v in vs ==> v in Children(g[trail[|trail| - 1]])
    ensures WeighAll(g, vs, depth, path) == UnfoldAll(g, vs, depth)
    decreases MAX_DEPTH + 1 - depth, 2, |vs|
  {
    if vs != [] {
      hide Weigh, Unfold, Children, Chain;
      assert vs[0] in vs && forall v :: v in vs[1..] ==> v in vs;
      MemoryIsRedundant(g, vs[0], depth, path, trail);
      AllRedundant(g, vs[1..], depth, path, trail);
    }
  }

  /** The active set never changes the verdict: with a depth limit, a cycle is refused without it. */
  lemma ActiveSetIsRedundant(g: Graph, input: Value)
    ensures Acceptable(g, input) <==> Within(Unfold(g, input, 0))
  {
    MemoryIsRedundant(g, input, 0, {}, []);
  }

  /** Accepted values are acyclic along every path, and no path holds more than 33 objects. */
  lemma AcceptedIsAcyclic(g: Graph, input: Value, p: seq<ObjectId>, i: nat, j: nat)
    requires Acceptable(g, input) && p != [] && input == Ref(p[0]) && Chain(g, p) && i < j < |p|
    ensures p[i] != p[j] && |p| <= MAX_DEPTH + 1
  {
    hide Weigh, Unfold, Chain;
    ActiveSetIsRedundant(g, input);
    ChainUnfolds(g, p, 0);
    if p[i] == p[j] {
      ChainPart(g, p, 0, i + 1);
      ChainPart(g, p, i, j + 1);
      ChainUnfolds(g, p[0..i + 1], 0);
      LoopIsRefused(g, p[i..j + 1], i);
    }
  }

  lemma ChainPart(g: Graph, p: seq<ObjectId>, i: nat, j: nat)
    requires Chain(g, p) && i <= j <= |p|
    ensures Chain(g, p[i..j])
  {
    hide Children;
    forall k | 0 <= k < |p[i..j]| - 1 ensures p[i..j][k] in g && Ref(p[i..j][k + 1]) in Children(g[p[i..j][k]]) {
      assert p[i..j][k] == p[i + k] && p[i..j][k + 1] == p[i + k + 1];
    }
  }

  /** The property limit counts an array's indices and `length`, so arrays stop at 127 items, not 256. */
  lemma ArrayLimit(items: seq<Value>)
    ensures CellFits(ArrayCell(items, true)) <==> |items| <= 127
  {
  }
}
