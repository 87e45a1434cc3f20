/**
 * The structural limits on a command nobody has authenticated yet: an explicit stack with no memory of ancestors,
 * against a recursive count of the graph's unfolding.
 */
module CommandBounds {
  import opened Basics
  import opened JsonText
  import opened Preflight

  const MAX_COMMAND_DEPTH: nat := 32
  const MAX_COMMAND_NODES: nat := 2048
  const MAX_COMMAND_STRING: nat := 16 * 1024
  const MAX_COMMAND_BYTES: nat := 256 * 1024

  /** `Flat` is any value that is neither a string nor an object. */
  datatype Item = Flat | Chars(s: Text) | Held(id: ObjectId)

  datatype Name = Symbol | Key(s: Text)

  /** An own property: a stored value or an accessor. */
  datatype Property = Data(name: Name, item: Item) | Accessor(name: Name)

  /** Own properties in key order; an array has its indices and `length`. */
  type Objects = map<ObjectId, seq<Property>>

  function Own(g: Objects, id: ObjectId): seq<Property> {
    if id in g then g[id] else []
  }

  function TextLoad(nodes: nat, s: Text): Option<Weight> {
    if Utf8Length(s) > MAX_COMMAND_STRING then None else Some(Weight(nodes, Utf8Length(s)))
  }

  function NameLoad(p: Property): Option<Weight> {
    if p.Accessor? || p.name.Symbol? then None else TextLoad(0, p.name.s)
  }

  /** Nodes and string bytes of the unfolding of a value, or nothing when some part of it is not allowed. */
  function Load(g: Objects, item: Item, depth: nat): Option<Weight>
    decreases MAX_COMMAND_DEPTH + 1 - depth, 1, 0
  {
    if depth > MAX_COMMAND_DEPTH then None
    else
      match item
      case Flat => Some(Weight(1, 0))
      case Chars(s) => TextLoad(1, s)
      case Held(id) => Plus(Some(Weight(1, 0)), LoadAll(g, Own(g, id), depth + 1))
  }

  function LoadAll(g: Objects, ps: seq<Property>, depth: nat): Option<Weight>
    decreases MAX_COMMAND_DEPTH + 1 - depth, 2, |ps|
  {
    if ps == [] then Some(Weight(0, 0))
    else if ps[0].Accessor? then None
    else Plus(Plus(NameLoad(ps[0]), Load(g, ps[0].item, depth)), LoadAll(g, ps[1..], depth))
  }

  predicate Light(w: Option<Weight>) {
    w.Some? && w.value.nodes <= MAX_COMMAND_NODES && w.value.bytes <= MAX_COMMAND_BYTES
  }

  predicate Bounded(g: Objects, root: Item) {
    Light(Load(g, root, 0))
  }

  // ---------------------------------------------------------------- the explicit stack

  datatype Waiting = Waiting(item: Item, depth: nat)

  /** What the stack still weighs; its top is its last element. */
  function Pending(g: Objects, stack: seq<Waiting>): Option<Weight> {
    if stack == [] then Some(Weight(0, 0))
    else var top := stack[|stack| - 1]; Plus(Load(g, top.item, top.depth), Pending(g, stack[..|stack| - 1]))
  }

  lemma PendingPush(g: Objects, stack: seq<Waiting>, top: Waiting)
    ensures Pending(g, stack + [top]) == Plus(Load(g, top.item, top.depth), Pending(g, stack))
  {
    assert (stack + [top])[..|stack|] == stack;
    hide Load;
  }

  /** Counted so far, the properties still to push, the frames below. */
  function Sum(nodes: nat, bytes: nat, props: Option<Weight>, below: Option<Weight>): Option<Weight> {
    Plus(Some(Weight(nodes, bytes)), Plus(props, below))
  }

  /** Pushing one property moves the bytes of its name to the counter and its value to the stack. */
  lemma PropertyMoves(g: Objects, ps: seq<Property>, depth: nat, nodes: nat, bytes: nat, stack: seq<Waiting>)
    requires ps != []
    ensures NameLoad(ps[0]).Some? ==>
      NameLoad(ps[0]).value.nodes == 0
      && Sum(nodes, bytes, LoadAll(g, ps, depth), Pending(g, stack))
        == Sum(nodes, bytes + NameLoad(ps[0]).value.bytes, LoadAll(g, ps[1..], depth), Pending(g, stack + [Waiting(ps[0].item, depth)]))
    ensures !(NameLoad(ps[0]).Some? && bytes + NameLoad(ps[0]).value.bytes <= MAX_COMMAND_BYTES) ==>
      !Light(Sum(nodes, bytes, LoadAll(g, ps, depth), Pending(g, stack)))
  {
    if ps[0].Data? { PendingPush(g, stack, Waiting(ps[0].item, depth)); }
    hide Load, Pending, TextLoad;
  }

  lemma NoneLeft(g: Objects, nodes: nat, bytes: nat, depth: nat, below: Option<Weight>)
    ensures Sum(nodes, bytes, LoadAll(g, [], depth), below) == Plus(Some(Weight(nodes, bytes)), below)
  {
  }

  /** The inner loop over the own keys. */
  method PushOwn(g: Objects, ps: seq<Property>, depth: nat, nodes: nat, bytes: nat, below: seq<Waiting>)
    returns (ok: bool, stack: seq<Waiting>, total: nat)
    requires bytes <= MAX_COMMAND_BYTES
    ensures ok ==> total <= MAX_COMMAND_BYTES
    ensures ok ==> Sum(nodes, bytes, LoadAll(g, ps, depth), Pending(g, below)) == Plus(Some(Weight(nodes, total)), Pending(g, stack))
    ensures !ok ==> !Light(Sum(nodes, bytes, LoadAll(g, ps, depth), Pending(g, below)))
  {
    hide LoadAll, Load, Pending, Sum, Light, Plus;
    stack, total := below, bytes;
    ghost var want := Sum(nodes, bytes, LoadAll(g, ps, depth), Pending(g, below));
    assert ps[0..] == ps;
    for i := 0 to |ps|
      invariant total <= MAX_COMMAND_BYTES && want == Sum(nodes, total, LoadAll(g, ps[i..], depth), Pending(g, stack))
    {
      PropertyMoves(g, ps[i..], depth, nodes, total, stack);
      assert ps[i..][1..] == ps[i + 1..];
      if ps[i].name.Symbol? || ps[i].Accessor? { return false, stack, total; }
      var keyBytes := Utf8Length(ps[i].name.s);
      if keyBytes > MAX_COMMAND_STRING || total + keyBytes > MAX_COMMAND_BYTES { return false, stack, total; }
      total := total + keyBytes;
      stack := stack + [Waiting(ps[i].item, depth)];
    }
    NoneLeft(g, nodes, total, depth, Pending(g, stack));
    return true, stack, total;
  }

  /** What popping the top frame leaves to be counted. */
  lemma FrameOpens(g: Objects, item: Item, depth: nat, nodes: nat, bytes: nat, below: Option<Weight>)
    ensures var all := Plus(Some(Weight(nodes, bytes)), Plus(Load(g, item, depth), below));
      && (nodes + 1 > MAX_COMMAND_NODES || depth > MAX_COMMAND_DEPTH ==> !Light(all))
      && (depth <= MAX_COMMAND_DEPTH && item.Flat? ==> all == Plus(Some(Weight(nodes + 1, bytes)), below))
      && (depth <= MAX_COMMAND_DEPTH && item.Held? ==> all == Sum(nodes + 1, bytes, LoadAll(g, Own(g, item.id), depth + 1), below))
      && (depth <= MAX_COMMAND_DEPTH && item.Chars? ==>
           if Utf8Length(item.s) > MAX_COMMAND_STRING || bytes + Utf8Length(item.s) > MAX_COMMAND_BYTES then !Light(all)
           else all == Plus(Some(Weight(nodes + 1, bytes + Utf8Length(item.s))), below))
  {
    hide LoadAll, Utf8Length;
  }

  /** The check accepts exactly the values whose unfolding keeps every limit, and halts on cyclic values too. */
  method AssertBounded(g: Objects, root: Item) returns (ok: bool)
    ensures ok == Bounded(g, root)
  {
    hide Load, LoadAll, Pending, Sum, Light, Plus, Utf8Length;
    var stack := [Waiting(root, 0)];
    var nodes: nat, bytes: nat := 0, 0;
    ghost var want := Load(g, root, 0);
    Begin(g, root);
    while stack != []
      invariant nodes <= MAX_COMMAND_NODES && bytes <= MAX_COMMAND_BYTES && want == Plus(Some(Weight(nodes, bytes)), Pending(g, stack))
      decreases MAX_COMMAND_NODES - nodes
    {
      var top, below := stack[|stack| - 1], stack[..|stack| - 1];
      assert stack == below + [top];
      PendingPush(g, below, top);
      FrameOpens(g, top.item, top.depth, nodes, bytes, Pending(g, below));
      if nodes + 1 > MAX_COMMAND_NODES || top.depth > MAX_COMMAND_DEPTH { return false; }
      nodes, stack := nodes + 1, below;
      if top.item.Chars? {
        var length := Utf8Length(top.item.s);
        if length > MAX_COMMAND_STRING || bytes + length > MAX_COMMAND_BYTES { return false; }
        bytes := bytes + length;
      } else if top.item.Held? {
        var pushed: bool;
        pushed, stack, bytes := PushOwn(g, Own(g, top.item.id), top.depth + 1, nodes, bytes, below);
        if !pushed { return false; }
      }
    }
    End(g, nodes, bytes);
    return true;
  }

  lemma Begin(g: Objects, root: Item)
    ensures Load(g, root, 0) == Plus(Some(Weight(0, 0)), Pending(g, [Waiting(root, 0)]))
  {
    PendingPush(g, [], Waiting(root, 0));
    assert [] + [Waiting(root, 0)] == [Waiting(root, 0)];
    hide Load;
  }

  lemma End(g: Objects, nodes: nat, bytes: nat)
    requires nodes <= MAX_COMMAND_NODES && bytes <= MAX_COMMAND_BYTES
    ensures Light(Plus(Some(Weight(nodes, bytes)), Pending(g, [])))
  {
  }

  // ---------------------------------------------------------------- what acceptance means

  predicate Holds(g: Objects, id: ObjectId, child: ObjectId) {
    exists p :: p in Own(g, id) && p.Data? && p.item == Held(child)
  }

  predicate Nested(g: Objects, path: seq<ObjectId>) {
    forall i :: 0 <= i < |path| - 1 ==> Holds(g, path[i], path[i + 1])
  }

  lemma {:induction false} LoadOfMember(g: Objects, ps: seq<Property>, depth: nat, p: Property)
    requires LoadAll(g, ps, depth).Some? && p in ps
    ensures p.Data? && NameLoad(p).Some? && Load(g, p.item, depth).Some?
    ensures LoadAll(g, ps, depth).value.nodes >= Load(g, p.item, depth).value.nodes
  {
    hide Load, NameLoad;
    if p != ps[0] {
      assert ps == [ps[0]] + ps[1..];
      LoadOfMember(g, ps[1..], depth, p);
    }
  }

  lemma {:induction false} NestedLoads(g: Objects, path: seq<ObjectId>, depth: nat)
    requires path != [] && Nested(g, path) && Load(g, Held(path[0]), depth).Some?
    ensures depth + |path| - 1 <= MAX_COMMAND_DEPTH && Load(g, Held(path[|path| - 1]), depth + |path| - 1).Some?
    decreases |path|
  {
    if |path| > 1 {
      assert Holds(g, path[0], path[1]);
      var p :| p in Own(g, path[0]) && p.Data? && p.item == Held(path[1]);
      LoadOfMember(g, Own(g, path[0]), depth + 1, p);
      hide LoadAll, Holds;
      forall i | 0 <= i < |path[1..]| - 1 ensures Holds(g, path[1..][i], path[1..][i + 1]) { assert Holds(g, path[i + 1], path[i + 2]); }
      NestedLoads(g, path[1..], depth + 1);
    }
  }

  lemma {:induction false} CycleIsHeavy(g: Objects, path: seq<ObjectId>, depth: nat)
    requires |path| >= 2 && Nested(g, path) && path[0] == path[|path| - 1]
    ensures Load(g, Held(path[0]), depth) == None
    decreases MAX_COMMAND_DEPTH + 1 - depth
  {
    if depth <= MAX_COMMAND_DEPTH && Load(g, Held(path[0]), depth).Some? {
      NestedLoads(g, path, depth);
      CycleIsHeavy(g, path, depth + |path| - 1);
    }
  }

  /** An accepted command is acyclic and at most 33 objects deep, though the check never looks for a cycle. */
  lemma BoundedIsAcyclic(g: Objects, path: seq<ObjectId>, i: nat, j: nat)
    requires path != [] && Bounded(g, Held(path[0])) && Nested(g, path) && i < j < |path|
    ensures path[i] != path[j] && |path| <= MAX_COMMAND_DEPTH + 1
  {
    hide Load, Holds;
    NestedLoads(g, path, 0);
    if path[i] == path[j] {
      NestedLoads(g, path[..i + 1], 0);
      CycleIsHeavy(g, path[i..j + 1], i);
    }
  }
}
