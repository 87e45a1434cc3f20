/**
 * The evening as an authored script: a line of stages, what each stage asks for, and what the
 * stored checkpoint looks like there.  This is the simple reference the reducer is measured against.
 */
module EveningScript {
  import opened Basics
  import opened EveningCheckpoint

  datatype Stage =
    | Start
    | Rice(beat: nat)
    | AcceptOrder(order: nat)
    | Perform(order: nat, step: nat)
    | Present
    | Plate(order: nat)
    | Serve(order: nat)
    | Close
    | Restore
    | Done
    | Stopped

  predicate InScript(d: Definition, s: Stage) {
    match s
    case Rice(beat) => beat < |d.riceBeats|
    case AcceptOrder(o) => o < |d.orders|
    case Perform(o, k) => o < |d.orders| && k < |d.orders[o].steps|
    case Present => |d.orders| > 0
    case Plate(o) => o < |d.orders|
    case Serve(o) => o < |d.orders|
    case _ => true
  }

  function PhaseAt(s: Stage): Phase {
    match s
    case Start => IDLE
    case Restore => CLOSING
    case Done => SETTLED
    case Stopped => ABANDONED
    case _ => OPEN
  }

  function RiceAt(d: Definition, s: Stage): nat {
    match s
    case Start => 0
    case Rice(beat) => beat
    case _ => |d.riceBeats|
  }

  function ActiveAt(d: Definition, s: Stage): nat {
    match s
    case Start => 0
    case Rice(_) => 0
    case AcceptOrder(o) => o
    case Perform(o, _) => o
    case Present => 0
    case Plate(o) => o
    case Serve(o) => o
    case _ => |d.orders|
  }

  /** Whether the first order's presentation has been chosen by stage `s`. */
  predicate ChosenAt(s: Stage) {
    match s
    case AcceptOrder(o) => o > 0
    case Perform(o, _) => o > 0
    case Plate(_) => true
    case Serve(_) => true
    case Close => true
    case Restore => true
    case Done => true
    case _ => false
  }

  function ServedRow(def: OrderDef): OrderRow {
    OrderRow(def.id, SERVED, |def.steps|, Some(def.plateFeedbackRef), Some(def.serveFeedbackRef))
  }

  /** The active order's row at stage `s`. */
  function ActiveRow(s: Stage, def: OrderDef): OrderRow {
    match s
    case Perform(_, k) => OrderRow(def.id, if k == 0 then ACCEPTED else PREPARING, k, None, None)
    case Present => OrderRow(def.id, READY_TO_PLATE, |def.steps|, None, None)
    case Plate(_) => OrderRow(def.id, READY_TO_PLATE, |def.steps|, None, None)
    case Serve(_) => OrderRow(def.id, PLATED, |def.steps|, Some(def.plateFeedbackRef), None)
    case _ => OfferedRow(def)
  }

  function RowAt(d: Definition, s: Stage, i: nat): OrderRow
    requires i < |d.orders|
  {
    if i < ActiveAt(d, s) then ServedRow(d.orders[i])
    else if i == ActiveAt(d, s) then ActiveRow(s, d.orders[i])
    else OfferedRow(d.orders[i])
  }

  function RowsAt(d: Definition, s: Stage): (rows: seq<OrderRow>)
    requires InScript(d, s)
    ensures RowsFit(d.orders, rows)
  {
    seq(|d.orders|, i requires 0 <= i < |d.orders| => RowAt(d, s, i))
  }

  /** Everything about `c` that stage `s` fixes. */
  ghost predicate StandsAt(d: Definition, s: Stage, c: Checkpoint)
    requires InScript(d, s)
  {
    && c.phase == PhaseAt(s)
    && c.riceBeatIndex == RiceAt(d, s)
    && c.activeOrderIndex == ActiveAt(d, s)
    && c.orders == RowsAt(d, s)
    && c.components == Conserved(d, RowsAt(d, s))
    && (c.presentationChoice.Some? <==> ChosenAt(s))
  }

  /** What a stage leaves open: counters, the choices made, story flags and unlocks. */
  ghost predicate Bookkeeping(d: Definition, s: Stage, c: Checkpoint) {
    && 0 <= c.revision <= MAX_SAFE
    && (PhaseAt(s) == OPEN ==> c.revision > 0)
    && 0 <= c.generation <= MAX_SAFE
    && (s == Start ==> c.generation == 0 && c.storyFlags == [])
    && (c.presentationChoice.Some? ==> c.presentationChoice.value in d.presentationChoices)
    && (c.restorationChoice.Some? ==> c.restorationChoice.value in d.restorationChoices)
    && (c.restorationChoice.Some? <==> s == Done)
    && ActiveAt(d, s) <= |c.storyFlags|
    && c.storyFlags <= StoryFlags(d)
    && (c.unlocks == [] || c.unlocks == [d.settlementUnlock])
    && (s == Done ==> c.unlocks != [])
  }

  /** The decoder's invariants, plus the one fact they miss: a plated first order has its presentation. */
  predicate Steady(d: Definition, c: Checkpoint)
    requires |d.orders| > 0
  {
    Valid(d, c) && (c.orders[0].state == PLATED ==> c.presentationChoice.Some?)
  }

  /** Which stage a stored checkpoint stands at. */
  function StageOf(d: Definition, c: Checkpoint): Stage
    requires |d.orders| > 0 && Valid(d, c)
  {
    var a := c.activeOrderIndex;
    match c.phase
    case IDLE => Start
    case CLOSING => Restore
    case SETTLED => Done
    case ABANDONED => Stopped
    case OPEN =>
      if c.riceBeatIndex < |d.riceBeats| then Rice(c.riceBeatIndex)
      else if a == |d.orders| then Close
      else if c.orders[a].state == OFFERED then AcceptOrder(a)
      else if c.orders[a].state in {ACCEPTED, PREPARING} then Perform(a, c.orders[a].stepIndex)
      else if c.orders[a].state == READY_TO_PLATE then (if a == 0 && c.presentationChoice.None? then Present else Plate(a))
      else Serve(a)
  }

  lemma {:induction false} ServedPrefix(rows: seq<OrderRow>, a: nat)
    requires a <= |rows|
    requires forall i :: 0 <= i < |rows| ==> (rows[i].state == SERVED <==> i < a)
    ensures ServedCount(rows) == a
  {
    if rows != [] {
      var last := |rows| - 1;
      ServedPrefix(rows[..last], if a > last then last else a);
    }
  }

  lemma UnlockShape(d: Definition, unlocks: seq<string>)
    requires (forall u :: u in unlocks ==> u == d.settlementUnlock) && |unlocks| <= 1
    ensures unlocks == [] || unlocks == [d.settlementUnlock]
  {
    if |unlocks| == 1 { assert unlocks[0] in unlocks; }
  }

  lemma SteadyRows(d: Definition, c: Checkpoint)
    requires Authored(d) && Steady(d, c) && c.phase != ABANDONED
    ensures InScript(d, StageOf(d, c)) && c.activeOrderIndex == ActiveAt(d, StageOf(d, c))
    ensures c.orders == RowsAt(d, StageOf(d, c))
  {
    var s, n := StageOf(d, c), |d.orders|;
    assert forall i :: 0 <= i < n ==> RowInvariant(d, c, i);
    if c.activeOrderIndex < n { assert RowInvariant(d, c, c.activeOrderIndex); }
    assert InScript(d, s);
    forall i | 0 <= i < n ensures c.orders[i] == RowAt(d, s, i) {
      assert RowInvariant(d, c, i);
    }
  }

  /** Off the abandoned branch, a steady checkpoint is exactly its stage plus bookkeeping. */
  lemma SteadyStandsAtStage(d: Definition, c: Checkpoint)
    requires Authored(d) && Steady(d, c) && c.phase != ABANDONED
    ensures InScript(d, StageOf(d, c))
    ensures StandsAt(d, StageOf(d, c), c)
    ensures Bookkeeping(d, StageOf(d, c), c)
  {
    SteadyRows(d, c);
    UnlockShape(d, c.unlocks);
    FlagsCoverServed(d, c);
    hide RowsAt, RowInvariant, Conserved, Authored, StoryFlags, ServedCount;
  }

  lemma FlagsCoverServed(d: Definition, c: Checkpoint)
    requires Authored(d) && Valid(d, c)
    ensures c.activeOrderIndex <= |c.storyFlags|
  {
    var authored, k := StoryFlags(d), |c.storyFlags|;
    var next := if k < |authored| then authored[k] else "";
    assert k < c.activeOrderIndex ==> next in c.storyFlags;
    assert forall j :: 0 <= j < k ==> c.storyFlags[j] == authored[j];
  }

  lemma {:induction false} UsedSplitsTotal(defs: seq<OrderDef>, rows: seq<OrderRow>, id: string)
    requires RowsFit(defs, rows)
    ensures Used(defs, rows, id, InPlaced) + Used(defs, rows, id, InServed) + Used(defs, rows, id, InDiscarded) <= Total(defs, id)
    decreases |defs|
  {
    if defs != [] {
      var last := |defs| - 1;
      UsedSplitsTotal(defs[..last], rows[..last], id);
      UsesOfPrefix(defs[last].steps, rows[last].stepIndex, id);
    }
  }

  lemma {:induction false} UsesOfPrefix(steps: seq<Step>, k: nat, id: string)
    requires k <= |steps|
    ensures Uses(steps[..k], id) <= Uses(steps, id)
    decreases |steps|
  {
    if k < |steps| {
      assert steps[..|steps| - 1][..k] == steps[..k];
      UsesOfPrefix(steps[..|steps| - 1], k, id);
    } else {
      assert steps[..k] == steps;
    }
  }

  lemma StageRows(d: Definition, s: Stage, c: Checkpoint)
    requires Authored(d) && s != Stopped && InScript(d, s) && StandsAt(d, s, c)
    ensures |c.orders| == |d.orders| && ServedCount(c.orders) == ActiveAt(d, s)
    ensures forall i :: 0 <= i < |d.orders| ==> RowInvariant(d, c, i)
  {
    forall i | 0 <= i < |d.orders|
      ensures c.orders[i] == RowAt(d, s, i) && RowInvariant(d, c, i)
    {
      assert |d.orders[i].steps| > 0;
    }
    ServedPrefix(c.orders, ActiveAt(d, s));
  }

  lemma StageShape(d: Definition, s: Stage, c: Checkpoint)
    requires Authored(d) && s != Stopped && InScript(d, s) && StandsAt(d, s, c) && Bookkeeping(d, s, c)
    ensures Shape(d, c)
  {
    var authored := StoryFlags(d);
    forall i | 0 <= i < |d.orders| ensures c.orders[i] == RowAt(d, s, i) {}
    LedgerIsNonNegative(d, c.orders);
    forall i, j | 0 <= i < j < |c.storyFlags| ensures c.storyFlags[i] != c.storyFlags[j] {
      assert c.storyFlags[i] == authored[i] && c.storyFlags[j] == authored[j];
    }
  }

  /** Whatever stands at a stage with its bookkeeping in order passes the decoder and is steady. */
  lemma StageIsSteady(d: Definition, s: Stage, c: Checkpoint)
    requires Authored(d) && s != Stopped && InScript(d, s) && StandsAt(d, s, c) && Bookkeeping(d, s, c)
    ensures Steady(d, c)
    ensures StageOf(d, c) == s
  {
    StageShape(d, s, c);
    StageRows(d, s, c);
    StageProgress(d, s, c);
    forall k | 0 <= k < ActiveAt(d, s) && k < |d.orders| ensures StoryFlags(d)[k] in c.storyFlags {
      assert c.storyFlags[k] == StoryFlags(d)[k];
    }
    assert c.orders[0] == RowAt(d, s, 0);
    if ActiveAt(d, s) < |d.orders| { assert c.orders[ActiveAt(d, s)] == RowAt(d, s, ActiveAt(d, s)); }
    hide RowsAt, RowInvariant, Conserved, Authored, StoryFlags, ServedCount, Shape;
  }

  lemma StageProgress(d: Definition, s: Stage, c: Checkpoint)
    requires Authored(d) && s != Stopped && InScript(d, s) && StandsAt(d, s, c)
    ensures |c.orders| == |d.orders|
    ensures c.presentationChoice.Some? ==> c.orders[0].state in {READY_TO_PLATE, PLATED, SERVED}
    ensures c.phase == IDLE || RiceAt(d, s) < |d.riceBeats| ==> forall i :: 0 <= i < |d.orders| ==> c.orders[i].state == OFFERED
    ensures c.phase in {CLOSING, SETTLED} ==> forall i :: 0 <= i < |d.orders| ==> c.orders[i].state == SERVED
    ensures ActiveAt(d, s) < |d.orders| ==> c.orders[ActiveAt(d, s)].state !in {SERVED, EXPIRED, FAILED, DISCARDED}
  {
    forall i | 0 <= i < |d.orders| ensures c.orders[i] == RowAt(d, s, i) {}
  }

  lemma LedgerIsNonNegative(d: Definition, rows: seq<OrderRow>)
    requires RowsFit(d.orders, rows)
    ensures forall k :: 0 <= k < |d.componentIds| ==>
      && Conserved(d, rows)[k].id == d.componentIds[k]
      && Conserved(d, rows)[k].available >= 0
  {
    forall k | 0 <= k < |d.componentIds| ensures Conserved(d, rows)[k].available >= 0 {
      UsedSplitsTotal(d.orders, rows, d.componentIds[k]);
    }
  }
}
