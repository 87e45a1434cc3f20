/**
 * The evening service's authored definition, its stored checkpoint, and the check that every
 * decoded checkpoint must pass.  The source pins one definition of three orders and three rice
 * beats and writes `3` where it means either count; here both counts come from the definition.
 */
module EveningCheckpoint {
  import opened Basics

  datatype Step = Step(id: string, promptRef: string, correctiveCueRef: string, componentRef: Option<string>)

  datatype OrderDef = OrderDef(
    id: string, outcomeClass: string, dialogueRef: string, acceptPromptRef: string, steps: seq<Step>,
    platePromptRef: string, plateFeedbackRef: string, serveFeedbackRef: string,
    storyFlagId: string, persistentConsequenceRef: string)

  datatype Definition = Definition(
    contentVersion: string, startPromptRef: string, riceBeats: seq<string>, ricePromptRefs: map<string, string>,
    closePromptRef: string, restorationPromptRef: string, settledPromptRef: string, abandonedPromptRef: string,
    presentationChoices: seq<string>, restorationChoices: seq<string>, orders: seq<OrderDef>,
    componentIds: seq<string>, settlementUnlock: string)

  datatype Phase = IDLE | OPEN | CLOSING | SETTLED | ABANDONED

  datatype OrderState =
    | OFFERED | ACCEPTED | PREPARING | READY_TO_PLATE | PLATED | SERVED | EXPIRED | FAILED | DISCARDED

  datatype OrderRow = OrderRow(
    id: string, state: OrderState, stepIndex: int, plateFeedbackRef: Option<string>, serveFeedbackRef: Option<string>)

  datatype ComponentRow = ComponentRow(id: string, total: int, available: int, placed: int, served: int, discarded: int)

  datatype Checkpoint = Checkpoint(
    revision: int, generation: int, phase: Phase, riceBeatIndex: int,
    presentationChoice: Option<string>, restorationChoice: Option<string>, activeOrderIndex: int,
    orders: seq<OrderRow>, components: seq<ComponentRow>, storyFlags: seq<string>, unlocks: seq<string>)

  datatype ServiceError = InvalidServiceState

  /** What authoring guarantees: at least one order, something to do in each, and real choices. */
  ghost predicate Authored(d: Definition) {
    && |d.orders| > 0
    && (forall i :: 0 <= i < |d.orders| ==> |d.orders[i].steps| > 0)
    && (forall i, j :: 0 <= i < j < |d.orders| ==> d.orders[i].storyFlagId != d.orders[j].storyFlagId)
    && (forall i :: 0 <= i < |d.riceBeats| ==> d.riceBeats[i] in d.ricePromptRefs)
    && |d.presentationChoices| > 0 && "" !in d.presentationChoices
    && |d.restorationChoices| > 0 && "" !in d.restorationChoices
    && (forall i :: 0 <= i < |d.orders| ==> d.orders[i].serveFeedbackRef != "")
  }

  // ---------------------------------------------------------------- components

  datatype Bucket = InPlaced | InServed | InDiscarded

  function BucketOf(state: OrderState): Bucket {
    match state
    case SERVED => InServed
    case DISCARDED => InDiscarded
    case _ => InPlaced
  }

  /** How many of `steps` consume component `id`. */
  function Uses(steps: seq<Step>, id: string): (n: nat)
    ensures n <= |steps|
  {
    if steps == [] then 0
    else Uses(steps[..|steps| - 1], id) + (if steps[|steps| - 1].componentRef == Some(id) then 1 else 0)
  }

  /** The steps of an order that its row says are done. */
  function StepsDone(def: OrderDef, row: OrderRow): seq<Step>
    requires 0 <= row.stepIndex <= |def.steps|
  {
    def.steps[..row.stepIndex]
  }

  predicate RowsFit(defs: seq<OrderDef>, rows: seq<OrderRow>) {
    |rows| == |defs| && forall i :: 0 <= i < |rows| ==> 0 <= rows[i].stepIndex <= |defs[i].steps|
  }

  function Total(defs: seq<OrderDef>, id: string): nat {
    if defs == [] then 0 else Total(defs[..|defs| - 1], id) + Uses(defs[|defs| - 1].steps, id)
  }

  /** Units of component `id` used so far by the orders standing in bucket `b`. */
  function Used(defs: seq<OrderDef>, rows: seq<OrderRow>, id: string, b: Bucket): nat
    requires RowsFit(defs, rows)
    decreases |defs|
  {
    if defs == [] then 0
    else
      var last := |defs| - 1;
      Used(defs[..last], rows[..last], id, b)
      + (if BucketOf(rows[last].state) == b then Uses(StepsDone(defs[last], rows[last]), id) else 0)
  }

  function Ledger(defs: seq<OrderDef>, rows: seq<OrderRow>, id: string): ComponentRow
    requires RowsFit(defs, rows)
  {
    var placed, served, discarded := Used(defs, rows, id, InPlaced), Used(defs, rows, id, InServed), Used(defs, rows, id, InDiscarded);
    ComponentRow(id, Total(defs, id), Total(defs, id) - placed - served - discarded, placed, served, discarded)
  }

  function Conserved(d: Definition, rows: seq<OrderRow>): (ledger: seq<ComponentRow>)
    requires RowsFit(d.orders, rows)
    ensures |ledger| == |d.componentIds|
  {
    seq(|d.componentIds|, i requires 0 <= i < |d.componentIds| => Ledger(d.orders, rows, d.componentIds[i]))
  }

  method CountUses(steps: seq<Step>, id: string) returns (n: nat)
    ensures n == Uses(steps, id)
  {
    n := 0;
    for i := 0 to |steps|
      invariant n == Uses(steps[..i], id)
    {
      assert steps[..i + 1][..i] == steps[..i];
      if steps[i].componentRef == Some(id) { n := n + 1; }
    }
    assert steps[..|steps|] == steps;
  }

  /** One component's accumulators over the orders, tied to the recursive ledger row. */
  method AccumulateComponent(d: Definition, rows: seq<OrderRow>, id: string) returns (row: ComponentRow)
    requires RowsFit(d.orders, rows)
    ensures row == Ledger(d.orders, rows, id)
  {
    var total: int, placed: int, served: int, discarded: int := 0, 0, 0, 0;
    for i := 0 to |d.orders|
      invariant total == Total(d.orders[..i], id)
      invariant placed == Used(d.orders[..i], rows[..i], id, InPlaced)
      invariant served == Used(d.orders[..i], rows[..i], id, InServed)
      invariant discarded == Used(d.orders[..i], rows[..i], id, InDiscarded)
    {
      assert d.orders[..i + 1][..i] == d.orders[..i] && rows[..i + 1][..i] == rows[..i];
      var all := CountUses(d.orders[i].steps, id);
      var completed := CountUses(d.orders[i].steps[..rows[i].stepIndex], id);
      total := total + all;
      if rows[i].state == SERVED { served := served + completed; }
      else if rows[i].state == DISCARDED { discarded := discarded + completed; }
      else { placed := placed + completed; }
    }
    assert d.orders[..|d.orders|] == d.orders && rows[..|d.orders|] == rows;
    row := ComponentRow(id, total, total - placed - served - discarded, placed, served, discarded);
  }

  method ConservedComponents(d: Definition, rows: seq<OrderRow>) returns (ledger: seq<ComponentRow>)
    requires RowsFit(d.orders, rows)
    ensures ledger == Conserved(d, rows)
  {
    ledger := [];
    for c := 0 to |d.componentIds|
      invariant ledger == Conserved(d, rows)[..c]
    {
      var row := AccumulateComponent(d, rows, d.componentIds[c]);
      ledger := ledger + [row];
    }
  }

  // ---------------------------------------------------------------- decoding

  function StoryFlags(d: Definition): seq<string> {
    seq(|d.orders|, i requires 0 <= i < |d.orders| => d.orders[i].storyFlagId)
  }

  predicate Distinct(s: seq<string>) {
    forall i, j :: 0 <= i < j < |s| ==> s[i] != s[j]
  }

  function ServedCount(rows: seq<OrderRow>): nat {
    if rows == [] then 0
    else ServedCount(rows[..|rows| - 1]) + (if rows[|rows| - 1].state == SERVED then 1 else 0)
  }

  /** The field and range checks of the decoder. */
  predicate Shape(d: Definition, c: Checkpoint) {
    && 0 <= c.revision <= MAX_SAFE
    && 0 <= c.generation <= MAX_SAFE
    && 0 <= c.riceBeatIndex <= |d.riceBeats|
    && 0 <= c.activeOrderIndex <= |d.orders|
    && (c.presentationChoice.Some? ==> c.presentationChoice.value in d.presentationChoices)
    && (c.restorationChoice.Some? ==> c.restorationChoice.value in d.restorationChoices)
    && Distinct(c.unlocks)
    && Distinct(c.storyFlags)
    && RowsFit(d.orders, c.orders)
    && (forall i :: 0 <= i < |c.orders| ==>
      && c.orders[i].id == d.orders[i].id
      && (c.orders[i].plateFeedbackRef.Some? ==> c.orders[i].plateFeedbackRef.value == d.orders[i].plateFeedbackRef)
      && (c.orders[i].serveFeedbackRef.Some? ==> c.orders[i].serveFeedbackRef.value == d.orders[i].serveFeedbackRef))
    && |c.components| == |d.componentIds|
    && (forall i :: 0 <= i < |c.components| ==>
      && c.components[i].id == d.componentIds[i]
      && c.components[i].total >= 0 && c.components[i].available >= 0 && c.components[i].placed >= 0
      && c.components[i].served >= 0 && c.components[i].discarded >= 0)
  }

  /** The checks the decoder makes on order row `i`. */
  predicate RowInvariant(d: Definition, c: Checkpoint, i: nat)
    requires i < |d.orders| == |c.orders|
  {
    var row, def := c.orders[i], d.orders[i];
    && row.state !in {EXPIRED, FAILED}
    && (i < c.activeOrderIndex ==> row.state == SERVED)
    && (c.phase == ABANDONED && i >= c.activeOrderIndex ==> row.state == DISCARDED)
    && (c.phase != ABANDONED && i > c.activeOrderIndex ==> row.state == OFFERED)
    && (row.state in {OFFERED, ACCEPTED} ==> row.stepIndex == 0)
    && (row.state == PREPARING ==> 0 < row.stepIndex < |def.steps|)
    && (row.state in {READY_TO_PLATE, PLATED, SERVED} ==> row.stepIndex == |def.steps|)
    && (row.state in {PLATED, SERVED} <==> row.plateFeedbackRef == Some(def.plateFeedbackRef))
    && (row.state == SERVED <==> row.serveFeedbackRef == Some(def.serveFeedbackRef))
  }

  /** The service invariants, in the source's order of checks. */
  predicate Invariants(d: Definition, c: Checkpoint)
    requires |d.orders| > 0 && Shape(d, c)
  {
    var served, n, authored := ServedCount(c.orders), |d.orders|, StoryFlags(d);
    && served == c.activeOrderIndex
    && c.storyFlags <= authored
    && (forall k :: 0 <= k < served && k < n ==> authored[k] in c.storyFlags)
    && (forall i :: 0 <= i < n ==> RowInvariant(d, c, i))
    && c.components == Conserved(d, c.orders)
    && (forall u :: u in c.unlocks ==> u == d.settlementUnlock)
    && |c.unlocks| <= 1
    && (c.phase == SETTLED ==> d.settlementUnlock in c.unlocks)
    && (c.phase in {CLOSING, SETTLED} ==> served == n && c.activeOrderIndex == n)
    && (c.phase == SETTLED ==> c.restorationChoice.Some? && c.riceBeatIndex == |d.riceBeats| && c.presentationChoice.Some?)
    && (c.phase != SETTLED ==> c.restorationChoice.None?)
    && (c.presentationChoice.Some? ==> c.orders[0].state in {READY_TO_PLATE, PLATED, SERVED})
    && (c.phase == IDLE ==>
      && c.generation == 0 && c.riceBeatIndex == 0 && c.activeOrderIndex == 0 && c.presentationChoice.None?
      && |c.storyFlags| == 0 && (forall i :: 0 <= i < n ==> c.orders[i].state == OFFERED))
    && (c.phase == OPEN ==>
      && c.revision != 0
      && (c.riceBeatIndex < |d.riceBeats| ==>
        c.activeOrderIndex == 0 && c.presentationChoice.None? && forall i :: 0 <= i < n ==> c.orders[i].state == OFFERED)
      && (c.activeOrderIndex < n ==>
        c.orders[c.activeOrderIndex].state in {OFFERED, ACCEPTED, PREPARING, READY_TO_PLATE, PLATED})
      && (c.activeOrderIndex > 0 ==> c.presentationChoice.Some?))
    && (c.phase in {CLOSING, SETTLED} ==>
      && c.riceBeatIndex == |d.riceBeats| && c.presentationChoice.Some?
      && forall i :: 0 <= i < n ==> c.orders[i].state == SERVED)
  }

  predicate Valid(d: Definition, c: Checkpoint)
    requires |d.orders| > 0
  {
    Shape(d, c) && Invariants(d, c)
  }

  function Decode(d: Definition, c: Checkpoint): Result<Checkpoint, ServiceError>
    requires |d.orders| > 0
  {
    if Valid(d, c) then Success(c) else Failure(InvalidServiceState)
  }

  function OfferedRow(def: OrderDef): OrderRow {
    OrderRow(def.id, OFFERED, 0, None, None)
  }

  function OfferedRows(d: Definition): (rows: seq<OrderRow>)
    ensures RowsFit(d.orders, rows)
  {
    seq(|d.orders|, i requires 0 <= i < |d.orders| => OfferedRow(d.orders[i]))
  }

  function Initial(d: Definition): Checkpoint {
    Checkpoint(0, 0, IDLE, 0, None, None, 0, OfferedRows(d), Conserved(d, OfferedRows(d)), [], [])
  }
}
