/** The evening service's command reducer and its claim rebase, branch for branch. */
module EveningReducer {
  import opened Basics
  import opened EveningCheckpoint
  import Text

  /** A payload field: text, or some other JSON value (which no authored id equals). */
  datatype Field = Text(text: string) | NotText

  /** The eleven `service.*` command names, and any other. */
  datatype CommandName =
    | CmdServiceStart | CmdStartNew | CmdPrepareRice | CmdAcceptOrder | CmdPerformStep | CmdChoosePresentation
    | CmdPlateOrder | CmdServeOrder | CmdCloseLedger | CmdChooseRestoration | CmdAbandon | CmdUnknown(text: string)

  datatype Key = KeyBeat | KeyOrderId | KeyStepId | KeyChoice | KeyOther(text: string)

  type Payload = map<Key, Field>

  datatype Command = Command(name: CommandName, payload: Payload, expectedRevision: int, contentVersion: string)

  datatype Decision = Decision(
    checkpoint: Checkpoint, accepted: bool, feedbackRef: string, settledNow: bool,
    unlockedNow: seq<string>, outcomeClass: Option<string>)

  type Reply = Result<Decision, ServiceError>

  /** The exact payload keys each known command carries. */
  function PayloadKeys(name: CommandName): set<Key> {
    match name
    case CmdPrepareRice => {KeyBeat}
    case CmdAcceptOrder => {KeyOrderId}
    case CmdPlateOrder => {KeyOrderId}
    case CmdServeOrder => {KeyOrderId}
    case CmdPerformStep => {KeyOrderId, KeyStepId}
    case CmdChoosePresentation => {KeyChoice, KeyOrderId}
    case CmdChooseRestoration => {KeyChoice}
    case _ => {}
  }

  function Correction(c: Checkpoint, cue: string): Reply {
    Success(Decision(c, false, cue, false, [], None))
  }

  function Advance(d: Definition, c: Checkpoint): Result<Checkpoint, ServiceError>
    requires |d.orders| > 0 && RowsFit(d.orders, c.orders)
  {
    Decode(d, c.(components := Conserved(d, c.orders), revision := c.revision + 1))
  }

  function Accept(d: Definition, c: Checkpoint, feedback: string, outcome: Option<string>): Reply
    requires |d.orders| > 0 && RowsFit(d.orders, c.orders)
  {
    match Advance(d, c)
    case Failure(e) => Failure(e)
    case Success(next) => Success(Decision(next, true, feedback, false, [], outcome))
  }

  function Discarded(row: OrderRow): OrderRow {
    if row.state == SERVED then row
    else row.(state := DISCARDED, plateFeedbackRef := None, serveFeedbackRef := None)
  }

  function DiscardedRows(rows: seq<OrderRow>): (r: seq<OrderRow>)
    ensures |r| == |rows|
  {
    seq(|rows|, i requires 0 <= i < |rows| => Discarded(rows[i]))
  }

  /** `payload[key]` as text; a non-text value is no authored id. */
  predicate Says(payload: Payload, key: Key, text: string) {
    key in payload && payload[key] == Text(text)
  }

  predicate SaysOneOf(payload: Payload, key: Key, texts: seq<string>) {
    key in payload && payload[key].Text? && payload[key].text in texts
  }

  function OpenService(d: Definition, c: Checkpoint): Reply
    requires |d.orders| > 0 && RowsFit(d.orders, c.orders)
  {
    if c.phase != IDLE then Correction(c, "cue.start.invalid")
    else Accept(d, c.(phase := OPEN), "feedback.service.opened", None)
  }

  function NewShift(d: Definition, c: Checkpoint): Reply
    requires |d.orders| > 0
  {
    if c.phase != ABANDONED then Correction(c, "cue.start-new.invalid")
    else if c.generation == MAX_SAFE then Failure(InvalidServiceState)
    else Accept(d, c.(generation := c.generation + 1, phase := OPEN, riceBeatIndex := 0, presentationChoice := None,
                      restorationChoice := None, activeOrderIndex := 0, orders := OfferedRows(d)),
                "feedback.service.new-shift", None)
  }

  function PrepareRice(d: Definition, c: Checkpoint, payload: Payload): Reply
    requires |d.orders| > 0 && Shape(d, c)
  {
    var expected := if c.riceBeatIndex < |d.riceBeats| then Some(d.riceBeats[c.riceBeatIndex]) else None;
    if c.phase != OPEN || c.activeOrderIndex != 0 || c.orders[0].state != OFFERED
       || expected.None? || !Says(payload, KeyBeat, expected.value) then
      Correction(c, if expected.Some? then "cue.rice.expected." + expected.value else "cue.rice.complete")
    else
      Accept(d, c.(riceBeatIndex := c.riceBeatIndex + 1), "feedback.rice." + expected.value + ".saved", None)
  }

  /** The active order's definition; absent once every order is served. */
  function ActiveDefinition(d: Definition, c: Checkpoint): Option<OrderDef>
    requires 0 <= c.activeOrderIndex
  {
    if c.activeOrderIndex < |d.orders| then Some(d.orders[c.activeOrderIndex]) else None
  }

  function Cue(prefix: string, definition: Option<OrderDef>, otherwise: string): string {
    if definition.Some? then prefix + definition.value.id else otherwise
  }

  function AcceptGuestOrder(d: Definition, c: Checkpoint, payload: Payload): Reply
    requires |d.orders| > 0 && Shape(d, c)
  {
    var a, definition := c.activeOrderIndex, ActiveDefinition(d, c);
    if c.phase != OPEN || c.riceBeatIndex != |d.riceBeats| || definition.None?
       || !Says(payload, KeyOrderId, definition.value.id) || c.orders[a].state != OFFERED then
      Correction(c, Cue("cue.order.accept.", definition, "cue.orders.complete"))
    else
      Accept(d, c.(orders := c.orders[a := c.orders[a].(state := ACCEPTED)]), definition.value.dialogueRef, None)
  }

  function PerformStep(d: Definition, c: Checkpoint, payload: Payload): Reply
    requires |d.orders| > 0 && Shape(d, c)
  {
    var a, definition := c.activeOrderIndex, ActiveDefinition(d, c);
    if c.phase != OPEN || definition.None? || !Says(payload, KeyOrderId, definition.value.id)
       || c.orders[a].state !in {ACCEPTED, PREPARING} then
      Correction(c, Cue("cue.order.expected.", definition, "cue.orders.complete"))
    else
      var steps, k := definition.value.steps, c.orders[a].stepIndex;
      if k >= |steps| then Correction(c, "cue.plate.required." + definition.value.id)
      else if !Says(payload, KeyStepId, steps[k].id) then Correction(c, steps[k].correctiveCueRef)
      else
        Accept(d, c.(orders := c.orders[a := c.orders[a].(
          state := if k + 1 == |steps| then READY_TO_PLATE else PREPARING, stepIndex := k + 1)]),
               steps[k].promptRef, None)
  }

  function ChoosePresentation(d: Definition, c: Checkpoint, payload: Payload): Reply
    requires |d.orders| > 0 && Shape(d, c)
  {
    if c.phase != OPEN || c.activeOrderIndex != 0 || c.orders[0].state != READY_TO_PLATE || !Says(payload, KeyOrderId, d.orders[0].id)
       || c.presentationChoice.Some? || !SaysOneOf(payload, KeyChoice, d.presentationChoices) then
      Correction(c, "cue.presentation.invalid")
    else
      Accept(d, c.(presentationChoice := Some(payload[KeyChoice].text)), "feedback.presentation." + payload[KeyChoice].text, None)
  }

  function PlateOrder(d: Definition, c: Checkpoint, payload: Payload): Reply
    requires |d.orders| > 0 && Shape(d, c)
  {
    var a, definition := c.activeOrderIndex, ActiveDefinition(d, c);
    if c.phase != OPEN || definition.None? || !Says(payload, KeyOrderId, definition.value.id)
       || c.orders[a].state != READY_TO_PLATE || (a == 0 && c.presentationChoice.None?) then
      Correction(c, Cue("cue.plate.required.", definition, "cue.orders.complete"))
    else
      var feedback := definition.value.plateFeedbackRef;
      Accept(d, c.(orders := c.orders[a := c.orders[a].(state := PLATED, plateFeedbackRef := Some(feedback))]), feedback, None)
  }

  function ServeOrder(d: Definition, c: Checkpoint, payload: Payload): Reply
    requires |d.orders| > 0 && Shape(d, c)
  {
    var a, definition := c.activeOrderIndex, ActiveDefinition(d, c);
    if c.phase != OPEN || definition.None? || !Says(payload, KeyOrderId, definition.value.id) || c.orders[a].state != PLATED then
      Correction(c, Cue("cue.serve.required.", definition, "cue.orders.served"))
    else
      var def := definition.value;
      Accept(d, c.(
        orders := c.orders[a := c.orders[a].(state := SERVED, serveFeedbackRef := Some(def.serveFeedbackRef))],
        activeOrderIndex := a + 1,
        storyFlags := if def.storyFlagId in c.storyFlags then c.storyFlags else c.storyFlags + [def.storyFlagId]),
             def.serveFeedbackRef, Some(def.outcomeClass))
  }

  function CloseLedger(d: Definition, c: Checkpoint): Reply
    requires |d.orders| > 0 && RowsFit(d.orders, c.orders)
  {
    if c.phase != OPEN || c.activeOrderIndex != |d.orders| then Correction(c, "cue.ledger.orders-incomplete")
    else Accept(d, c.(phase := CLOSING), "feedback.ledger.closed", None)
  }

  function ChooseRestoration(d: Definition, c: Checkpoint, payload: Payload): Reply
    requires |d.orders| > 0 && RowsFit(d.orders, c.orders)
  {
    if c.phase != CLOSING || !SaysOneOf(payload, KeyChoice, d.restorationChoices) then
      Correction(c, "cue.restoration.invalid")
    else
      var already := d.settlementUnlock in c.unlocks;
      match Advance(d, c.(phase := SETTLED, restorationChoice := Some(payload[KeyChoice].text),
                          unlocks := if already then c.unlocks else [d.settlementUnlock]))
      case Failure(e) => Failure(e)
      case Success(next) =>
        Success(Decision(next, true, "feedback.service.settled", true, if already then [] else [d.settlementUnlock], None))
  }

  function AbandonService(d: Definition, c: Checkpoint): Reply
    requires |d.orders| > 0 && RowsFit(d.orders, c.orders)
  {
    if c.phase !in {OPEN, CLOSING} then Correction(c, "cue.abandon.invalid")
    else
      Accept(d, c.(phase := ABANDONED, orders := DiscardedRows(c.orders)), "feedback.service.abandoned", None)
  }

  /** The command switch, reached once the envelope and the payload keys have been checked. */
  function ReduceKnown(d: Definition, c: Checkpoint, cmd: Command): Reply
    requires |d.orders| > 0 && Shape(d, c) && !cmd.name.CmdUnknown?
  {
    match cmd.name
    case CmdServiceStart => OpenService(d, c)
    case CmdStartNew => NewShift(d, c)
    case CmdPrepareRice => PrepareRice(d, c, cmd.payload)
    case CmdAcceptOrder => AcceptGuestOrder(d, c, cmd.payload)
    case CmdPerformStep => PerformStep(d, c, cmd.payload)
    case CmdChoosePresentation => ChoosePresentation(d, c, cmd.payload)
    case CmdPlateOrder => PlateOrder(d, c, cmd.payload)
    case CmdServeOrder => ServeOrder(d, c, cmd.payload)
    case CmdCloseLedger => CloseLedger(d, c)
    case CmdChooseRestoration => ChooseRestoration(d, c, cmd.payload)
    case CmdAbandon => AbandonService(d, c)
  }

  function Reduce(d: Definition, c: Checkpoint, cmd: Command): Reply
    requires |d.orders| > 0
  {
    if Decode(d, c).Failure? then Failure(InvalidServiceState)
    else if cmd.expectedRevision != c.revision || c.revision == MAX_SAFE || cmd.contentVersion != d.contentVersion then
      Failure(InvalidServiceState)
    else if c.phase in {SETTLED, ABANDONED} && !(c.phase == ABANDONED && cmd.name == CmdStartNew) then
      Correction(c, "cue.service.complete")
    else if cmd.name.CmdUnknown? || cmd.payload.Keys != PayloadKeys(cmd.name) then Failure(InvalidServiceState)
    else ReduceKnown(d, c, cmd)
  }

  /** Unlocks of both sides, without repeats and sorted. */
  function MergedUnlocks(player: Option<Checkpoint>, guest: Checkpoint): seq<string> {
    Text.SortedUnique((if player.Some? then player.value.unlocks else []) + guest.unlocks)
  }

  function Rebase(d: Definition, guest: Checkpoint, player: Option<Checkpoint>, committedRevision: int): Result<Checkpoint, ServiceError>
    requires |d.orders| > 0
  {
    if !Valid(d, guest) || (player.Some? && !Valid(d, player.value)) || !(0 <= committedRevision <= MAX_SAFE) then
      Failure(InvalidServiceState)
    else Decode(d, guest.(revision := committedRevision, unlocks := MergedUnlocks(player, guest)))
  }
}
