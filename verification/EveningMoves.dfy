/** Each accepted command by itself: what it needs, which fields of the checkpoint it writes, and what it answers. */
module EveningMoves {
  import opened Basics
  import opened EveningCheckpoint
  import opened EveningReducer
  import opened EveningScript
  import opened EveningTheorems
  import opened EveningViews

  // ---------------------------------------------------------------- the eleven commands

  /** The payload holds these texts under these keys, and nothing else. */
  predicate Carries(payload: Payload, fields: map<Key, string>) {
    payload.Keys == fields.Keys && forall k :: k in fields ==> payload[k] == Text(fields[k])
  }

  predicate CarriesChoice(payload: Payload, others: map<Key, string>, choices: seq<string>, chosen: string) {
    KeyChoice !in others && chosen in choices && Carries(payload, others[KeyChoice := chosen])
  }

  /** `next` is `c` one revision on, with its stock counted anew. */
  predicate NextOf(c: Checkpoint, next: Checkpoint) {
    next == c.(revision := c.revision + 1, components := next.components)
  }

  /** The active order: service open, rice done, not all served. */
  predicate Serving(d: Definition, c: Checkpoint) {
    c.phase == OPEN && 0 <= c.activeOrderIndex < |d.orders| == |c.orders|
  }

  /** What abandoning makes of a row: served orders stay, the rest is thrown away with its steps done. */
  function Cleared(row: OrderRow): OrderRow {
    if row.state == SERVED then row else OrderRow(row.id, DISCARDED, row.stepIndex, None, None)
  }

  ghost predicate Moves(d: Definition, c: Checkpoint, cmd: Command, r: Decision) {
    var next, a := r.checkpoint, c.activeOrderIndex;
    match cmd.name
    case CmdServiceStart =>
      cmd.payload == map[] && c.phase == IDLE && NextOf(c.(phase := OPEN), next) && r.feedbackRef == "feedback.service.opened"
    case CmdStartNew =>
      && cmd.payload == map[] && c.phase == ABANDONED && c.generation < 9007199254740991
      && next.generation == c.generation + 1 && next.revision == c.revision + 1 && next.phase == OPEN && next.riceBeatIndex == 0
      && next.presentationChoice == None && next.restorationChoice == None && next.activeOrderIndex == 0
      && |next.orders| == |d.orders| && (forall i :: 0 <= i < |d.orders| ==> next.orders[i] == OrderRow(d.orders[i].id, OFFERED, 0, None, None))
      && next.storyFlags == c.storyFlags && next.unlocks == c.unlocks && r.feedbackRef == "feedback.service.new-shift"
    case CmdPrepareRice =>
      && c.phase == OPEN && 0 <= c.riceBeatIndex < |d.riceBeats| && Carries(cmd.payload, map[KeyBeat := d.riceBeats[c.riceBeatIndex]])
      && NextOf(c.(riceBeatIndex := c.riceBeatIndex + 1), next)
      && r.feedbackRef == "feedback.rice." + d.riceBeats[c.riceBeatIndex] + ".saved"
    case CmdAcceptOrder =>
      && Serving(d, c) && c.riceBeatIndex == |d.riceBeats| && c.orders[a].state == OFFERED && Carries(cmd.payload, map[KeyOrderId := d.orders[a].id])
      && NextOf(c.(orders := c.orders[a := OrderRow(d.orders[a].id, ACCEPTED, 0, None, None)]), next)
      && r.feedbackRef == d.orders[a].dialogueRef
    case CmdPerformStep =>
      && Serving(d, c) && c.orders[a].state in {ACCEPTED, PREPARING} && 0 <= c.orders[a].stepIndex < |d.orders[a].steps|
      && var k, steps := c.orders[a].stepIndex, d.orders[a].steps;
        && Carries(cmd.payload, map[KeyOrderId := d.orders[a].id, KeyStepId := steps[k].id])
        && NextOf(c.(orders := c.orders[a := OrderRow(
          d.orders[a].id, if k + 1 < |steps| then PREPARING else READY_TO_PLATE, k + 1, None, None)]), next)
        && r.feedbackRef == steps[k].promptRef
    case CmdChoosePresentation =>
      && Serving(d, c) && a == 0 && c.orders[0].state == READY_TO_PLATE && c.presentationChoice == None && next.presentationChoice.Some?
      && CarriesChoice(cmd.payload, map[KeyOrderId := d.orders[0].id], d.presentationChoices, next.presentationChoice.value)
      && NextOf(c.(presentationChoice := next.presentationChoice), next)
      && r.feedbackRef == "feedback.presentation." + next.presentationChoice.value
    case CmdPlateOrder =>
      && Serving(d, c) && c.orders[a].state == READY_TO_PLATE && Carries(cmd.payload, map[KeyOrderId := d.orders[a].id])
      && (a == 0 ==> c.presentationChoice.Some?)
      && NextOf(c.(orders := c.orders[a := OrderRow(
        d.orders[a].id, PLATED, |d.orders[a].steps|, Some(d.orders[a].plateFeedbackRef), None)]), next)
      && r.feedbackRef == d.orders[a].plateFeedbackRef
    case CmdServeOrder =>
      && Serving(d, c) && c.orders[a].state == PLATED && Carries(cmd.payload, map[KeyOrderId := d.orders[a].id])
      && NextOf(c.(
        orders := c.orders[a := OrderRow(
          d.orders[a].id, SERVED, |d.orders[a].steps|, Some(d.orders[a].plateFeedbackRef), Some(d.orders[a].serveFeedbackRef))],
        activeOrderIndex := a + 1,
        storyFlags := if d.orders[a].storyFlagId in c.storyFlags then c.storyFlags else c.storyFlags + [d.orders[a].storyFlagId]), next)
      && r.feedbackRef == d.orders[a].serveFeedbackRef
    case CmdCloseLedger =>
      && cmd.payload == map[] && c.phase == OPEN && a == |d.orders|
      && NextOf(c.(phase := CLOSING), next) && r.feedbackRef == "feedback.ledger.closed"
    case CmdChooseRestoration =>
      && c.phase == CLOSING && next.restorationChoice.Some?
      && CarriesChoice(cmd.payload, map[], d.restorationChoices, next.restorationChoice.value)
      && NextOf(c.(phase := SETTLED, restorationChoice := next.restorationChoice,
                   unlocks := if d.settlementUnlock in c.unlocks then c.unlocks else [d.settlementUnlock]), next)
      && r.feedbackRef == "feedback.service.settled"
    case CmdAbandon =>
      && cmd.payload == map[] && c.phase in {OPEN, CLOSING} && |next.orders| == |c.orders|
      && (forall i :: 0 <= i < |c.orders| ==> next.orders[i] == Cleared(c.orders[i]))
      && NextOf(c.(phase := ABANDONED, orders := next.orders), next) && r.feedbackRef == "feedback.service.abandoned"
    case CmdUnknown(_) => false
  }

  lemma OneCarried(payload: Payload, k: Key, text: string)
    requires payload.Keys == {k} && Says(payload, k, text)
    ensures Carries(payload, map[k := text])
  {
  }

  lemma TwoCarried(payload: Payload, k: Key, s: string, j: Key, t: string)
    requires payload.Keys == {k, j} && k != j && Says(payload, k, s) && Says(payload, j, t)
    ensures Carries(payload, map[k := s, j := t]) && map[k := s, j := t] == map[k := s][j := t]
  {
  }

  /** The active order's row while it is being worked on. */
  lemma ActiveRowIs(d: Definition, c: Checkpoint)
    requires |d.orders| > 0 && Valid(d, c) && c.activeOrderIndex < |d.orders|
    ensures var row, def := c.orders[c.activeOrderIndex], d.orders[c.activeOrderIndex];
      && row.id == def.id
      && (row.state in {OFFERED, ACCEPTED} ==> row == OrderRow(def.id, row.state, 0, None, None))
      && (row.state == PREPARING ==> row == OrderRow(def.id, PREPARING, row.stepIndex, None, None))
      && (row.state == READY_TO_PLATE ==> row == OrderRow(def.id, READY_TO_PLATE, |def.steps|, None, None))
      && (row.state == PLATED ==> row == OrderRow(def.id, PLATED, |def.steps|, Some(def.plateFeedbackRef), None))
  {
    assert RowInvariant(d, c, c.activeOrderIndex);
  }

  predicate Took(d: Definition, c: Checkpoint, cmd: Command)
    requires |d.orders| > 0
  {
    Valid(d, c) && Reduce(d, c, cmd).Success? && Reduce(d, c, cmd).value.accepted
  }

  lemma TookParts(d: Definition, c: Checkpoint, cmd: Command)
    requires |d.orders| > 0 && Took(d, c, cmd)
    ensures Shape(d, c) && !cmd.name.CmdUnknown? && cmd.payload.Keys == PayloadKeys(cmd.name) && Reduce(d, c, cmd) == ReduceKnown(d, c, cmd)
    ensures cmd.expectedRevision == c.revision && c.revision < 9007199254740991 && cmd.contentVersion == d.contentVersion
  {
    hide ReduceKnown, Invariants;
  }

  /** Accepting with a new checkpoint stores it, one revision on, and says so. */
  lemma AcceptMeans(d: Definition, base: Checkpoint, feedback: string, outcome: Option<string>)
    requires |d.orders| > 0 && RowsFit(d.orders, base.orders)
    ensures var reply := Accept(d, base, feedback, outcome);
      reply.Success? ==> NextOf(base, reply.value.checkpoint) && reply.value.accepted && reply.value.feedbackRef == feedback
  {
    hide Valid, Conserved;
  }

  lemma OpeningMoves(d: Definition, c: Checkpoint, cmd: Command)
    requires |d.orders| > 0 && Took(d, c, cmd) && cmd.name in {CmdServiceStart, CmdStartNew, CmdPrepareRice}
    ensures Moves(d, c, cmd, Reduce(d, c, cmd).value)
  {
    TookParts(d, c, cmd);
    hide Took, Reduce, Accept, Invariants, Carries;
    if cmd.name == CmdServiceStart {
      AcceptMeans(d, c.(phase := OPEN), "feedback.service.opened", None);
    } else if cmd.name == CmdStartNew {
      AcceptMeans(d, c.(generation := c.generation + 1, phase := OPEN, riceBeatIndex := 0, presentationChoice := None,
                      restorationChoice := None, activeOrderIndex := 0, orders := OfferedRows(d)), "feedback.service.new-shift", None);
    } else {
      var k := c.riceBeatIndex;
      if k < |d.riceBeats| {
        AcceptMeans(d, c.(riceBeatIndex := k + 1), "feedback.rice." + d.riceBeats[k] + ".saved", None);
        if Says(cmd.payload, KeyBeat, d.riceBeats[k]) { OneCarried(cmd.payload, KeyBeat, d.riceBeats[k]); }
      }
    }
  }

  lemma AcceptOrderMoves(d: Definition, c: Checkpoint, cmd: Command)
    requires |d.orders| > 0 && Took(d, c, cmd) && cmd.name == CmdAcceptOrder
    ensures Moves(d, c, cmd, Reduce(d, c, cmd).value)
  {
    TookParts(d, c, cmd);
    var a := c.activeOrderIndex;
    if a < |d.orders| {
      ActiveRowIs(d, c);
      hide Took, Reduce, Accept, Invariants, Carries;
      if Says(cmd.payload, KeyOrderId, d.orders[a].id) { OneCarried(cmd.payload, KeyOrderId, d.orders[a].id); }
      AcceptMeans(d, c.(orders := c.orders[a := c.orders[a].(state := ACCEPTED)]), d.orders[a].dialogueRef, None);
    }
  }

  lemma PlateMoves(d: Definition, c: Checkpoint, cmd: Command)
    requires |d.orders| > 0 && Took(d, c, cmd) && cmd.name == CmdPlateOrder
    ensures Moves(d, c, cmd, Reduce(d, c, cmd).value)
  {
    TookParts(d, c, cmd);
    var a := c.activeOrderIndex;
    if a < |d.orders| {
      ActiveRowIs(d, c);
      hide Took, Reduce, Accept, Invariants, Carries;
      var def := d.orders[a];
      if Says(cmd.payload, KeyOrderId, def.id) { OneCarried(cmd.payload, KeyOrderId, def.id); }
      AcceptMeans(d, c.(orders := c.orders[a := c.orders[a].(state := PLATED, plateFeedbackRef := Some(def.plateFeedbackRef))]), def.plateFeedbackRef, None);
    }
  }

  lemma ServeMoves(d: Definition, c: Checkpoint, cmd: Command)
    requires |d.orders| > 0 && Took(d, c, cmd) && cmd.name == CmdServeOrder
    ensures Moves(d, c, cmd, Reduce(d, c, cmd).value)
  {
    TookParts(d, c, cmd);
    var a := c.activeOrderIndex;
    if a < |d.orders| {
      ActiveRowIs(d, c);
      hide Took, Reduce, Accept, Invariants, Carries;
      var def := d.orders[a];
      if Says(cmd.payload, KeyOrderId, def.id) { OneCarried(cmd.payload, KeyOrderId, def.id); }
      AcceptMeans(d, c.(
        orders := c.orders[a := c.orders[a].(state := SERVED, serveFeedbackRef := Some(def.serveFeedbackRef))], activeOrderIndex := a + 1,
        storyFlags := if def.storyFlagId in c.storyFlags then c.storyFlags else c.storyFlags + [def.storyFlagId]),
        def.serveFeedbackRef, Some(def.outcomeClass));
    }
  }

  lemma StepMoves(d: Definition, c: Checkpoint, cmd: Command)
    requires |d.orders| > 0 && Took(d, c, cmd) && cmd.name == CmdPerformStep
    ensures Moves(d, c, cmd, Reduce(d, c, cmd).value)
  {
    TookParts(d, c, cmd);
    var a := c.activeOrderIndex;
    if a < |d.orders| && c.orders[a].stepIndex < |d.orders[a].steps| {
      ActiveRowIs(d, c);
      hide Took, Reduce, Accept, Invariants, Carries;
      var steps, row, k := d.orders[a].steps, c.orders[a], c.orders[a].stepIndex;
      AcceptMeans(d, c.(orders := c.orders[a := row.(state := if k + 1 == |steps| then READY_TO_PLATE else PREPARING, stepIndex := k + 1)]),
                  steps[k].promptRef, None);
      if Says(cmd.payload, KeyOrderId, d.orders[a].id) && Says(cmd.payload, KeyStepId, steps[k].id) {
        TwoCarried(cmd.payload, KeyOrderId, d.orders[a].id, KeyStepId, steps[k].id);
      }
    }
  }

  lemma PresentationMoves(d: Definition, c: Checkpoint, cmd: Command)
    requires |d.orders| > 0 && Took(d, c, cmd) && cmd.name == CmdChoosePresentation
    ensures Moves(d, c, cmd, Reduce(d, c, cmd).value)
  {
    TookParts(d, c, cmd);
    hide Took, Reduce, Accept, Invariants, Carries;
    var chosen := if KeyChoice in cmd.payload && cmd.payload[KeyChoice].Text? then cmd.payload[KeyChoice].text else "";
    AcceptMeans(d, c.(presentationChoice := Some(chosen)), "feedback.presentation." + chosen, None);
    if Says(cmd.payload, KeyOrderId, d.orders[0].id) && Says(cmd.payload, KeyChoice, chosen) {
      TwoCarried(cmd.payload, KeyOrderId, d.orders[0].id, KeyChoice, chosen);
    }
  }

  lemma EndingMoves(d: Definition, c: Checkpoint, cmd: Command)
    requires |d.orders| > 0 && Took(d, c, cmd) && cmd.name in {CmdCloseLedger, CmdAbandon}
    ensures Moves(d, c, cmd, Reduce(d, c, cmd).value)
  {
    TookParts(d, c, cmd);
    hide Took, Reduce, Accept, Invariants, Carries, Valid, Conserved;
    if cmd.name == CmdCloseLedger {
      AcceptMeans(d, c.(phase := CLOSING), "feedback.ledger.closed", None);
    } else {
      AcceptMeans(d, c.(phase := ABANDONED, orders := DiscardedRows(c.orders)), "feedback.service.abandoned", None);
    }
  }

  lemma RestorationMoves(d: Definition, c: Checkpoint, cmd: Command)
    requires |d.orders| > 0 && Took(d, c, cmd) && cmd.name == CmdChooseRestoration
    ensures Moves(d, c, cmd, Reduce(d, c, cmd).value)
  {
    TookParts(d, c, cmd);
    hide Took, Reduce, Invariants, Carries, Valid, Conserved;
    var chosen := if KeyChoice in cmd.payload && cmd.payload[KeyChoice].Text? then cmd.payload[KeyChoice].text else "";
    if Says(cmd.payload, KeyChoice, chosen) { OneCarried(cmd.payload, KeyChoice, chosen); }
    assert map[][KeyChoice := chosen] == map[KeyChoice := chosen];
  }

  /** Every accepted command addressed this very checkpoint and content, met its own conditions, and moved just so. */
  lemma AcceptedMoves(d: Definition, c: Checkpoint, cmd: Command)
    requires |d.orders| > 0 && Valid(d, c) && Reduce(d, c, cmd).Success? && Reduce(d, c, cmd).value.accepted
    ensures cmd.expectedRevision == c.revision && c.revision < 9007199254740991 && cmd.contentVersion == d.contentVersion
    ensures Moves(d, c, cmd, Reduce(d, c, cmd).value)
  {
    assert Took(d, c, cmd);
    TookParts(d, c, cmd);
    hide Took, Moves, Reduce, Valid;
    match cmd.name {
      case CmdAcceptOrder => AcceptOrderMoves(d, c, cmd);
      case CmdPerformStep => StepMoves(d, c, cmd);
      case CmdChoosePresentation => PresentationMoves(d, c, cmd);
      case CmdPlateOrder => PlateMoves(d, c, cmd);
      case CmdServeOrder => ServeMoves(d, c, cmd);
      case CmdChooseRestoration => RestorationMoves(d, c, cmd);
      case CmdCloseLedger => EndingMoves(d, c, cmd);
      case CmdAbandon => EndingMoves(d, c, cmd);
      case _ => OpeningMoves(d, c, cmd);
    }
  }

  // ---------------------------------------------------------------- corrections

  /** The cue of each correction: the service is over, or what this command would have needed. */
  predicate Cues(d: Definition, c: Checkpoint, cmd: Command, cue: string) {
    var a := c.activeOrderIndex;
    if c.phase == SETTLED || (c.phase == ABANDONED && cmd.name != CmdStartNew) then cue == "cue.service.complete"
    else
      match cmd.name
      case CmdServiceStart => cue == "cue.start.invalid"
      case CmdStartNew => cue == "cue.start-new.invalid"
      case CmdPrepareRice =>
        cue == if 0 <= c.riceBeatIndex < |d.riceBeats| then "cue.rice.expected." + d.riceBeats[c.riceBeatIndex] else "cue.rice.complete"
      case CmdAcceptOrder => cue == if 0 <= a < |d.orders| then "cue.order.accept." + d.orders[a].id else "cue.orders.complete"
      case CmdPerformStep =>
        if !(0 <= a < |d.orders| == |c.orders|) then cue == "cue.orders.complete"
        else if c.phase != OPEN || !(c.orders[a].state in {ACCEPTED, PREPARING} && KeyOrderId in cmd.payload && cmd.payload[KeyOrderId] == Text(d.orders[a].id))
        then cue == "cue.order.expected." + d.orders[a].id
        else 0 <= c.orders[a].stepIndex < |d.orders[a].steps| && cue == d.orders[a].steps[c.orders[a].stepIndex].correctiveCueRef
      case CmdChoosePresentation => cue == "cue.presentation.invalid"
      case CmdPlateOrder => cue == if 0 <= a < |d.orders| then "cue.plate.required." + d.orders[a].id else "cue.orders.complete"
      case CmdServeOrder => cue == if 0 <= a < |d.orders| then "cue.serve.required." + d.orders[a].id else "cue.orders.served"
      case CmdCloseLedger => cue == "cue.ledger.orders-incomplete"
      case CmdChooseRestoration => cue == "cue.restoration.invalid"
      case CmdAbandon => cue == "cue.abandon.invalid"
      case CmdUnknown(_) => false
  }

  lemma AcceptAccepts(d: Definition, base: Checkpoint, feedback: string, outcome: Option<string>)
    requires |d.orders| > 0 && RowsFit(d.orders, base.orders)
    ensures Accept(d, base, feedback, outcome).Success? ==> Accept(d, base, feedback, outcome).value.accepted
  {
    hide Advance;
  }

  /** While the active order is being prepared a step is left to do. */
  lemma StepIsLeft(d: Definition, c: Checkpoint)
    requires |d.orders| > 0 && Valid(d, c) && c.activeOrderIndex < |d.orders| && c.orders[c.activeOrderIndex].state in {ACCEPTED, PREPARING}
    ensures 0 <= c.orders[c.activeOrderIndex].stepIndex
    ensures c.orders[c.activeOrderIndex].state == PREPARING ==> c.orders[c.activeOrderIndex].stepIndex < |d.orders[c.activeOrderIndex].steps|
    ensures c.orders[c.activeOrderIndex].state == ACCEPTED ==> c.orders[c.activeOrderIndex].stepIndex == 0
  {
    assert RowInvariant(d, c, c.activeOrderIndex);
  }

  predicate OfOrder(name: CommandName) {
    name in {CmdAcceptOrder, CmdPerformStep, CmdChoosePresentation, CmdPlateOrder, CmdServeOrder}
  }

  predicate Corrected(d: Definition, c: Checkpoint, cmd: Command)
    requires |d.orders| > 0
  {
    Valid(d, c) && Reduce(d, c, cmd).Success? && !Reduce(d, c, cmd).value.accepted
  }

  lemma AcceptsAlways(d: Definition)
    requires |d.orders| > 0
    ensures forall base: Checkpoint, feedback, outcome | RowsFit(d.orders, base.orders) ::
      Accept(d, base, feedback, outcome).Success? ==> Accept(d, base, feedback, outcome).value.accepted
  {
    forall base: Checkpoint, feedback, outcome | RowsFit(d.orders, base.orders)
      ensures Accept(d, base, feedback, outcome).Success? ==> Accept(d, base, feedback, outcome).value.accepted
    {
      AcceptAccepts(d, base, feedback, outcome);
    }
    hide Accept, RowsFit;
  }

  lemma OverCues(d: Definition, c: Checkpoint, cmd: Command)
    requires |d.orders| > 0 && Corrected(d, c, cmd)
    ensures Shape(d, c)
    ensures if c.phase in {SETTLED, ABANDONED} && !(c.phase == ABANDONED && cmd.name == CmdStartNew)
      then Reduce(d, c, cmd) == Correction(c, "cue.service.complete")
      else !cmd.name.CmdUnknown? && Reduce(d, c, cmd) == ReduceKnown(d, c, cmd)
  {
    hide ReduceKnown, Invariants;
  }

  lemma OrderCues(d: Definition, c: Checkpoint, cmd: Command)
    requires |d.orders| > 0 && Corrected(d, c, cmd) && OfOrder(cmd.name) && forall i :: 0 <= i < |d.orders| ==> d.orders[i].steps != []
    ensures Cues(d, c, cmd, Reduce(d, c, cmd).value.feedbackRef) && Reduce(d, c, cmd) == Correction(c, Reduce(d, c, cmd).value.feedbackRef)
  {
    OverCues(d, c, cmd);
    AcceptsAlways(d);
    if c.activeOrderIndex < |d.orders| && c.orders[c.activeOrderIndex].state in {ACCEPTED, PREPARING} { StepIsLeft(d, c); }
    hide Accept, Corrected, Reduce, SaysOneOf;
  }

  lemma OtherCues(d: Definition, c: Checkpoint, cmd: Command)
    requires |d.orders| > 0 && Corrected(d, c, cmd) && !OfOrder(cmd.name)
    ensures Cues(d, c, cmd, Reduce(d, c, cmd).value.feedbackRef) && Reduce(d, c, cmd) == Correction(c, Reduce(d, c, cmd).value.feedbackRef)
  {
    OverCues(d, c, cmd);
    AcceptsAlways(d);
    hide Accept, Corrected, Reduce, Advance, Says, SaysOneOf;
  }

  /** A correction changes nothing, announces nothing, and names what was wrong. */
  lemma CorrectionCues(d: Definition, c: Checkpoint, cmd: Command)
    requires |d.orders| > 0 && Valid(d, c) && Reduce(d, c, cmd).Success? && !Reduce(d, c, cmd).value.accepted
    requires forall i :: 0 <= i < |d.orders| ==> d.orders[i].steps != []
    ensures Reduce(d, c, cmd).value == Decision(c, false, Reduce(d, c, cmd).value.feedbackRef, false, [], None)
    ensures Cues(d, c, cmd, Reduce(d, c, cmd).value.feedbackRef)
  {
    assert Corrected(d, c, cmd);
    hide Corrected, Cues, Reduce, Valid;
    if OfOrder(cmd.name) { OrderCues(d, c, cmd); } else { OtherCues(d, c, cmd); }
  }

  // ---------------------------------------------------------------- what is shown

  /** The prompt, the choices and the command shown for a checkpoint, from its own fields. */
  ghost predicate Shows(d: Definition, c: Checkpoint, prompt: string, choices: seq<string>, command: Option<CommandName>) {
    var a := c.activeOrderIndex;
    match c.phase
    case IDLE => prompt == d.startPromptRef && choices == [] && command == Some(CmdServiceStart)
    case CLOSING => prompt == d.restorationPromptRef && choices == d.restorationChoices && command == Some(CmdChooseRestoration)
    case SETTLED => prompt == d.settledPromptRef && choices == [] && command == None
    case ABANDONED => prompt == d.abandonedPromptRef && choices == [] && command == Some(CmdStartNew)
    case OPEN =>
      if 0 <= c.riceBeatIndex < |d.riceBeats| then
        && d.riceBeats[c.riceBeatIndex] in d.ricePromptRefs && prompt == d.ricePromptRefs[d.riceBeats[c.riceBeatIndex]]
        && choices == [d.riceBeats[c.riceBeatIndex]] && command == Some(CmdPrepareRice)
      else if Serving(d, c) then ShowsOrder(d.orders[a], c.orders[a], a == 0 && c.presentationChoice == None, d.presentationChoices, prompt, choices, command)
      else prompt == d.closePromptRef && choices == [] && command == Some(CmdCloseLedger)
  }

  /** For the active order: accept it, do its next step, choose how to present the first one, plate it, serve it. */
  predicate ShowsOrder(
    def: OrderDef, row: OrderRow, unpresented: bool, presentations: seq<string>, prompt: string, choices: seq<string>, command: Option<CommandName>)
  {
    match row.state
    case OFFERED => prompt == def.acceptPromptRef && choices == [def.id] && command == Some(CmdAcceptOrder)
    case READY_TO_PLATE =>
      if unpresented then prompt == "prompt.presentation.choose" && choices == presentations && command == Some(CmdChoosePresentation)
      else prompt == def.platePromptRef && choices == [def.id] && command == Some(CmdPlateOrder)
    case PLATED => prompt == "prompt.serve." + def.id && choices == [def.id] && command == Some(CmdServeOrder)
    case _ =>
      && 0 <= row.stepIndex < |def.steps| && prompt == def.steps[row.stepIndex].promptRef
      && choices == [def.steps[row.stepIndex].id] && command == Some(CmdPerformStep)
  }

  /** What the script says is shown at a checkpoint's stage is what the checkpoint's own fields say. */
  lemma StageShows(d: Definition, c: Checkpoint)
    requires Authored(d) && Steady(d, c)
    ensures InScript(d, StageOf(d, c))
    ensures Shows(d, c, PromptRef(d, StageOf(d, c)), AllowedChoices(d, StageOf(d, c)), PrimaryCommand(StageOf(d, c)))
  {
    if c.phase == OPEN && c.activeOrderIndex < |d.orders| { assert RowInvariant(d, c, c.activeOrderIndex); }
    hide Conserved, StoryFlags, ServedCount;
  }

  /** A step is answered with the very prompt that was shown for it. */
  lemma StepAnswersItsPrompt(d: Definition, c: Checkpoint, cmd: Command)
    requires Authored(d) && Steady(d, c) && cmd.name == CmdPerformStep && Reduce(d, c, cmd).Success? && Reduce(d, c, cmd).value.accepted
    ensures InScript(d, StageOf(d, c)) && Reduce(d, c, cmd).value.feedbackRef == PromptRef(d, StageOf(d, c))
  {
    AcceptedMoves(d, c, cmd);
    StageShows(d, c);
    hide Reduce, Invariants, Shape, StageOf, PromptRef, AllowedChoices, PrimaryCommand, Authored, Carries;
    RiceDone(d, c);
  }

  lemma RiceDone(d: Definition, c: Checkpoint)
    requires |d.orders| > 0 && Valid(d, c) && c.phase == OPEN && c.activeOrderIndex < |d.orders|
    ensures c.orders[c.activeOrderIndex].state != OFFERED ==> c.riceBeatIndex == |d.riceBeats|
  {
  }

  /** Each ledger line repeats the stored row, its flag is the stored one, and its outcome is the one announced. */
  lemma LinesAreStored(d: Definition, c: Checkpoint, i: nat)
    requires Authored(d) && Valid(d, c) && i < c.activeOrderIndex
    ensures i < |c.orders| && i < |d.orders| && i < |c.storyFlags|
    ensures var line, row := ServedLine(d.orders[i]), c.orders[i];
      && row.state == SERVED && line.orderId == row.id
      && line.plateFeedbackRef == row.plateFeedbackRef && Some(line.serveFeedbackRef) == row.serveFeedbackRef
      && line.storyFlagId == c.storyFlags[i] && line.outcomeClass == d.orders[i].outcomeClass
      && line.persistentConsequenceRef == d.orders[i].persistentConsequenceRef
  {
    ServedBeforeActive(d, c, i);
    FlagsCoverServed(d, c);
    assert c.storyFlags[i] == StoryFlags(d)[i];
    hide Conserved, ServedCount, RowInvariant;
  }
}
