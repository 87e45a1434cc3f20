/** What the browser is shown: the projection of a checkpoint, and how much a prompt alone reveals. */
module EveningViews {
  import opened Basics
  import opened EveningCheckpoint
  import opened EveningReducer
  import opened EveningScript
  import opened EveningTheorems

  datatype LedgerLine = LedgerLine(
    orderId: string, outcomeClass: string, plateFeedbackRef: Option<string>, serveFeedbackRef: string,
    storyFlagId: string, persistentConsequenceRef: string)

  datatype Projection = Projection(
    currentPromptId: string, allowedChoiceIds: seq<string>, primaryCommand: Option<CommandName>, ledgerRows: seq<LedgerLine>)

  function ServedLine(def: OrderDef): LedgerLine {
    LedgerLine(def.id, def.outcomeClass, Some(def.plateFeedbackRef), def.serveFeedbackRef, def.storyFlagId, def.persistentConsequenceRef)
  }

  /** In any valid checkpoint the served orders are exactly those before the active one. */
  lemma ServedBeforeActive(d: Definition, c: Checkpoint, i: nat)
    requires Authored(d) && Valid(d, c) && i < |d.orders|
    ensures c.orders[i].state == SERVED <==> i < c.activeOrderIndex
    ensures i < c.activeOrderIndex ==> c.orders[i] == ServedRow(d.orders[i])
  {
    assert RowInvariant(d, c, i);
  }

  method LedgerRows(d: Definition, c: Checkpoint) returns (rows: seq<LedgerLine>)
    requires Authored(d) && Valid(d, c)
    ensures rows == seq(c.activeOrderIndex, i requires 0 <= i < c.activeOrderIndex => ServedLine(d.orders[i]))
  {
    rows := [];
    for i := 0 to |c.orders|
      invariant |rows| == if i < c.activeOrderIndex then i else c.activeOrderIndex
      invariant forall j :: 0 <= j < |rows| ==> rows[j] == ServedLine(d.orders[j])
    {
      ServedBeforeActive(d, c, i);
      var item, def := c.orders[i], d.orders[i];
      if item.state == SERVED && item.serveFeedbackRef.Some? && item.serveFeedbackRef.value != "" {
        rows := rows + [LedgerLine(def.id, def.outcomeClass, item.plateFeedbackRef, item.serveFeedbackRef.value,
                                   def.storyFlagId, def.persistentConsequenceRef)];
      }
    }
  }

  /** The projector's branch chain; on a steady checkpoint it shows the stage, its choices and its command. */
  method Project(d: Definition, c: Checkpoint) returns (r: Result<Projection, ServiceError>)
    requires Authored(d)
    ensures r.Success? <==> Valid(d, c)
    ensures r.Success? ==>
      r.value.ledgerRows == seq(c.activeOrderIndex, i requires 0 <= i < c.activeOrderIndex => ServedLine(d.orders[i]))
    ensures Steady(d, c) ==>
      && InScript(d, StageOf(d, c))
      && r.value.currentPromptId == PromptRef(d, StageOf(d, c))
      && r.value.allowedChoiceIds == AllowedChoices(d, StageOf(d, c))
      && r.value.primaryCommand == PrimaryCommand(StageOf(d, c))
  {
    if !Valid(d, c) { return Failure(InvalidServiceState); }
    if Steady(d, c) && c.phase != ABANDONED { SteadyRows(d, c); }
    var prompt, choices, primary := d.startPromptRef, [], Some(CmdServiceStart);
    var a := c.activeOrderIndex;
    var active := c.phase == OPEN && a < |d.orders|;
    if c.phase == OPEN && c.riceBeatIndex < |d.riceBeats| {
      var beat := d.riceBeats[c.riceBeatIndex];
      prompt, choices, primary := d.ricePromptRefs[beat], [beat], Some(CmdPrepareRice);
    } else if active && c.orders[a].state == OFFERED {
      prompt, choices, primary := d.orders[a].acceptPromptRef, [d.orders[a].id], Some(CmdAcceptOrder);
    } else if active && c.orders[a].state in {ACCEPTED, PREPARING} {
      assert RowInvariant(d, c, a);
      var step := d.orders[a].steps[c.orders[a].stepIndex];
      prompt, choices, primary := step.promptRef, [step.id], Some(CmdPerformStep);
    } else if active && c.orders[a].state == READY_TO_PLATE && a == 0 && c.presentationChoice.None? {
      prompt, choices, primary := "prompt.presentation.choose", d.presentationChoices, Some(CmdChoosePresentation);
    } else if active && c.orders[a].state == READY_TO_PLATE {
      prompt, choices, primary := d.orders[a].platePromptRef, [d.orders[a].id], Some(CmdPlateOrder);
    } else if active && c.orders[a].state == PLATED {
      prompt, choices, primary := "prompt.serve." + d.orders[a].id, [d.orders[a].id], Some(CmdServeOrder);
    } else if c.phase == OPEN {
      prompt, primary := d.closePromptRef, Some(CmdCloseLedger);
    } else if c.phase == CLOSING {
      prompt, choices, primary := d.restorationPromptRef, d.restorationChoices, Some(CmdChooseRestoration);
    } else if c.phase == SETTLED {
      prompt, primary := d.settledPromptRef, None;
    } else if c.phase == ABANDONED {
      prompt, primary := d.abandonedPromptRef, Some(CmdStartNew);
    }
    var rows := LedgerRows(d, c);
    r := Success(Projection(prompt, choices, primary, rows));
  }

  /** Authored prompts are told apart: no two stages share one. */
  ghost predicate DistinctPrompts(d: Definition)
    requires Authored(d)
  {
    forall s, t :: InScript(d, s) && InScript(d, t) && PromptRef(d, s) == PromptRef(d, t) ==> s == t
  }

  /** With distinct prompts, two steady checkpoints showing the same prompt agree on everything the board displays. */
  lemma PromptDeterminesBoard(d: Definition, c1: Checkpoint, c2: Checkpoint)
    requires Authored(d) && DistinctPrompts(d) && Steady(d, c1) && Steady(d, c2)
    requires InScript(d, StageOf(d, c1)) && InScript(d, StageOf(d, c2))
    requires PromptRef(d, StageOf(d, c1)) == PromptRef(d, StageOf(d, c2)) && c1.phase != ABANDONED
    ensures c1.phase == c2.phase && c1.riceBeatIndex == c2.riceBeatIndex && c1.activeOrderIndex == c2.activeOrderIndex
    ensures c1.orders == c2.orders && c1.components == c2.components
    ensures c1.presentationChoice.Some? <==> c2.presentationChoice.Some?
  {
    assert StageOf(d, c1) == StageOf(d, c2);
    SteadyStage(d, c1);
    SteadyStage(d, c2);
    hide Shape, Invariants, Bookkeeping, Authored, StageOf, Conserved, RowsAt, PromptRef, DistinctPrompts;
  }
}
