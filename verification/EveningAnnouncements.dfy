/** What the replies announce: the settlement, each unlock and each served outcome, once and in step with the checkpoint. */
module EveningAnnouncements {
  import opened Basics
  import opened EveningCheckpoint
  import opened EveningReducer
  import opened EveningScript
  import opened EveningTheorems
  import opened EveningRuns

  /** The reply's announcements, by command: nothing else sets them. */
  ghost predicate Fields(d: Definition, c: Checkpoint, cmd: Command, r: Decision) {
    && (r.settledNow <==> r.accepted && cmd.name == CmdChooseRestoration)
    && r.unlockedNow == (if r.settledNow && d.settlementUnlock !in c.unlocks then [d.settlementUnlock] else [])
    && (r.outcomeClass.Some? <==> r.accepted && cmd.name == CmdServeOrder)
    && (r.outcomeClass.Some? ==>
          0 <= c.activeOrderIndex < |d.orders| && r.outcomeClass == Some(d.orders[c.activeOrderIndex].outcomeClass)
          && r.feedbackRef == d.orders[c.activeOrderIndex].serveFeedbackRef)
  }

  lemma PlainFields(d: Definition, c: Checkpoint, cmd: Command)
    requires |d.orders| > 0 && Shape(d, c) && Reduce(d, c, cmd).Success?
    requires cmd.name !in {CmdServeOrder, CmdChooseRestoration, CmdAbandon}
    ensures Fields(d, c, cmd, Reduce(d, c, cmd).value)
  {
    hide Shape, Decode, Advance, Conserved, Says, SaysOneOf, Cue;
  }

  lemma AbandonFields(d: Definition, c: Checkpoint, cmd: Command)
    requires |d.orders| > 0 && Shape(d, c) && Reduce(d, c, cmd).Success? && cmd.name == CmdAbandon
    ensures Fields(d, c, cmd, Reduce(d, c, cmd).value)
  {
    hide Shape, Decode, Advance, Conserved;
  }

  lemma ServeFields(d: Definition, c: Checkpoint, cmd: Command)
    requires |d.orders| > 0 && Shape(d, c) && Reduce(d, c, cmd).Success? && cmd.name == CmdServeOrder
    ensures Fields(d, c, cmd, Reduce(d, c, cmd).value)
  {
    hide Decode, Advance, Conserved, Says, Cue;
  }

  lemma RestoreFields(d: Definition, c: Checkpoint, cmd: Command)
    requires |d.orders| > 0 && Shape(d, c) && Reduce(d, c, cmd).Success? && cmd.name == CmdChooseRestoration
    ensures Fields(d, c, cmd, Reduce(d, c, cmd).value)
  {
    hide Shape, Decode, Advance, Conserved, SaysOneOf;
  }

  lemma ReplyFields(d: Definition, c: Checkpoint, cmd: Command)
    requires |d.orders| > 0 && Shape(d, c) && Reduce(d, c, cmd).Success?
    ensures Fields(d, c, cmd, Reduce(d, c, cmd).value)
  {
    hide Shape, Reduce, Fields;
    if cmd.name == CmdServeOrder {
      ServeFields(d, c, cmd);
    } else if cmd.name == CmdChooseRestoration {
      RestoreFields(d, c, cmd);
    } else if cmd.name == CmdAbandon {
      AbandonFields(d, c, cmd);
    } else {
      PlainFields(d, c, cmd);
    }
  }

  /** The classes of the first `n` orders' outcomes. */
  function Outcomes(d: Definition, n: nat): seq<string>
    requires n <= |d.orders|
  {
    seq(n, i requires 0 <= i < n => d.orders[i].outcomeClass)
  }

  /** The active order's outcome is announced and its row shows the feedback given. */
  predicate ServesNext(d: Definition, c: Checkpoint, r: Decision) {
    && 0 <= c.activeOrderIndex < |d.orders| && r.outcomeClass == Some(d.orders[c.activeOrderIndex].outcomeClass)
    && |r.checkpoint.orders| == |d.orders| && r.checkpoint.orders[c.activeOrderIndex].serveFeedbackRef == Some(r.feedbackRef)
  }

  /** How the announced facts move with one accepted command. */
  ghost predicate Tells(d: Definition, c: Checkpoint, cmd: Command, r: Decision) {
    && (r.settledNow <==> r.checkpoint.phase == SETTLED && c.phase != SETTLED)
    && r.checkpoint.unlocks == c.unlocks + r.unlockedNow
    && 0 <= c.activeOrderIndex <= |d.orders| && 0 <= r.checkpoint.activeOrderIndex <= |d.orders|
    && r.checkpoint.activeOrderIndex == (
      if r.accepted && cmd.name == CmdStartNew then 0
      else if r.outcomeClass.Some? then c.activeOrderIndex + 1 else c.activeOrderIndex)
    && (r.outcomeClass.Some? ==> ServesNext(d, c, r))
  }

  /** Which stage serves, which settles, and what a move does to the active order. */
  lemma MoveOfStage(d: Definition, s: Stage, cmd: Command)
    requires Authored(d) && InScript(d, s) && InScript(d, Successor(d, s)) && Offers(d, s, cmd)
    ensures s != Done
    ensures cmd.name == CmdServeOrder <==> s.Serve?
    ensures cmd.name == CmdChooseRestoration <==> s == Restore
    ensures cmd.name == CmdStartNew <==> s == Stopped
    ensures PhaseAt(Successor(d, s)) == SETTLED <==> s == Restore
    ensures ActiveAt(d, Successor(d, s)) == if s.Serve? then s.order + 1 else if s == Stopped then 0 else ActiveAt(d, s)
    ensures s.Serve? ==> ActiveAt(d, s) == s.order < |d.orders|
    ensures ActiveAt(d, s) <= |d.orders| && ActiveAt(d, Successor(d, s)) <= |d.orders|
  {
    assert PrimaryCommand(s) == Some(cmd.name);
    hide Authored, Offers, AllowedChoices;
    assert |d.orders| > 0 by { AuthoredOrders(d); }
  }

  lemma AuthoredOrders(d: Definition)
    requires Authored(d)
    ensures |d.orders| > 0
  {
  }

  /** The order just served shows its feedback. */
  lemma ServedFeedback(d: Definition, s: Stage, next: Checkpoint)
    requires InScript(d, s) && InScript(d, Successor(d, s)) && s.Serve? && s.order < |d.orders| && StandsAt(d, Successor(d, s), next)
    requires ActiveAt(d, Successor(d, s)) == s.order + 1
    ensures |next.orders| == |d.orders| && next.orders[s.order].serveFeedbackRef == Some(d.orders[s.order].serveFeedbackRef)
  {
    assert next.orders[s.order] == RowAt(d, Successor(d, s), s.order);
    hide Conserved;
  }

  lemma ScriptTells(d: Definition, s: Stage, c: Checkpoint, cmd: Command, r: Decision)
    requires Authored(d) && InScript(d, s) && InScript(d, Successor(d, s)) && Offers(d, s, cmd) && r.accepted
    requires MovesOn(d, s, c, cmd.payload, r.checkpoint) && Fields(d, c, cmd, r)
    requires c.phase == PhaseAt(s) && (s != Stopped ==> c.activeOrderIndex == ActiveAt(d, s)) && 0 <= c.activeOrderIndex <= |d.orders|
    requires c.unlocks == [] || c.unlocks == [d.settlementUnlock]
    ensures Tells(d, c, cmd, r)
  {
    MoveOfStage(d, s, cmd);
    if s.Serve? { ServedFeedback(d, s, r.checkpoint); }
    hide Authored, Offers, Successor, RowsAt, Conserved, ChosenAt, FlagsAfter, SaysOneOf;
  }

  /**
   * Every reply announces exactly what it changed: the settlement when the service settles, the unlocks it added, and
   * the outcome of the order it served.
   */
  lemma RepliesTell(d: Definition, c: Checkpoint, cmd: Command)
    requires Authored(d) && Steady(d, c) && Reduce(d, c, cmd).Success?
    ensures Tells(d, c, cmd, Reduce(d, c, cmd).value)
  {
    SteadyBasics(d, c);
    ReplyFields(d, c, cmd);
    var r := Reduce(d, c, cmd).value;
    hide Shape, Invariants, Reduce, Authored, Steady, StageOf, InScript, Successor, FollowsScript, Offers;
    if !r.accepted {
      CorrectionKeeps(d, c, cmd);
    } else {
      AcceptedStep(d, c, cmd);
      if cmd.name == CmdAbandon {
        assert r.checkpoint == AbandonedFrom(d, c);
        hide DiscardedRows, Conserved;
      } else {
        var s := StageOf(d, c);
        FollowedMove(d, s, c, cmd, Reduce(d, c, cmd));
        StageBasics(d, c);
        ScriptTells(d, s, c, cmd, r);
      }
    }
  }

  lemma FollowedMove(d: Definition, s: Stage, c: Checkpoint, cmd: Command, reply: Reply)
    requires |d.orders| > 0 && InScript(d, s) && InScript(d, Successor(d, s)) && FollowsScript(d, s, c, cmd, reply) && reply.value.accepted
    ensures MovesOn(d, s, c, cmd.payload, reply.value.checkpoint)
  {
  }

  lemma CorrectionKeeps(d: Definition, c: Checkpoint, cmd: Command)
    requires |d.orders| > 0 && Shape(d, c) && Reduce(d, c, cmd).Success? && !Reduce(d, c, cmd).value.accepted
    ensures Reduce(d, c, cmd).value.checkpoint == c
  {
    hide Shape, Decode, Advance, Conserved, Says, SaysOneOf, Cue;
  }

  lemma SteadyBasics(d: Definition, c: Checkpoint)
    requires Authored(d) && Steady(d, c)
    ensures |d.orders| > 0 && Shape(d, c) && Valid(d, c) && 0 <= c.activeOrderIndex <= |d.orders| && RowsFit(d.orders, c.orders)
    ensures c.unlocks == [] || c.unlocks == [d.settlementUnlock]
  {
    UnlockShape(d, c.unlocks);
  }

  lemma StageBasics(d: Definition, c: Checkpoint)
    requires Authored(d) && Steady(d, c)
    ensures c.phase == PhaseAt(StageOf(d, c)) && (StageOf(d, c) != Stopped ==> c.activeOrderIndex == ActiveAt(d, StageOf(d, c)))
  {
    SteadyStage(d, c);
    hide Shape, Invariants, Authored, StageOf, RowsAt, Conserved, Bookkeeping;
  }

  // ---------------------------------------------------------------- corrective cues

  /** The cue for the stage's own command with the wrong choice: it names the move that is expected. */
  function ExpectedCue(d: Definition, s: Stage): string
    requires InScript(d, s)
  {
    match s
    case Rice(beat) => "cue.rice.expected." + d.riceBeats[beat]
    case AcceptOrder(o) => "cue.order.accept." + d.orders[o].id
    case Perform(o, k) => d.orders[o].steps[k].correctiveCueRef
    case Plate(o) => "cue.plate.required." + d.orders[o].id
    case Serve(o) => "cue.serve.required." + d.orders[o].id
    case _ => ""
  }

  /** The right command for the stage, with the right keys, for the right order where that is asked apart from the choice. */
  predicate NearMiss(d: Definition, s: Stage, cmd: Command)
    requires InScript(d, s)
  {
    && (s.Rice? || s.AcceptOrder? || s.Perform? || s.Plate? || s.Serve?)
    && PrimaryCommand(s) == Some(cmd.name) && cmd.payload.Keys == PayloadKeys(cmd.name)
    && (s.Perform? ==> Says(cmd.payload, KeyOrderId, d.orders[s.order].id))
  }

  lemma CorrectedWithCue(d: Definition, s: Stage, c: Checkpoint, cmd: Command)
    requires |d.orders| > 0 && Shape(d, c) && InScript(d, s) && StandsAt(d, s, c) && NearMiss(d, s, cmd)
    requires |c.orders| == |d.orders| && c.activeOrderIndex == ActiveAt(d, s) < |d.orders| && c.orders[ActiveAt(d, s)] == ActiveRow(s, d.orders[ActiveAt(d, s)])
    requires ReduceKnown(d, c, cmd).Success? && !ReduceKnown(d, c, cmd).value.accepted
    ensures ReduceKnown(d, c, cmd).value.feedbackRef == ExpectedCue(d, s)
  {
    hide Shape, Advance, Conserved, RowsAt, Says, SaysOneOf;
  }

  /** A wrong choice for the command at hand is answered with the authored cue for what was expected. */
  lemma CueNamesWhatIsExpected(d: Definition, c: Checkpoint, cmd: Command)
    requires Authored(d) && Steady(d, c) && Addresses(d, c, cmd) && InScript(d, StageOf(d, c)) && NearMiss(d, StageOf(d, c), cmd)
    ensures var s, reply := StageOf(d, c), Reduce(d, c, cmd);
      reply.Success? && !reply.value.accepted ==> reply.value.feedbackRef == ExpectedCue(d, s)
  {
    SteadyBasics(d, c);
    SteadyStage(d, c);
    var s := StageOf(d, c);
    assert c.phase == OPEN;
    ActiveIs(d, s, c);
    if Reduce(d, c, cmd).Success? && !Reduce(d, c, cmd).value.accepted { CorrectedWithCue(d, s, c, cmd); }
    hide Shape, Invariants, Authored, StandsAt, Bookkeeping, StageOf, Conserved, RowsAt, ReduceKnown, ExpectedCue, Steady;
  }

  // ---------------------------------------------------------------- runs

  /** What a run announced: settlements, unlocks, and the outcomes of the current generation, in order. */
  datatype Told = Told(settlements: nat, unlocked: seq<string>, outcomes: seq<string>)

  function Hear(told: Told, r: Decision, cmd: Command): Told {
    Told(
      told.settlements + if r.settledNow then 1 else 0,
      told.unlocked + r.unlockedNow,
      (if r.accepted && cmd.name == CmdStartNew then [] else told.outcomes) + if r.outcomeClass.Some? then [r.outcomeClass.value] else [])
  }

  function Announced(d: Definition, run: Run, cmds: seq<Command>): Told
    requires |d.orders| > 0
  {
    if cmds == [] then Told(0, [], [])
    else
      var front, cmd := cmds[..|cmds| - 1], cmds[|cmds| - 1];
      var told, reply := Announced(d, run, front), Reduce(d, Play(d, run, front).checkpoint, cmd);
      if reply.Success? then Hear(told, reply.value, cmd) else told
  }

  /** The announcements say where the checkpoint is. */
  ghost predicate Reflects(d: Definition, c: Checkpoint, told: Told) {
    && told.settlements == (if c.phase == SETTLED then 1 else 0)
    && told.unlocked == c.unlocks
    && 0 <= c.activeOrderIndex <= |d.orders| && told.outcomes == Outcomes(d, c.activeOrderIndex)
  }

  lemma HearReflects(d: Definition, c: Checkpoint, cmd: Command, r: Decision, told: Told)
    requires Reflects(d, c, told) && Tells(d, c, cmd, r) && (c.phase == SETTLED ==> !r.accepted && r.checkpoint == c)
    requires r.outcomeClass.Some? ==> cmd.name != CmdStartNew
    ensures Reflects(d, r.checkpoint, Hear(told, r, cmd))
  {
    if r.outcomeClass.Some? {
      assert Outcomes(d, c.activeOrderIndex + 1) == Outcomes(d, c.activeOrderIndex) + [d.orders[c.activeOrderIndex].outcomeClass];
    }
    assert Outcomes(d, 0) == [];
  }

  lemma ReplyReflects(d: Definition, c: Checkpoint, cmd: Command, told: Told)
    requires Authored(d) && Steady(d, c) && Reflects(d, c, told)
    ensures Reduce(d, c, cmd).Success? ==> Reflects(d, Reduce(d, c, cmd).value.checkpoint, Hear(told, Reduce(d, c, cmd).value, cmd))
  {
    hide Authored, Steady, Reduce, Tells, Reflects, Hear;
    AuthoredOrders(d);
    if Reduce(d, c, cmd).Success? {
      SteadyBasics(d, c);
      RepliesTell(d, c, cmd);
      ReplyFields(d, c, cmd);
      if Reduce(d, c, cmd).value.accepted { AcceptedUnsettled(d, c, cmd); } else { CorrectionKeeps(d, c, cmd); }
      hide Shape;
      HearReflects(d, c, cmd, Reduce(d, c, cmd).value, told);
    }
  }

  lemma PlayFollows(d: Definition, run: Run, cmd: Command)
    requires |d.orders| > 0
    ensures Reduce(d, run.checkpoint, cmd).Failure? ==> EveningRuns.Step(d, run, cmd) == run
    ensures Reduce(d, run.checkpoint, cmd).Success? && Reduce(d, run.checkpoint, cmd).value.accepted ==>
      EveningRuns.Step(d, run, cmd).checkpoint == Reduce(d, run.checkpoint, cmd).value.checkpoint
    ensures Reduce(d, run.checkpoint, cmd).Success? && !Reduce(d, run.checkpoint, cmd).value.accepted ==> EveningRuns.Step(d, run, cmd) == run
  {
    hide Reduce;
  }

  lemma {:induction false} AnnouncedReflects(d: Definition, run: Run, cmds: seq<Command>)
    requires Authored(d) && Steady(d, run.checkpoint) && Reflects(d, run.checkpoint, Told(0, [], []))
    ensures Reflects(d, Play(d, run, cmds).checkpoint, Announced(d, run, cmds))
  {
    if cmds != [] {
      hide Authored, Steady, Reduce, Reflects, Hear, EveningRuns.Step;
      var front, cmd := cmds[..|cmds| - 1], cmds[|cmds| - 1];
      var before := Play(d, run, front);
      AuthoredOrders(d);
      AnnouncedReflects(d, run, front);
      PlayRemembers(d, run, front);
      ReplyReflects(d, before.checkpoint, cmd, Announced(d, run, front));
      PlayFollows(d, before, cmd);
      if Reduce(d, before.checkpoint, cmd).Success? && !Reduce(d, before.checkpoint, cmd).value.accepted {
        SteadyBasics(d, before.checkpoint);
        CorrectionKeeps(d, before.checkpoint, cmd);
      }
    }
  }

  /**
   * From the untouched service, whatever is sent: the settlement is announced once if the service settled and never
   * otherwise, the unlocks announced are exactly those held, none twice, and the outcomes announced since the shift
   * began are those of the orders served, in authored order.
   */
  lemma EverythingIsAnnouncedOnce(d: Definition, cmds: seq<Command>)
    requires Authored(d)
    ensures Reflects(d, Play(d, Run(Initial(d), 0, 0), cmds).checkpoint, Announced(d, Run(Initial(d), 0, 0), cmds))
    ensures Distinct(Announced(d, Run(Initial(d), 0, 0), cmds).unlocked)
  {
    var run := Run(Initial(d), 0, 0);
    InitialStands(d);
    assert Reflects(d, run.checkpoint, Told(0, [], []));
    hide Authored, Reduce, EveningRuns.Step, Initial, StageOf;
    AnnouncedReflects(d, run, cmds);
    PlayRemembers(d, run, cmds);
    SteadyBasics(d, Play(d, run, cmds).checkpoint);
  }
}
