/** Where plays lead: every stage up to plating the first order is reached, so its refusals are refusals of real checkpoints. */
module EveningReached {
  import opened Basics
  import opened EveningCheckpoint
  import opened EveningReducer
  import opened EveningScript
  import opened EveningTheorems
  import opened EveningRuns

  function Played(d: Definition, cmds: seq<Command>): Run
    requires |d.orders| > 0
  {
    Play(d, Run(Initial(d), 0, 0), cmds)
  }

  /** The play ends at stage `s` of its first generation. */
  ghost predicate Reaches(d: Definition, cmds: seq<Command>, s: Stage)
    requires |d.orders| > 0
  {
    var run := Played(d, cmds);
    && Counted(d, run) && run.checkpoint.phase != ABANDONED && StageOf(d, run.checkpoint) == s && run.accepted == run.ofGeneration
  }

  lemma ReachStart(d: Definition)
    requires Authored(d)
    ensures |d.orders| > 0 && Reaches(d, [], Start)
  {
    InitialStands(d);
    hide Counted, Initial, StageOf;
    assert Played(d, []) == Run(Initial(d), 0, 0);
    InitialIsIdle(d);
  }

  lemma InitialIsIdle(d: Definition)
    ensures Initial(d).phase == IDLE
  {
  }

  lemma AcceptedRun(d: Definition, run: Run, cmd: Command)
    requires |d.orders| > 0 && Reduce(d, run.checkpoint, cmd).Success? && Reduce(d, run.checkpoint, cmd).value.accepted
    ensures EveningRuns.Step(d, run, cmd).checkpoint == Reduce(d, run.checkpoint, cmd).value.checkpoint
    ensures cmd.name != CmdStartNew ==>
      EveningRuns.Step(d, run, cmd) == Run(Reduce(d, run.checkpoint, cmd).value.checkpoint, run.accepted + 1, run.ofGeneration + 1)
  {
    hide Reduce;
  }

  lemma StageAfter(d: Definition, s: Stage, c: Checkpoint, cmd: Command, reply: Reply)
    requires |d.orders| > 0 && InScript(d, s) && InScript(d, Successor(d, s)) && FollowsScript(d, s, c, cmd, reply)
    requires reply.Success? && reply.value.accepted
    ensures Steady(d, reply.value.checkpoint) && StageOf(d, reply.value.checkpoint) == Successor(d, s)
    ensures reply.value.checkpoint.phase == PhaseAt(Successor(d, s))
  {
    hide Steady, StageOf, RowsAt, Conserved;
  }

  lemma OfferIsNoRestart(d: Definition, c: Checkpoint)
    requires Authored(d) && Steady(d, c) && InScript(d, StageOf(d, c)) && c.phase !in {ABANDONED, SETTLED}
    ensures StageOf(d, c) != Stopped && OfferedCommand(d, c).name != CmdStartNew
  {
    hide Shape, Invariants, ChoicePayload, Authored;
  }

  lemma CountedFacts(d: Definition, run: Run)
    requires |d.orders| > 0 && Counted(d, run)
    ensures Steady(d, run.checkpoint) && run.checkpoint.revision == run.accepted
    ensures run.checkpoint.phase != ABANDONED ==> InScript(d, StageOf(d, run.checkpoint)) && run.ofGeneration == Rank(d, StageOf(d, run.checkpoint))
  {
  }

  /** Sending what is offered moves a play one stage on. */
  lemma ReachNext(d: Definition, cmds: seq<Command>, s: Stage) returns (more: seq<Command>)
    requires Authored(d) && |d.orders| > 0 && InScript(d, s) && Reaches(d, cmds, s) && s !in {Done, Stopped} && Rank(d, s) < MAX_SAFE
    ensures InScript(d, Successor(d, s)) && Reaches(d, more, Successor(d, s))
  {
    hide Authored, Counted, Steady, Valid, StageOf, Rank, Reduce, EveningRuns.Step, Successor, OfferedCommand, FollowsScript, Initial, InScript;
    var run := Played(d, cmds);
    var c := run.checkpoint;
    CountedFacts(d, run);
    SteadyStage(d, c);
    NeverStuck(d, c);
    SteadyIsValid(d, c);
    var cmd := OfferedCommand(d, c);
    OfferIsNoRestart(d, c);
    more := cmds + [cmd];
    assert more[..|more| - 1] == cmds && more[|more| - 1] == cmd;
    assert Played(d, more) == EveningRuns.Step(d, run, cmd);
    AcceptedRun(d, run, cmd);
    StageAfter(d, s, c, cmd, Reduce(d, c, cmd));
    StepKeepsCount(d, run, cmd);
    SuccessorRuns(d, s);
  }

  lemma SuccessorRuns(d: Definition, s: Stage)
    requires InScript(d, s) && s !in {Done, Stopped}
    ensures PhaseAt(Successor(d, s)) != ABANDONED
  {
  }

  lemma {:induction false} ReachRice(d: Definition, beat: nat) returns (cmds: seq<Command>)
    requires Authored(d) && |d.orders| > 0 && beat <= |d.riceBeats| && |d.riceBeats| + 2 < MAX_SAFE
    ensures Reaches(d, cmds, if beat < |d.riceBeats| then Rice(beat) else AcceptOrder(0))
  {
    hide Authored, Reaches;
    if beat == 0 {
      ReachStart(d);
      cmds := ReachNext(d, [], Start);
    } else {
      cmds := ReachRice(d, beat - 1);
      cmds := ReachNext(d, cmds, Rice(beat - 1));
    }
  }

  lemma {:induction false} ReachStep(d: Definition, k: nat) returns (cmds: seq<Command>)
    requires Authored(d) && |d.orders| > 0 && k < |d.orders[0].steps| && |d.riceBeats| + |d.orders[0].steps| + 3 < MAX_SAFE
    ensures Reaches(d, cmds, Perform(0, k))
  {
    hide Authored, Reaches;
    if k == 0 {
      cmds := ReachRice(d, |d.riceBeats|);
      cmds := ReachNext(d, cmds, AcceptOrder(0));
    } else {
      cmds := ReachStep(d, k - 1);
      cmds := ReachNext(d, cmds, Perform(0, k - 1));
    }
  }

  /** The plating of the first order is reached. */
  lemma ReachPlate(d: Definition) returns (cmds: seq<Command>)
    requires Authored(d) && |d.orders| > 0 && |d.riceBeats| + |d.orders[0].steps| + 3 < MAX_SAFE
    ensures Reaches(d, cmds, Plate(0))
  {
    assert |d.orders[0].steps| > 0;
    hide Authored, Reaches;
    cmds := ReachStep(d, |d.orders[0].steps| - 1);
    cmds := ReachNext(d, cmds, Perform(0, |d.orders[0].steps| - 1));
    cmds := ReachNext(d, cmds, Present);
  }

  lemma PlateIsPending(d: Definition, c: Checkpoint)
    requires Authored(d) && Steady(d, c) && c.phase != ABANDONED && StageOf(d, c) == Plate(0)
    ensures |c.orders| == |d.orders| > 0 && c.phase == OPEN && PresentationPending(c)
  {
    SteadyStage(d, c);
    ActiveIs(d, Plate(0), c);
    hide Authored, Steady, StageOf, RowsAt, Conserved, Bookkeeping;
  }

  /**
   * The refusal is real: for every authored definition a play of offered commands, no more than a checkpoint can count,
   * leads to an open service whose chosen presentation is unserved, and there abandoning fails.
   */
  lemma PendingIsReached(d: Definition) returns (cmds: seq<Command>)
    requires Authored(d) && |d.orders| > 0 && |d.riceBeats| + |d.orders[0].steps| + 3 < MAX_SAFE
    ensures var c := Played(d, cmds).checkpoint;
      && Steady(d, c) && c.phase == OPEN && |c.orders| == |d.orders| > 0 && PresentationPending(c)
      && AbandonService(d, c).Failure?
      && Reduce(d, c, Command(CmdAbandon, map[], c.revision, d.contentVersion)).Failure?
  {
    cmds := ReachPlate(d);
    hide Authored, Counted, Steady, Valid, StageOf, Rank, Reduce, Initial, AbandonService, PresentationPending, WellFormed;
    var run := Played(d, cmds);
    var c := run.checkpoint;
    CountedFacts(d, run);
    PlateIsPending(d, c);
    var cmd := Command(CmdAbandon, map[], c.revision, d.contentVersion);
    PlateRank(d);
    AbandonIsFormed(cmd);
    AbandonOutcome(d, c);
    OnlyRefusals(d, c, cmd);
  }

  lemma PlateRank(d: Definition)
    requires |d.orders| > 0
    ensures Rank(d, Plate(0)) == |d.riceBeats| + |d.orders[0].steps| + 3
  {
  }

  lemma AbandonIsFormed(cmd: Command)
    requires cmd.name == CmdAbandon && cmd.payload == map[]
    ensures WellFormed(cmd)
  {
  }
}
