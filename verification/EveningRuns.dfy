/** What holds over every run of the evening service: counting, conservation, and facts that only grow. */
module EveningRuns {
  import opened Basics
  import opened EveningCheckpoint
  import opened EveningReducer
  import opened EveningScript
  import opened EveningTheorems
  import Text

  // ---------------------------------------------------------------- counting

  /** Commands a full order takes: accept, its steps, plate and serve. */
  function OrderWork(defs: seq<OrderDef>): nat {
    if defs == [] then 0 else OrderWork(defs[..|defs| - 1]) + |defs[|defs| - 1].steps| + 3
  }

  /** Commands before order `o` is accepted; the first order's presentation is one more. */
  function Before(d: Definition, o: nat): nat
    requires o <= |d.orders|
  {
    1 + |d.riceBeats| + OrderWork(d.orders[..o]) + (if o > 0 then 1 else 0)
  }

  /** How many accepted commands lead from the start of a generation to stage `s`. */
  function Rank(d: Definition, s: Stage): nat
    requires InScript(d, s)
  {
    match s
    case Start => 0
    case Rice(beat) => 1 + beat
    case Stopped => 0
    case Close => |d.riceBeats| + OrderWork(d.orders) + 2
    case Restore => |d.riceBeats| + OrderWork(d.orders) + 3
    case Done => |d.riceBeats| + OrderWork(d.orders) + 4
    case AcceptOrder(o) => Before(d, o)
    case Perform(o, k) => Before(d, o) + 1 + k
    case Present => Before(d, 0) + 1 + |d.orders[0].steps|
    case Plate(o) => Before(d, o) + 1 + |d.orders[o].steps| + (if o == 0 then 1 else 0)
    case Serve(o) => Before(d, o) + 2 + |d.orders[o].steps| + (if o == 0 then 1 else 0)
  }

  /** Every stage but the last and the stopped one is one command short of its successor. */
  lemma RankStep(d: Definition, s: Stage)
    requires Authored(d) && InScript(d, s) && InScript(d, Successor(d, s)) && s !in {Done, Stopped}
    ensures Rank(d, Successor(d, s)) == Rank(d, s) + 1
  {
    if s.Serve? {
      var o := s.order;
      assert d.orders[..o + 1][..o] == d.orders[..o];
      if o + 1 == |d.orders| { assert d.orders[..o + 1] == d.orders; }
    }
  }

  lemma FirstStageRank(d: Definition)
    requires Authored(d)
    ensures InScript(d, FirstStage(d)) && Rank(d, FirstStage(d)) == 1
  {
    assert OrderWork(d.orders[..0]) == 0;
  }

  /** A run: where it stands, how many commands it accepted, and how many since this generation began. */
  datatype Run = Run(checkpoint: Checkpoint, accepted: nat, ofGeneration: nat)

  function Step(d: Definition, run: Run, cmd: Command): Run
    requires |d.orders| > 0
  {
    var reply := Reduce(d, run.checkpoint, cmd);
    if reply.Success? && reply.value.accepted then
      Run(reply.value.checkpoint, run.accepted + 1, if cmd.name == CmdStartNew then 1 else run.ofGeneration + 1)
    else run
  }

  /** Any commands at all: offered, wrong, malformed, stale or repeated. */
  function Play(d: Definition, run: Run, cmds: seq<Command>): Run
    requires |d.orders| > 0
  {
    if cmds == [] then run else Step(d, Play(d, run, cmds[..|cmds| - 1]), cmds[|cmds| - 1])
  }

  ghost predicate Counted(d: Definition, run: Run)
    requires |d.orders| > 0
  {
    && Steady(d, run.checkpoint)
    && run.checkpoint.revision == run.accepted
    && (run.checkpoint.phase != ABANDONED ==>
      InScript(d, StageOf(d, run.checkpoint)) && run.ofGeneration == Rank(d, StageOf(d, run.checkpoint)))
  }

  lemma InitialStands(d: Definition)
    requires Authored(d)
    ensures Counted(d, Run(Initial(d), 0, 0)) && StageOf(d, Initial(d)) == Start
  {
    assert RowsAt(d, Start) == OfferedRows(d);
    StageIsSteady(d, Start, Initial(d));
  }

  /** An accepted command was addressed to the checkpoint and well formed. */
  lemma AcceptedWasAddressed(d: Definition, c: Checkpoint, cmd: Command)
    requires |d.orders| > 0 && Valid(d, c) && Reduce(d, c, cmd).Success? && Reduce(d, c, cmd).value.accepted
    ensures Addresses(d, c, cmd) && WellFormed(cmd) && c.phase != SETTLED
    ensures c.phase == ABANDONED ==> cmd.name == CmdStartNew
    ensures !GenerationSpent(c, cmd) && (cmd.name == CmdAbandon ==> c.phase in {OPEN, CLOSING})
  {
    hide Shape, Invariants, Accept;
    assert c.revision <= MAX_SAFE by { RevisionFits(d, c); }
  }

  lemma RevisionFits(d: Definition, c: Checkpoint)
    requires |d.orders| > 0 && Valid(d, c)
    ensures 0 <= c.revision <= MAX_SAFE
  {
  }

  /** One accepted command: a move along the script, or an abandonment that nothing pending forbids. */
  lemma AcceptedStep(d: Definition, c: Checkpoint, cmd: Command)
    requires Authored(d) && Steady(d, c) && Reduce(d, c, cmd).Success? && Reduce(d, c, cmd).value.accepted
    ensures InScript(d, StageOf(d, c)) && InScript(d, Successor(d, StageOf(d, c))) && |c.orders| > 0
    ensures Steady(d, Reduce(d, c, cmd).value.checkpoint)
    ensures cmd.name != CmdAbandon ==>
      FollowsScript(d, StageOf(d, c), c, cmd, Reduce(d, c, cmd)) && Offers(d, StageOf(d, c), cmd)
    ensures cmd.name == CmdAbandon ==>
      RowsFit(d.orders, c.orders) && c.phase in {OPEN, CLOSING} && Reduce(d, c, cmd).value.checkpoint == AbandonedFrom(d, c)
  {
    SteadyStage(d, c);
    AcceptedWasAddressed(d, c, cmd);
    hide Shape, Invariants, StandsAt, Bookkeeping, StageOf, Authored, Conserved, Accept, ReduceKnown, FollowsScript;
    if cmd.name == CmdAbandon {
      AbandonOutcome(d, c);
      AbandonIsReduced(d, c, cmd);
    } else {
      AcceptsExactlyWhatIsOffered(d, c, cmd);
      ScriptLandsSteady(d, StageOf(d, c), c, cmd, Reduce(d, c, cmd));
    }
  }

  lemma ScriptLandsSteady(d: Definition, s: Stage, c: Checkpoint, cmd: Command, reply: Reply)
    requires |d.orders| > 0 && InScript(d, s) && InScript(d, Successor(d, s)) && FollowsScript(d, s, c, cmd, reply)
    requires reply.value.accepted
    ensures Steady(d, reply.value.checkpoint)
  {
  }

  lemma StepKeepsCount(d: Definition, run: Run, cmd: Command)
    requires Authored(d) && Counted(d, run)
    ensures Counted(d, Step(d, run, cmd))
  {
    var c := run.checkpoint;
    var reply := Reduce(d, c, cmd);
    if reply.Success? && reply.value.accepted {
      AcceptedStep(d, c, cmd);
      SteadyStage(d, c);
      if cmd.name != CmdAbandon {
        var s := StageOf(d, c);
        OffersWellFormed(d, s, cmd);
        FirstStageRank(d);
        if s != Stopped { RankStep(d, s); }
      }
    }
    hide Shape, Invariants, StandsAt, Bookkeeping, StageOf, Authored, Conserved, Rank, Reduce, Offers, PrimaryCommand;
  }

  lemma {:induction false} PlayKeepsCount(d: Definition, run: Run, cmds: seq<Command>)
    requires Authored(d) && Counted(d, run)
    ensures Counted(d, Play(d, run, cmds))
  {
    hide Counted, Step;
    if cmds != [] {
      PlayKeepsCount(d, run, cmds[..|cmds| - 1]);
      StepKeepsCount(d, Play(d, run, cmds[..|cmds| - 1]), cmds[|cmds| - 1]);
    }
  }

  /** From the untouched service, whatever is sent: the revision counts the accepted commands, and a
      generation that settles accepted exactly its authored number of them. */
  lemma SettlesAfterAuthoredWork(d: Definition, cmds: seq<Command>)
    requires Authored(d)
    ensures var run := Play(d, Run(Initial(d), 0, 0), cmds);
      && Steady(d, run.checkpoint)
      && run.checkpoint.revision == run.accepted
      && (run.checkpoint.phase == SETTLED ==> run.ofGeneration == |d.riceBeats| + OrderWork(d.orders) + 4)
  {
    InitialStands(d);
    PlayKeepsCount(d, Run(Initial(d), 0, 0), cmds);
    hide Shape, Invariants, Rank, StageOf, Play, Initial;
    SteadyStage(d, Play(d, Run(Initial(d), 0, 0), cmds).checkpoint);
    DoneRank(d);
  }

  lemma DoneRank(d: Definition)
    ensures Rank(d, Done) == |d.riceBeats| + OrderWork(d.orders) + 4
  {
  }

  // ---------------------------------------------------------------- facts that only grow

  /** Story flags and unlocks of `later` include those of `c`; the generation never falls. */
  ghost predicate Remembers(c: Checkpoint, later: Checkpoint) {
    c.storyFlags <= later.storyFlags && (forall u :: u in c.unlocks ==> u in later.unlocks) && c.generation <= later.generation
  }

  lemma MoveRemembers(d: Definition, s: Stage, c: Checkpoint, payload: Payload, next: Checkpoint)
    requires Authored(d) && InScript(d, s) && InScript(d, Successor(d, s)) && MovesOn(d, s, c, payload, next)
    requires c.unlocks == [] || c.unlocks == [d.settlementUnlock]
    requires c.storyFlags <= StoryFlags(d) && (s.Serve? ==> s.order <= |c.storyFlags|)
    ensures Remembers(c, next)
  {
    hide StandsAt;
    if s.Serve? { FlagsGrow(d, s.order, c.storyFlags); }
  }

  lemma StepRemembers(d: Definition, c: Checkpoint, cmd: Command)
    requires Authored(d) && Steady(d, c) && Reduce(d, c, cmd).Success? && Reduce(d, c, cmd).value.accepted
    ensures Remembers(c, Reduce(d, c, cmd).value.checkpoint)
  {
    AcceptedStep(d, c, cmd);
    SteadyStage(d, c);
    UnlockShape(d, c.unlocks);
    hide Shape, Invariants, StandsAt, StageOf, Conserved, Reduce, Offers;
    if cmd.name != CmdAbandon {
      StagesCarryFlags(d, c);
      MoveRemembers(d, StageOf(d, c), c, cmd.payload, Reduce(d, c, cmd).value.checkpoint);
    }
  }

  /** Story flags are an authored prefix that covers every served order. */
  lemma StagesCarryFlags(d: Definition, c: Checkpoint)
    requires Authored(d) && Steady(d, c)
    ensures c.storyFlags <= StoryFlags(d) && c.activeOrderIndex <= |c.storyFlags|
    ensures StageOf(d, c).Serve? ==> StageOf(d, c).order <= |c.storyFlags|
  {
    FlagsCoverServed(d, c);
  }

  /** Across abandonments and restarts nothing remembered is lost, and a settled service never changes again. */
  lemma {:induction false} PlayRemembers(d: Definition, run: Run, cmds: seq<Command>)
    requires Authored(d) && Steady(d, run.checkpoint)
    ensures Steady(d, Play(d, run, cmds).checkpoint)
    ensures Remembers(run.checkpoint, Play(d, run, cmds).checkpoint)
    ensures run.checkpoint.phase == SETTLED ==> Play(d, run, cmds) == run
  {
    hide Steady, Valid, Reduce;
    if cmds != [] {
      var before, cmd := Play(d, run, cmds[..|cmds| - 1]), cmds[|cmds| - 1];
      PlayRemembers(d, run, cmds[..|cmds| - 1]);
      var reply := Reduce(d, before.checkpoint, cmd);
      if reply.Success? && reply.value.accepted {
        AcceptedStep(d, before.checkpoint, cmd) by { SteadyIsValid(d, before.checkpoint); }
        StepRemembers(d, before.checkpoint, cmd);
        AcceptedUnsettled(d, before.checkpoint, cmd);
      }
    }
  }

  lemma SteadyIsValid(d: Definition, c: Checkpoint)
    requires |d.orders| > 0 && Steady(d, c)
    ensures Valid(d, c)
  {
  }

  lemma AcceptedUnsettled(d: Definition, c: Checkpoint, cmd: Command)
    requires |d.orders| > 0 && Steady(d, c) && Reduce(d, c, cmd).Success? && Reduce(d, c, cmd).value.accepted
    ensures c.phase != SETTLED
  {
    AcceptedWasAddressed(d, c, cmd);
  }

  // ---------------------------------------------------------------- claim rebase

  lemma MergedUnlocksAreUnion(player: Option<Checkpoint>, guest: Checkpoint)
    ensures forall u :: u in MergedUnlocks(player, guest) <==> u in guest.unlocks || (player.Some? && u in player.value.unlocks)
    ensures Distinct(MergedUnlocks(player, guest))
  {
    var held := (if player.Some? then player.value.unlocks else []) + guest.unlocks;
    Text.SortedUniqueIsCanonical(held);
    Text.SortedMembersDiffer(Text.SortedUnique(held));
  }

  lemma OneValue(unlocks: seq<string>, u: string)
    requires Distinct(unlocks) && forall x :: x in unlocks ==> x == u
    ensures |unlocks| <= 1
  {
    assert forall i :: 0 <= i < |unlocks| ==> unlocks[i] in unlocks;
    var first := if |unlocks| > 0 then unlocks[0] else u;
    var second := if |unlocks| > 1 then unlocks[1] else u;
    assert first == u && second == u;
  }

  /** Rebasing two valid checkpoints fails only for an open guest sent to revision 0 (or an unsafe revision);
      it changes nothing but the revision and the unlocks, which become the union. */
  lemma RebaseOutcome(d: Definition, guest: Checkpoint, player: Option<Checkpoint>, revision: int)
    requires Authored(d) && Valid(d, guest) && (player.Some? ==> Valid(d, player.value))
    ensures Rebase(d, guest, player, revision).Failure? <==>
      !(0 <= revision <= MAX_SAFE) || (guest.phase == OPEN && revision == 0)
    ensures var r := Rebase(d, guest, player, revision);
      r.Success? ==>
        && Valid(d, r.value) && (Steady(d, guest) ==> Steady(d, r.value))
        && r.value == guest.(revision := revision, unlocks := r.value.unlocks)
        && (forall u :: u in r.value.unlocks <==> u in guest.unlocks || (player.Some? && u in player.value.unlocks))
  {
    var unlocks := MergedUnlocks(player, guest);
    MergedUnlocksAreUnion(player, guest);
    OneValue(unlocks, d.settlementUnlock);
    var next := guest.(revision := revision, unlocks := unlocks);
    assert 0 <= revision <= MAX_SAFE ==> Shape(d, next);
    hide Shape, RowInvariant, Conserved, ServedCount, MergedUnlocks;
    RebasedRows(d, guest, next);
  }

  lemma RebasedRows(d: Definition, guest: Checkpoint, next: Checkpoint)
    requires |d.orders| == |guest.orders| && next == guest.(revision := next.revision, unlocks := next.unlocks)
    ensures forall i :: 0 <= i < |d.orders| ==> (RowInvariant(d, next, i) <==> RowInvariant(d, guest, i))
  {
  }
}
