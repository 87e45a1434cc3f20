/**
 * The reducer follows the script: exactly which commands it takes, where each leads,
 * and the one state from which abandoning is refused.
 */
module EveningTheorems {
  import opened Basics
  import opened EveningCheckpoint
  import opened EveningReducer
  import opened EveningScript

  // ---------------------------------------------------------------- what a stage offers

  function PromptRef(d: Definition, s: Stage): string
    requires Authored(d) && InScript(d, s)
  {
    match s
    case Start => d.startPromptRef
    case Rice(beat) => d.ricePromptRefs[d.riceBeats[beat]]
    case AcceptOrder(o) => d.orders[o].acceptPromptRef
    case Perform(o, k) => d.orders[o].steps[k].promptRef
    case Present => "prompt.presentation.choose"
    case Plate(o) => d.orders[o].platePromptRef
    case Serve(o) => "prompt.serve." + d.orders[o].id
    case Close => d.closePromptRef
    case Restore => d.restorationPromptRef
    case Done => d.settledPromptRef
    case Stopped => d.abandonedPromptRef
  }

  function PrimaryCommand(s: Stage): Option<CommandName> {
    match s
    case Start => Some(CmdServiceStart)
    case Rice(_) => Some(CmdPrepareRice)
    case AcceptOrder(_) => Some(CmdAcceptOrder)
    case Perform(_, _) => Some(CmdPerformStep)
    case Present => Some(CmdChoosePresentation)
    case Plate(_) => Some(CmdPlateOrder)
    case Serve(_) => Some(CmdServeOrder)
    case Close => Some(CmdCloseLedger)
    case Restore => Some(CmdChooseRestoration)
    case Done => None
    case Stopped => Some(CmdStartNew)
  }

  function AllowedChoices(d: Definition, s: Stage): seq<string>
    requires InScript(d, s)
  {
    match s
    case Rice(beat) => [d.riceBeats[beat]]
    case AcceptOrder(o) => [d.orders[o].id]
    case Perform(o, k) => [d.orders[o].steps[k].id]
    case Present => d.presentationChoices
    case Plate(o) => [d.orders[o].id]
    case Serve(o) => [d.orders[o].id]
    case Restore => d.restorationChoices
    case _ => []
  }

  /** The payload the browser builds for a choice of the projection. */
  function ChoicePayload(name: CommandName, choice: string, orderId: Option<string>): Payload {
    var order := if orderId.Some? then Text(orderId.value) else NotText;
    match name
    case CmdPrepareRice => map[KeyBeat := Text(choice)]
    case CmdAcceptOrder => map[KeyOrderId := Text(choice)]
    case CmdPerformStep => map[KeyOrderId := order, KeyStepId := Text(choice)]
    case CmdChoosePresentation => map[KeyOrderId := order, KeyChoice := Text(choice)]
    case CmdPlateOrder => map[KeyOrderId := Text(choice)]
    case CmdServeOrder => map[KeyOrderId := Text(choice)]
    case CmdChooseRestoration => map[KeyChoice := Text(choice)]
    case _ => map[]
  }

  function ActiveOrderId(d: Definition, s: Stage): Option<string> {
    if ActiveAt(d, s) < |d.orders| then Some(d.orders[ActiveAt(d, s)].id) else None
  }

  /** `cmd` is the primary command with the payload of choice `choice`. */
  ghost predicate OffersChoice(d: Definition, s: Stage, cmd: Command, choice: string)
    requires InScript(d, s)
  {
    && choice in AllowedChoices(d, s)
    && PrimaryCommand(s) == Some(cmd.name)
    && cmd.payload == ChoicePayload(cmd.name, choice, ActiveOrderId(d, s))
  }

  /** `cmd` is the primary command with one of its choices, or with no payload when there is no choice. */
  ghost predicate Offers(d: Definition, s: Stage, cmd: Command)
    requires InScript(d, s)
  {
    if AllowedChoices(d, s) == [] then PrimaryCommand(s) == Some(cmd.name) && cmd.payload == map[]
    else exists choice :: OffersChoice(d, s, cmd, choice)
  }

  /** The envelope addresses checkpoint `c` and there is room for one more revision. */
  predicate Addresses(d: Definition, c: Checkpoint, cmd: Command) {
    cmd.expectedRevision == c.revision < MAX_SAFE && cmd.contentVersion == d.contentVersion
  }

  // ---------------------------------------------------------------- where a stage leads

  function FirstStage(d: Definition): Stage {
    if |d.riceBeats| > 0 then Rice(0) else AcceptOrder(0)
  }

  function Successor(d: Definition, s: Stage): Stage
    requires InScript(d, s)
  {
    match s
    case Start => FirstStage(d)
    case Rice(beat) => if beat + 1 < |d.riceBeats| then Rice(beat + 1) else AcceptOrder(0)
    case AcceptOrder(o) => Perform(o, 0)
    case Perform(o, k) => if k + 1 < |d.orders[o].steps| then Perform(o, k + 1) else if o == 0 then Present else Plate(o)
    case Present => Plate(0)
    case Plate(o) => Serve(o)
    case Serve(o) => if o + 1 < |d.orders| then AcceptOrder(o + 1) else Close
    case Close => Restore
    case Restore => Done
    case Done => Done
    case Stopped => FirstStage(d)
  }

  /** The flags after stage `s`: serving order `o` makes the authored prefix reach at least `o + 1`. */
  function FlagsAfter(d: Definition, s: Stage, flags: seq<string>): seq<string>
    requires InScript(d, s)
  {
    if s.Serve? && |flags| <= s.order then StoryFlags(d)[..s.order + 1] else flags
  }

  /** `next` is checkpoint `c`, standing at `s`, moved one stage on by `payload`; every field is determined. */
  ghost predicate MovesOn(d: Definition, s: Stage, c: Checkpoint, payload: Payload, next: Checkpoint)
    requires InScript(d, s) && InScript(d, Successor(d, s))
  {
    && StandsAt(d, Successor(d, s), next)
    && next.revision == c.revision + 1
    && next.generation == (if s == Stopped then c.generation + 1 else c.generation)
    && next.storyFlags == FlagsAfter(d, s, c.storyFlags)
    && next.unlocks == (if s == Restore then [d.settlementUnlock] else c.unlocks)
    && next.presentationChoice == (
      if s == Present && SaysOneOf(payload, KeyChoice, d.presentationChoices) then Some(payload[KeyChoice].text)
      else if s == Stopped then None else c.presentationChoice)
    && next.restorationChoice == (
      if s == Restore && SaysOneOf(payload, KeyChoice, d.restorationChoices) then Some(payload[KeyChoice].text) else None)
  }

  /** The reply at stage `s`: the offered move when `cmd` is offered, and otherwise a correction that changes nothing. */
  ghost predicate FollowsScript(d: Definition, s: Stage, c: Checkpoint, cmd: Command, reply: Reply)
    requires |d.orders| > 0 && InScript(d, s) && InScript(d, Successor(d, s))
  {
    && reply.Success?
    && (reply.value.accepted <==> Offers(d, s, cmd))
    && (!reply.value.accepted ==> reply.value.checkpoint == c)
    && (reply.value.accepted ==>
      && Steady(d, reply.value.checkpoint)
      && StageOf(d, reply.value.checkpoint) == Successor(d, s)
      && MovesOn(d, s, c, cmd.payload, reply.value.checkpoint))
  }

  lemma SuccessorInScript(d: Definition, s: Stage)
    requires Authored(d) && InScript(d, s)
    ensures InScript(d, Successor(d, s)) && Successor(d, s) !in {Start, Stopped}
  {
  }

  /** A one-field payload is the built payload exactly when it says the choice. */
  lemma OneField(payload: Payload, key: Key, choice: string)
    ensures payload == map[key := Text(choice)] <==> payload.Keys == {key} && Says(payload, key, choice)
  {
    if payload.Keys == {key} && Says(payload, key, choice) {
      assert forall k :: k in payload ==> k == key;
    }
  }

  lemma TwoFields(payload: Payload, k1: Key, v1: string, k2: Key, v2: string)
    requires k1 != k2
    ensures payload == map[k1 := Text(v1), k2 := Text(v2)] <==>
      payload.Keys == {k1, k2} && Says(payload, k1, v1) && Says(payload, k2, v2)
  {
    if payload.Keys == {k1, k2} && Says(payload, k1, v1) && Says(payload, k2, v2) {
      assert forall k :: k in payload ==> k == k1 || k == k2;
    }
  }

  // ---------------------------------------------------------------- one lemma per command

  ghost predicate Ready(d: Definition, s: Stage, c: Checkpoint, cmd: Command) {
    && Authored(d) && |d.orders| > 0
    && InScript(d, s) && InScript(d, Successor(d, s)) && s != Stopped
    && Shape(d, c) && StandsAt(d, s, c) && Bookkeeping(d, s, c) && c.revision < MAX_SAFE
    && cmd.payload.Keys == PayloadKeys(cmd.name)
  }

  /** Serving order `o` extends the authored prefix of flags just when it stops at `o`. */
  lemma FlagsGrow(d: Definition, o: nat, flags: seq<string>)
    requires Authored(d) && o < |d.orders| && o <= |flags| && flags <= StoryFlags(d)
    ensures (if d.orders[o].storyFlagId in flags then flags else flags + [d.orders[o].storyFlagId])
         == FlagsAfter(d, Serve(o), flags)
    ensures o + 1 <= |FlagsAfter(d, Serve(o), flags)| && FlagsAfter(d, Serve(o), flags) <= StoryFlags(d)
    ensures flags <= FlagsAfter(d, Serve(o), flags)
  {
    var authored := StoryFlags(d);
    assert forall j :: 0 <= j < |flags| ==> flags[j] == authored[j] == d.orders[j].storyFlagId;
    if |flags| <= o {
      assert flags + [authored[o]] == authored[..o + 1];
    } else {
      assert flags[o] == d.orders[o].storyFlagId;
    }
  }

  /** What the reducer stores when it accepts `base`. */
  function Stored(d: Definition, base: Checkpoint): Checkpoint
    requires RowsFit(d.orders, base.orders)
  {
    base.(components := Conserved(d, base.orders), revision := base.revision + 1)
  }

  /** A move along the script keeps the bookkeeping in order. */
  lemma MoveKeepsBooks(d: Definition, s: Stage, c: Checkpoint, cmd: Command, next: Checkpoint)
    requires Authored(d) && InScript(d, s) && InScript(d, Successor(d, s)) && s !in {Done, Stopped}
    requires Bookkeeping(d, s, c) && c.revision < MAX_SAFE && Offers(d, s, cmd) && MovesOn(d, s, c, cmd.payload, next)
    ensures Bookkeeping(d, Successor(d, s), next)
  {
    if AllowedChoices(d, s) != [] {
      var choice :| OffersChoice(d, s, cmd, choice);
    }
    if s.Serve? { FlagsGrow(d, s.order, c.storyFlags); }
  }

  /** An accepting branch whose base makes the offered move follows the script. */
  lemma Landing(d: Definition, s: Stage, c: Checkpoint, cmd: Command, base: Checkpoint, feedback: string, outcome: Option<string>)
    requires Ready(d, s, c, cmd) && Offers(d, s, cmd) && s != Done
    requires RowsFit(d.orders, base.orders) && MovesOn(d, s, c, cmd.payload, Stored(d, base))
    ensures FollowsScript(d, s, c, cmd, Accept(d, base, feedback, outcome))
    ensures Advance(d, base) == Success(Stored(d, base)) && Steady(d, Stored(d, base)) && StageOf(d, Stored(d, base)) == Successor(d, s)
  {
    MoveKeepsBooks(d, s, c, cmd, Stored(d, base));
    SuccessorInScript(d, s);
    StageIsSteady(d, Successor(d, s), Stored(d, base));
    hide Shape, Invariants, Bookkeeping, StandsAt, MovesOn, Offers, Authored, Conserved, StageOf;
  }

  lemma NotOffered(d: Definition, s: Stage, c: Checkpoint, cmd: Command, cue: string)
    requires |d.orders| > 0 && InScript(d, s) && InScript(d, Successor(d, s)) && !Offers(d, s, cmd)
    ensures FollowsScript(d, s, c, cmd, Correction(c, cue))
  {
  }

  lemma MoveFields(d: Definition, s: Stage, c: Checkpoint, cmd: Command, base: Checkpoint)
    requires Ready(d, s, c, cmd) && s !in {Present, Restore, Serve(ActiveAt(d, s)), Done}
    requires base == c.(phase := PhaseAt(Successor(d, s)), riceBeatIndex := RiceAt(d, Successor(d, s)), orders := RowsAt(d, Successor(d, s)))
    ensures RowsFit(d.orders, base.orders) && MovesOn(d, s, c, cmd.payload, Stored(d, base))
  {
    hide Authored, Conserved, RowsAt, Shape;
  }

  lemma StartFollows(d: Definition, s: Stage, c: Checkpoint, cmd: Command)
    requires Ready(d, s, c, cmd) && cmd.name == CmdServiceStart
    ensures FollowsScript(d, s, c, cmd, OpenService(d, c))
  {
    hide Authored, Shape, Conserved, Advance, Accept, Steady, StageOf, Bookkeeping, FollowsScript, MovesOn, Stored;
    assert cmd.payload == map[];
    if s == Start {
      assert RowsAt(d, Successor(d, s)) == RowsAt(d, s);
      MoveFields(d, s, c, cmd, c.(phase := OPEN));
      Landing(d, s, c, cmd, c.(phase := OPEN), "feedback.service.opened", None);
    } else {
      NotOffered(d, s, c, cmd, "cue.start.invalid");
    }
  }

  lemma RiceFollows(d: Definition, s: Stage, c: Checkpoint, cmd: Command)
    requires Ready(d, s, c, cmd) && cmd.name == CmdPrepareRice
    ensures FollowsScript(d, s, c, cmd, PrepareRice(d, c, cmd.payload))
  {
    hide Authored, Shape, Conserved, Advance, Accept, Steady, StageOf, Bookkeeping, FollowsScript, MovesOn, Stored;
    assert c.orders[0] == RowAt(d, s, 0);
    if s.Rice? {
      OneField(cmd.payload, KeyBeat, d.riceBeats[s.beat]);
      assert OffersChoice(d, s, cmd, d.riceBeats[s.beat]) <==> Offers(d, s, cmd);
    }
    if Offers(d, s, cmd) {
      var base := c.(riceBeatIndex := c.riceBeatIndex + 1);
      assert RowsAt(d, Successor(d, s)) == RowsAt(d, s);
      MoveFields(d, s, c, cmd, base);
      Landing(d, s, c, cmd, base, "feedback.rice." + d.riceBeats[s.beat] + ".saved", None);
    } else {
      NotOffered(d, s, c, cmd, PrepareRice(d, c, cmd.payload).value.feedbackRef);
    }
  }

  /** The active order's row is the stage's active row; beyond it there is none. */
  lemma ActiveIs(d: Definition, s: Stage, c: Checkpoint)
    requires InScript(d, s) && StandsAt(d, s, c)
    ensures |c.orders| == |d.orders| && c.activeOrderIndex == ActiveAt(d, s) <= |d.orders|
    ensures ActiveAt(d, s) < |d.orders| ==> c.orders[ActiveAt(d, s)] == ActiveRow(s, d.orders[ActiveAt(d, s)])
  {
    if ActiveAt(d, s) < |d.orders| { assert c.orders[ActiveAt(d, s)] == RowAt(d, s, ActiveAt(d, s)); }
  }

  /** At a stage with one authored choice, an offered one-field payload says just that choice. */
  lemma SingleOffer(d: Definition, s: Stage, cmd: Command, choice: string)
    requires InScript(d, s) && (s.AcceptOrder? || s.Plate? || s.Serve?) && AllowedChoices(d, s) == [choice]
    requires PrimaryCommand(s) == Some(cmd.name) && cmd.payload.Keys == PayloadKeys(cmd.name)
    ensures Offers(d, s, cmd) <==> Says(cmd.payload, KeyOrderId, choice)
  {
    OneField(cmd.payload, KeyOrderId, choice);
    assert OffersChoice(d, s, cmd, choice) <==> Offers(d, s, cmd);
  }

  /** Changing only the active row moves the rows from stage `s` to stage `t`. */
  lemma RowStep(d: Definition, s: Stage, t: Stage, row: OrderRow)
    requires InScript(d, s) && InScript(d, t)
    requires ActiveAt(d, s) == ActiveAt(d, t) < |d.orders| && row == ActiveRow(t, d.orders[ActiveAt(d, t)])
    ensures RowsAt(d, s)[ActiveAt(d, s) := row] == RowsAt(d, t)
  {
  }

  lemma AcceptOrderFollows(d: Definition, s: Stage, c: Checkpoint, cmd: Command)
    requires Ready(d, s, c, cmd) && cmd.name == CmdAcceptOrder
    ensures FollowsScript(d, s, c, cmd, AcceptGuestOrder(d, c, cmd.payload))
  {
    hide Authored, Shape, Conserved, Advance, Accept, Steady, StageOf, Bookkeeping, FollowsScript, MovesOn, Stored;
    var a := ActiveAt(d, s);
    ActiveIs(d, s, c);
    if s.AcceptOrder? { SingleOffer(d, s, cmd, d.orders[a].id); }
    hide RowsAt;
    if Offers(d, s, cmd) {
      var row := c.orders[a].(state := ACCEPTED);
      RowStep(d, s, Successor(d, s), row);
      var base := c.(orders := c.orders[a := row]);
      MoveFields(d, s, c, cmd, base);
      Landing(d, s, c, cmd, base, d.orders[a].dialogueRef, None);
    } else {
      NotOffered(d, s, c, cmd, AcceptGuestOrder(d, c, cmd.payload).value.feedbackRef);
    }
  }

  /** At a step, the offered payload names the active order and that step. */
  lemma PerformOffer(d: Definition, s: Stage, cmd: Command)
    requires s.Perform? && InScript(d, s) && cmd.name == CmdPerformStep && cmd.payload.Keys == PayloadKeys(cmd.name)
    ensures Offers(d, s, cmd) <==>
      Says(cmd.payload, KeyOrderId, d.orders[s.order].id) && Says(cmd.payload, KeyStepId, d.orders[s.order].steps[s.step].id)
  {
    var id := d.orders[s.order].steps[s.step].id;
    TwoFields(cmd.payload, KeyOrderId, d.orders[s.order].id, KeyStepId, id);
    assert OffersChoice(d, s, cmd, id) <==> Offers(d, s, cmd);
  }

  function SteppedBase(d: Definition, c: Checkpoint, o: nat, k: nat): Checkpoint
    requires o < |d.orders| && o < |c.orders|
  {
    c.(orders := c.orders[o := c.orders[o].(
      state := if k + 1 == |d.orders[o].steps| then READY_TO_PLATE else PREPARING, stepIndex := k + 1)])
  }

  lemma PerformMoves(d: Definition, s: Stage, c: Checkpoint, cmd: Command)
    requires Ready(d, s, c, cmd) && s.Perform?
    ensures s.order < |d.orders| && s.order < |c.orders| && RowsFit(d.orders, SteppedBase(d, c, s.order, s.step).orders)
    ensures MovesOn(d, s, c, cmd.payload, Stored(d, SteppedBase(d, c, s.order, s.step)))
  {
    ActiveIs(d, s, c);
    var base := SteppedBase(d, c, s.order, s.step);
    RowStep(d, s, Successor(d, s), base.orders[s.order]);
    MoveFields(d, s, c, cmd, base);
    hide Authored, Shape, Conserved, RowsAt;
  }

  lemma StepReply(d: Definition, c: Checkpoint, payload: Payload, o: nat, k: nat)
    requires |d.orders| > 0 && Shape(d, c) && o < |d.orders| && o < |c.orders|
    requires c.phase == OPEN && c.activeOrderIndex == o && c.orders[o].state in {ACCEPTED, PREPARING}
    requires c.orders[o].stepIndex == k < |d.orders[o].steps| && RowsFit(d.orders, SteppedBase(d, c, o, k).orders)
    requires Says(payload, KeyOrderId, d.orders[o].id) && Says(payload, KeyStepId, d.orders[o].steps[k].id)
    ensures PerformStep(d, c, payload) == Accept(d, SteppedBase(d, c, o, k), d.orders[o].steps[k].promptRef, None)
  {
    hide Shape, Accept, RowsFit, Says;
  }

  lemma PerformBranch(d: Definition, s: Stage, c: Checkpoint, cmd: Command)
    requires Ready(d, s, c, cmd) && cmd.name == CmdPerformStep && s.Perform? && Offers(d, s, cmd)
    ensures s.order < |d.orders| && s.order < |c.orders| && RowsFit(d.orders, SteppedBase(d, c, s.order, s.step).orders)
    ensures PerformStep(d, c, cmd.payload) ==
      Accept(d, SteppedBase(d, c, s.order, s.step), d.orders[s.order].steps[s.step].promptRef, None)
  {
    PerformMoves(d, s, c, cmd);
    ActiveIs(d, s, c);
    PerformOffer(d, s, cmd);
    hide Authored, Conserved, Accept, Bookkeeping, RowsAt, Offers, MovesOn, Shape, RowsFit, PerformStep, Says;
    StepReply(d, c, cmd.payload, s.order, s.step);
  }

  lemma PerformFollows(d: Definition, s: Stage, c: Checkpoint, cmd: Command)
    requires Ready(d, s, c, cmd) && cmd.name == CmdPerformStep
    ensures FollowsScript(d, s, c, cmd, PerformStep(d, c, cmd.payload))
  {
    ActiveIs(d, s, c);
    if s.Perform? { PerformOffer(d, s, cmd); }
    hide Authored, Conserved, Advance, Accept, Steady, StageOf, Bookkeeping, FollowsScript, RowsAt, MovesOn, Stored;
    if Offers(d, s, cmd) {
      PerformBranch(d, s, c, cmd);
      PerformMoves(d, s, c, cmd);
      Landing(d, s, c, cmd, SteppedBase(d, c, s.order, s.step), d.orders[s.order].steps[s.step].promptRef, None);
    } else {
      NotOffered(d, s, c, cmd, PerformStep(d, c, cmd.payload).value.feedbackRef);
    }
  }

  lemma PresentOffer(d: Definition, s: Stage, cmd: Command)
    requires Authored(d) && s.Present? && InScript(d, s) && cmd.name == CmdChoosePresentation && cmd.payload.Keys == PayloadKeys(cmd.name)
    ensures Offers(d, s, cmd) <==>
      Says(cmd.payload, KeyOrderId, d.orders[0].id) && SaysOneOf(cmd.payload, KeyChoice, d.presentationChoices)
  {
    forall choice ensures OffersChoice(d, s, cmd, choice) <==>
      choice in d.presentationChoices && Says(cmd.payload, KeyOrderId, d.orders[0].id) && Says(cmd.payload, KeyChoice, choice)
    {
      TwoFields(cmd.payload, KeyOrderId, d.orders[0].id, KeyChoice, choice);
    }
    if SaysOneOf(cmd.payload, KeyChoice, d.presentationChoices) && Says(cmd.payload, KeyOrderId, d.orders[0].id) {
      assert OffersChoice(d, s, cmd, cmd.payload[KeyChoice].text);
    }
  }

  lemma PresentFollows(d: Definition, s: Stage, c: Checkpoint, cmd: Command)
    requires Ready(d, s, c, cmd) && cmd.name == CmdChoosePresentation
    ensures FollowsScript(d, s, c, cmd, ChoosePresentation(d, c, cmd.payload))
  {
    ActiveIs(d, s, c);
    assert c.orders[0] == RowAt(d, s, 0);
    if s.Present? {
      PresentOffer(d, s, cmd);
      assert c.restorationChoice.None? && RowsAt(d, Successor(d, s)) == RowsAt(d, s);
    }
    hide Authored, Shape, Conserved, Advance, Accept, Steady, StageOf, Bookkeeping, FollowsScript, RowsAt;
    if Offers(d, s, cmd) {
      var choice := cmd.payload[KeyChoice].text;
      var base := c.(presentationChoice := Some(choice));
      Landing(d, s, c, cmd, base, "feedback.presentation." + choice, None);
    } else {
      NotOffered(d, s, c, cmd, "cue.presentation.invalid");
    }
  }

  lemma PlateFollows(d: Definition, s: Stage, c: Checkpoint, cmd: Command)
    requires Ready(d, s, c, cmd) && cmd.name == CmdPlateOrder
    ensures FollowsScript(d, s, c, cmd, PlateOrder(d, c, cmd.payload))
  {
    hide Authored, Shape, Conserved, Advance, Accept, Steady, StageOf, Bookkeeping, FollowsScript, MovesOn, Stored;
    var a := ActiveAt(d, s);
    ActiveIs(d, s, c);
    if s.Plate? { SingleOffer(d, s, cmd, d.orders[a].id); }
    hide RowsAt;
    if Offers(d, s, cmd) {
      var feedback := d.orders[a].plateFeedbackRef;
      var row := c.orders[a].(state := PLATED, plateFeedbackRef := Some(feedback));
      RowStep(d, s, Successor(d, s), row);
      var base := c.(orders := c.orders[a := row]);
      MoveFields(d, s, c, cmd, base);
      Landing(d, s, c, cmd, base, feedback, None);
    } else {
      NotOffered(d, s, c, cmd, PlateOrder(d, c, cmd.payload).value.feedbackRef);
    }
  }

  lemma ServedStep(d: Definition, o: nat)
    requires o < |d.orders|
    ensures ActiveRow(Serve(o), d.orders[o]).(state := SERVED, serveFeedbackRef := Some(d.orders[o].serveFeedbackRef)) == ServedRow(d.orders[o])
    ensures InScript(d, Successor(d, Serve(o)))
    ensures RowsAt(d, Serve(o))[o := ServedRow(d.orders[o])] == RowsAt(d, Successor(d, Serve(o)))
  {
  }

  function ServedBase(d: Definition, c: Checkpoint, o: nat): Checkpoint
    requires o < |d.orders| && o < |c.orders|
  {
    c.(orders := c.orders[o := ServedRow(d.orders[o])], activeOrderIndex := o + 1,
       storyFlags := FlagsAfter(d, Serve(o), c.storyFlags))
  }

  lemma ServeBranch(d: Definition, s: Stage, c: Checkpoint, cmd: Command)
    requires Ready(d, s, c, cmd) && cmd.name == CmdServeOrder && s.Serve? && Offers(d, s, cmd)
    ensures s.order < |d.orders| && s.order < |c.orders| && RowsFit(d.orders, ServedBase(d, c, s.order).orders)
    ensures ServeOrder(d, c, cmd.payload) ==
      Accept(d, ServedBase(d, c, s.order), d.orders[s.order].serveFeedbackRef, Some(d.orders[s.order].outcomeClass))
  {
    ActiveIs(d, s, c);
    SingleOffer(d, s, cmd, d.orders[s.order].id);
    FlagsGrow(d, s.order, c.storyFlags);
    ServedStep(d, s.order);
    hide Authored, Conserved, Accept, Bookkeeping, RowsAt, FlagsAfter;
  }

  lemma ServeMoves(d: Definition, s: Stage, c: Checkpoint, cmd: Command)
    requires Ready(d, s, c, cmd) && cmd.name == CmdServeOrder && s.Serve?
    ensures s.order < |d.orders| && s.order < |c.orders| && RowsFit(d.orders, ServedBase(d, c, s.order).orders)
    ensures MovesOn(d, s, c, cmd.payload, Stored(d, ServedBase(d, c, s.order)))
  {
    ActiveIs(d, s, c);
    ServedStep(d, s.order);
    hide Authored, Shape, Conserved, RowsAt, FlagsAfter;
  }

  lemma ServeFollows(d: Definition, s: Stage, c: Checkpoint, cmd: Command)
    requires Ready(d, s, c, cmd) && cmd.name == CmdServeOrder
    ensures FollowsScript(d, s, c, cmd, ServeOrder(d, c, cmd.payload))
  {
    ActiveIs(d, s, c);
    if s.Serve? { SingleOffer(d, s, cmd, d.orders[s.order].id); }
    hide Authored, Conserved, Advance, Accept, Steady, StageOf, Bookkeeping, FollowsScript, RowsAt, FlagsAfter, MovesOn, Stored;
    if Offers(d, s, cmd) {
      ServeBranch(d, s, c, cmd);
      ServeMoves(d, s, c, cmd);
      Landing(d, s, c, cmd, ServedBase(d, c, s.order), d.orders[s.order].serveFeedbackRef, Some(d.orders[s.order].outcomeClass));
    } else {
      NotOffered(d, s, c, cmd, ServeOrder(d, c, cmd.payload).value.feedbackRef);
    }
  }

  lemma CloseFollows(d: Definition, s: Stage, c: Checkpoint, cmd: Command)
    requires Ready(d, s, c, cmd) && cmd.name == CmdCloseLedger
    ensures FollowsScript(d, s, c, cmd, CloseLedger(d, c))
  {
    hide Authored, Shape, Conserved, Advance, Accept, Steady, StageOf, Bookkeeping, FollowsScript, MovesOn, Stored;
    assert cmd.payload == map[];
    if s == Close {
      assert RowsAt(d, Restore) == RowsAt(d, Close);
      MoveFields(d, s, c, cmd, c.(phase := CLOSING));
      Landing(d, s, c, cmd, c.(phase := CLOSING), "feedback.ledger.closed", None);
    } else {
      NotOffered(d, s, c, cmd, "cue.ledger.orders-incomplete");
    }
  }

  lemma RestoreOffer(d: Definition, s: Stage, cmd: Command)
    requires Authored(d) && s == Restore && cmd.name == CmdChooseRestoration && cmd.payload.Keys == PayloadKeys(cmd.name)
    ensures Offers(d, s, cmd) <==> SaysOneOf(cmd.payload, KeyChoice, d.restorationChoices)
  {
    forall choice ensures OffersChoice(d, s, cmd, choice) <==> choice in d.restorationChoices && Says(cmd.payload, KeyChoice, choice) {
      OneField(cmd.payload, KeyChoice, choice);
    }
    if SaysOneOf(cmd.payload, KeyChoice, d.restorationChoices) {
      assert OffersChoice(d, s, cmd, cmd.payload[KeyChoice].text);
    }
  }

  lemma RestoreFollows(d: Definition, s: Stage, c: Checkpoint, cmd: Command)
    requires Ready(d, s, c, cmd) && cmd.name == CmdChooseRestoration
    ensures FollowsScript(d, s, c, cmd, ChooseRestoration(d, c, cmd.payload))
  {
    if s == Restore { RestoreOffer(d, s, cmd); }
    assert c.unlocks == [] || c.unlocks == [d.settlementUnlock];
    assert c.restorationChoice.None? <== s != Done;
    hide Authored, Shape, Conserved, Advance, Accept, Steady, StageOf, Bookkeeping;
    if Offers(d, s, cmd) {
      var choice := cmd.payload[KeyChoice].text;
      var base := c.(phase := SETTLED, restorationChoice := Some(choice), unlocks := [d.settlementUnlock]);
      assert (if d.settlementUnlock in c.unlocks then c.unlocks else [d.settlementUnlock]) == [d.settlementUnlock];
      assert RowsAt(d, Done) == RowsAt(d, Restore);
      Landing(d, s, c, cmd, base, "", None);
    } else {
      NotOffered(d, s, c, cmd, "cue.restoration.invalid");
    }
  }

  lemma NewShiftLands(d: Definition, c: Checkpoint, base: Checkpoint)
    requires Authored(d) && Steady(d, c) && c.phase == ABANDONED && c.revision < MAX_SAFE && c.generation < MAX_SAFE
    requires base == c.(generation := c.generation + 1, phase := OPEN, riceBeatIndex := 0, presentationChoice := None,
                        restorationChoice := None, activeOrderIndex := 0, orders := OfferedRows(d))
    ensures InScript(d, FirstStage(d)) && MovesOn(d, Stopped, c, map[], Stored(d, base))
    ensures Bookkeeping(d, FirstStage(d), Stored(d, base))
  {
    UnlockShape(d, c.unlocks);
    assert RowsAt(d, FirstStage(d)) == OfferedRows(d);
    assert 0 <= c.revision && 0 <= c.generation && c.storyFlags <= StoryFlags(d);
    hide Shape, Invariants, Conserved, RowsAt, Authored, StoryFlags;
  }

  lemma NewShiftFollows(d: Definition, c: Checkpoint, cmd: Command)
    requires Authored(d) && Steady(d, c) && c.phase == ABANDONED && c.revision < MAX_SAFE && c.generation < MAX_SAFE
    requires cmd.name == CmdStartNew && cmd.payload.Keys == {}
    ensures InScript(d, FirstStage(d)) && FollowsScript(d, Stopped, c, cmd, NewShift(d, c))
  {
    var base := c.(generation := c.generation + 1, phase := OPEN, riceBeatIndex := 0, presentationChoice := None,
                   restorationChoice := None, activeOrderIndex := 0, orders := OfferedRows(d));
    NewShiftLands(d, c, base);
    StageIsSteady(d, FirstStage(d), Stored(d, base));
    assert cmd.payload == map[];
    hide Shape, Invariants, Conserved, Authored, StandsAt, Bookkeeping, StageOf, MovesOn;
  }

  // ---------------------------------------------------------------- abandoning

  /** The one thing abandoning cannot cross: a chosen presentation whose order is not yet served. */
  predicate PresentationPending(c: Checkpoint)
    requires |c.orders| > 0
  {
    c.presentationChoice.Some? && c.orders[0].state != SERVED
  }

  function AbandonedFrom(d: Definition, c: Checkpoint): Checkpoint
    requires RowsFit(d.orders, c.orders)
  {
    c.(phase := ABANDONED, orders := DiscardedRows(c.orders), components := Conserved(d, DiscardedRows(c.orders)), revision := c.revision + 1)
  }

  lemma AbandonedRows(d: Definition, s: Stage, c: Checkpoint)
    requires Authored(d) && s != Stopped && InScript(d, s) && StandsAt(d, s, c)
    ensures |c.orders| == |d.orders| && RowsFit(d.orders, c.orders)
    ensures ServedCount(DiscardedRows(c.orders)) == ActiveAt(d, s)
    ensures forall i :: 0 <= i < |d.orders| ==> RowInvariant(d, AbandonedFrom(d, c), i)
  {
    forall i | 0 <= i < |d.orders|
      ensures c.orders[i] == RowAt(d, s, i) && RowInvariant(d, AbandonedFrom(d, c), i)
    {
    }
    ServedPrefix(DiscardedRows(c.orders), ActiveAt(d, s));
  }

  lemma AbandonedShape(d: Definition, s: Stage, c: Checkpoint)
    requires Authored(d) && s !in {Start, Done, Stopped} && InScript(d, s) && StandsAt(d, s, c) && Bookkeeping(d, s, c)
    requires Shape(d, c) && c.revision < MAX_SAFE
    ensures Shape(d, AbandonedFrom(d, c))
  {
    LedgerIsNonNegative(d, DiscardedRows(c.orders));
  }

  /** What a stage hands over to the abandoned checkpoint. */
  lemma AbandonCarries(d: Definition, s: Stage, c: Checkpoint)
    requires Authored(d) && s !in {Start, Done, Stopped} && InScript(d, s) && StandsAt(d, s, c) && Bookkeeping(d, s, c)
    ensures |c.orders| == |d.orders| > 0 && c.activeOrderIndex == ActiveAt(d, s) && c.restorationChoice.None?
    ensures forall k :: 0 <= k < ActiveAt(d, s) && k < |d.orders| ==> StoryFlags(d)[k] in c.storyFlags
    ensures c.storyFlags <= StoryFlags(d)
    ensures (forall u :: u in c.unlocks ==> u == d.settlementUnlock) && |c.unlocks| <= 1
    ensures AbandonedFrom(d, c).orders[0] == Discarded(c.orders[0])
    ensures c.orders[0].state == SERVED || Discarded(c.orders[0]).state == DISCARDED
  {
    forall k | 0 <= k < ActiveAt(d, s) && k < |d.orders| ensures StoryFlags(d)[k] in c.storyFlags {
      assert c.storyFlags[k] == StoryFlags(d)[k];
    }
  }

  lemma AbandonDecodes(d: Definition, s: Stage, c: Checkpoint)
    requires Authored(d) && s !in {Start, Done, Stopped} && InScript(d, s) && StandsAt(d, s, c) && Bookkeeping(d, s, c)
    requires Shape(d, c) && c.revision < MAX_SAFE
    ensures |c.orders| == |d.orders| > 0
    ensures Valid(d, AbandonedFrom(d, c)) <==> !PresentationPending(c)
    ensures AbandonedFrom(d, c).orders[0].state != PLATED
  {
    AbandonedRows(d, s, c);
    AbandonedShape(d, s, c);
    AbandonCarries(d, s, c);
    hide Shape, StandsAt, Bookkeeping, RowsAt, RowAt, RowInvariant, Conserved, Authored, RowsFit, StoryFlags, InScript, ActiveAt;
  }

  /** Abandoning is refused exactly while a presentation is pending; otherwise only the open work is discarded. */
  lemma AbandonOutcome(d: Definition, c: Checkpoint)
    requires Authored(d) && Steady(d, c) && c.phase in {OPEN, CLOSING} && c.revision < MAX_SAFE
    ensures |c.orders| == |d.orders| > 0
    ensures AbandonService(d, c).Failure? <==> PresentationPending(c)
    ensures !PresentationPending(c) ==>
      && AbandonService(d, c) == Success(Decision(AbandonedFrom(d, c), true, "feedback.service.abandoned", false, [], None))
      && Steady(d, AbandonedFrom(d, c))
  {
    SteadyStandsAtStage(d, c);
    AbandonDecodes(d, StageOf(d, c), c);
    AbandonReply(d, c);
    hide Shape, Invariants, StandsAt, Bookkeeping, StageOf, Conserved, Authored, AbandonService, AbandonedFrom;
  }

  lemma AbandonReply(d: Definition, c: Checkpoint)
    requires |d.orders| > 0 && RowsFit(d.orders, c.orders) && c.phase in {OPEN, CLOSING}
    ensures AbandonService(d, c) ==
      if Valid(d, AbandonedFrom(d, c)) then Success(Decision(AbandonedFrom(d, c), true, "feedback.service.abandoned", false, [], None))
      else Failure(InvalidServiceState)
  {
    hide Valid, Conserved, RowsFit;
  }

  // ---------------------------------------------------------------- the main theorems

  predicate WellFormed(cmd: Command) {
    !cmd.name.CmdUnknown? && cmd.payload.Keys == PayloadKeys(cmd.name)
  }

  lemma ChoicePayloadKeys(name: CommandName, choice: string, orderId: Option<string>)
    ensures ChoicePayload(name, choice, orderId).Keys == PayloadKeys(name)
  {
  }

  lemma OffersWellFormed(d: Definition, s: Stage, cmd: Command)
    requires Authored(d) && InScript(d, s) && Offers(d, s, cmd)
    ensures WellFormed(cmd) && s != Done && (s == Stopped <==> cmd.name == CmdStartNew) && cmd.name != CmdAbandon
  {
    if AllowedChoices(d, s) != [] {
      var choice :| OffersChoice(d, s, cmd, choice);
      ChoicePayloadKeys(cmd.name, choice, ActiveOrderId(d, s));
    } else {
      ChoicePayloadKeys(cmd.name, "", None);
    }
  }

  lemma SwitchFollows(d: Definition, s: Stage, c: Checkpoint, cmd: Command)
    requires Ready(d, s, c, cmd) && !cmd.name.CmdUnknown? && cmd.name !in {CmdAbandon, CmdStartNew}
    ensures FollowsScript(d, s, c, cmd, ReduceKnown(d, c, cmd))
  {
    hide Ready, Shape, FollowsScript;
    match cmd.name
    case CmdServiceStart => StartFollows(d, s, c, cmd);
    case CmdPrepareRice => RiceFollows(d, s, c, cmd);
    case CmdAcceptOrder => AcceptOrderFollows(d, s, c, cmd);
    case CmdPerformStep => PerformFollows(d, s, c, cmd);
    case CmdChoosePresentation => PresentFollows(d, s, c, cmd);
    case CmdPlateOrder => PlateFollows(d, s, c, cmd);
    case CmdServeOrder => ServeFollows(d, s, c, cmd);
    case CmdCloseLedger => CloseFollows(d, s, c, cmd);
    case CmdChooseRestoration => RestoreFollows(d, s, c, cmd);
  }

  lemma SteadyStage(d: Definition, c: Checkpoint)
    requires Authored(d) && Steady(d, c)
    ensures |d.orders| == |c.orders| > 0
    ensures InScript(d, StageOf(d, c)) && InScript(d, Successor(d, StageOf(d, c)))
    ensures c.phase == PhaseAt(StageOf(d, c))
    ensures c.phase == ABANDONED <==> StageOf(d, c) == Stopped
    ensures c.phase == SETTLED <==> StageOf(d, c) == Done
    ensures c.phase != ABANDONED ==> StandsAt(d, StageOf(d, c), c) && Bookkeeping(d, StageOf(d, c), c)
  {
    if c.phase != ABANDONED { SteadyStandsAtStage(d, c); }
    SuccessorInScript(d, StageOf(d, c));
  }

  /** A start-new that would push the generation past the safe integers. */
  predicate GenerationSpent(c: Checkpoint, cmd: Command) {
    cmd.name == CmdStartNew && c.phase == ABANDONED && c.generation == MAX_SAFE
  }

  /** Off the abandoned branch, the whole reducer follows the script. */
  lemma RunningFollows(d: Definition, s: Stage, c: Checkpoint, cmd: Command)
    requires Authored(d) && Steady(d, c) && Addresses(d, c, cmd) && WellFormed(cmd) && c.phase !in {SETTLED, ABANDONED}
    requires InScript(d, s) && InScript(d, Successor(d, s)) && s == StageOf(d, c) && cmd.name != CmdAbandon
    ensures FollowsScript(d, s, c, cmd, Reduce(d, c, cmd))
  {
    SteadyStage(d, c);
    if cmd.name == CmdStartNew {
      if Offers(d, s, cmd) { OffersWellFormed(d, s, cmd); }
      NotOffered(d, s, c, cmd, "cue.start-new.invalid");
    } else {
      SwitchFollows(d, s, c, cmd);
    }
    hide Shape, Invariants, StandsAt, Bookkeeping, StageOf, Authored, FollowsScript, ReduceKnown;
    if cmd.name == CmdStartNew { assert ReduceKnown(d, c, cmd) == Correction(c, "cue.start-new.invalid") by { StartNewWhileRunning(d, c, cmd); } }
  }

  lemma StartNewWhileRunning(d: Definition, c: Checkpoint, cmd: Command)
    requires |d.orders| > 0 && Shape(d, c) && cmd.name == CmdStartNew && c.phase != ABANDONED
    ensures ReduceKnown(d, c, cmd) == Correction(c, "cue.start-new.invalid")
  {
    hide Shape, Accept;
  }

  /** Once finished or abandoned, everything but a new shift is corrected. */
  lemma FinishedFollows(d: Definition, s: Stage, c: Checkpoint, cmd: Command)
    requires Authored(d) && Steady(d, c) && Addresses(d, c, cmd) && c.phase in {SETTLED, ABANDONED}
    requires InScript(d, s) && InScript(d, Successor(d, s)) && s == StageOf(d, c)
    requires cmd.name == CmdStartNew ==> c.phase == SETTLED || (c.generation < MAX_SAFE && WellFormed(cmd))
    ensures FollowsScript(d, s, c, cmd, Reduce(d, c, cmd))
  {
    SteadyStage(d, c);
    if Offers(d, s, cmd) { OffersWellFormed(d, s, cmd); }
    if c.phase == ABANDONED && cmd.name == CmdStartNew {
      NewShiftFollows(d, c, cmd);
    } else {
      NotOffered(d, s, c, cmd, "cue.service.complete");
    }
    hide Shape, Invariants, StandsAt, Bookkeeping, StageOf, Authored, FollowsScript, NewShift;
  }

  /**
   * The reducer takes a command other than abandon exactly when the projection offers it; then every
   * field of the next checkpoint is the script's, and otherwise any answer leaves the checkpoint alone.
   */
  lemma AcceptsExactlyWhatIsOffered(d: Definition, c: Checkpoint, cmd: Command)
    requires Authored(d) && Steady(d, c) && Addresses(d, c, cmd)
    requires cmd.name != CmdAbandon && !GenerationSpent(c, cmd)
    ensures InScript(d, StageOf(d, c)) && InScript(d, Successor(d, StageOf(d, c)))
    ensures Reduce(d, c, cmd).Success? && Reduce(d, c, cmd).value.accepted <==> Offers(d, StageOf(d, c), cmd)
    ensures Reduce(d, c, cmd).Success? ==> FollowsScript(d, StageOf(d, c), c, cmd, Reduce(d, c, cmd))
  {
    SteadyStage(d, c);
    var s := StageOf(d, c);
    if Offers(d, s, cmd) { OffersWellFormed(d, s, cmd); }
    hide Shape, Invariants, StandsAt, Bookkeeping, StageOf, Authored, ReduceKnown;
    if c.phase in {SETTLED, ABANDONED} {
      if WellFormed(cmd) || cmd.name != CmdStartNew || c.phase == SETTLED { FinishedFollows(d, s, c, cmd); }
    } else if WellFormed(cmd) {
      RunningFollows(d, s, c, cmd);
    }
    hide Offers;
  }

  /** A reply that either leaves the checkpoint alone or moves it on by one revision, steady again. */
  ghost predicate Answers(d: Definition, c: Checkpoint, reply: Reply)
    requires |d.orders| > 0
  {
    reply.Success? ==>
      && (!reply.value.accepted ==> reply.value.checkpoint == c)
      && (reply.value.accepted ==> Steady(d, reply.value.checkpoint) && reply.value.checkpoint.revision == c.revision + 1)
  }

  lemma ScriptAnswers(d: Definition, s: Stage, c: Checkpoint, cmd: Command, reply: Reply)
    requires |d.orders| > 0 && InScript(d, s) && InScript(d, Successor(d, s)) && FollowsScript(d, s, c, cmd, reply)
    ensures reply.Success? && Answers(d, c, reply)
  {
  }

  lemma ServedWhenClosing(d: Definition, c: Checkpoint)
    requires Authored(d) && Steady(d, c) && c.phase == CLOSING
    ensures |c.orders| > 0 && c.orders[0].state == SERVED
  {
    SteadyStage(d, c);
    assert c.orders[0] == RowAt(d, Restore, 0);
  }

  lemma AbandonIsReduced(d: Definition, c: Checkpoint, cmd: Command)
    requires |d.orders| > 0 && Valid(d, c) && Addresses(d, c, cmd) && WellFormed(cmd)
    requires cmd.name == CmdAbandon && c.phase in {OPEN, CLOSING}
    ensures RowsFit(d.orders, c.orders) && Reduce(d, c, cmd) == AbandonService(d, c)
  {
  }

  lemma AbandonElsewhere(d: Definition, c: Checkpoint, cmd: Command)
    requires |d.orders| > 0 && Valid(d, c) && Addresses(d, c, cmd) && WellFormed(cmd)
    requires cmd.name == CmdAbandon && c.phase !in {OPEN, CLOSING}
    ensures Reduce(d, c, cmd).Success? && !Reduce(d, c, cmd).value.accepted && Reduce(d, c, cmd).value.checkpoint == c
  {
    hide Shape, Invariants, Accept, DiscardedRows;
  }

  lemma AbandonRefusal(d: Definition, c: Checkpoint, cmd: Command)
    requires Authored(d) && Steady(d, c) && Addresses(d, c, cmd) && WellFormed(cmd) && cmd.name == CmdAbandon
    ensures |c.orders| > 0
    ensures Reduce(d, c, cmd).Failure? <==> c.phase == OPEN && PresentationPending(c)
    ensures Answers(d, c, Reduce(d, c, cmd))
  {
    SteadyStage(d, c);
    hide Shape, Invariants, StandsAt, Bookkeeping, StageOf, Authored, Conserved, Accept, Reduce, AbandonService;
    if c.phase in {OPEN, CLOSING} {
      AbandonOutcome(d, c);
      AbandonIsReduced(d, c, cmd);
      if c.phase == CLOSING { ServedWhenClosing(d, c); }
    } else {
      AbandonElsewhere(d, c, cmd);
    }
  }

  lemma OtherRefusal(d: Definition, c: Checkpoint, cmd: Command)
    requires Authored(d) && Steady(d, c) && Addresses(d, c, cmd) && WellFormed(cmd) && cmd.name != CmdAbandon
    ensures Reduce(d, c, cmd).Failure? <==> GenerationSpent(c, cmd)
    ensures Answers(d, c, Reduce(d, c, cmd))
  {
    SteadyStage(d, c);
    var s := StageOf(d, c);
    if c.phase !in {SETTLED, ABANDONED} {
      RunningFollows(d, s, c, cmd);
      ScriptAnswers(d, s, c, cmd, Reduce(d, c, cmd));
    } else if !GenerationSpent(c, cmd) {
      FinishedFollows(d, s, c, cmd);
      ScriptAnswers(d, s, c, cmd, Reduce(d, c, cmd));
    }
    hide Shape, Invariants, StandsAt, Bookkeeping, StageOf, Authored, FollowsScript, Accept;
  }

  /** The only refusals of a well-formed command: abandoning while a presentation is pending, and a spent generation. */
  lemma OnlyRefusals(d: Definition, c: Checkpoint, cmd: Command)
    requires Authored(d) && Steady(d, c) && Addresses(d, c, cmd) && WellFormed(cmd)
    ensures |c.orders| > 0
    ensures Reduce(d, c, cmd).Failure? <==>
      (cmd.name == CmdAbandon && c.phase == OPEN && PresentationPending(c)) || GenerationSpent(c, cmd)
    ensures Answers(d, c, Reduce(d, c, cmd))
  {
    hide Shape, Invariants, Reduce, Answers;
    if cmd.name == CmdAbandon { AbandonRefusal(d, c, cmd); } else { OtherRefusal(d, c, cmd); SteadyStage(d, c); }
  }

  /** A command the projection of `c` offers. */
  function OfferedCommand(d: Definition, c: Checkpoint): Command
    requires Authored(d) && Steady(d, c) && c.phase != SETTLED && InScript(d, StageOf(d, c))
  {
    var s := StageOf(d, c);
    var name, choices := PrimaryCommand(s).value, AllowedChoices(d, s);
    Command(name, if choices == [] then map[] else ChoicePayload(name, choices[0], ActiveOrderId(d, s)), c.revision, d.contentVersion)
  }

  /** A service that is not settled is never stuck: the reducer takes the offered command and moves on. */
  lemma NeverStuck(d: Definition, c: Checkpoint)
    requires Authored(d) && Steady(d, c) && c.phase != SETTLED && c.revision < MAX_SAFE
    requires c.phase == ABANDONED ==> c.generation < MAX_SAFE
    ensures InScript(d, StageOf(d, c)) && InScript(d, Successor(d, StageOf(d, c)))
    ensures var reply := Reduce(d, c, OfferedCommand(d, c));
      reply.Success? && reply.value.accepted && FollowsScript(d, StageOf(d, c), c, OfferedCommand(d, c), reply)
  {
    SteadyStage(d, c);
    var cmd, s := OfferedCommand(d, c), StageOf(d, c);
    assert Offers(d, s, cmd) by {
      if AllowedChoices(d, s) != [] { assert OffersChoice(d, s, cmd, AllowedChoices(d, s)[0]); }
    }
    hide Shape, Invariants, StandsAt, Bookkeeping, Offers, FollowsScript, StageOf, Reduce;
    AcceptsExactlyWhatIsOffered(d, c, cmd);
  }

  /** A served first order without a presentation is no valid open checkpoint. */
  lemma ServedUnpresented(d: Definition, c: Checkpoint)
    requires |d.orders| > 0 && Shape(d, c) && c.phase == OPEN && c.activeOrderIndex > 0 && c.presentationChoice.None?
    ensures !Invariants(d, c)
  {
    hide Shape, Conserved, RowInvariant, ServedCount;
  }

  /** The decoder's invariants alone are not enough: exactly the valid checkpoints that are not steady refuse the first serve. */
  lemma UnsteadyRefusesServe(d: Definition, c: Checkpoint, cmd: Command)
    requires Authored(d) && Valid(d, c) && Addresses(d, c, cmd)
    requires cmd.name == CmdServeOrder && cmd.payload == map[KeyOrderId := Text(d.orders[0].id)]
    ensures Reduce(d, c, cmd).Failure? <==> !Steady(d, c)
  {
    if Steady(d, c) {
      SteadyStage(d, c);
      OnlyRefusals(d, c, cmd);
    } else {
      assert RowInvariant(d, c, 0);
      assert c.phase == OPEN && c.activeOrderIndex == 0;
      var next := c.(orders := c.orders[0 := c.orders[0].(state := SERVED, serveFeedbackRef := Some(d.orders[0].serveFeedbackRef))],
                     activeOrderIndex := 1, revision := c.revision + 1,
                     storyFlags := if d.orders[0].storyFlagId in c.storyFlags then c.storyFlags else c.storyFlags + [d.orders[0].storyFlagId]);
      var stored := next.(components := Conserved(d, next.orders));
      if Shape(d, stored) { ServedUnpresented(d, stored); }
      hide Shape, Invariants, Conserved, RowInvariant;
      assert ReduceKnown(d, c, cmd) == ServeOrder(d, c, cmd.payload);
    }
  }

  /** Such a checkpoint exists: the first order plated, no presentation chosen. */
  lemma UnsteadyExists(d: Definition)
    requires Authored(d)
    ensures exists c :: Valid(d, c) && !Steady(d, c)
  {
    var rows := RowsAt(d, Serve(0));
    var stuck := Checkpoint(1, 0, OPEN, |d.riceBeats|, None, None, 0, rows, Conserved(d, rows), [], []);
    forall i | 0 <= i < |d.orders| ensures rows[i] == RowAt(d, Serve(0), i) && RowInvariant(d, stuck, i) {}
    ServedPrefix(rows, 0);
    LedgerIsNonNegative(d, rows);
    hide RowInvariant, Conserved, RowsFit, ServedCount, RowsAt;
    assert Valid(d, stuck);
  }
}
