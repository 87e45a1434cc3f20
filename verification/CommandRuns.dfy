/** Exactly once, over every run of attempts with duplicates, retries and refusals, for every handler. */
module CommandRuns {
  import opened Basics
  import opened JsonValue
  import opened CommandExecutor

  /** One delivery of a command: what the credential checks said and the database time. */
  datatype Attempt = Attempt(command: Command, entry: Gate, before: Gate, now: int)

  ghost function Try(t: Tables, h: Handler, a: Attempt): Result<(Tables, Reply), Fault> {
    Execute(t, h, a.command, a.entry, a.before, a.now)
  }

  ghost function After(t: Tables, h: Handler, a: Attempt): Tables {
    match Try(t, h, a)
    case Success(done) => done.0
    case Failure(_) => t
  }

  ghost function Play(t: Tables, h: Handler, run: seq<Attempt>): Tables {
    if run == [] then t else After(Play(t, h, run[..|run| - 1]), h, run[|run| - 1])
  }

  /** What attempt `i` of the run was answered. */
  ghost function Answer(t: Tables, h: Handler, run: seq<Attempt>, i: nat): Result<Reply, Fault>
    requires i < |run|
  {
    match Try(Play(t, h, run[..i]), h, run[i])
    case Success(done) => Success(done.1)
    case Failure(fault) => Failure(fault)
  }

  ghost predicate CommitsNow(t: Tables, h: Handler, a: Attempt) {
    Try(t, h, a).Success? && !Try(t, h, a).value.1.replayed
  }

  /** One entry per first commit, in commit order: the command, the decision of its handler call, the time. */
  datatype Entry = Entry(command: Command, decision: Decision, at: int)

  ghost function DecisionFor(t: Tables, h: Handler, c: Command): Option<Decision> {
    if c.guest in t.progress then h(t.progress[c.guest].checkpoint, c) else None
  }

  ghost function Log(t: Tables, h: Handler, run: seq<Attempt>): seq<Entry> {
    if run == [] then []
    else
      var before, a := Play(t, h, run[..|run| - 1]), run[|run| - 1];
      var log := Log(t, h, run[..|run| - 1]);
      if CommitsNow(before, h, a) && DecisionFor(before, h, a.command).Some?
      then log + [Entry(a.command, DecisionFor(before, h, a.command).value, a.now)]
      else log
  }

  /** The tables after writing each entry once. */
  ghost function Written(t: Tables, log: seq<Entry>): Tables {
    if log == [] then t
    else
      var e := log[|log| - 1];
      Committed(Written(t, log[..|log| - 1]), e.command, e.decision, e.at)
  }

  /** The entry is one handler call on the checkpoint at hand, at the expected revision, for a key not used before. */
  ghost predicate Due(t: Tables, h: Handler, e: Entry) {
    && e.command.guest in t.progress && t.progress[e.command.guest].revision == e.command.expectedRevision
    && h(t.progress[e.command.guest].checkpoint, e.command) == Some(e.decision)
    && SlotOf(e.command) !in t.receipts && e.decision.event.id !in t.events && e.decision.event.id !in t.outbox
  }

  lemma CommitIsDue(t: Tables, h: Handler, a: Attempt)
    ensures CommitsNow(t, h, a) ==>
      DecisionFor(t, h, a.command).Some?
      && var e := Entry(a.command, DecisionFor(t, h, a.command).value, a.now);
        Due(t, h, e) && After(t, h, a) == Committed(t, e.command, e.decision, e.at)
    ensures !CommitsNow(t, h, a) ==> After(t, h, a) == t
  {
    hide Committed;
  }

  /**
   * Exactly once: whatever was delivered however often, the tables are those left by one handler call per log
   * entry, each made on the checkpoint its predecessors left and for a key no predecessor used.
   */
  lemma {:induction false} ExactlyOnce(t: Tables, h: Handler, run: seq<Attempt>)
    ensures Play(t, h, run) == Written(t, Log(t, h, run))
    ensures forall k :: 0 <= k < |Log(t, h, run)| ==> Due(Written(t, Log(t, h, run)[..k]), h, Log(t, h, run)[k])
  {
    if run != [] {
      var init, a := run[..|run| - 1], run[|run| - 1];
      ExactlyOnce(t, h, init);
      CommitIsDue(Play(t, h, init), h, a);
      var log, all := Log(t, h, init), Log(t, h, run);
      hide Due, Committed, CommitsNow, After;
      if |all| > |log| { assert all[..|all| - 1] == log; }
      forall k | 0 <= k < |all| ensures Due(Written(t, all[..k]), h, all[k]) {
        assert all[..k] == log[..k];
      }
    }
  }

  // ---------------------------------------------------------------- the log and the tables correspond one to one

  ghost predicate AllDue(t: Tables, h: Handler, log: seq<Entry>) {
    forall k :: 0 <= k < |log| ==> Due(Written(t, log[..k]), h, log[k])
  }

  function EventIds(log: seq<Entry>): set<EventId> {
    if log == [] then {} else EventIds(log[..|log| - 1]) + {log[|log| - 1].decision.event.id}
  }

  function Slots(log: seq<Entry>): set<Slot> {
    if log == [] then {} else Slots(log[..|log| - 1]) + {SlotOf(log[|log| - 1].command)}
  }

  /** How many entries are this guest's. */
  function CountOf(log: seq<Entry>, guest: GuestId): nat {
    if log == [] then 0 else CountOf(log[..|log| - 1], guest) + if log[|log| - 1].command.guest == guest then 1 else 0
  }

  lemma AllDuePrefix(t: Tables, h: Handler, log: seq<Entry>)
    requires AllDue(t, h, log) && log != []
    ensures AllDue(t, h, log[..|log| - 1]) && Due(Written(t, log[..|log| - 1]), h, log[|log| - 1])
  {
    var init := log[..|log| - 1];
    forall k | 0 <= k < |init| ensures Due(Written(t, init[..k]), h, init[k]) { assert init[..k] == log[..k]; }
    hide Due, Written;
  }

  lemma EntryKeys(w: Tables, h: Handler, e: Entry)
    requires Due(w, h, e)
    ensures var next := Committed(w, e.command, e.decision, e.at);
      && next.receipts.Keys == w.receipts.Keys + {SlotOf(e.command)} && SlotOf(e.command) !in w.receipts.Keys
      && next.events.Keys == w.events.Keys + {e.decision.event.id} && e.decision.event.id !in w.events.Keys
      && next.outbox.Keys == w.outbox.Keys + {e.decision.event.id} && e.decision.event.id !in w.outbox.Keys
      && next.progress.Keys == w.progress.Keys
  {
  }

  lemma AddOne<T>(a: set<T>, b: set<T>, c: set<T>, x: T)
    requires c == a + b && b !! a && x !in c
    ensures c + {x} == a + (b + {x}) && b + {x} !! a && |b + {x}| == |b| + 1
  {
  }

  /** Exactly the logged keys gain receipts, one each. */
  lemma {:induction false} LoggedReceipts(t: Tables, h: Handler, log: seq<Entry>)
    requires AllDue(t, h, log)
    ensures Written(t, log).receipts.Keys == t.receipts.Keys + Slots(log) && Slots(log) !! t.receipts.Keys
    ensures |Slots(log)| == |log|
  {
    if log != [] {
      var init, e := log[..|log| - 1], log[|log| - 1];
      AllDuePrefix(t, h, log);
      LoggedReceipts(t, h, init);
      EntryKeys(Written(t, init), h, e);
      assert Written(t, log) == Committed(Written(t, init), e.command, e.decision, e.at) && Slots(log) == Slots(init) + {SlotOf(e.command)};
      AddOne(t.receipts.Keys, Slots(init), Written(t, init).receipts.Keys, SlotOf(e.command));
      hide AllDue, Due, SlotOf, Committed, Written, Slots;
    }
  }

  /** Exactly the logged event identifiers gain events, one each. */
  lemma {:induction false} LoggedEvents(t: Tables, h: Handler, log: seq<Entry>)
    requires AllDue(t, h, log)
    ensures Written(t, log).events.Keys == t.events.Keys + EventIds(log) && EventIds(log) !! t.events.Keys
    ensures |EventIds(log)| == |log|
  {
    if log != [] {
      var init, e := log[..|log| - 1], log[|log| - 1];
      AllDuePrefix(t, h, log);
      LoggedEvents(t, h, init);
      EntryKeys(Written(t, init), h, e);
      assert Written(t, log) == Committed(Written(t, init), e.command, e.decision, e.at) && EventIds(log) == EventIds(init) + {e.decision.event.id};
      AddOne(t.events.Keys, EventIds(init), Written(t, init).events.Keys, e.decision.event.id);
      hide AllDue, Due, SlotOf, Committed, Written, EventIds;
    }
  }

  /** And the same identifiers gain an outbox row. */
  lemma {:induction false} LoggedOutbox(t: Tables, h: Handler, log: seq<Entry>)
    requires AllDue(t, h, log)
    ensures Written(t, log).outbox.Keys == t.outbox.Keys + EventIds(log) && EventIds(log) !! t.outbox.Keys
  {
    if log != [] {
      var init, e := log[..|log| - 1], log[|log| - 1];
      AllDuePrefix(t, h, log);
      LoggedOutbox(t, h, init);
      EntryKeys(Written(t, init), h, e);
      assert Written(t, log) == Committed(Written(t, init), e.command, e.decision, e.at) && EventIds(log) == EventIds(init) + {e.decision.event.id};
      AddOne(t.outbox.Keys, EventIds(init), Written(t, init).outbox.Keys, e.decision.event.id);
      hide AllDue, Due, SlotOf, Committed, Written, EventIds;
    }
  }

  /** Receipts, events, outbox rows and revision growth stay equal in number. */
  lemma {:induction false} CountsAgree(t: Tables, h: Handler, run: seq<Attempt>)
    ensures var w, log := Play(t, h, run), Log(t, h, run);
      && |w.receipts| == |t.receipts| + |log|
      && |w.events| == |t.events| + |log|
      && |w.outbox| == |t.outbox| + |log|
  {
    ExactlyOnce(t, h, run);
    LoggedReceipts(t, h, Log(t, h, run));
    LoggedEvents(t, h, Log(t, h, run));
    LoggedOutbox(t, h, Log(t, h, run));
    hide Play, Log, Written, Due, Slots, EventIds;
  }

  /** A guest's revision grows by one for each of its log entries, and by nothing else. */
  lemma {:induction false} RevisionCounts(t: Tables, h: Handler, log: seq<Entry>, guest: GuestId)
    requires AllDue(t, h, log) && guest in t.progress
    ensures guest in Written(t, log).progress && Written(t, log).progress[guest].revision == t.progress[guest].revision + CountOf(log, guest)
  {
    if log != [] {
      AllDuePrefix(t, h, log);
      RevisionCounts(t, h, log[..|log| - 1], guest);
      hide AllDue;
    }
  }

  // ---------------------------------------------------------------- what was written stays, and replays return it

  /** The three rows an entry wrote are still what it wrote. */
  ghost predicate Stands(w: Tables, e: Entry) {
    && SlotOf(e.command) in w.receipts && e.decision.event.id in w.events && e.decision.event.id in w.outbox
    && w.receipts[SlotOf(e.command)] == Receipt(
      e.command.name, e.command.expectedRevision, e.command.content, e.command.payload, e.decision.responseSchema, e.decision.response,
      ResultHash(e.decision.responseSchema, e.decision.response), e.command.expectedRevision + 1, e.at + RECEIPT_LIFETIME_MS)
    && w.events[e.decision.event.id] == EventRow(e.command.guest, e.decision.event, e.command.expectedRevision + 1, e.at)
    && w.outbox[e.decision.event.id] == e.at
  }

  lemma StandsOn(t: Tables, h: Handler, e: Entry, later: Entry)
    requires Stands(t, e) && Due(t, h, later)
    ensures Stands(Committed(t, later.command, later.decision, later.at), e)
  {
  }

  lemma JustStands(t: Tables, e: Entry)
    ensures Stands(Committed(t, e.command, e.decision, e.at), e)
  {
  }

  /** Every log entry's receipt, event and outbox row are in the final tables, as written. */
  lemma {:induction false} EntryStands(t: Tables, h: Handler, log: seq<Entry>, k: nat)
    requires AllDue(t, h, log) && k < |log|
    ensures Stands(Written(t, log), log[k])
  {
    var init, e := log[..|log| - 1], log[|log| - 1];
    AllDuePrefix(t, h, log);
    if k == |log| - 1 {
      JustStands(Written(t, init), e);
    } else {
      EntryStands(t, h, init, k);
      StandsOn(Written(t, init), h, init[k], e);
    }
    hide Stands, Due, AllDue, Committed;
  }

  /** A receipt present at some point of a run is present, unchanged, at the end. */
  lemma {:induction false} ReceiptsLast(t: Tables, h: Handler, run: seq<Attempt>, slot: Slot)
    requires slot in t.receipts
    ensures slot in Play(t, h, run).receipts && Play(t, h, run).receipts[slot] == t.receipts[slot]
  {
    if run != [] {
      ReceiptsLast(t, h, run[..|run| - 1], slot);
      CommitIsDue(Play(t, h, run[..|run| - 1]), h, run[|run| - 1]);
      hide After, CommitsNow;
    }
  }

  lemma {:induction false} PlaySplits(t: Tables, h: Handler, run: seq<Attempt>, i: nat)
    requires i <= |run|
    ensures Play(t, h, run) == Play(Play(t, h, run[..i]), h, run[i..])
    decreases |run|
  {
    if i == |run| {
      assert run[..i] == run;
    } else {
      var init := run[..|run| - 1];
      PlaySplits(t, h, init, i);
      assert init[..i] == run[..i] && run[i..][..|run[i..]| - 1] == init[i..];
      hide After;
    }
  }

  /** After a commit, the receipt it left is there for every later attempt of the run. */
  lemma CommitLeavesReceipt(t: Tables, h: Handler, run: seq<Attempt>, i: nat, j: nat)
    requires i < j < |run| && CommitsNow(Play(t, h, run[..i]), h, run[i])
    ensures var w, slot := Play(t, h, run[..j]), SlotOf(run[i].command);
      && slot in w.receipts && Answer(t, h, run, i) == Success(ReplyOf(w.receipts[slot], false))
      && SameRequest(w.receipts[slot], run[i].command)
      && w.receipts[slot].expires == run[i].now + RECEIPT_LIFETIME_MS
      && w.receipts[slot].resultHash == ResultHash(w.receipts[slot].responseSchema, w.receipts[slot].response)
  {
    var before := Play(t, h, run[..i]);
    CommitIsDue(before, h, run[i]);
    assert run[..i + 1][..i] == run[..i];
    assert Play(t, h, run[..i + 1]) == After(before, h, run[i]);
    PlaySplits(t, h, run[..j], i + 1);
    assert run[..j][..i + 1] == run[..i + 1];
    ReceiptsLast(Play(t, h, run[..i + 1]), h, run[..j][i + 1..], SlotOf(run[i].command));
    hide Play, After, Due;
  }

  /** A key commits at most once in a run, and a later answer for it repeats the first one. */
  lemma RepliesAgree(t: Tables, h: Handler, run: seq<Attempt>, i: nat, j: nat)
    requires i < j < |run| && SlotOf(run[i].command) == SlotOf(run[j].command)
    requires CommitsNow(Play(t, h, run[..i]), h, run[i])
    ensures !CommitsNow(Play(t, h, run[..j]), h, run[j])
    ensures Answer(t, h, run, j).Success? ==> Answer(t, h, run, j).value == Answer(t, h, run, i).value.(replayed := true)
  {
    CommitLeavesReceipt(t, h, run, i, j);
    hide Play;
  }

  /** Repeating a committed command while its receipt lasts is answered; reusing its key for anything else is not. */
  lemma RetryIsAnswered(t: Tables, h: Handler, run: seq<Attempt>, i: nat, j: nat)
    requires i < j < |run| && SlotOf(run[i].command) == SlotOf(run[j].command)
    requires CommitsNow(Play(t, h, run[..i]), h, run[i]) && run[j].entry.Open?
    ensures Answer(t, h, run, j) ==
      if run[j].command != run[i].command then Failure(PayloadMismatch)
      else if run[i].now + RECEIPT_LIFETIME_MS <= run[j].now then Failure(ReceiptExpired)
      else Success(Answer(t, h, run, i).value.(replayed := true))
  {
    CommitLeavesReceipt(t, h, run, i, j);
    hide Play;
  }

  // ---------------------------------------------------------------- constraints that never fire

  /** Events lie within their guest's revisions and every outbox row has its event. */
  ghost predicate Ledgered(t: Tables) {
    && (forall e :: e in t.events ==> t.events[e].guest in t.progress && t.events[e].committedRevision <= t.progress[t.events[e].guest].revision)
    && t.outbox.Keys <= t.events.Keys
  }

  lemma {:induction false} PlayIsLedgered(t: Tables, h: Handler, run: seq<Attempt>)
    requires Ledgered(t)
    ensures Ledgered(Play(t, h, run))
  {
    if run != [] {
      PlayIsLedgered(t, h, run[..|run| - 1]);
      CommitIsDue(Play(t, h, run[..|run| - 1]), h, run[|run| - 1]);
      hide After, CommitsNow;
    }
  }

  /** So an insert can only be refused for an event identifier already used, or at the largest safe revision. */
  lemma OnlyIdsCollide(t: Tables, h: Handler, a: Attempt)
    requires Ledgered(t) && Try(t, h, a) == Failure(ConstraintViolated)
    ensures DecisionFor(t, h, a.command).Some?
    ensures DecisionFor(t, h, a.command).value.event.id in t.events || a.command.expectedRevision >= MAX_SAFE
  {
  }
}
