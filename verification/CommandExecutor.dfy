/**
 * Idempotent command execution: one transaction over progress, events, outbox and receipts.  The handler is any
 * deterministic function of the checkpoint and the command; hashes of payloads and responses are injective, so a
 * receipt holds what it hashed.
 */
module CommandExecutor {
  import opened Basics
  import opened JsonValue

  type GuestId = nat
  type IdempotencyKey = nat
  type EventId = nat
  type Label = nat

  datatype Command = Command(guest: GuestId, key: IdempotencyKey, name: Label, expectedRevision: nat, content: Label, payload: Json)

  datatype Event = Event(id: EventId, kind: Label, schema: nat, payload: Json)

  datatype Decision = Decision(schema: nat, checkpoint: Json, event: Event, responseSchema: nat, response: Json)

  /** `None` stands for a handler, or a canonical check of its decision, that throws. */
  type Handler = (Json, Command) -> Option<Decision>

  datatype Progress = Progress(revision: nat, content: Label, schema: nat, checkpoint: Json)

  datatype ResultHash = ResultHash(schema: nat, response: Json)

  datatype Receipt = Receipt(
    name: Label, expectedRevision: nat, content: Label, payload: Json,
    responseSchema: nat, response: Json, resultHash: ResultHash, committedRevision: nat, expires: int)

  datatype EventRow = EventRow(guest: GuestId, event: Event, committedRevision: nat, at: int)

  datatype Slot = Slot(guest: GuestId, key: IdempotencyKey)

  datatype Tables = Tables(
    progress: map<GuestId, Progress>, events: map<EventId, EventRow>, outbox: map<EventId, int>, receipts: map<Slot, Receipt>)

  const RECEIPT_LIFETIME_MS: int := 30 * 86400000

  /** The outcome of the credential checks, made on entry and again before the first write. */
  datatype Gate = Open | Unauthenticated | RotationRequired

  datatype Fault =
    | NotAuthenticated | RotateFirst | PayloadMismatch | ReceiptExpired | IntegrityFailure
    | ProgressMissing | RevisionConflict | HandlerFailed | ConstraintViolated

  datatype Reply = Reply(replayed: bool, responseSchema: nat, response: Json, resultHash: ResultHash, committedRevision: nat)

  function SlotOf(c: Command): Slot { Slot(c.guest, c.key) }

  predicate SameRequest(r: Receipt, c: Command) {
    r.name == c.name && r.expectedRevision == c.expectedRevision && r.content == c.content && r.payload == c.payload
  }

  /** The insert into the event table respects its primary key, its per-guest revision key and the safe-integer check. */
  ghost predicate EventFits(t: Tables, guest: GuestId, id: EventId, committed: nat) {
    && id !in t.events && committed <= MAX_SAFE
    && forall e :: e in t.events ==> !(t.events[e].guest == guest && t.events[e].committedRevision == committed)
  }

  /** One handler call's worth of writes. */
  function Committed(t: Tables, c: Command, d: Decision, at: int): Tables {
    Tables(
      t.progress[c.guest := Progress(c.expectedRevision + 1, c.content, d.schema, d.checkpoint)],
      t.events[d.event.id := EventRow(c.guest, d.event, c.expectedRevision + 1, at)],
      t.outbox[d.event.id := at],
      t.receipts[SlotOf(c) := Receipt(
        c.name, c.expectedRevision, c.content, c.payload, d.responseSchema, d.response,
        ResultHash(d.responseSchema, d.response), c.expectedRevision + 1, at + RECEIPT_LIFETIME_MS)])
  }

  function ReplyOf(r: Receipt, replayed: bool): Reply {
    Reply(replayed, r.responseSchema, r.response, r.resultHash, r.committedRevision)
  }

  function GateFault(g: Gate): Fault {
    if g == RotationRequired then RotateFirst else NotAuthenticated
  }

  /** The whole transaction; a fault rolls every table back. */
  ghost function Execute(t: Tables, h: Handler, c: Command, entry: Gate, before: Gate, now: int): Result<(Tables, Reply), Fault> {
    if !entry.Open? then Failure(GateFault(entry))
    else if SlotOf(c) in t.receipts then
      var r := t.receipts[SlotOf(c)];
      if !SameRequest(r, c) then Failure(PayloadMismatch)
      else if r.expires <= now then Failure(ReceiptExpired)
      else if ResultHash(r.responseSchema, r.response) != r.resultHash then Failure(IntegrityFailure)
      else Success((t, ReplyOf(r, true)))
    else if c.guest !in t.progress then Failure(ProgressMissing)
    else if t.progress[c.guest].revision != c.expectedRevision then Failure(RevisionConflict)
    else
      match h(t.progress[c.guest].checkpoint, c)
      case None => Failure(HandlerFailed)
      case Some(d) =>
        if !before.Open? then Failure(GateFault(before))
        else if !EventFits(t, c.guest, d.event.id, c.expectedRevision + 1) || d.event.id in t.outbox then Failure(ConstraintViolated)
        else
          var next := Committed(t, c, d, now);
          Success((next, ReplyOf(next.receipts[SlotOf(c)], false)))
  }

  /** The tables of one database; every call is one serialised transaction. */
  class GuestCommandExecutor {
    var progress: map<GuestId, Progress>
    var events: map<EventId, EventRow>
    var outbox: map<EventId, int>
    var receipts: map<Slot, Receipt>
    var seen: map<GuestId, int>

    ghost function View(): Tables
      reads this
    {
      Tables(progress, events, outbox, receipts)
    }

    constructor ()
      ensures View() == Tables(map[], map[], map[], map[])
    {
      progress, events, outbox, receipts, seen := map[], map[], map[], map[], map[];
    }

    method InsertEvent(guest: GuestId, event: Event, committed: nat, at: int) returns (ok: bool)
      modifies `events, `outbox
      ensures ok <==> old(EventFits(View(), guest, event.id, committed) && event.id !in View().outbox)
      ensures ok ==> events == old(events)[event.id := EventRow(guest, event, committed, at)] && outbox == old(outbox)[event.id := at]
      ensures !ok ==> events == old(events) && outbox == old(outbox)
    {
      if event.id in events || event.id in outbox || committed > MAX_SAFE { return false; }
      if e :| e in events && events[e].guest == guest && events[e].committedRevision == committed { return false; }
      events := events[event.id := EventRow(guest, event, committed, at)];
      outbox := outbox[event.id := at];
      return true;
    }

    /** Receipt first, then revision, handler, credentials again, and the four writes in order. */
    method Run(h: Handler, c: Command, entry: Gate, before: Gate, now: int) returns (r: Result<Reply, Fault>)
      modifies this
      ensures match Execute(old(View()), h, c, entry, before, now)
        case Success(done) => r == Success(done.1) && View() == done.0
        case Failure(fault) => r == Failure(fault) && View() == old(View()) && seen == old(seen)
      ensures r.Success? ==> seen == old(seen)[c.guest := now]
    {
      if !entry.Open? { return Failure(GateFault(entry)); }
      var slot := Slot(c.guest, c.key);
      if slot in receipts {
        var stored := receipts[slot];
        if !SameRequest(stored, c) { return Failure(PayloadMismatch); }
        if stored.expires <= now { return Failure(ReceiptExpired); }
        if ResultHash(stored.responseSchema, stored.response) != stored.resultHash { return Failure(IntegrityFailure); }
        seen := seen[c.guest := now];
        return Success(ReplyOf(stored, true));
      }
      if c.guest !in progress { return Failure(ProgressMissing); }
      if progress[c.guest].revision != c.expectedRevision { return Failure(RevisionConflict); }
      var decided := h(progress[c.guest].checkpoint, c);
      if decided.None? { return Failure(HandlerFailed); }
      var d := decided.value;
      if !before.Open? { return Failure(GateFault(before)); }
      var saved := progress;
      progress := progress[c.guest := Progress(c.expectedRevision + 1, c.content, d.schema, d.checkpoint)];
      var inserted := InsertEvent(c.guest, d.event, c.expectedRevision + 1, now);
      if !inserted {
        progress := saved;
        return Failure(ConstraintViolated);
      }
      receipts := receipts[slot := Receipt(
        c.name, c.expectedRevision, c.content, c.payload, d.responseSchema, d.response,
        ResultHash(d.responseSchema, d.response), c.expectedRevision + 1, now + RECEIPT_LIFETIME_MS)];
      seen := seen[c.guest := now];
      return Success(ReplyOf(receipts[slot], false));
    }
  }
}
