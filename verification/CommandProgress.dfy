/** What commands leave behind, row by row, and how a guest's checkpoints follow each other over every run. */
module CommandProgress {
  import opened Basics
  import opened JsonValue
  import opened CommandExecutor
  import opened CommandRuns

  const THIRTY_DAYS_MS: int := 2592000000

  // ---------------------------------------------------------------- one attempt

  /** Both credential checks pass, the key is new, the revision is the stored one and both new rows are new. */
  ghost predicate MayCommit(t: Tables, h: Handler, a: Attempt) {
    var c := a.command;
    && a.entry == Open && a.before == Open
    && Slot(c.guest, c.key) !in t.receipts
    && c.guest in t.progress && t.progress[c.guest].revision == c.expectedRevision
    && h(t.progress[c.guest].checkpoint, c).Some?
    && var id := h(t.progress[c.guest].checkpoint, c).value.event.id;
      id !in t.events && id !in t.outbox && c.expectedRevision + 1 <= 9007199254740991
      && forall e :: e in t.events && t.events[e].guest == c.guest ==> t.events[e].committedRevision != c.expectedRevision + 1
  }

  /** An attempt commits exactly then; the guards are those a caller could check beforehand. */
  lemma CommitsExactlyWhen(t: Tables, h: Handler, a: Attempt)
    ensures CommitsNow(t, h, a) <==> MayCommit(t, h, a)
  {
  }

  /** The one decision of the commit goes into the four tables, each field in its place; all other rows stay. */
  lemma CommitWrites(t: Tables, h: Handler, a: Attempt)
    requires CommitsNow(t, h, a)
    ensures a.command.guest in t.progress && h(t.progress[a.command.guest].checkpoint, a.command).Some?
    ensures var c, d, w := a.command, h(t.progress[a.command.guest].checkpoint, a.command).value, After(t, h, a);
      && w.progress == t.progress[c.guest := Progress(c.expectedRevision + 1, c.content, d.schema, d.checkpoint)]
      && w.events == t.events[d.event.id := EventRow(c.guest, d.event, c.expectedRevision + 1, a.now)]
      && w.outbox == t.outbox[d.event.id := a.now]
      && w.receipts == t.receipts[Slot(c.guest, c.key) := Receipt(
        c.name, c.expectedRevision, c.content, c.payload, d.responseSchema, d.response,
        ResultHash(d.responseSchema, d.response), c.expectedRevision + 1, a.now + THIRTY_DAYS_MS)]
      && Try(t, h, a).value.1 == Reply(false, d.responseSchema, d.response, ResultHash(d.responseSchema, d.response), c.expectedRevision + 1)
  {
  }

  /** Whatever is answered again was asked before with the same contents, is unexpired, and still has its hash. */
  lemma ReplayIsSound(t: Tables, h: Handler, a: Attempt)
    requires Try(t, h, a).Success? && Try(t, h, a).value.1.replayed
    ensures a.entry == Open && Slot(a.command.guest, a.command.key) in t.receipts && After(t, h, a) == t
    ensures var c, r := a.command, t.receipts[Slot(a.command.guest, a.command.key)];
      && r.name == c.name && r.expectedRevision == c.expectedRevision && r.content == c.content && r.payload == c.payload
      && a.now < r.expires && r.resultHash == ResultHash(r.responseSchema, r.response)
      && Try(t, h, a).value.1 == Reply(true, r.responseSchema, r.response, r.resultHash, r.committedRevision)
  {
  }

  // ---------------------------------------------------------------- over a run

  /** No entry of the guest lies in `log[from..to]`. */
  ghost predicate NoneOf(log: seq<Entry>, guest: GuestId, from: nat, to: nat)
    requires to <= |log|
  {
    forall m :: from <= m < to ==> log[m].command.guest != guest
  }

  /** The decision of entry `k` is the one stored for its guest. */
  ghost predicate Stored(w: Tables, e: Entry) {
    && e.command.guest in w.progress
    && w.progress[e.command.guest] == Progress(e.command.expectedRevision + 1, e.command.content, e.decision.schema, e.decision.checkpoint)
  }

  lemma LastLogged(t: Tables, h: Handler, run: seq<Attempt>)
    requires run != []
    ensures var before, a, log := Play(t, h, run[..|run| - 1]), run[|run| - 1], Log(t, h, run[..|run| - 1]);
      if CommitsNow(before, h, a)
      then a.command.guest in before.progress && h(before.progress[a.command.guest].checkpoint, a.command).Some?
        && Log(t, h, run) == log + [Entry(a.command, h(before.progress[a.command.guest].checkpoint, a.command).value, a.now)]
      else Log(t, h, run) == log
  {
    var before, a := Play(t, h, run[..|run| - 1]), run[|run| - 1];
    if CommitsNow(before, h, a) { CommitWrites(before, h, a); }
    hide CommitsNow, Play;
  }

  lemma StepStores(t: Tables, h: Handler, a: Attempt, guest: GuestId)
    ensures CommitsNow(t, h, a) ==> a.command.guest in t.progress && h(t.progress[a.command.guest].checkpoint, a.command).Some?
    ensures CommitsNow(t, h, a) ==>
      Stored(After(t, h, a), Entry(a.command, h(t.progress[a.command.guest].checkpoint, a.command).value, a.now))
    ensures !CommitsNow(t, h, a) || guest != a.command.guest ==> SameProgress(t, After(t, h, a), guest)
  {
    if CommitsNow(t, h, a) { CommitWrites(t, h, a); }
  }

  ghost predicate SameProgress(t: Tables, w: Tables, guest: GuestId) {
    (guest in t.progress <==> guest in w.progress) && (guest in t.progress ==> w.progress[guest] == t.progress[guest])
  }

  /** The final progress of a guest is the decision of its last entry, and the initial one while it has none. */
  lemma {:induction false} LastDecisionIsStored(t: Tables, h: Handler, run: seq<Attempt>, guest: GuestId)
    ensures NoneOf(Log(t, h, run), guest, 0, |Log(t, h, run)|) ==> SameProgress(t, Play(t, h, run), guest)
    ensures forall k | 0 <= k < |Log(t, h, run)| && Log(t, h, run)[k].command.guest == guest
              && NoneOf(Log(t, h, run), guest, k + 1, |Log(t, h, run)|) :: Stored(Play(t, h, run), Log(t, h, run)[k])
  {
    if run != [] {
      var init, a := run[..|run| - 1], run[|run| - 1];
      LastDecisionIsStored(t, h, init, guest);
      var before, log, all := Play(t, h, init), Log(t, h, init), Log(t, h, run);
      LastLogged(t, h, run);
      StepStores(before, h, a, guest);
      assert Play(t, h, run) == After(before, h, a);
      hide CommitsNow, After, Log, Play;
      assert forall m :: 0 <= m < |log| ==> all[m] == log[m];
      if NoneOf(all, guest, 0, |all|) {
        assert NoneOf(log, guest, 0, |log|);
        assert CommitsNow(before, h, a) ==> all[|log|].command == a.command;
      }
      forall k | 0 <= k < |all| && all[k].command.guest == guest && NoneOf(all, guest, k + 1, |all|)
        ensures Stored(Play(t, h, run), all[k])
      {
        if k < |log| {
          assert NoneOf(log, guest, k + 1, |log|);
          assert CommitsNow(before, h, a) ==> all[|log|].command == a.command;
        }
      }
    }
  }

  /** The guest's latest entry before `k` handed its checkpoint and revision to entry `k`; the tables did for the first one. */
  ghost predicate Continues(t: Tables, h: Handler, log: seq<Entry>, k: nat)
    requires k < |log|
  {
    var e := log[k];
    && (forall j :: 0 <= j < k && log[j].command.guest == e.command.guest && NoneOf(log, e.command.guest, j + 1, k) ==>
      h(log[j].decision.checkpoint, e.command) == Some(e.decision) && e.command.expectedRevision == log[j].command.expectedRevision + 1)
    && (NoneOf(log, e.command.guest, 0, k) ==>
      e.command.guest in t.progress && h(t.progress[e.command.guest].checkpoint, e.command) == Some(e.decision)
      && e.command.expectedRevision == t.progress[e.command.guest].revision)
  }

  lemma ContinuesPrefix(t: Tables, h: Handler, log: seq<Entry>, e: Entry, k: nat)
    requires k < |log| && Continues(t, h, log, k)
    ensures Continues(t, h, log + [e], k)
  {
    var all, guest := log + [e], log[k].command.guest;
    assert forall m :: 0 <= m < |log| ==> all[m] == log[m];
    assert NoneOf(all, guest, 0, k) ==> NoneOf(log, guest, 0, k);
    forall j | 0 <= j < k && all[j].command.guest == guest && NoneOf(all, guest, j + 1, k) ensures NoneOf(log, guest, j + 1, k) {
    }
  }

  lemma NewestContinues(t: Tables, h: Handler, log: seq<Entry>, e: Entry, w: Tables)
    requires e.command.guest in w.progress && w.progress[e.command.guest].revision == e.command.expectedRevision
    requires h(w.progress[e.command.guest].checkpoint, e.command) == Some(e.decision)
    requires NoneOf(log, e.command.guest, 0, |log|) ==> SameProgress(t, w, e.command.guest)
    requires forall k :: 0 <= k < |log| && log[k].command.guest == e.command.guest && NoneOf(log, e.command.guest, k + 1, |log|) ==> Stored(w, log[k])
    ensures Continues(t, h, log + [e], |log|)
  {
    var all, guest := log + [e], e.command.guest;
    assert forall m :: 0 <= m < |log| ==> all[m] == log[m];
    assert NoneOf(all, guest, 0, |log|) ==> NoneOf(log, guest, 0, |log|);
    forall j | 0 <= j < |log| && all[j].command.guest == guest && NoneOf(all, guest, j + 1, |log|)
      ensures Stored(w, log[j])
    {
      assert NoneOf(log, guest, j + 1, |log|);
    }
  }

  /** Every handler call of a run got the checkpoint that the guest's previous call decided on, at the next revision. */
  lemma {:induction false} CallsContinue(t: Tables, h: Handler, run: seq<Attempt>)
    ensures forall k :: 0 <= k < |Log(t, h, run)| ==> Continues(t, h, Log(t, h, run), k)
  {
    if run != [] {
      var init, a := run[..|run| - 1], run[|run| - 1];
      CallsContinue(t, h, init);
      var before, log, all := Play(t, h, init), Log(t, h, init), Log(t, h, run);
      LastLogged(t, h, run);
      if CommitsNow(before, h, a) {
        LastDecisionIsStored(t, h, init, a.command.guest);
        CommitsExactlyWhen(before, h, a);
        assert a.command.guest in before.progress && before.progress[a.command.guest].revision == a.command.expectedRevision;
        hide CommitsNow, After, Log, Play, Continues, NoneOf, Stored, SameProgress, MayCommit;
        var e := all[|log|];
        NewestContinues(t, h, log, e, before);
        forall k | 0 <= k < |all| ensures Continues(t, h, all, k) {
          if k < |log| { ContinuesPrefix(t, h, log, e, k); }
        }
      }
    }
  }

  /** Each commit is answered with the response of the decision that is stored, and logged with it. */
  lemma AnswerIsLogged(t: Tables, h: Handler, run: seq<Attempt>, i: nat)
    requires i < |run| && CommitsNow(Play(t, h, run[..i]), h, run[i])
    ensures var log := Log(t, h, run[..i + 1]);
      && log != [] && var e := log[|log| - 1];
      && e.command == run[i].command && e.at == run[i].now && Stored(Play(t, h, run[..i + 1]), e)
      && Answer(t, h, run, i) == Success(Reply(
        false, e.decision.responseSchema, e.decision.response, ResultHash(e.decision.responseSchema, e.decision.response), e.command.expectedRevision + 1))
  {
    var upTo := run[..i + 1];
    assert upTo[..|upTo| - 1] == run[..i] && upTo[|upTo| - 1] == run[i];
    LastLogged(t, h, upTo);
    StepStores(Play(t, h, run[..i]), h, run[i], run[i].command.guest);
    CommitWrites(Play(t, h, run[..i]), h, run[i]);
    assert Play(t, h, upTo) == After(Play(t, h, run[..i]), h, run[i]);
    hide CommitsNow, After, Log, Play, Stored;
  }
}
