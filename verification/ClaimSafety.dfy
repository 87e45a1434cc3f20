/** Claims move all of one guest's history and nobody else's, and a challenge is spent once, in time. */
module ClaimSafety {
  import opened Basics
  import opened ClaimRows

  /** A successful claim is the row work on the settled tables. */
  lemma SuccessIsRowWork(s: State, c: ClaimInput)
    requires ClaimStep(s, c).Success?
    ensures Refusal(s, c).None? && !Duplicates(s, c) && MergedProgress(s, c).Some?
    ensures c.challenge in s.challenges && s.challenges[c.challenge].guest == Some(c.guest)
    ensures ClaimStep(s, c) == RowWork(Settled(s, c), c)
    ensures var w := Settled(s, c); w.rows == s.rows && w.challenges == s.challenges && w.now == s.now && w.tombstones == s.tombstones && w.guests == s.guests
  {
    hide Refusal, Duplicates, Settled, RowWork;
    PassedChecks(s, c);
  }

  lemma RowWorkMoves(s: State, c: ClaimInput)
    requires c.challenge in s.challenges && s.challenges[c.challenge].guest == Some(c.guest) && RowWork(s, c).Success?
    ensures var w := RowWork(s, c).value;
      && (forall k :: k in s.rows && OfGuest(s.rows[k], c.guest) && DispositionOf(k.table) == Transfer ==>
        k in w.rows && w.rows[k] == Moved(s.rows[k], c.Owner(), c.claim))
      && (forall k :: k in s.rows && !OfGuest(s.rows[k], c.guest) ==> k in w.rows && w.rows[k] == s.rows[k])
      && (forall k :: k in w.rows ==> k in s.rows && !OfGuest(w.rows[k], c.guest))
      && (forall k :: k in s.rows && OfGuest(s.rows[k], c.guest) && DispositionOf(k.table) == Revoke ==> k !in w.rows)
      && (forall id :: id in w.challenges ==> w.challenges[id].guest != Some(c.guest))
      && (forall id :: id in s.challenges && s.challenges[id].guest != Some(c.guest) ==> id in w.challenges && w.challenges[id] == s.challenges[id])
      && w == s.(guests := s.guests - {c.guest}, rows := w.rows, challenges := w.challenges, tombstones := w.tombstones)
  {
    hide Entomb, RowReplays, SiblingReplays, Collides, Tombstoned, ReplayOf;
  }

  /**
   * A claim that succeeds gives the player every receipt and event of the guest, unchanged but for the owner and the
   * claim they came from; every row of anyone else is untouched; no row or open challenge refers to the guest; and the
   * player's progress, session and merge receipt are the claim's, at the next revision; a new player has the wallet.
   */
  lemma ClaimMovesEverything(s: State, c: ClaimInput)
    requires ClaimStep(s, c).Success?
    ensures MergedProgress(s, c).Some?
    ensures var w := ClaimStep(s, c).value;
      && (forall k :: k in s.rows && OfGuest(s.rows[k], c.guest) && DispositionOf(k.table) == Transfer ==>
        k in w.rows && w.rows[k] == Moved(s.rows[k], c.Owner(), c.claim))
      && (forall k :: k in s.rows && !OfGuest(s.rows[k], c.guest) ==> k in w.rows && w.rows[k] == s.rows[k])
      && (forall k :: k in w.rows ==> k in s.rows && !OfGuest(w.rows[k], c.guest))
      && (forall k :: k in s.rows && OfGuest(s.rows[k], c.guest) && DispositionOf(k.table) == Revoke ==> k !in w.rows)
      && (forall id :: id in w.challenges ==> w.challenges[id].guest != Some(c.guest))
      && (forall id :: id in s.challenges && s.challenges[id].guest != Some(c.guest) ==> id in w.challenges && w.challenges[id] == s.challenges[id])
      && w.guests == s.guests - {c.guest}
    ensures var w, p := ClaimStep(s, c).value, c.Owner();
      && w.players == s.players + {p} && (c.create <==> p !in s.players) && c.session !in s.sessions && c.claim !in s.merges
      && w.progress == s.progress[p := Progress(c.NewRevision(), c.content, MergedProgress(s, c).value.checkpoint)]
      && w.wallets == (if c.create then s.wallets[c.wallet := WalletRow(c.credential, p, c.proofKey, c.claim)] else s.wallets)
      && w.sessions == s.sessions[c.session := SessionRow(p, c.claim)]
      && w.merges == s.merges[c.claim := MergeRow(c.key, c.hash, p, c.session, c.NewRevision())]
      && (!c.create ==> p in s.progress && c.NewRevision() == s.progress[p].revision + 1)
  {
    hide Refusal, RowWork, Duplicates, Collides, OfGuest;
    SuccessIsRowWork(s, c);
    RowWorkMoves(Settled(s, c), c);
    NewOrKnown(s, c);
  }

  lemma NewOrKnown(s: State, c: ClaimInput)
    requires Refusal(s, c).None? && !Duplicates(s, c)
    ensures c.create <==> c.Owner() !in s.players
    ensures c.session !in s.sessions && c.claim !in s.merges
    ensures !c.create ==> c.Owner() in s.progress && c.NewRevision() == s.progress[c.Owner()].revision + 1
  {
    hide Tombstoned, Linked, GuestCurrent, CapabilityFits, WalletFits, MergedProgress;
  }

  // ---------------------------------------------------------------- exactly when a claim fails

  /** What a caller can look up before the call, one concern at a time. */
  predicate Admitted(s: State, c: ClaimInput) {
    && IntentFits(c) && c.issued
    && c.authenticated && c.guest in s.guests && (c.create || c.target in s.players)
    && c.challenge in s.challenges && Presentable(s.challenges[c.challenge], ClaimPurpose, Some(c.guest), c.claim, c.hash, s.now)
    && (forall r :: r in {ChallengeReplay(c.hash), ClaimReplay(c.claim), KeyReplay(c.key)} ==> !Tombstoned(s.tombstones, r, s.now))
    && !Linked(s, c.claim) && !Duplicates(s, c)
    && GuestCurrent(s, c) && PlayerCurrent(s, c) && RevisionAgrees(s, c)
    && CapabilityFits(s, c) && WalletFits(s, c)
  }

  lemma AdmittedIsUnrefused(s: State, c: ClaimInput)
    ensures Admitted(s, c) <==> Refusal(s, c).None? && !Duplicates(s, c)
  {
    hide Tombstoned, Linked, GuestCurrent, CapabilityFits, WalletFits, MergedProgress, PlayerCurrent, Duplicates;
  }

  /**
   * A claim succeeds exactly when it is admitted and guest and player share no idempotency key; past admission the
   * shared key is the only failure, because the challenge is still there to consume and the last delete is never refused.
   */
  lemma ClaimFailsExactly(s: State, c: ClaimInput)
    ensures ClaimStep(s, c).Success? <==> Admitted(s, c) && !Collides(s.rows, c.guest, c.Owner())
    ensures Admitted(s, c) && Collides(s.rows, c.guest, c.Owner()) ==> ClaimStep(s, c) == Failure(KeyCollision)
  {
    AdmittedIsUnrefused(s, c);
    hide Admitted, Refusal, Duplicates, Collides, Settled;
    if Admitted(s, c) {
      PassedChecks(s, c);
      RowWorkLeavesNoReference(Settled(s, c), c);
      hide StillReferenced, Revoked, Rewritten, Presentable, MergedProgress, Consumed;
    }
  }

  /** A receipt belongs to one subject: a guest, or a player. */
  predicate OneSubject(rows: map<RowId, Row>) {
    forall k :: k in rows && k.table == CommandReceipts ==> (rows[k].guest.Some? <==> rows[k].player.None?)
  }

  predicate SameSubject(r: Row, q: Row) {
    r.guest == q.guest && r.player == q.player
  }

  /** The primary key of the receipts: subject and idempotency key. */
  predicate KeysUnique(rows: map<RowId, Row>) {
    forall a, b :: a in rows && b in rows && a != b && a.table == CommandReceipts && b.table == CommandReceipts && SameSubject(rows[a], rows[b])
      ==> rows[a].key != rows[b].key
  }

  /** A collision is precisely what the primary key refuses: without one the rewrite keeps it, with one it breaks it. */
  lemma CollisionIsTheKey(rows: map<RowId, Row>, g: GuestId, p: PlayerId, claim: ClaimId)
    requires OneSubject(rows) && KeysUnique(rows)
    ensures KeysUnique(Rewritten(rows, g, p, claim)) <==> !Collides(rows, g, p)
    ensures OneSubject(Rewritten(rows, g, p, claim))
  {
    var w := Rewritten(rows, g, p, claim);
    assert w.Keys == rows.Keys;
    if Collides(rows, g, p) {
      var a, b :| a in rows && b in rows && a.table == CommandReceipts && b.table == CommandReceipts
        && OfGuest(rows[a], g) && rows[b].player == Some(p) && rows[a].key == rows[b].key;
      assert a != b && SameSubject(w[a], w[b]) && w[a].key == w[b].key;
    } else {
      forall a, b | a in w && b in w && a != b && a.table == CommandReceipts && b.table == CommandReceipts && SameSubject(w[a], w[b])
        ensures w[a].key != w[b].key
      {
        var movedA, movedB := OfGuest(rows[a], g), OfGuest(rows[b], g);
        assert movedA == movedB ==> SameSubject(rows[a], rows[b]);
        assert movedA && !movedB ==> rows[b].player == Some(p);
        assert movedB && !movedA ==> rows[a].player == Some(p);
      }
    }
  }

  /** Every claim, whatever its input and outcome, leaves the receipts' primary key intact. */
  lemma ClaimKeepsKeys(s: State, c: ClaimInput)
    requires OneSubject(s.rows) && KeysUnique(s.rows)
    ensures ClaimStep(s, c).Success? ==> OneSubject(ClaimStep(s, c).value.rows) && KeysUnique(ClaimStep(s, c).value.rows)
  {
    hide Refusal, RowWork, Duplicates, Collides, OfGuest, ClaimStep;
    if ClaimStep(s, c).Success? {
      ClaimFailsExactly(s, c);
      ClaimRowsAre(s, c);
      CollisionIsTheKey(s.rows, c.guest, c.Owner(), c.claim);
      hide Admitted;
    }
  }

  /** What is left after a claim is part of the rewritten rows. */
  lemma ClaimRowsAre(s: State, c: ClaimInput)
    requires ClaimStep(s, c).Success?
    ensures forall k :: k in ClaimStep(s, c).value.rows ==>
      k in Rewritten(s.rows, c.guest, c.Owner(), c.claim) && ClaimStep(s, c).value.rows[k] == Rewritten(s.rows, c.guest, c.Owner(), c.claim)[k]
  {
    hide Refusal, RowWork, Duplicates, Collides;
    ClaimMovesEverything(s, c);
  }

  /** A player made by the claim has no receipts yet, so only claims into an existing player can fail that way. */
  lemma NewPlayersNeverCollide(s: State, c: ClaimInput)
    requires c.create && Admitted(s, c)
    requires forall k :: k in s.rows && s.rows[k].player.Some? ==> s.rows[k].player.value in s.players
    ensures ClaimStep(s, c).Success?
  {
    ClaimFailsExactly(s, c);
    AdmittedIsUnrefused(s, c);
    NewOrKnown(s, c);
    hide Admitted, Refusal, Duplicates, ClaimStep;
  }

  // A claim blocked by a shared key: guest 1 and player 7 both used key 5, everything else is in order.

  const SHARED_HASH := ChallengeHash(20, 21, 0, CHALLENGE_MS)
  const SHARED_PROGRESS := Progress(3, 2, 30)
  const SHARED_WALLET := Wallet(40, 41)

  function SharedState(): State {
    State(
      100, {1}, {7}, map[7 := Progress(4, 2, 31)], map[SHARED_WALLET := WalletRow(50, 7, 42, 60)], map[], map[],
      map[RowId(CommandReceipts, 0) := Row(Some(1), None, None, 5, 0, 0, SHARED_PROGRESS),
          RowId(CommandReceipts, 2) := Row(None, Some(7), None, 5, 0, 0, SHARED_PROGRESS),
          RowId(GuestProgress, 1) := Row(Some(1), None, None, 0, 0, 0, SHARED_PROGRESS),
          RowId(ClaimCapabilities, 1) := Row(Some(1), None, None, 0, 70, 1000, SHARED_PROGRESS)],
      map[80 := Challenge(ClaimPurpose, Some(1), 61, SHARED_HASH, None)], map[])
  }

  function SharedClaim(): ClaimInput {
    ClaimInput(
      true, true, true, Some(70), 1, false, 7, 61, 90, 80, SHARED_HASH, 3, 4, 2, SHARED_WALLET, 42,
      (g: Progress, p: Option<Progress>) => Some(Merged(g.checkpoint, 5)), 8, 91, 92)
  }

  /** The collision is real: a claim that is admitted and fails. */
  lemma SharedKeyBlocks()
    ensures Admitted(SharedState(), SharedClaim()) && Collides(SharedState().rows, 1, 7)
    ensures ClaimStep(SharedState(), SharedClaim()) == Failure(KeyCollision)
  {
    var s, c := SharedState(), SharedClaim();
    assert OfGuest(s.rows[RowId(CommandReceipts, 0)], 1) && s.rows[RowId(CommandReceipts, 2)].player == Some(7);
    assert RowId(CommandReceipts, 0) in s.rows && RowId(CommandReceipts, 2) in s.rows;
    assert Collides(s.rows, c.guest, c.Owner());
    hide Collides, ClaimStep;
    assert Admitted(s, c);
    ClaimFailsExactly(s, c);
  }

  // ---------------------------------------------------------------- runs

  datatype Op =
    | Claim(input: ClaimInput)
    | Consume(purpose: Purpose, id: ChallengeId, claim: ClaimId, hash: ChallengeHash)
    | Issue(id: ChallengeId, challenge: Challenge)
    | Remove(id: ChallengeId)
    | Write(row: RowId, content: Row)
    | Admit(id: GuestId)
    | Serve(players: set<PlayerId>, progress: map<PlayerId, Progress>, wallets: map<Wallet, WalletRow>, sessions: map<SessionId, SessionRow>, merges: map<ClaimId, MergeRow>)
    | Forget
    | Pass(ms: nat)

  /** Issued challenges live five minutes; removing one buries it; players' own tables change as they like. */
  function Exec(s: State, op: Op): State {
    match op
    case Claim(c) => (match ClaimStep(s, c) case Success(w) => w case Failure(_) => s)
    case Consume(purpose, id, claim, hash) => (match ConsumeStep(s, purpose, id, claim, hash) case Success(w) => w case Failure(_) => s)
    case Issue(id, c) =>
      if id in s.challenges || c.consumed.Some? || c.hash.issued != s.now || c.hash.expires != s.now + CHALLENGE_MS then s
      else s.(challenges := s.challenges[id := c])
    case Remove(id) =>
      if id !in s.challenges then s
      else s.(tombstones := Entomb(s.tombstones, ChallengeReplays(s.challenges[id]), s.now), challenges := s.challenges - {id})
    case Write(k, r) => s.(rows := s.rows[k := r])
    case Admit(g) => s.(guests := s.guests + {g})
    case Serve(players, progress, wallets, sessions, merges) =>
      s.(players := players, progress := progress, wallets := wallets, sessions := sessions, merges := merges)
    case Forget => s.(tombstones := map r | r in s.tombstones && s.tombstones[r] > s.now :: s.tombstones[r])
    case Pass(ms) => s.(now := s.now + ms)
  }

  function Run(s: State, ops: seq<Op>): State {
    if ops == [] then s else Exec(Run(s, ops[..|ops| - 1]), ops[|ops| - 1])
  }

  /** The operation spends a challenge with this hash. */
  predicate Spends(s: State, op: Op, hash: ChallengeHash) {
    match op
    case Claim(c) => c.hash == hash && ClaimStep(s, c).Success?
    case Consume(purpose, id, claim, h) => h == hash && ConsumeStep(s, purpose, id, claim, h).Success?
    case _ => false
  }

  predicate FiveMinutes(hash: ChallengeHash) { hash.expires == hash.issued + CHALLENGE_MS }

  lemma SpentInTime(s: State, op: Op, hash: ChallengeHash)
    requires Spends(s, op, hash)
    ensures hash.issued <= s.now < hash.expires && !Tombstoned(s.tombstones, ChallengeReplay(hash), s.now)
  {
    if op.Claim? {
      ClaimFailsExactly(s, op.input);
      assert ChallengeReplay(hash) in {ChallengeReplay(op.input.hash), ClaimReplay(op.input.claim), KeyReplay(op.input.key)};
    }
    hide Collides, ClaimStep, Linked, Duplicates, GuestCurrent, PlayerCurrent, RevisionAgrees, CapabilityFits, WalletFits, Tombstoned;
  }

  /** The challenge is buried from `at` on, for as long as a tombstone lasts. */
  predicate BuriedSince(s: State, hash: ChallengeHash, at: int) {
    s.now >= at && (s.now < at + TOMBSTONE_MS ==> ChallengeReplay(hash) in s.tombstones && s.tombstones[ChallengeReplay(hash)] >= at + TOMBSTONE_MS)
  }

  lemma EntombKeeps(tombstones: map<Replay, int>, rs: set<Replay>, now: int, r: Replay)
    ensures r in rs ==> r in Entomb(tombstones, rs, now) && Entomb(tombstones, rs, now)[r] >= now + TOMBSTONE_MS
    ensures r in tombstones ==> r in Entomb(tombstones, rs, now) && Entomb(tombstones, rs, now)[r] >= tombstones[r]
  {
  }

  lemma RowWorkTombstones(s: State, c: ClaimInput, r: Replay)
    requires c.challenge in s.challenges && RowWork(s, c).Success?
    ensures var w := RowWork(s, c).value;
      && w.now == s.now
      && (r in s.tombstones ==> r in w.tombstones && w.tombstones[r] >= s.tombstones[r])
      && (r == ChallengeReplay(s.challenges[c.challenge].hash) ==> r in w.tombstones && w.tombstones[r] >= s.now + TOMBSTONE_MS)
  {
    var consumed := Consumed(s, c.challenge);
    EntombKeeps(s.tombstones, ChallengeReplays(s.challenges[c.challenge]), s.now, r);
    EntombKeeps(consumed.tombstones, RowReplays(Rewritten(consumed.rows, c.guest, c.Owner(), c.claim), c.guest)
      + SiblingReplays(s.challenges, c.guest) + {ClaimReplay(c.claim), KeyReplay(c.key)}, s.now, r);
    hide Entomb, RowReplays, SiblingReplays, Collides, StillReferenced, Rewritten, Tombstoned;
  }

  lemma ClaimTombstones(s: State, c: ClaimInput, r: Replay)
    requires ClaimStep(s, c).Success?
    ensures var w := ClaimStep(s, c).value;
      && w.now == s.now
      && (r in s.tombstones ==> r in w.tombstones && w.tombstones[r] >= s.tombstones[r])
      && (r == ChallengeReplay(c.hash) ==> r in w.tombstones && w.tombstones[r] >= s.now + TOMBSTONE_MS)
  {
    hide RowWork, Refusal, Duplicates, Settled;
    SuccessIsRowWork(s, c);
    PassedChecks(s, c);
    RowWorkTombstones(Settled(s, c), c, r);
  }

  lemma ExecBuries(s: State, op: Op, hash: ChallengeHash, at: int)
    requires BuriedSince(s, hash, at) || (Spends(s, op, hash) && at == s.now)
    ensures BuriedSince(Exec(s, op), hash, at)
  {
    var r := ChallengeReplay(hash);
    if op.Claim? && ClaimStep(s, op.input).Success? {
      ClaimTombstones(s, op.input, r);
    } else if op.Consume? || op.Remove? {
      if op.id in s.challenges { EntombKeeps(s.tombstones, ChallengeReplays(s.challenges[op.id]), s.now, r); }
    }
    hide Entomb, ClaimStep, Tombstoned;
  }

  lemma {:induction false} RunBuries(s: State, ops: seq<Op>, hash: ChallengeHash, at: int)
    requires BuriedSince(s, hash, at)
    ensures BuriedSince(Run(s, ops), hash, at)
  {
    if ops != [] {
      RunBuries(s, ops[..|ops| - 1], hash, at);
      ExecBuries(Run(s, ops[..|ops| - 1]), ops[|ops| - 1], hash, at);
      hide Exec, BuriedSince;
    }
  }

  lemma {:induction false} RunSplits(s: State, ops: seq<Op>, i: nat)
    requires i <= |ops|
    ensures Run(s, ops) == Run(Run(s, ops[..i]), ops[i..])
    decreases |ops|
  {
    hide Exec;
    if i == |ops| {
      assert ops[..i] == ops && ops[i..] == [];
    } else {
      var init, tail := ops[..|ops| - 1], ops[i..];
      RunSplits(s, init, i);
      assert init[..i] == ops[..i];
      assert tail[..|tail| - 1] == init[i..] && tail[|tail| - 1] == ops[|ops| - 1];
      assert Run(Run(s, ops[..i]), tail) == Exec(Run(Run(s, ops[..i]), init[i..]), ops[|ops| - 1]);
    }
  }

  /** Over every run a challenge is spent at most once, and only between its issue and its expiry. */
  lemma SpentOnce(s: State, ops: seq<Op>, hash: ChallengeHash, i: nat, j: nat)
    requires i < j < |ops| && FiveMinutes(hash) && Spends(Run(s, ops[..i]), ops[i], hash)
    ensures hash.issued <= Run(s, ops[..i]).now < hash.expires
    ensures !Spends(Run(s, ops[..j]), ops[j], hash)
  {
    hide Run, Exec, Spends, Tombstoned;
    var before, later := Run(s, ops[..i]), Run(s, ops[..j]);
    SpentInTime(before, ops[i], hash);
    ExecBuries(before, ops[i], hash, before.now);
    RunNext(s, ops, i);
    assert ops[..j][..i + 1] == ops[..i + 1];
    RunSplits(s, ops[..j], i + 1);
    RunBuries(Run(s, ops[..i + 1]), ops[..j][i + 1..], hash, before.now);
    if Spends(later, ops[j], hash) {
      SpentInTime(later, ops[j], hash);
      StillBuried(later, hash, before.now);
    }
  }

  lemma StillBuried(s: State, hash: ChallengeHash, at: int)
    requires BuriedSince(s, hash, at) && s.now < at + TOMBSTONE_MS
    ensures Tombstoned(s.tombstones, ChallengeReplay(hash), s.now)
  {
  }

  lemma RunNext(s: State, ops: seq<Op>, i: nat)
    requires i < |ops|
    ensures Run(s, ops[..i + 1]) == Exec(Run(s, ops[..i]), ops[i])
  {
    assert ops[..i + 1][..i] == ops[..i];
    hide Exec;
  }
}
