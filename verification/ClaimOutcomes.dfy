/** A claim as a relation: exactly which claims succeed and which state each leads to, and what that means for later ones. */
module ClaimOutcomes {
  import opened Basics
  import opened ClaimRows
  import opened ClaimSafety

  const MONTH_MS: int := 2592000000

  // ---------------------------------------------------------------- which claims succeed

  /** A tombstone for the replay key has not lapsed. */
  predicate Standing(s: State, r: Replay) {
    r in s.tombstones && s.now < s.tombstones[r]
  }

  /** Proof, resume secret and session secret came out well, and the revisions named can be counted up. */
  predicate Called(c: ClaimInput) {
    && c.verified && c.authenticated && c.issued
    && c.guestRevision <= 9007199254740991 && (c.create || c.playerRevision < 9007199254740991)
  }

  /** The challenge signed is an open one of this guest for this claim, in its time, and nothing of it was used before. */
  predicate Challenged(s: State, c: ClaimInput) {
    && c.challenge in s.challenges && s.challenges[c.challenge] == Challenge(ClaimPurpose, Some(c.guest), c.claim, c.hash, None)
    && c.hash.issued <= s.now && s.now < c.hash.expires
    && !Standing(s, ChallengeReplay(c.hash)) && !Standing(s, ClaimReplay(c.claim)) && !Standing(s, KeyReplay(c.key))
    && forall w :: w in s.wallets ==> s.wallets[w].claim != c.claim
  }

  /** The guest is there, at the revision and content named, with a capability that is current and proven. */
  predicate GuestReady(s: State, c: ClaimInput) {
    var own, held := RowId(GuestProgress, c.guest), RowId(ClaimCapabilities, c.guest);
    && c.guest in s.guests
    && own in s.rows && s.rows[own].guest == Some(c.guest)
    && s.rows[own].progress.revision == c.guestRevision && s.rows[own].progress.content == c.content
    && held in s.rows && s.rows[held].guest == Some(c.guest)
    && s.now < s.rows[held].expires && c.capability == Some(s.rows[held].digest) && !Standing(s, CapabilityReplay(s.rows[held].digest))
  }

  /** A new player needs a wallet nobody has or recently had; an existing one its own wallet, key and revision. */
  predicate PlayerReady(s: State, c: ClaimInput) {
    if c.create then c.wallet !in s.wallets && !Standing(s, WalletReplay(c.wallet))
    else
      && c.target in s.players && c.target in s.progress && s.progress[c.target].revision == c.playerRevision
      && c.wallet in s.wallets && s.wallets[c.wallet].player == c.target && s.wallets[c.wallet].proofKey == c.proofKey
  }

  /** What the merge makes of the guest's progress and the existing player's, if it accepts them. */
  function Outcome(s: State, c: ClaimInput): Option<Merged>
    requires RowId(GuestProgress, c.guest) in s.rows
  {
    c.merge(s.rows[RowId(GuestProgress, c.guest)].progress, if c.create || c.target !in s.progress then None else Some(s.progress[c.target]))
  }

  /** It does, and a first evening's checkpoint carries the revision it will have. */
  predicate Mergeable(s: State, c: ClaimInput) {
    && RowId(GuestProgress, c.guest) in s.rows && Outcome(s, c).Some?
    && (c.content == 1 ==> Outcome(s, c).value.revision == if c.create then c.guestRevision else c.playerRevision + 1)
  }

  /** No unique key of a row to be inserted is taken. */
  predicate KeysFree(s: State, c: ClaimInput) {
    && (c.create ==> c.newPlayer !in s.players && c.newPlayer !in s.progress && forall w :: w in s.wallets ==> s.wallets[w].credential != c.credential)
    && c.session !in s.sessions
    && (forall x :: x in s.sessions ==> !(s.sessions[x].player == (if c.create then c.newPlayer else c.target) && s.sessions[x].claim == c.claim))
    && c.claim !in s.merges
    && forall m :: m in s.merges ==>
      s.merges[m].key != c.key && s.merges[m].hash.intent != c.hash.intent && s.merges[m].hash != c.hash && s.merges[m].session != c.session
  }

  /** Guest and player never used the same idempotency key. */
  predicate HistoriesApart(s: State, c: ClaimInput) {
    forall a, b | a in s.rows && b in s.rows && a.table == CommandReceipts && b.table == CommandReceipts && s.rows[a].guest == Some(c.guest)
      && s.rows[b].player == Some(if c.create then c.newPlayer else c.target) :: s.rows[a].key != s.rows[b].key
  }

  predicate Succeeds(s: State, c: ClaimInput) {
    Called(c) && Challenged(s, c) && GuestReady(s, c) && PlayerReady(s, c) && Mergeable(s, c) && KeysFree(s, c) && HistoriesApart(s, c)
  }

  lemma StandingMeans(s: State, r: Replay)
    ensures Standing(s, r) <==> Tombstoned(s.tombstones, r, s.now)
  {
  }

  lemma ChallengedMeans(s: State, c: ClaimInput)
    ensures Challenged(s, c) <==>
      && c.challenge in s.challenges && Presentable(s.challenges[c.challenge], ClaimPurpose, Some(c.guest), c.claim, c.hash, s.now)
      && (forall r :: r in {ChallengeReplay(c.hash), ClaimReplay(c.claim), KeyReplay(c.key)} ==> !Tombstoned(s.tombstones, r, s.now))
      && !Linked(s, c.claim)
  {
    forall r ensures Standing(s, r) <==> Tombstoned(s.tombstones, r, s.now) { StandingMeans(s, r); }
    hide Standing, Tombstoned;
    assert Linked(s, c.claim) <==> !forall w :: w in s.wallets ==> s.wallets[w].claim != c.claim;
    var replays := {ChallengeReplay(c.hash), ClaimReplay(c.claim), KeyReplay(c.key)};
    assert ChallengeReplay(c.hash) in replays && ClaimReplay(c.claim) in replays && KeyReplay(c.key) in replays;
  }

  lemma ReadyMeans(s: State, c: ClaimInput)
    ensures GuestReady(s, c) <==> c.guest in s.guests && GuestCurrent(s, c) && CapabilityFits(s, c)
    ensures PlayerReady(s, c) <==> (c.create || c.target in s.players) && PlayerCurrent(s, c) && WalletFits(s, c)
  {
    forall r ensures Standing(s, r) <==> Tombstoned(s.tombstones, r, s.now) { StandingMeans(s, r); }
    hide Standing, Tombstoned;
  }

  lemma MergeMeans(s: State, c: ClaimInput)
    requires GuestCurrent(s, c)
    ensures RowId(GuestProgress, c.guest) in s.rows && Outcome(s, c) == MergedProgress(s, c)
    ensures Mergeable(s, c) <==> RevisionAgrees(s, c)
  {
  }

  lemma KeysMean(s: State, c: ClaimInput)
    ensures KeysFree(s, c) <==> !Duplicates(s, c)
    ensures HistoriesApart(s, c) <==> !Collides(s.rows, c.guest, c.Owner())
  {
  }

  /** A claim succeeds exactly under these conditions. */
  lemma SucceedsExactly(s: State, c: ClaimInput)
    ensures ClaimStep(s, c).Success? <==> Succeeds(s, c)
  {
    ClaimFailsExactly(s, c);
    ChallengedMeans(s, c);
    ReadyMeans(s, c);
    KeysMean(s, c);
    if GuestCurrent(s, c) { MergeMeans(s, c); }
    hide ClaimStep, Challenged, GuestReady, PlayerReady, Mergeable, RevisionAgrees, KeysFree, HistoriesApart, Collides, Duplicates, Presentable, Tombstoned,
      Linked, GuestCurrent, CapabilityFits, PlayerCurrent, WalletFits;
  }

  // ---------------------------------------------------------------- what a claim leaves

  /** The replay key stands for something of the guest's or of this claim that must not be used again. */
  ghost predicate Spent(s: State, c: ClaimInput, r: Replay) {
    || r == ClaimReplay(c.claim) || r == KeyReplay(c.key)
    || (exists id :: id in s.challenges && s.challenges[id].guest == Some(c.guest) && ChallengeSpent(s.challenges[id], r))
    || exists k :: k in s.rows && s.rows[k].guest == Some(c.guest) && RowSpent(k, s.rows[k], r)
  }

  predicate ChallengeSpent(challenge: Challenge, r: Replay) {
    r == ChallengeReplay(challenge.hash) || r == NonceReplay(challenge.hash.nonce)
  }

  predicate RowSpent(k: RowId, row: Row, r: Replay) {
    || (k.table == ResumeDigests && r == ResumeReplay(row.digest)) || (k.table == ClaimCapabilities && r == CapabilityReplay(row.digest))
    || (k.table == SaveExports && r == ExportReplay(k.id)) || (k.table == RecoveryImports && r == ImportReplay(k.id))
  }

  /** Everything spent is buried for thirty days, an existing later tombstone staying; all others are as before. */
  ghost predicate Buries(s: State, c: ClaimInput, w: State) {
    forall r: Replay ::
      if Spent(s, c, r)
      then r in w.tombstones && w.tombstones[r] == (if r in s.tombstones && s.tombstones[r] > s.now + MONTH_MS then s.tombstones[r] else s.now + MONTH_MS)
      else (r in w.tombstones <==> r in s.tombstones) && (r in s.tombstones ==> w.tombstones[r] == s.tombstones[r])
  }

  /** Receipts and events of the guest get the player as owner and this claim as origin; its other rows go; nobody else's change. */
  ghost predicate MovesRows(s: State, c: ClaimInput, w: State) {
    && (forall k :: k in w.rows <==> k in s.rows && (s.rows[k].guest == Some(c.guest) ==> k.table == CommandReceipts || k.table == DomainEvents))
    && forall k :: k in w.rows ==> w.rows[k] == (if s.rows[k].guest == Some(c.guest) then Inherited(s.rows[k], c) else s.rows[k])
  }

  function Inherited(r: Row, c: ClaimInput): Row {
    Row(None, Some(if c.create then c.newPlayer else c.target), Some(c.claim), r.key, r.digest, r.expires, r.progress)
  }

  /** The challenge is marked consumed and names no guest; the guest's other challenges go. */
  ghost predicate ClosesChallenges(s: State, c: ClaimInput, w: State) {
    && (forall id :: id in w.challenges <==> id in s.challenges && (id == c.challenge || s.challenges[id].guest != Some(c.guest)))
    && forall id :: id in w.challenges ==> w.challenges[id] == (if id == c.challenge then Closed(s.challenges[id], s.now) else s.challenges[id])
  }

  function Closed(challenge: Challenge, now: int): Challenge {
    Challenge(challenge.purpose, None, challenge.claim, challenge.hash, Some(now))
  }

  /** The player, its wallet if it is new, its merged progress at the next revision, its session and the merge receipt. */
  predicate SettlesPlayer(s: State, c: ClaimInput, w: State)
    requires Mergeable(s, c)
  {
    var p, revision := if c.create then c.newPlayer else c.target, if c.create then c.guestRevision else c.playerRevision + 1;
    && w.players == s.players + {p} && w.guests == s.guests - {c.guest} && w.now == s.now
    && w.wallets == (if c.create then s.wallets[c.wallet := WalletRow(c.credential, p, c.proofKey, c.claim)] else s.wallets)
    && w.progress == s.progress[p := Progress(revision, c.content, Outcome(s, c).value.checkpoint)]
    && w.sessions == s.sessions[c.session := SessionRow(p, c.claim)]
    && w.merges == s.merges[c.claim := MergeRow(c.key, c.hash, p, c.session, revision)]
  }

  ghost predicate Claims(s: State, c: ClaimInput, w: State) {
    Succeeds(s, c) && SettlesPlayer(s, c, w) && MovesRows(s, c, w) && ClosesChallenges(s, c, w) && Buries(s, c, w)
  }

  lemma ReplaysMean(s: State, c: ClaimInput, rows: map<RowId, Row>, r: Replay)
    requires rows.Keys == s.rows.Keys
    requires forall k :: k in s.rows ==> if OfGuest(s.rows[k], c.guest) && DispositionOf(k.table) == Transfer then !OfGuest(rows[k], c.guest) else rows[k] == s.rows[k]
    ensures r in RowReplays(rows, c.guest) <==> exists k :: k in s.rows && s.rows[k].guest == Some(c.guest) && RowSpent(k, s.rows[k], r)
  {
    if r in RowReplays(rows, c.guest) {
      var k :| k in rows && OfGuest(rows[k], c.guest) && r in ReplayOf(k, rows[k]);
      assert rows[k] == s.rows[k] && RowSpent(k, s.rows[k], r);
    }
    if k :| k in s.rows && s.rows[k].guest == Some(c.guest) && RowSpent(k, s.rows[k], r) {
      assert OfGuest(rows[k], c.guest) && r in ReplayOf(k, rows[k]);
    }
  }

  lemma SiblingsMean(s: State, c: ClaimInput, r: Replay)
    ensures r in SiblingReplays(s.challenges, c.guest) <==>
      exists id :: id in s.challenges && s.challenges[id].guest == Some(c.guest) && ChallengeSpent(s.challenges[id], r)
  {
    if id :| id in s.challenges && s.challenges[id].guest == Some(c.guest) && ChallengeSpent(s.challenges[id], r) {
      assert r in ChallengeReplays(s.challenges[id]);
    }
  }

  /** The tombstones, the rows and the challenges after the row work. */
  lemma WorkBuried(s: State, c: ClaimInput)
    requires c.challenge in s.challenges && RowWork(s, c).Success?
    ensures RowWork(s, c).value.tombstones == Entomb(Entomb(s.tombstones, ChallengeReplays(s.challenges[c.challenge]), s.now),
      RowReplays(Rewritten(s.rows, c.guest, c.Owner(), c.claim), c.guest) + SiblingReplays(s.challenges, c.guest) + {ClaimReplay(c.claim), KeyReplay(c.key)}, s.now)
  {
    hide Entomb, RowReplays, SiblingReplays, Rewritten, Collides, StillReferenced, ChallengeReplays;
  }

  lemma WorkRows(s: State, c: ClaimInput, k: RowId)
    requires c.challenge in s.challenges && RowWork(s, c).Success?
    ensures var rows, w := Rewritten(s.rows, c.guest, c.Owner(), c.claim), RowWork(s, c).value;
      (k in w.rows <==> k in rows && !OfGuest(rows[k], c.guest)) && (k in w.rows ==> w.rows[k] == rows[k])
  {
    hide Entomb, RowReplays, SiblingReplays, Rewritten, Collides, StillReferenced, ChallengeReplays;
  }

  lemma WorkCloses(s: State, c: ClaimInput)
    requires c.challenge in s.challenges && RowWork(s, c).Success?
    ensures ClosesChallenges(s, c, RowWork(s, c).value)
  {
    hide Entomb, RowReplays, SiblingReplays, Rewritten, Collides, StillReferenced, ChallengeReplays;
  }

  function SpentSet(s: State, c: ClaimInput): set<Replay> {
    RowReplays(Rewritten(s.rows, c.guest, c.Owner(), c.claim), c.guest) + SiblingReplays(s.challenges, c.guest) + {ClaimReplay(c.claim), KeyReplay(c.key)}
  }

  lemma WorkTombstones(s: State, c: ClaimInput)
    requires c.challenge in s.challenges && s.challenges[c.challenge].guest == Some(c.guest) && RowWork(s, c).Success?
    ensures RowWork(s, c).value.tombstones == Entomb(s.tombstones, SpentSet(s, c), s.now)
  {
    WorkBuried(s, c);
    var first := ChallengeReplays(s.challenges[c.challenge]);
    forall q | q in first ensures q in SiblingReplays(s.challenges, c.guest) { SiblingsMean(s, c, q); }
    hide Entomb, RowReplays, SiblingReplays, RowWork, Rewritten, ChallengeReplays;
    var second := RowReplays(Rewritten(s.rows, c.guest, c.Owner(), c.claim), c.guest) + SiblingReplays(s.challenges, c.guest) + {ClaimReplay(c.claim), KeyReplay(c.key)};
    EntombTwice(s.tombstones, first, second, s.now);
    assert first + second == SpentSet(s, c);
  }

  lemma SpentSetMeans(s: State, c: ClaimInput, r: Replay)
    ensures r in SpentSet(s, c) <==> Spent(s, c, r)
  {
    ReplaysMean(s, c, Rewritten(s.rows, c.guest, c.Owner(), c.claim), r);
    SiblingsMean(s, c, r);
    hide RowReplays, SiblingReplays, RowSpent, ChallengeSpent, Rewritten;
  }

  lemma EntombMeans(before: map<Replay, int>, rs: set<Replay>, now: int, r: Replay)
    ensures var after := Entomb(before, rs, now);
      if r in rs then r in after && after[r] == (if r in before && before[r] > now + MONTH_MS then before[r] else now + MONTH_MS)
      else (r in after <==> r in before) && (r in before ==> after[r] == before[r])
  {
  }

  lemma WorkBuries(s: State, c: ClaimInput)
    requires c.challenge in s.challenges && s.challenges[c.challenge].guest == Some(c.guest) && RowWork(s, c).Success?
    ensures Buries(s, c, RowWork(s, c).value)
  {
    WorkTombstones(s, c);
    hide SpentSet, Spent, RowWork, Entomb;
    forall r: Replay ensures r in SpentSet(s, c) <==> Spent(s, c, r) { SpentSetMeans(s, c, r); }
    forall r: Replay
      ensures var w := RowWork(s, c).value;
        if Spent(s, c, r)
        then r in w.tombstones && w.tombstones[r] == (if r in s.tombstones && s.tombstones[r] > s.now + MONTH_MS then s.tombstones[r] else s.now + MONTH_MS)
        else (r in w.tombstones <==> r in s.tombstones) && (r in s.tombstones ==> w.tombstones[r] == s.tombstones[r])
    {
      EntombMeans(s.tombstones, SpentSet(s, c), s.now, r);
    }
  }

  lemma RewrittenRow(s: State, c: ClaimInput, k: RowId)
    ensures var rows := Rewritten(s.rows, c.guest, c.Owner(), c.claim);
      (k in rows <==> k in s.rows) && (k in s.rows ==>
        if s.rows[k].guest != Some(c.guest) then rows[k] == s.rows[k] && !OfGuest(rows[k], c.guest)
        else if k.table == CommandReceipts || k.table == DomainEvents then rows[k] == Inherited(s.rows[k], c) && !OfGuest(rows[k], c.guest)
        else OfGuest(rows[k], c.guest))
  {
  }

  lemma WorkMoves(s: State, c: ClaimInput)
    requires c.challenge in s.challenges && RowWork(s, c).Success?
    ensures MovesRows(s, c, RowWork(s, c).value)
  {
    hide RowWork, Rewritten, OfGuest, Inherited;
    var w := RowWork(s, c).value;
    forall k
      ensures k in w.rows <==> k in s.rows && (s.rows[k].guest == Some(c.guest) ==> k.table == CommandReceipts || k.table == DomainEvents)
      ensures k in w.rows ==> w.rows[k] == (if s.rows[k].guest == Some(c.guest) then Inherited(s.rows[k], c) else s.rows[k])
    {
      WorkRows(s, c, k);
      RewrittenRow(s, c, k);
    }
  }

  /** What the row work sees of the settled tables is what the claim saw. */
  lemma SameBelow(s: State, t: State, c: ClaimInput, w: State)
    requires t.rows == s.rows && t.challenges == s.challenges && t.now == s.now && t.tombstones == s.tombstones
    ensures MovesRows(t, c, w) <==> MovesRows(s, c, w)
    ensures ClosesChallenges(t, c, w) <==> ClosesChallenges(s, c, w)
    ensures Buries(t, c, w) <==> Buries(s, c, w)
  {
    forall r ensures Spent(t, c, r) <==> Spent(s, c, r) {}
    hide Spent;
  }

  lemma ClaimLeaves(s: State, c: ClaimInput)
    requires ClaimStep(s, c).Success?
    ensures Claims(s, c, ClaimStep(s, c).value)
  {
    SucceedsExactly(s, c);
    SuccessIsRowWork(s, c);
    ClaimMovesEverything(s, c);
    var t, w := Settled(s, c), ClaimStep(s, c).value;
    assert GuestCurrent(s, c) by { ReadyMeans(s, c); }
    MergeMeans(s, c);
    WorkMoves(t, c);
    WorkCloses(t, c);
    WorkBuries(t, c);
    RowWorkMoves(t, c);
    hide Refusal, RowWork, Duplicates, Settled, MovesRows, ClosesChallenges, Buries, ClaimStep, Mergeable, Outcome, MergedProgress, GuestCurrent, OfGuest;
    SameBelow(s, t, c, w);
  }

  lemma OneOutcome(s: State, c: ClaimInput, w: State, x: State)
    requires Claims(s, c, w) && Claims(s, c, x)
    ensures w == x
  {
    hide Succeeds, Spent, Outcome, Mergeable;
    assert w.rows.Keys == x.rows.Keys && w.challenges.Keys == x.challenges.Keys;
    assert w.rows == x.rows && w.challenges == x.challenges;
    SameTombstones(s, c, w, x);
  }

  lemma SameTombstones(s: State, c: ClaimInput, w: State, x: State)
    requires Buries(s, c, w) && Buries(s, c, x)
    ensures w.tombstones == x.tombstones
  {
    hide Spent;
    forall r: Replay ensures r in w.tombstones <==> r in x.tombstones {}
    assert w.tombstones.Keys == x.tombstones.Keys;
  }

  /** A claim succeeds exactly so, and leads exactly there. */
  lemma ClaimExactly(s: State, c: ClaimInput, w: State)
    ensures ClaimStep(s, c) == Success(w) <==> Claims(s, c, w)
  {
    SucceedsExactly(s, c);
    hide ClaimStep, Succeeds, SettlesPlayer, MovesRows, ClosesChallenges, Buries, Mergeable;
    if ClaimStep(s, c).Success? {
      ClaimLeaves(s, c);
      if Claims(s, c, w) { OneOutcome(s, c, w, ClaimStep(s, c).value); }
    }
  }

  // ---------------------------------------------------------------- recovery and deletion

  /** The hash and the nonce of a challenge are buried for thirty days, everything else stays. */
  ghost predicate BuriesPair(s: State, hash: ChallengeHash, after: map<Replay, int>) {
    forall r: Replay ::
      if r == ChallengeReplay(hash) || r == NonceReplay(hash.nonce)
      then r in after && after[r] == (if r in s.tombstones && s.tombstones[r] > s.now + MONTH_MS then s.tombstones[r] else s.now + MONTH_MS)
      else (r in after <==> r in s.tombstones) && (r in s.tombstones ==> after[r] == s.tombstones[r])
  }

  lemma PairMeans(s: State, hash: ChallengeHash, after: map<Replay, int>)
    ensures BuriesPair(s, hash, after) <==> after == Entomb(s.tombstones, {ChallengeReplay(hash), NonceReplay(hash.nonce)}, s.now)
  {
    var due := Entomb(s.tombstones, {ChallengeReplay(hash), NonceReplay(hash.nonce)}, s.now);
    assert BuriesPair(s, hash, due);
    if BuriesPair(s, hash, after) {
      forall r: Replay ensures r in after <==> r in due {}
      assert after == due;
    }
  }

  /** An open challenge for this purpose that names no guest is marked consumed. */
  ghost predicate Consumes(s: State, purpose: Purpose, id: ChallengeId, claim: ClaimId, hash: ChallengeHash, w: State) {
    && purpose != ClaimPurpose && id in s.challenges && s.challenges[id] == Challenge(purpose, None, claim, hash, None)
    && hash.issued <= s.now && s.now < hash.expires && !Standing(s, ChallengeReplay(hash))
    && w == s.(challenges := s.challenges[id := Challenge(purpose, None, claim, hash, Some(s.now))], tombstones := w.tombstones)
    && BuriesPair(s, hash, w.tombstones)
  }

  lemma ConsumeExactly(s: State, purpose: Purpose, id: ChallengeId, claim: ClaimId, hash: ChallengeHash, w: State)
    ensures ConsumeStep(s, purpose, id, claim, hash) == Success(w) <==> Consumes(s, purpose, id, claim, hash, w)
  {
    StandingMeans(s, ChallengeReplay(hash));
    PairMeans(s, hash, w.tombstones);
    hide Entomb, Standing, Tombstoned, BuriesPair;
  }
}
