/**
 * Claiming a guest: every check of the transaction, the rows it writes for the player, and what becomes of the rows that
 * refer to the guest: some move to the player, some are revoked, some go with the guest.  One step is one transaction;
 * hashes are injective, so a challenge hash holds its own times.
 */
module ClaimRows {
  import opened Basics

  type GuestId = nat
  type PlayerId = nat
  type ClaimId = nat
  type ChallengeId = nat
  type IdempotencyKey = nat
  type SessionId = nat
  type ContentVersion = nat

  const FIRST_EVENING: ContentVersion := 1

  datatype Table = CommandReceipts | DomainEvents | ClaimCapabilities | GuestProgress | ResumeDigests | ReceiptIntents | RecoveryImports | SaveExports

  datatype Disposition = Transfer | Revoke

  /** The inventory of references to a guest, challenges apart. */
  function DispositionOf(t: Table): Disposition {
    if t == CommandReceipts || t == DomainEvents then Transfer else Revoke
  }

  /** Whether deleting the guest is refused while a row of this table refers to it; otherwise the row goes along. */
  predicate Restricts(t: Table) { t == ClaimCapabilities }

  /** Tables whose rows the claim deletes by itself. */
  predicate DeletedByClaim(t: Table) { t == SaveExports || t == RecoveryImports || t == ClaimCapabilities }

  datatype RowId = RowId(table: Table, id: nat)

  datatype Progress = Progress(revision: nat, content: ContentVersion, checkpoint: nat)

  /** A row refers to a guest, or to a player with the claim it came from, if any; each table uses its own columns. */
  datatype Row = Row(
    guest: Option<GuestId>, player: Option<PlayerId>, origin: Option<ClaimId>, key: IdempotencyKey, digest: nat, expires: int, progress: Progress)

  datatype Wallet = Wallet(chain: nat, account: nat)

  /** The proof key stands for the public key with its scheme. */
  datatype WalletRow = WalletRow(credential: nat, player: PlayerId, proofKey: nat, claim: ClaimId)

  datatype SessionRow = SessionRow(player: PlayerId, claim: ClaimId)

  datatype MergeRow = MergeRow(key: IdempotencyKey, hash: ChallengeHash, player: PlayerId, session: SessionId, revision: nat)

  datatype Purpose = ClaimPurpose | RecoveryPurpose | DeletePurpose

  datatype ChallengeHash = ChallengeHash(nonce: nat, intent: nat, issued: int, expires: int)

  datatype Challenge = Challenge(purpose: Purpose, guest: Option<GuestId>, claim: ClaimId, hash: ChallengeHash, consumed: Option<int>)

  datatype Replay =
    | ChallengeReplay(hash: ChallengeHash) | NonceReplay(nonce: nat) | ClaimReplay(claim: ClaimId) | KeyReplay(key: IdempotencyKey)
    | ResumeReplay(digest: nat) | CapabilityReplay(digest: nat) | ExportReplay(id: nat) | ImportReplay(id: nat) | WalletReplay(wallet: Wallet)

  datatype State = State(
    now: int, guests: set<GuestId>, players: set<PlayerId>, progress: map<PlayerId, Progress>, wallets: map<Wallet, WalletRow>,
    sessions: map<SessionId, SessionRow>, merges: map<ClaimId, MergeRow>,
    rows: map<RowId, Row>, challenges: map<ChallengeId, Challenge>, tombstones: map<Replay, int>)

  const CHALLENGE_MS: int := 300000
  const TOMBSTONE_MS: int := 30 * 86400000

  datatype Fault =
    | IntentInvalid | GuestInvalid | TargetInvalid | ChallengeInvalid | IssuanceFailed | Replayed | ClaimIdConflict | RevisionStale
    | CapabilityInvalid | WalletConflict | MergeRefused | ConstraintViolated | KeyCollision | DeleteRestricted

  predicate Tombstoned(tombstones: map<Replay, int>, r: Replay, now: int) {
    r in tombstones && tombstones[r] > now
  }

  function Entomb(tombstones: map<Replay, int>, rs: set<Replay>, now: int): map<Replay, int> {
    map r | r in tombstones.Keys + rs ::
      if r !in rs then tombstones[r]
      else if r in tombstones && tombstones[r] > now + TOMBSTONE_MS then tombstones[r]
      else now + TOMBSTONE_MS
  }

  // ---------------------------------------------------------------- challenges

  /** The stored challenge is for this purpose, guest and claim, matches what was signed, is unconsumed and in time. */
  predicate Presentable(c: Challenge, purpose: Purpose, guest: Option<GuestId>, claim: ClaimId, hash: ChallengeHash, now: int) {
    && c.purpose == purpose && c.guest == guest && c.claim == claim && c.consumed.None? && c.hash == hash
    && c.hash.issued <= now < c.hash.expires
  }

  function ChallengeReplays(c: Challenge): set<Replay> {
    {ChallengeReplay(c.hash), NonceReplay(c.hash.nonce)}
  }

  function Consumed(s: State, id: ChallengeId): State
    requires id in s.challenges
  {
    s.(tombstones := Entomb(s.tombstones, ChallengeReplays(s.challenges[id]), s.now),
       challenges := s.challenges[id := s.challenges[id].(consumed := Some(s.now), guest := None)])
  }

  // ---------------------------------------------------------------- the guest's rows

  predicate OfGuest(r: Row, g: GuestId) { r.guest == Some(g) }

  /** Two receipts of one subject may not share an idempotency key. */
  predicate Collides(rows: map<RowId, Row>, g: GuestId, p: PlayerId) {
    exists a, b :: a in rows && b in rows && a.table == CommandReceipts && b.table == CommandReceipts
      && OfGuest(rows[a], g) && rows[b].player == Some(p) && rows[a].key == rows[b].key
  }

  function Moved(r: Row, p: PlayerId, claim: ClaimId): Row {
    r.(guest := None, player := Some(p), origin := Some(claim))
  }

  function Rewritten(rows: map<RowId, Row>, g: GuestId, p: PlayerId, claim: ClaimId): map<RowId, Row> {
    map k | k in rows :: if DispositionOf(k.table) == Transfer && OfGuest(rows[k], g) then Moved(rows[k], p, claim) else rows[k]
  }

  function ReplayOf(k: RowId, r: Row): set<Replay> {
    match k.table
    case ResumeDigests => {ResumeReplay(r.digest)}
    case ClaimCapabilities => {CapabilityReplay(r.digest)}
    case SaveExports => {ExportReplay(k.id)}
    case RecoveryImports => {ImportReplay(k.id)}
    case _ => {}
  }

  function RowReplays(rows: map<RowId, Row>, g: GuestId): set<Replay> {
    set k, r | k in rows && OfGuest(rows[k], g) && r in ReplayOf(k, rows[k]) :: r
  }

  function SiblingReplays(challenges: map<ChallengeId, Challenge>, g: GuestId): set<Replay> {
    set id, r | id in challenges && challenges[id].guest == Some(g) && r in ChallengeReplays(challenges[id]) :: r
  }

  /** Tombstones for everything private, then the deletes that do not cascade. */
  function Revoked(s: State, g: GuestId, claim: ClaimId, key: IdempotencyKey, siblings: set<Replay>): State {
    s.(tombstones := Entomb(s.tombstones, RowReplays(s.rows, g) + siblings + {ClaimReplay(claim), KeyReplay(key)}, s.now),
       challenges := map id | id in s.challenges && s.challenges[id].guest != Some(g) :: s.challenges[id],
       rows := map k | k in s.rows && !(DeletedByClaim(k.table) && OfGuest(s.rows[k], g)) :: s.rows[k])
  }

  predicate StillReferenced(s: State, g: GuestId) {
    (exists id :: id in s.challenges && s.challenges[id].guest == Some(g))
    || (exists k :: k in s.rows && Restricts(k.table) && OfGuest(s.rows[k], g))
  }

  /** Deleting the guest takes its remaining rows along, unless a restricting row is left. */
  function GuestDeleted(s: State, g: GuestId): State {
    s.(guests := s.guests - {g}, rows := map k | k in s.rows && !OfGuest(s.rows[k], g) :: s.rows[k])
  }

  // ---------------------------------------------------------------- the checks of a claim

  /** What merging two progress rows yields: the stored checkpoint and the revision it carries. */
  datatype Merged = Merged(checkpoint: nat, revision: nat)

  /**
   * A claim as it reaches the transaction.  `verified`, `authenticated` and `issued` say how the proof, the guest's resume
   * secret and the session secret fared; `capability` is the digest the key ring recomputes, if its key still verifies;
   * the identifiers of new rows come from the generator.
   */
  datatype ClaimInput = ClaimInput(
    verified: bool, authenticated: bool, issued: bool, capability: Option<nat>,
    guest: GuestId, create: bool, target: PlayerId, claim: ClaimId, key: IdempotencyKey, challenge: ChallengeId, hash: ChallengeHash,
    guestRevision: nat, playerRevision: nat, content: ContentVersion, wallet: Wallet, proofKey: nat,
    merge: (Progress, Option<Progress>) -> Option<Merged>, newPlayer: PlayerId, session: SessionId, credential: nat)
  {
    function Owner(): PlayerId {
      if create then newPlayer else target
    }

    function NewRevision(): nat {
      if create then guestRevision else playerRevision + 1
    }
  }

  /** The one row a table keyed by the guest holds for it. */
  function GuestRow(rows: map<RowId, Row>, t: Table, g: GuestId): Option<Row> {
    if RowId(t, g) in rows && OfGuest(rows[RowId(t, g)], g) then Some(rows[RowId(t, g)]) else None
  }

  function PlayerProgress(s: State, c: ClaimInput): Option<Progress> {
    if !c.create && c.target in s.progress then Some(s.progress[c.target]) else None
  }

  predicate IntentFits(c: ClaimInput) {
    c.verified && c.guestRevision <= MAX_SAFE && (!c.create ==> c.playerRevision < MAX_SAFE)
  }

  predicate Linked(s: State, claim: ClaimId) {
    exists w :: w in s.wallets && s.wallets[w].claim == claim
  }

  predicate GuestCurrent(s: State, c: ClaimInput) {
    var row := GuestRow(s.rows, GuestProgress, c.guest);
    row.Some? && row.value.progress.revision == c.guestRevision && row.value.progress.content == c.content
  }

  predicate CapabilityFits(s: State, c: ClaimInput) {
    var row := GuestRow(s.rows, ClaimCapabilities, c.guest);
    row.Some? && s.now < row.value.expires && !Tombstoned(s.tombstones, CapabilityReplay(row.value.digest), s.now)
    && c.capability == Some(row.value.digest)
  }

  predicate WalletFits(s: State, c: ClaimInput) {
    if c.create then c.wallet !in s.wallets && !Tombstoned(s.tombstones, WalletReplay(c.wallet), s.now)
    else c.wallet in s.wallets && s.wallets[c.wallet].player == c.target && s.wallets[c.wallet].proofKey == c.proofKey
  }

  predicate PlayerCurrent(s: State, c: ClaimInput) {
    c.create || (c.target in s.progress && s.progress[c.target].revision == c.playerRevision)
  }

  function MergedProgress(s: State, c: ClaimInput): Option<Merged> {
    match GuestRow(s.rows, GuestProgress, c.guest)
    case None => None
    case Some(row) => c.merge(row.progress, PlayerProgress(s, c))
  }

  /** The first evening's checkpoint carries the revision it is stored at. */
  predicate RevisionAgrees(s: State, c: ClaimInput) {
    MergedProgress(s, c).Some? && (c.content == FIRST_EVENING ==> MergedProgress(s, c).value.revision == c.NewRevision())
  }

  /** Some unique key of the rows to be inserted is taken. */
  predicate Duplicates(s: State, c: ClaimInput) {
    || (c.create && (c.newPlayer in s.players || c.newPlayer in s.progress || exists w :: w in s.wallets && s.wallets[w].credential == c.credential))
    || c.session in s.sessions || (exists x :: x in s.sessions && s.sessions[x] == SessionRow(c.Owner(), c.claim))
    || c.claim in s.merges || exists m :: m in s.merges && TakesKey(s.merges[m], c)
  }

  /** Idempotency key, intent hash, challenge hash and session are unique among merges. */
  predicate TakesKey(m: MergeRow, c: ClaimInput) {
    m.key == c.key || m.hash.intent == c.hash.intent || m.hash == c.hash || m.session == c.session
  }

  /** The checks in the order the transaction makes them, up to the first insert. */
  function Refusal(s: State, c: ClaimInput): Option<Fault> {
    if !c.create && c.playerRevision >= MAX_SAFE then Some(RevisionStale)
    else if !IntentFits(c) then Some(IntentInvalid)
    else if !c.authenticated || c.guest !in s.guests then Some(GuestInvalid)
    else if !c.create && c.target !in s.players then Some(TargetInvalid)
    else if c.challenge !in s.challenges || s.challenges[c.challenge].guest != Some(c.guest) then Some(ChallengeInvalid)
    else if !c.issued then Some(IssuanceFailed)
    else if Tombstoned(s.tombstones, ChallengeReplay(c.hash), s.now) || Tombstoned(s.tombstones, ClaimReplay(c.claim), s.now)
      || Tombstoned(s.tombstones, KeyReplay(c.key), s.now) then Some(Replayed)
    else if Linked(s, c.claim) then Some(ClaimIdConflict)
    else if !Presentable(s.challenges[c.challenge], ClaimPurpose, Some(c.guest), c.claim, c.hash, s.now) then Some(ChallengeInvalid)
    else if !GuestCurrent(s, c) then Some(RevisionStale)
    else if !CapabilityFits(s, c) then Some(CapabilityInvalid)
    else if !WalletFits(s, c) then Some(WalletConflict)
    else if !PlayerCurrent(s, c) then Some(RevisionStale)
    else if MergedProgress(s, c).None? then Some(MergeRefused)
    else if !RevisionAgrees(s, c) then Some(RevisionStale)
    else None
  }

  /** The inserts for the player: its row, wallet and progress, the session, and the merge receipt. */
  function Settled(s: State, c: ClaimInput): State
    requires MergedProgress(s, c).Some?
  {
    var p := c.Owner();
    s.(players := s.players + {p},
       wallets := if c.create then s.wallets[c.wallet := WalletRow(c.credential, p, c.proofKey, c.claim)] else s.wallets,
       progress := s.progress[p := Progress(c.NewRevision(), c.content, MergedProgress(s, c).value.checkpoint)],
       sessions := s.sessions[c.session := SessionRow(p, c.claim)],
       merges := s.merges[c.claim := MergeRow(c.key, c.hash, p, c.session, c.NewRevision())])
  }

  /** The row work: consume the challenge, move the history, revoke the rest, delete the guest. */
  function RowWork(s: State, c: ClaimInput): Result<State, Fault>
    requires c.challenge in s.challenges
  {
    if Collides(s.rows, c.guest, c.Owner()) then Failure(KeyCollision)
    else
      var consumed := Consumed(s, c.challenge);
      var rewritten := consumed.(rows := Rewritten(consumed.rows, c.guest, c.Owner(), c.claim));
      var revoked := Revoked(rewritten, c.guest, c.claim, c.key, SiblingReplays(s.challenges, c.guest));
      if StillReferenced(revoked, c.guest) then Failure(DeleteRestricted) else Success(GuestDeleted(revoked, c.guest))
  }

  function ClaimStep(s: State, c: ClaimInput): Result<State, Fault> {
    match Refusal(s, c)
    case Some(fault) => Failure(fault)
    case None => if Duplicates(s, c) then Failure(ConstraintViolated) else RowWork(Settled(s, c), c)
  }

  /** Recovery and deletion consume a challenge that names no guest. */
  function ConsumeStep(s: State, purpose: Purpose, id: ChallengeId, claim: ClaimId, hash: ChallengeHash): Result<State, Fault> {
    if id !in s.challenges || purpose == ClaimPurpose then Failure(ChallengeInvalid)
    else if Tombstoned(s.tombstones, ChallengeReplay(hash), s.now) then Failure(Replayed)
    else if !Presentable(s.challenges[id], purpose, None, claim, hash, s.now) then Failure(ChallengeInvalid)
    else Success(Consumed(s, id))
  }

  // ---------------------------------------------------------------- the tables, updated in place

  class ClaimStore {
    var now: int
    var guests: set<GuestId>
    var players: set<PlayerId>
    var progress: map<PlayerId, Progress>
    var wallets: map<Wallet, WalletRow>
    var sessions: map<SessionId, SessionRow>
    var merges: map<ClaimId, MergeRow>
    var rows: map<RowId, Row>
    var challenges: map<ChallengeId, Challenge>
    var tombstones: map<Replay, int>

    function View(): State
      reads this
    {
      State(now, guests, players, progress, wallets, sessions, merges, rows, challenges, tombstones)
    }

    constructor (now: int)
      ensures View() == State(now, {}, {}, map[], map[], map[], map[], map[], map[], map[])
    {
      this.now, guests, players, progress, wallets := now, {}, {}, map[], map[];
      sessions, merges, rows, challenges, tombstones := map[], map[], map[], map[], map[];
    }

    method InsertTombstone(r: Replay)
      modifies `tombstones
      ensures tombstones == Entomb(old(tombstones), {r}, now)
    {
      var until := now + TOMBSTONE_MS;
      tombstones := tombstones[r := if r in tombstones && tombstones[r] > until then tombstones[r] else until];
    }

    method InsertTombstones(rs: set<Replay>)
      modifies `tombstones
      ensures tombstones == Entomb(old(tombstones), rs, now)
    {
      var pending := rs;
      EntombNothing(tombstones, now);
      while pending != {}
        invariant pending <= rs && tombstones == Entomb(old(tombstones), rs - pending, now)
      {
        var r :| r in pending;
        EntombTwice(old(tombstones), rs - pending, {r}, now);
        assert rs - (pending - {r}) == rs - pending + {r};
        InsertTombstone(r);
        pending := pending - {r};
      }
      assert rs - pending == rs;
    }

    method ConsumeChallenge(id: ChallengeId) returns (ok: bool)
      requires id in challenges
      modifies `tombstones, `challenges
      ensures ok <==> old(challenges)[id].consumed.None? && now < old(challenges)[id].hash.expires
      ensures ok ==> View() == Consumed(old(View()), id)
    {
      var stored := challenges[id];
      EntombTwice(tombstones, {ChallengeReplay(stored.hash)}, {NonceReplay(stored.hash.nonce)}, now);
      assert ChallengeReplays(stored) == {ChallengeReplay(stored.hash)} + {NonceReplay(stored.hash.nonce)};
      InsertTombstone(ChallengeReplay(stored.hash));
      InsertTombstone(NonceReplay(stored.hash.nonce));
      ok := stored.consumed.None? && now < stored.hash.expires;
      if ok { challenges := challenges[id := stored.(consumed := Some(now), guest := None)]; }
    }

    /** One update per table that transfers, in inventory order. */
    method RewriteGuestRows(g: GuestId, p: PlayerId, claim: ClaimId)
      modifies `rows
      ensures rows == Rewritten(old(rows), g, p, claim)
    {
      var inventory := [CommandReceipts, DomainEvents, ClaimCapabilities, GuestProgress, ResumeDigests, ReceiptIntents, RecoveryImports, SaveExports];
      var i := 0;
      while i < |inventory|
        invariant i <= |inventory| && rows.Keys == old(rows).Keys
        invariant forall k :: k in rows ==>
          rows[k] == if k.table in inventory[..i] && DispositionOf(k.table) == Transfer && OfGuest(old(rows)[k], g) then Moved(old(rows)[k], p, claim) else old(rows)[k]
      {
        var table := inventory[i];
        if DispositionOf(table) == Transfer {
          rows := map k | k in rows :: if k.table == table && OfGuest(rows[k], g) then Moved(rows[k], p, claim) else rows[k];
        }
        assert inventory[..i + 1] == inventory[..i] + [table];
        i := i + 1;
      }
      assert inventory[..i] == inventory && inventory[0] == CommandReceipts && inventory[1] == DomainEvents;
      assert forall t: Table :: DispositionOf(t) == Transfer ==> t in inventory;
    }

    method RevokeGuestPrivateRows(g: GuestId, claim: ClaimId, key: IdempotencyKey, siblings: set<Replay>)
      modifies `tombstones, `challenges, `rows
      ensures View() == Revoked(old(View()), g, claim, key, siblings)
    {
      InsertTombstones(RowReplays(rows, g) + siblings + {ClaimReplay(claim), KeyReplay(key)});
      challenges := map id | id in challenges && challenges[id].guest != Some(g) :: challenges[id];
      rows := map k | k in rows && !(DeletedByClaim(k.table) && OfGuest(rows[k], g)) :: rows[k];
    }

    /** The checks, one after the other. */
    method CheckClaim(c: ClaimInput) returns (fault: Option<Fault>)
      ensures fault == Refusal(View(), c)
    {
      if !c.create && c.playerRevision >= MAX_SAFE { return Some(RevisionStale); }
      if !IntentFits(c) { return Some(IntentInvalid); }
      if !c.authenticated || c.guest !in guests { return Some(GuestInvalid); }
      if !c.create && c.target !in players { return Some(TargetInvalid); }
      if c.challenge !in challenges || challenges[c.challenge].guest != Some(c.guest) { return Some(ChallengeInvalid); }
      if !c.issued { return Some(IssuanceFailed); }
      if Tombstoned(tombstones, ChallengeReplay(c.hash), now) || Tombstoned(tombstones, ClaimReplay(c.claim), now)
         || Tombstoned(tombstones, KeyReplay(c.key), now) { return Some(Replayed); }
      if Linked(View(), c.claim) { return Some(ClaimIdConflict); }
      if !Presentable(challenges[c.challenge], ClaimPurpose, Some(c.guest), c.claim, c.hash, now) { return Some(ChallengeInvalid); }
      fault := CheckEntitlement(c);
    }

    /** Revisions, capability, wallet and merge. */
    method CheckEntitlement(c: ClaimInput) returns (fault: Option<Fault>)
      ensures fault == if !GuestCurrent(View(), c) then Some(RevisionStale)
        else if !CapabilityFits(View(), c) then Some(CapabilityInvalid)
        else if !WalletFits(View(), c) then Some(WalletConflict)
        else if !PlayerCurrent(View(), c) then Some(RevisionStale)
        else if MergedProgress(View(), c).None? then Some(MergeRefused)
        else if !RevisionAgrees(View(), c) then Some(RevisionStale) else None
    {
      var own := GuestRow(rows, GuestProgress, c.guest);
      if own.None? || own.value.progress.revision != c.guestRevision || own.value.progress.content != c.content { return Some(RevisionStale); }
      var held := GuestRow(rows, ClaimCapabilities, c.guest);
      if held.None? || held.value.expires <= now || Tombstoned(tombstones, CapabilityReplay(held.value.digest), now)
         || c.capability != Some(held.value.digest) { return Some(CapabilityInvalid); }
      if c.create {
        if c.wallet in wallets || Tombstoned(tombstones, WalletReplay(c.wallet), now) { return Some(WalletConflict); }
      } else {
        if c.wallet !in wallets || wallets[c.wallet].player != c.target || wallets[c.wallet].proofKey != c.proofKey { return Some(WalletConflict); }
        if c.target !in progress || progress[c.target].revision != c.playerRevision { return Some(RevisionStale); }
      }
      var merged := c.merge(own.value.progress, if !c.create && c.target in progress then Some(progress[c.target]) else None);
      if merged.None? { return Some(MergeRefused); }
      return if c.content == FIRST_EVENING && merged.value.revision != c.NewRevision() then Some(RevisionStale) else None;
    }

    /** The inserts and updates for the player, statement by statement. */
    method Settle(c: ClaimInput, checkpoint: nat)
      requires MergedProgress(View(), c).Some? && checkpoint == MergedProgress(View(), c).value.checkpoint
      requires c.create || c.target in players
      modifies `players, `wallets, `progress, `sessions, `merges
      ensures View() == Settled(old(View()), c)
    {
      var p := c.Owner();
      if c.create {
        players := players + {p};
        wallets := wallets[c.wallet := WalletRow(c.credential, p, c.proofKey, c.claim)];
        progress := progress[p := Progress(c.guestRevision, c.content, checkpoint)];
      } else {
        progress := progress[p := Progress(c.playerRevision + 1, c.content, checkpoint)];
      }
      assert players == old(players) + {p};
      sessions := sessions[c.session := SessionRow(p, c.claim)];
      merges := merges[c.claim := MergeRow(c.key, c.hash, p, c.session, c.NewRevision())];
    }

    /** A claim that fails anywhere leaves every table as it was. */
    method ClaimGuest(c: ClaimInput) returns (r: Result<(), Fault>)
      modifies this
      ensures match ClaimStep(old(View()), c)
        case Success(next) => r == Success(()) && View() == next
        case Failure(fault) => r == Failure(fault) && View() == old(View())
    {
      var refused := CheckClaim(c);
      if refused.Some? { return Failure(refused.value); }
      if Duplicates(View(), c) { return Failure(ConstraintViolated); }
      if Collides(rows, c.guest, c.Owner()) { RefusedCollides(View(), c); return Failure(KeyCollision); }
      PassedChecks(View(), c);
      hide Collides, Rewritten, Revoked, StillReferenced, Tombstoned, SiblingReplays, GuestDeleted, Refusal, Duplicates, Settled, RowWork, Presentable;
      Settle(c, MergedProgress(View(), c).value.checkpoint);
      WorkOnRows(c);
      return Success(());
    }

    /** Consume the challenge, then move, revoke and delete. */
    method WorkOnRows(c: ClaimInput)
      requires c.challenge in challenges && Presentable(challenges[c.challenge], ClaimPurpose, Some(c.guest), c.claim, c.hash, now)
      requires !Collides(rows, c.guest, c.Owner())
      modifies `guests, `rows, `challenges, `tombstones
      ensures RowWork(old(View()), c) == Success(View())
    {
      var siblings := SiblingReplays(challenges, c.guest);
      hide Collides, Rewritten, Revoked, StillReferenced, Tombstoned, SiblingReplays, GuestDeleted;
      RowWorkLeavesNoReference(View(), c);
      var ok := ConsumeChallenge(c.challenge);
      RewriteGuestRows(c.guest, c.Owner(), c.claim);
      RevokeGuestPrivateRows(c.guest, c.claim, c.key, siblings);
      DeleteGuest(c.guest);
    }

    method DeleteGuest(g: GuestId)
      modifies `guests, `rows
      ensures View() == GuestDeleted(old(View()), g)
    {
      guests := guests - {g};
      rows := map k | k in rows && !OfGuest(rows[k], g) :: rows[k];
    }
  }

  lemma EntombNothing(tombstones: map<Replay, int>, now: int)
    ensures Entomb(tombstones, {}, now) == tombstones
  {
  }

  lemma EntombTwice(tombstones: map<Replay, int>, a: set<Replay>, b: set<Replay>, now: int)
    ensures Entomb(Entomb(tombstones, a, now), b, now) == Entomb(tombstones, a + b, now)
  {
  }

  /** What a claim that no check refuses has shown. */
  lemma PassedChecks(s: State, c: ClaimInput)
    requires Refusal(s, c).None?
    ensures c.challenge in s.challenges && MergedProgress(s, c).Some? && (c.create || c.target in s.players)
    ensures Presentable(s.challenges[c.challenge], ClaimPurpose, Some(c.guest), c.claim, c.hash, s.now)
    ensures var w := Settled(s, c); w.rows == s.rows && w.challenges == s.challenges && w.now == s.now && w.tombstones == s.tombstones && w.guests == s.guests
    ensures !Duplicates(s, c) ==> ClaimStep(s, c) == RowWork(Settled(s, c), c)
  {
    hide Tombstoned, Linked, GuestCurrent, CapabilityFits, WalletFits, Duplicates, RowWork;
  }

  lemma RefusedCollides(s: State, c: ClaimInput)
    requires Refusal(s, c).None? && !Duplicates(s, c) && Collides(s.rows, c.guest, c.Owner())
    ensures ClaimStep(s, c) == Failure(KeyCollision)
  {
    hide Refusal, Duplicates, Collides;
    PassedChecks(s, c);
    hide Settled;
  }

  /** After the rewrite and the revocations nothing restricts deleting the guest. */
  lemma RowWorkLeavesNoReference(s: State, c: ClaimInput)
    requires c.challenge in s.challenges
    ensures var consumed := Consumed(s, c.challenge);
      var rewritten := consumed.(rows := Rewritten(consumed.rows, c.guest, c.Owner(), c.claim));
      !StillReferenced(Revoked(rewritten, c.guest, c.claim, c.key, SiblingReplays(s.challenges, c.guest)), c.guest)
  {
    hide Entomb, RowReplays, SiblingReplays, Rewritten;
  }
}
