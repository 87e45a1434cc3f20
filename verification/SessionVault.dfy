/**
 * Player-session authority: which secrets stand for which session, how they are issued, handed over,
 * retired and buried.  One value of `Vault` is what the tables say between two transactions; one step is
 * one transaction, with one sample of the database clock.  HMAC is a free constructor, so equal digests
 * mean equal key and equal secret; deriving a rotation secret is any function at all.
 */
module SessionVault {
  import opened Basics

  type KeyIdentity = nat
  type Secret = nat
  type SessionId = nat
  type PlayerId = nat
  type ClaimId = nat

  datatype Digest = Mac(key: KeyIdentity, secret: Secret)

  /** A stored digest with its key version; the replay key of its tombstone names the same pair. */
  datatype Credential = Credential(version: nat, digest: Digest)

  datatype HmacKey = HmacKey(
    version: nat, identity: KeyIdentity, activatedAt: int, verifyUntil: Option<int>, compromisedAt: Option<int>)

  const DAY_MS: int := 86400000
  const IDLE_MS: int := 7 * DAY_MS
  const ROTATE_MS: int := 7 * DAY_MS
  const LIFETIME_MS: int := 30 * DAY_MS
  const TOMBSTONE_MS: int := 30 * DAY_MS
  const GRACE_MS: int := 60000

  predicate WithinHorizon(k: HmacKey, now: int) {
    k.activatedAt <= now && (k.verifyUntil.Some? ==> now < k.verifyUntil.value)
  }

  predicate Usable(k: HmacKey, now: int) {
    WithinHorizon(k, now) && (k.compromisedAt.Some? ==> now < k.compromisedAt.value)
  }

  datatype SessionState = PendingDelivery | Active | Revoked

  datatype Slot = Current | Predecessor

  datatype Outgoing = Outgoing(credential: Credential, validUntil: int)

  datatype Session = Session(
    player: PlayerId, claim: ClaimId, state: SessionState, generation: nat, lastSeen: int, expires: int, rotateAfter: int,
    current: Option<Credential>, predecessor: Option<Outgoing>)

  /** `ring[0]` is the active key.  Tombstones map a replay key to its expiry. */
  datatype Vault = Vault(
    clock: int, players: set<PlayerId>, sessions: map<SessionId, Session>, merges: set<SessionId>,
    graves: map<Credential, int>, logouts: map<Credential, int>, ring: seq<HmacKey>)

  datatype Refusal = SessionInvalid | RotationDeferred | IssuanceFailed | RecoveryInvalid | ClaimRejected

  // ---------------------------------------------------------------- what a vault says

  predicate Holds(s: Session, c: Credential) {
    s.current == Some(c) || (s.predecessor.Some? && s.predecessor.value.credential == c)
  }

  ghost predicate Live(v: Vault, c: Credential) {
    exists id :: id in v.sessions && Holds(v.sessions[id], c)
  }

  predicate Buried(graves: map<Credential, int>, c: Credential, now: int) {
    c in graves && graves[c] > now
  }

  function Held(s: Session): set<Credential> {
    (if s.current.Some? then {s.current.value} else {}) + (if s.predecessor.Some? then {s.predecessor.value.credential} else {})
  }

  /** Insert tombstones for `cs`; an existing one keeps the later expiry. */
  function Bury(graves: map<Credential, int>, cs: set<Credential>, now: int): map<Credential, int> {
    map c | c in graves.Keys + cs ::
      if c !in cs then graves[c]
      else if c in graves && graves[c] > now + TOMBSTONE_MS then graves[c]
      else now + TOMBSTONE_MS
  }

  function CredentialOf(k: HmacKey, secret: Secret): Credential {
    Credential(k.version, Mac(k.identity, secret))
  }

  /** The keyring recomputes the digest of `secret` under the row's version and it is the row's. */
  predicate Matches(ring: seq<HmacKey>, secret: Secret, c: Credential, now: int) {
    exists i :: 0 <= i < |ring| && Usable(ring[i], now) && CredentialOf(ring[i], secret) == c
  }

  /** Which slot of `s` the secret opens now; the current slot is looked at first. */
  function OpenSlot(ring: seq<HmacKey>, secret: Secret, s: Session, now: int): Option<Slot> {
    if s.current.Some? && Matches(ring, secret, s.current.value, now) then Some(Current)
    else if s.predecessor.Some? && now < s.predecessor.value.validUntil && Matches(ring, secret, s.predecessor.value.credential, now)
    then Some(Predecessor)
    else None
  }

  function SlotCredential(s: Session, slot: Slot): Option<Credential> {
    match slot
    case Current => s.current
    case Predecessor => if s.predecessor.Some? then Some(s.predecessor.value.credential) else None
  }

  predicate Awake(s: Session, now: int) {
    now < s.expires && now < s.lastSeen + IDLE_MS
  }

  /** The session some usable key finds a live digest of `secret` in; earlier keys of the ring come first. */
  ghost function Resolve(v: Vault, secret: Secret, from: nat): Option<SessionId>
    requires from <= |v.ring|
    decreases |v.ring| - from
  {
    if from == |v.ring| then None
    else if Usable(v.ring[from], v.clock) && Live(v, CredentialOf(v.ring[from], secret)) then
      var id :| id in v.sessions && Holds(v.sessions[id], CredentialOf(v.ring[from], secret));
      Some(id)
    else Resolve(v, secret, from + 1)
  }

  /** Authenticate `secret` against a session in one of `states`; yields the session and the slot it opened. */
  ghost function Unlock(v: Vault, secret: Secret, states: set<SessionState>): Result<(SessionId, Slot), Refusal> {
    var found := Resolve(v, secret, 0);
    if found.None? || found.value !in v.sessions then Failure(SessionInvalid)
    else
      var s := v.sessions[found.value];
      var slot := OpenSlot(v.ring, secret, s, v.clock);
      if s.player !in v.players || s.state !in states || !Awake(s, v.clock) || slot.None? then Failure(SessionInvalid)
      else if Buried(v.graves, SlotCredential(s, slot.value).value, v.clock) then Failure(SessionInvalid)
      else Success((found.value, slot.value))
  }

  /** No key that can still verify makes `secret` a digest that is live or freshly buried. */
  ghost predicate Fresh(v: Vault, secret: Secret) {
    forall i :: 0 <= i < |v.ring| && WithinHorizon(v.ring[i], v.clock) ==>
      !Buried(v.graves, CredentialOf(v.ring[i], secret), v.clock) && !Live(v, CredentialOf(v.ring[i], secret))
  }

  /** The first fresh secret among the generator's first four. */
  ghost function Issue(v: Vault, offers: seq<Secret>): Option<Secret> {
    if offers == [] then None
    else if Fresh(v, offers[0]) then Some(offers[0])
    else Issue(v, offers[1..])
  }

  predicate ActiveKeyReady(v: Vault) {
    |v.ring| > 0 && Usable(v.ring[0], v.clock)
  }

  function Min(a: int, b: int): int { if a < b then a else b }
  function Max(a: int, b: int): int { if a < b then b else a }

  // ---------------------------------------------------------------- transactions

  /** The session part of a successful guest claim. */
  ghost function ClaimStep(v: Vault, id: SessionId, player: PlayerId, create: bool, claim: ClaimId, offers: seq<Secret>): Result<Vault, Refusal> {
    var issued := Issue(v, if |offers| > 4 then offers[..4] else offers);
    if !ActiveKeyReady(v) || issued.None? then Failure(IssuanceFailed)
    else if id in v.sessions || (create <==> player in v.players)
      || (exists other :: other in v.sessions && v.sessions[other].player == player && v.sessions[other].claim == claim) then Failure(ClaimRejected)
    else Success(Claimed(v, id, player, claim, CredentialOf(v.ring[0], issued.value)))
  }

  function Claimed(v: Vault, id: SessionId, player: PlayerId, claim: ClaimId, c: Credential): Vault {
    v.(players := v.players + {player}, merges := v.merges + {id},
       sessions := v.sessions[id := Session(player, claim, PendingDelivery, 1, v.clock, v.clock + LIFETIME_MS, v.clock + ROTATE_MS, Some(c), None)])
  }

  /** Recovery of an undelivered session by fresh wallet proof: both slots go, only the current one is buried. */
  ghost function RecoverStep(v: Vault, id: SessionId, proven: bool, offers: seq<Secret>): Result<Vault, Refusal> {
    var issued := Issue(v, if |offers| > 4 then offers[..4] else offers);
    if id !in v.sessions || !proven || v.sessions[id].player !in v.players then Failure(RecoveryInvalid)
    else
      var s := v.sessions[id];
      if s.current.None? || !ActiveKeyReady(v) || issued.None? || s.state != PendingDelivery || s.expires <= v.clock
         || Buried(v.graves, s.current.value, v.clock) then Failure(RecoveryInvalid)
      else Success(Redelivered(v, id, CredentialOf(v.ring[0], issued.value)))
  }

  function Redelivered(v: Vault, id: SessionId, c: Credential): Vault
    requires id in v.sessions && v.sessions[id].current.Some?
  {
    var s := v.sessions[id];
    v.(graves := Bury(v.graves, {s.current.value}, v.clock),
       sessions := v.sessions[id := s.(
         generation := s.generation + 1, lastSeen := v.clock, rotateAfter := Min(s.expires - 1, v.clock + ROTATE_MS),
         current := Some(c), predecessor := None)])
  }

  /** Acknowledging delivery needs the current secret and the latest generation. */
  function AcknowledgeStep(v: Vault, id: SessionId, secret: Secret, generation: nat): Result<Vault, Refusal> {
    if id !in v.sessions || v.sessions[id].player !in v.players then Failure(RecoveryInvalid)
    else
      var s := v.sessions[id];
      if s.current.None? || s.state == Revoked || s.generation != generation || !Awake(s, v.clock)
         || !Matches(v.ring, secret, s.current.value, v.clock) || Buried(v.graves, s.current.value, v.clock) then Failure(RecoveryInvalid)
      else if s.state == Active then Success(v)
      else Success(v.(sessions := v.sessions[id := s.(state := Active, lastSeen := v.clock)]))
  }

  ghost function AuthenticateStep(v: Vault, secret: Secret): Result<Vault, Refusal> {
    match Unlock(v, secret, {Active})
    case Failure(e) => Failure(e)
    case Success(at) => Success(Touched(v, at.0))
  }

  function Touched(v: Vault, id: SessionId): Vault
    requires id in v.sessions
  {
    v.(sessions := v.sessions[id := v.sessions[id].(lastSeen := v.clock)])
  }

  /** Every verifying key's digest of the derived secret is unburied, and live only as the row already current. */
  ghost predicate DerivedClear(v: Vault, secret: Secret, allowed: Option<Credential>) {
    forall i :: 0 <= i < |v.ring| && WithinHorizon(v.ring[i], v.clock) ==>
      var c := CredentialOf(v.ring[i], secret);
      !Buried(v.graves, c, v.clock) && (Live(v, c) ==> Some(c) == allowed)
  }

  datatype Rotated = Rotated(vault: Vault, secret: Secret, generation: nat)

  /** Rotation; `derive` is the keyed derivation of the replacement secret. */
  ghost function RotateStep(v: Vault, secret: Secret, derive: (KeyIdentity, Secret) -> Secret): Result<Rotated, Refusal> {
    match Unlock(v, secret, {Active, PendingDelivery})
    case Failure(e) => Failure(e)
    case Success(at) =>
      var s, slot := v.sessions[at.0], at.1;
      if !ActiveKeyReady(v) then Failure(SessionInvalid)
      else if s.state == PendingDelivery then
        if slot == Current || s.current.None? then Failure(SessionInvalid)
        else
          var replacement := derive(s.predecessor.value.credential.digest.key, secret);
          if !DerivedClear(v, replacement, s.current) then Failure(SessionInvalid)
          else Success(Rotated(Touched(v, at.0), replacement, s.generation))
      else if slot == Predecessor then Failure(SessionInvalid)
      else if s.predecessor.Some? && v.clock < s.predecessor.value.validUntil then Failure(RotationDeferred)
      else
        var replacement := derive(s.current.value.digest.key, secret);
        if !DerivedClear(v, replacement, None) then Failure(SessionInvalid)
        else Success(Rotated(HandedOver(v, at.0, CredentialOf(v.ring[0], replacement)), replacement, s.generation + 1))
  }

  /** Bury a lapsed predecessor, demote the current digest for the grace period, install the new one. */
  function HandedOver(v: Vault, id: SessionId, c: Credential): Vault
    requires id in v.sessions && v.sessions[id].current.Some?
  {
    var s := v.sessions[id];
    var next := s.(
      state := PendingDelivery, lastSeen := v.clock, rotateAfter := Min(s.expires, v.clock + ROTATE_MS),
      generation := s.generation + 1, current := Some(c),
      predecessor := Some(Outgoing(s.current.value, Min(s.expires, v.clock + GRACE_MS))));
    var graves := if s.predecessor.Some? then Bury(v.graves, {s.predecessor.value.credential}, v.clock) else v.graves;
    v.(graves := graves, sessions := v.sessions[id := next])
  }

  predicate LoggedOut(v: Vault, secret: Secret) {
    exists i :: 0 <= i < |v.ring| && WithinHorizon(v.ring[i], v.clock) && Buried(v.logouts, CredentialOf(v.ring[i], secret), v.clock)
  }

  /** Retire every slot of a session: both buried, session revoked. */
  function Retired(s: Session, lastSeen: int): Session {
    s.(state := Revoked, lastSeen := lastSeen, current := None, predecessor := None)
  }

  ghost function LogoutStep(v: Vault, secret: Secret): Result<Vault, Refusal> {
    if LoggedOut(v, secret) then Success(v)
    else
      match Unlock(v, secret, {Active, PendingDelivery})
      case Failure(e) => Failure(e)
      case Success(at) => Success(SignedOff(v, at.0))
  }

  function SignedOff(v: Vault, id: SessionId): Vault
    requires id in v.sessions
  {
    var s := v.sessions[id];
    v.(graves := Bury(v.graves, Held(s), v.clock), logouts := Bury(v.logouts, Held(s), v.clock), sessions := v.sessions[id := Retired(s, v.clock)])
  }

  /** A revoked session without digests and without a merge receipt is deleted. */
  function Sweep(v: Vault, id: SessionId): Vault {
    if id in v.sessions && v.sessions[id].state == Revoked && v.sessions[id].current.None? && v.sessions[id].predecessor.None?
       && id !in v.merges then v.(sessions := v.sessions - {id})
    else v
  }

  /** Retention for one candidate session. */
  function ExpireStep(v: Vault, id: SessionId): Vault {
    if id !in v.sessions || v.sessions[id].player !in v.players then v
    else
      var s := v.sessions[id];
      if Awake(s, v.clock) || (s.state == Revoked && s.current.None? && s.predecessor.None?) then v
      else Sweep(v.(graves := Bury(v.graves, Held(s), v.clock),
                    sessions := v.sessions[id := Retired(s, Min(s.expires, Max(s.lastSeen, v.clock)))]), id)
  }

  /** Retention for one candidate predecessor. */
  function ExpirePredecessorStep(v: Vault, id: SessionId): Vault {
    if id !in v.sessions || v.sessions[id].player !in v.players then v
    else
      var s := v.sessions[id];
      if s.predecessor.None? || v.clock < s.predecessor.value.validUntil then v
      else Sweep(v.(graves := Bury(v.graves, {s.predecessor.value.credential}, v.clock), sessions := v.sessions[id := s.(predecessor := None)]), id)
  }

  predicate KeyGone(ring: seq<HmacKey>, c: Credential, now: int) {
    forall i :: 0 <= i < |ring| && ring[i].version == c.version ==> ring[i].identity != c.digest.key || !Usable(ring[i], now)
  }

  /** Purge of one digest whose key can no longer verify; losing the current digest revokes the session. */
  function PurgeStep(v: Vault, id: SessionId, slot: Slot): Vault {
    if id !in v.sessions || v.sessions[id].player !in v.players then v
    else
      var s := v.sessions[id];
      var c := SlotCredential(s, slot);
      if c.None? || !KeyGone(v.ring, c.value, v.clock) then v
      else Sweep(Purged(v, id, slot), id)
  }

  function Purged(v: Vault, id: SessionId, slot: Slot): Vault
    requires id in v.sessions && SlotCredential(v.sessions[id], slot).Some?
  {
    var s := v.sessions[id];
    var next := if slot == Current then s.(current := None, state := Revoked, lastSeen := Min(s.expires, Max(s.lastSeen, v.clock)))
                else s.(predecessor := None);
    v.(graves := Bury(v.graves, {SlotCredential(s, slot).value}, v.clock), sessions := v.sessions[id := next])
  }

  function OwnedBy(v: Vault, player: PlayerId): set<SessionId> {
    set id | id in v.sessions && v.sessions[id].player == player
  }

  function HeldBy(v: Vault, ids: set<SessionId>): set<Credential> {
    set id, c | id in ids && id in v.sessions && c in Held(v.sessions[id]) :: c
  }

  /** Deleting a player buries every digest of every session it owns, then removes its rows. */
  function DeletePlayer(v: Vault, player: PlayerId): Vault {
    var owned := OwnedBy(v, player);
    v.(graves := Bury(v.graves, HeldBy(v, owned), v.clock), players := v.players - {player},
       sessions := v.sessions - owned, merges := v.merges - owned)
  }

  /** Deletion authorised by a session needs that session's current secret. */
  ghost function DeleteStep(v: Vault, secret: Secret): Result<Vault, Refusal> {
    var found := Resolve(v, secret, 0);
    if found.None? || found.value !in v.sessions then Failure(SessionInvalid)
    else
      var s := v.sessions[found.value];
      if s.player !in v.players || s.state == Revoked || !Awake(s, v.clock) || s.current.None?
         || !Matches(v.ring, secret, s.current.value, v.clock) || Buried(v.graves, s.current.value, v.clock) then Failure(SessionInvalid)
      else Success(DeletePlayer(v, s.player))
  }

  // ---------------------------------------------------------------- runs

  datatype Op =
    | Claim(id: SessionId, player: PlayerId, create: bool, claim: ClaimId, offers: seq<Secret>)
    | Recover(id: SessionId, proven: bool, offers: seq<Secret>)
    | Acknowledge(id: SessionId, secret: Secret, generation: nat)
    | Authenticate(secret: Secret)
    | Rotate(secret: Secret, derive: (KeyIdentity, Secret) -> Secret)
    | Logout(secret: Secret)
    | Delete(secret: Secret)
    | DeleteProven(player: PlayerId)
    | Expire(id: SessionId)
    | ExpirePredecessor(id: SessionId)
    | Purge(id: SessionId, slot: Slot)
    | DropReceipt(id: SessionId)
    | ForgetTombstones
    | Pass(ms: nat)
    | ChangeKeys(ring: seq<HmacKey>)

  function OrSame(v: Vault, r: Result<Vault, Refusal>): Vault {
    match r
    case Success(next) => next
    case Failure(_) => v
  }

  /** A refused transaction rolls back. */
  ghost function Exec(v: Vault, op: Op): Vault {
    match op
    case Claim(id, player, create, claim, offers) => OrSame(v, ClaimStep(v, id, player, create, claim, offers))
    case Recover(id, proven, offers) => OrSame(v, RecoverStep(v, id, proven, offers))
    case Acknowledge(id, secret, generation) => OrSame(v, AcknowledgeStep(v, id, secret, generation))
    case Authenticate(secret) => OrSame(v, AuthenticateStep(v, secret))
    case Rotate(secret, derive) => (match RotateStep(v, secret, derive) case Success(r) => r.vault case Failure(_) => v)
    case Logout(secret) => OrSame(v, LogoutStep(v, secret))
    case Delete(secret) => OrSame(v, DeleteStep(v, secret))
    case DeleteProven(player) => DeletePlayer(v, player)
    case Expire(id) => ExpireStep(v, id)
    case ExpirePredecessor(id) => ExpirePredecessorStep(v, id)
    case Purge(id, slot) => PurgeStep(v, id, slot)
    case DropReceipt(id) => Sweep(v.(merges := v.merges - {id}), id)
    case ForgetTombstones =>
      v.(graves := map c | c in v.graves && v.graves[c] > v.clock :: v.graves[c],
         logouts := map c | c in v.logouts && v.logouts[c] > v.clock :: v.logouts[c])
    case Pass(ms) => v.(clock := v.clock + ms)
    case ChangeKeys(ring) => v.(ring := ring)
  }

  ghost function Run(v: Vault, ops: seq<Op>): Vault {
    if ops == [] then v else Exec(Run(v, ops[..|ops| - 1]), ops[|ops| - 1])
  }
}
