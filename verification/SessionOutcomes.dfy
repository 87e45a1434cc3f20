/**
 * What each session transaction requires and leaves, field by field: who a secret opens, what is issued, what a
 * log-out, an acknowledgement, a rotation or a clean-up does to the session, and what follows for later runs.
 */
module SessionOutcomes {
  import opened Basics
  import opened SessionVault
  import opened SessionSafety
  import opened SessionRotation

  const MINUTE_MS: int := 60000
  const WEEK_MS: int := 604800000
  const MONTH_MS: int := 2592000000

  // ---------------------------------------------------------------- who a secret opens

  /** The keyring's `i`-th key, active and not retired, digests `secret` to `c`. */
  predicate Digests(v: Vault, i: nat, secret: Secret, c: Credential)
    requires i < |v.ring|
  {
    var k := v.ring[i];
    k.activatedAt <= v.clock && (k.verifyUntil == None || v.clock < k.verifyUntil.value) && c == Credential(k.version, Mac(k.identity, secret))
  }

  /** And the key is not compromised. */
  predicate Verifies(v: Vault, i: nat, secret: Secret, c: Credential)
    requires i < |v.ring|
  {
    Digests(v, i, secret, c) && (v.ring[i].compromisedAt == None || v.clock < v.ring[i].compromisedAt.value)
  }

  predicate InSlot(s: Session, slot: Slot, c: Credential) {
    match slot
    case Current => s.current == Some(c)
    case Predecessor => s.predecessor.Some? && s.predecessor.value.credential == c
  }

  /** The first key of the ring under which the secret is any session's digest leads to session `id`. */
  ghost predicate FoundFirst(v: Vault, secret: Secret, id: SessionId) {
    exists i, c, slot | 0 <= i < |v.ring| && Verifies(v, i, secret, c) && id in v.sessions && InSlot(v.sessions[id], slot, c) ::
      forall j, d, other, t | 0 <= j < i && Verifies(v, j, secret, d) && other in v.sessions :: !InSlot(v.sessions[other], t, d)
  }

  /** Some key verifies the secret against what the slot holds, inside the grace period for an outgoing one. */
  ghost predicate SlotOpens(v: Vault, secret: Secret, s: Session, slot: Slot) {
    && (exists i, c :: 0 <= i < |v.ring| && Verifies(v, i, secret, c) && InSlot(s, slot, c))
    && (slot == Predecessor ==> s.predecessor.Some? && v.clock < s.predecessor.value.validUntil)
  }

  /** What the slot holds lies in the graveyard, its tombstone not yet lapsed. */
  ghost predicate SlotSpent(v: Vault, s: Session, slot: Slot) {
    exists c :: InSlot(s, slot, c) && c in v.graves && v.graves[c] > v.clock
  }

  ghost predicate Unlocks(v: Vault, secret: Secret, states: set<SessionState>, id: SessionId, slot: Slot) {
    && FoundFirst(v, secret, id) && id in v.sessions
    && var s := v.sessions[id];
      && s.player in v.players && s.state in states && v.clock < s.expires && v.clock < s.lastSeen + WEEK_MS
      && SlotOpens(v, secret, s, slot) && (slot == Predecessor ==> !SlotOpens(v, secret, s, Current)) && !SlotSpent(v, s, slot)
  }

  lemma VerifiesMeans(v: Vault, i: nat, secret: Secret, c: Credential)
    requires i < |v.ring|
    ensures Verifies(v, i, secret, c) <==> Usable(v.ring[i], v.clock) && CredentialOf(v.ring[i], secret) == c
    ensures Digests(v, i, secret, c) <==> WithinHorizon(v.ring[i], v.clock) && CredentialOf(v.ring[i], secret) == c
  {
  }

  lemma HoldsMeans(s: Session, c: Credential)
    ensures Holds(s, c) <==> exists slot :: InSlot(s, slot, c)
  {
    assert InSlot(s, Current, c) <==> s.current == Some(c);
    assert InSlot(s, Predecessor, c) <==> s.predecessor.Some? && s.predecessor.value.credential == c;
  }

  /** Resolution finds a session exactly when the first key that finds anything leads to it. */
  lemma ResolvesExactly(v: Vault, secret: Secret, id: SessionId)
    requires Safe(v)
    ensures Resolve(v, secret, 0) == Some(id) <==> FoundFirst(v, secret, id)
  {
    if Resolve(v, secret, 0) == Some(id) {
      FirstIsFound(v, secret, id);
    }
    if FoundFirst(v, secret, id) {
      FoundIsFirst(v, secret, id);
    }
  }

  lemma NotLiveInSlot(v: Vault, c: Credential, other: SessionId, t: Slot)
    requires !Live(v, c) && other in v.sessions
    ensures !InSlot(v.sessions[other], t, c)
  {
    HoldsMeans(v.sessions[other], c);
    hide InSlot, Holds;
  }

  lemma FirstIsFound(v: Vault, secret: Secret, id: SessionId)
    requires Safe(v) && Resolve(v, secret, 0) == Some(id)
    ensures FoundFirst(v, secret, id)
  {
    var at := ResolvedAt(v, secret, 0);
    hide Safe, Resolve, Usable, WithinHorizon, Live, Holds, InSlot;
    var c := CredentialOf(v.ring[at], secret);
    HoldsMeans(v.sessions[id], c);
    VerifiesMeans(v, at, secret, c);
    var slot :| InSlot(v.sessions[id], slot, c);
    forall j, d, other, t | 0 <= j < at && Verifies(v, j, secret, d) && other in v.sessions ensures !InSlot(v.sessions[other], t, d) {
      VerifiesMeans(v, j, secret, d);
      NotLiveInSlot(v, d, other, t);
    }
  }

  lemma FoundIsFirst(v: Vault, secret: Secret, id: SessionId)
    requires Safe(v) && FoundFirst(v, secret, id)
    ensures Resolve(v, secret, 0) == Some(id)
  {
    hide Safe, Resolve, Usable, WithinHorizon, Holds, InSlot;
    var i, c, slot :| 0 <= i < |v.ring| && Verifies(v, i, secret, c) && id in v.sessions && InSlot(v.sessions[id], slot, c)
      && forall j, d, other, t | 0 <= j < i && Verifies(v, j, secret, d) && other in v.sessions :: !InSlot(v.sessions[other], t, d);
    VerifiesMeans(v, i, secret, c);
    HoldsMeans(v.sessions[id], c);
    forall j | 0 <= j < i && Usable(v.ring[j], v.clock) ensures !Live(v, CredentialOf(v.ring[j], secret)) {
      var d := CredentialOf(v.ring[j], secret);
      VerifiesMeans(v, j, secret, d);
      forall other | other in v.sessions ensures !Holds(v.sessions[other], d) {
        HoldsMeans(v.sessions[other], d);
      }
    }
    ResolvesTo(v, secret, 0, i, id);
  }

  lemma SlotOpensMeans(v: Vault, secret: Secret, s: Session, slot: Slot)
    ensures SlotOpens(v, secret, s, slot) <==>
      && SlotCredential(s, slot).Some? && Matches(v.ring, secret, SlotCredential(s, slot).value, v.clock)
      && (slot == Predecessor ==> v.clock < s.predecessor.value.validUntil)
  {
    forall c ensures InSlot(s, slot, c) <==> SlotCredential(s, slot) == Some(c) {}
    hide Usable, WithinHorizon, SlotCredential, InSlot;
    if SlotCredential(s, slot).Some? {
      var c := SlotCredential(s, slot).value;
      if Matches(v.ring, secret, c, v.clock) {
        var i :| 0 <= i < |v.ring| && Usable(v.ring[i], v.clock) && CredentialOf(v.ring[i], secret) == c;
        VerifiesMeans(v, i, secret, c);
      }
    }
    if i, c :| 0 <= i < |v.ring| && Verifies(v, i, secret, c) && InSlot(s, slot, c) {
      VerifiesMeans(v, i, secret, c);
    }
  }

  /** A secret authenticates as slot `slot` of session `id` exactly under these conditions. */
  lemma UnlocksExactly(v: Vault, secret: Secret, states: set<SessionState>, id: SessionId, slot: Slot)
    requires Safe(v)
    ensures Unlock(v, secret, states) == Success((id, slot)) <==> Unlocks(v, secret, states, id, slot)
  {
    ResolvesExactly(v, secret, id);
    if id in v.sessions {
      SlotOpensMeans(v, secret, v.sessions[id], Current);
      SlotOpensMeans(v, secret, v.sessions[id], Predecessor);
    }
    hide Safe, Resolve, FoundFirst, Matches, SlotOpens, Usable;
  }

  /** The current secret of a session opens it when the ring's first key made its digest. */
  lemma DeliveredOpens(v: Vault, secret: Secret, states: set<SessionState>, id: SessionId)
    requires Safe(v) && id in v.sessions && |v.ring| > 0 && v.sessions[id].current.Some? && Verifies(v, 0, secret, v.sessions[id].current.value)
    requires v.sessions[id].state in states && v.clock < v.sessions[id].expires && v.clock < v.sessions[id].lastSeen + WEEK_MS
    ensures Unlock(v, secret, states) == Success((id, Current))
  {
    var c := v.sessions[id].current.value;
    assert InSlot(v.sessions[id], Current, c);
    assert !SlotSpent(v, v.sessions[id], Current) by { assert Holds(v.sessions[id], c) && !Buried(v.graves, c, v.clock); }
    assert FoundFirst(v, secret, id) && SlotOpens(v, secret, v.sessions[id], Current);
    UnlocksExactly(v, secret, states, id, Current);
    hide Unlock, Verifies, Safe;
  }
}
