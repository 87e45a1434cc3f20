/** Rotation hand-over: what the grace window allows, what a retry returns, and what recovery leaves behind. */
module SessionRotation {
  import opened Basics
  import opened SessionVault
  import opened SessionSafety

  /** After later rotations or recoveries an older delivery generation can no longer be acknowledged. */
  lemma OnlyLatestIsAcknowledged(v: Vault, ops: seq<Op>, id: SessionId, secret: Secret, generation: nat)
    requires forall i :: 0 <= i < |ops| ==> !(ops[i].Claim? && ops[i].id == id)
    requires id in v.sessions && generation < v.sessions[id].generation
    ensures AcknowledgeStep(Run(v, ops), id, secret, generation).Failure?
  {
    RunRaisesGeneration(v, ops, id);
  }

  /** The outgoing digest is still in its slot of session `id`, or lies buried at least until `horizon`. */
  ghost predicate Fading(v: Vault, id: SessionId, o: Outgoing, horizon: int) {
    (id in v.sessions && v.sessions[id].predecessor == Some(o)) || (o.credential in v.graves && v.graves[o.credential] >= horizon)
  }

  /** Deleting the player buries the outgoing digests of all its sessions. */
  lemma DeletionFades(v: Vault, player: PlayerId, id: SessionId, o: Outgoing)
    requires id in v.sessions && v.sessions[id].predecessor == Some(o)
    ensures Fading(DeletePlayer(v, player), id, o, v.clock + TOMBSTONE_MS)
  {
    if id in OwnedBy(v, player) { assert o.credential in Held(v.sessions[id]); }
  }

  lemma RotationFades(v: Vault, secret: Secret, derive: (KeyIdentity, Secret) -> Secret, id: SessionId, o: Outgoing)
    requires id in v.sessions && v.sessions[id].predecessor == Some(o) && RotateStep(v, secret, derive).Success?
    ensures Fading(RotateStep(v, secret, derive).value.vault, id, o, v.clock + TOMBSTONE_MS)
  {
    hide Unlock, DerivedClear;
  }

  /** Whatever empties the slot buries what was in it. */
  lemma SlotFades(v: Vault, op: Op, id: SessionId, o: Outgoing)
    requires id in v.sessions && v.sessions[id].predecessor == Some(o)
    requires !(op.Recover? && op.id == id)
    ensures Fading(Exec(v, op), id, o, v.clock + TOMBSTONE_MS)
  {
    forall player { DeletionFades(v, player, id, o); }
    if op.Rotate? && RotateStep(v, op.secret, op.derive).Success? {
      RotationFades(v, op.secret, op.derive, id, o);
    }
    hide Resolve, Unlock, Live, Fresh, Issue, RotateStep, DerivedClear, OpenSlot, Matches, DeletePlayer;
  }

  lemma ExecKeepsFading(v: Vault, op: Op, id: SessionId, o: Outgoing, horizon: int)
    requires Fading(v, id, o, horizon) && Exec(v, op).clock < horizon <= v.clock + TOMBSTONE_MS
    requires !(op.Recover? && op.id == id)
    ensures Fading(Exec(v, op), id, o, horizon)
  {
    hide Exec;
    ExecKeepsGraves(v, op);
    if id in v.sessions && v.sessions[id].predecessor == Some(o) { SlotFades(v, op, id, o); }
  }

  lemma {:induction false} RunKeepsFading(v: Vault, ops: seq<Op>, id: SessionId, o: Outgoing, horizon: int)
    requires Fading(v, id, o, horizon) && Run(v, ops).clock < horizon <= v.clock + TOMBSTONE_MS
    requires forall i :: 0 <= i < |ops| ==> !(ops[i].Recover? && ops[i].id == id)
    ensures Fading(Run(v, ops), id, o, horizon)
  {
    if ops != [] {
      var before := Run(v, ops[..|ops| - 1]);
      RunKeepsGraves(v, ops[..|ops| - 1]);
      ExecKeepsGraves(before, ops[|ops| - 1]);
      hide Exec;
      RunKeepsFading(v, ops[..|ops| - 1], id, o, horizon);
      ExecKeepsFading(before, ops[|ops| - 1], id, o, horizon);
    }
  }

  /**
   * An outgoing digest has stopped a minute after any moment it was outgoing, and stays out for as long as a
   * tombstone lasts, whatever runs in between short of recovering that session.
   */
  lemma OutgoingStaysBuried(v: Vault, ops: seq<Op>, id: SessionId, secret: Secret, states: set<SessionState>)
    requires Safe(v) && id in v.sessions && v.sessions[id].predecessor.Some?
    requires forall i :: 0 <= i < |ops| ==> !(ops[i].Recover? && ops[i].id == id)
    requires v.clock + GRACE_MS <= Run(v, ops).clock < v.clock + TOMBSTONE_MS
    ensures var w := Run(v, ops);
      Unlock(w, secret, states).Success? ==>
        SlotCredential(w.sessions[Unlock(w, secret, states).value.0], Unlock(w, secret, states).value.1)
          != Some(v.sessions[id].predecessor.value.credential)
  {
    var w := Run(v, ops);
    RunIsSafe(v, ops);
    RunKeepsFading(v, ops, id, v.sessions[id].predecessor.value, v.clock + TOMBSTONE_MS);
    UnlockedIsLive(w, secret, states);
    hide Run, Resolve;
  }

  /** A rotation of an active session: the new secret is derived, the old one becomes outgoing for at most a minute. */
  lemma RotationHandsOver(v: Vault, secret: Secret, derive: (KeyIdentity, Secret) -> Secret, id: SessionId)
    requires Safe(v) && Unlock(v, secret, {Active, PendingDelivery}) == Success((id, Current)) && v.sessions[id].state == Active
    requires RotateStep(v, secret, derive).Success?
    ensures var s, r := v.sessions[id], RotateStep(v, secret, derive).value;
      && r.vault.ring == v.ring && r.vault.clock == v.clock && ActiveKeyReady(v)
      && id in r.vault.sessions && s.current.Some? && s.current.value.digest.secret == secret
      && r.secret == derive(s.current.value.digest.key, secret)
      && r.generation == s.generation + 1 == r.vault.sessions[id].generation
      && r.vault.sessions[id].state == PendingDelivery
      && |v.ring| > 0 && r.vault.sessions[id].current == Some(CredentialOf(v.ring[0], r.secret))
      && r.vault.sessions[id].predecessor == Some(Outgoing(s.current.value, Min(s.expires, v.clock + GRACE_MS)))
      && (s.predecessor.Some? ==> s.predecessor.value.validUntil <= v.clock && Buried(r.vault.graves, s.predecessor.value.credential, v.clock))
  {
    UnlockedIsLive(v, secret, {Active, PendingDelivery});
    if v.sessions[id].predecessor.Some? {
      BuryOutside(v.graves, {v.sessions[id].predecessor.value.credential}, v.sessions[id].predecessor.value.credential, v.clock);
    }
  }

  /** The keys verify at `t` just what they verified at `v.clock`. */
  predicate KeysSteady(ring: seq<HmacKey>, from: int, t: int) {
    forall i :: 0 <= i < |ring| ==> (Usable(ring[i], from) <==> Usable(ring[i], t)) && (WithinHorizon(ring[i], from) <==> WithinHorizon(ring[i], t))
  }

  /** In a safe vault a live digest has one session. */
  lemma LiveOnce(v: Vault, id: SessionId, c: Credential)
    requires Safe(v) && id in v.sessions && Holds(v.sessions[id], c)
    ensures forall other :: other in v.sessions && Holds(v.sessions[other], c) ==> other == id
  {
  }

  /** Resolution finds session `id` when the first usable key with a live digest of `secret` leads there. */
  lemma {:induction false} ResolvesTo(v: Vault, secret: Secret, from: nat, at: nat, id: SessionId)
    requires Safe(v) && from <= at < |v.ring| && Usable(v.ring[at], v.clock)
    requires id in v.sessions && Holds(v.sessions[id], CredentialOf(v.ring[at], secret))
    requires forall i :: from <= i < at && Usable(v.ring[i], v.clock) && Live(v, CredentialOf(v.ring[i], secret)) ==>
      Holds(v.sessions[id], CredentialOf(v.ring[i], secret))
    ensures Resolve(v, secret, from) == Some(id)
    decreases at - from
  {
    var c := CredentialOf(v.ring[from], secret);
    if Usable(v.ring[from], v.clock) && Live(v, c) {
      LiveOnce(v, id, c);
    } else {
      assert Holds(v.sessions[id], CredentialOf(v.ring[at], secret)) ==> Live(v, CredentialOf(v.ring[at], secret));
      ResolvesTo(v, secret, from + 1, at, id);
    }
  }

  /** Where a successful resolution came from. */
  lemma {:induction false} ResolvedAt(v: Vault, secret: Secret, from: nat) returns (at: nat)
    requires from <= |v.ring| && Resolve(v, secret, from).Some?
    ensures from <= at < |v.ring| && Usable(v.ring[at], v.clock)
    ensures Resolve(v, secret, from).value in v.sessions
    ensures Holds(v.sessions[Resolve(v, secret, from).value], CredentialOf(v.ring[at], secret))
    ensures forall i :: from <= i < at && Usable(v.ring[i], v.clock) ==> !Live(v, CredentialOf(v.ring[i], secret))
    decreases |v.ring| - from
  {
    if Usable(v.ring[from], v.clock) && Live(v, CredentialOf(v.ring[from], secret)) {
      at := from;
    } else {
      at := ResolvedAt(v, secret, from + 1);
    }
  }

  /** After a rotation, everything live in the vault was live before, except the new current digest. */
  lemma RotatedLives(v: Vault, secret: Secret, derive: (KeyIdentity, Secret) -> Secret, id: SessionId, c: Credential)
    requires Safe(v) && Unlock(v, secret, {Active, PendingDelivery}) == Success((id, Current)) && v.sessions[id].state == Active
    requires RotateStep(v, secret, derive).Success?
    ensures Live(RotateStep(v, secret, derive).value.vault, c) ==>
      Live(v, c) || (id in RotateStep(v, secret, derive).value.vault.sessions && RotateStep(v, secret, derive).value.vault.sessions[id].current == Some(c))
  {
    var w := RotateStep(v, secret, derive).value.vault;
    if Live(w, c) {
      var other :| other in w.sessions && Holds(w.sessions[other], c);
      if other != id { assert Holds(v.sessions[other], c); } else if w.sessions[id].current != Some(c) { assert Holds(v.sessions[id], c); }
    }
  }

  /**
   * Recovery leaves the outgoing digest of the lost hand-over unburied: the row goes and nothing replaces it.
   * Only the digest that was current is buried.
   */
  lemma RecoveryForgetsPredecessor(v: Vault, id: SessionId, proven: bool, offers: seq<Secret>)
    requires Safe(v) && id in v.sessions && v.sessions[id].predecessor.Some?
    requires RecoverStep(v, id, proven, offers).Success?
    ensures var w, outgoing := RecoverStep(v, id, proven, offers).value, v.sessions[id].predecessor.value.credential;
      && !Buried(w.graves, outgoing, w.clock) && !Live(w, outgoing)
      && Buried(w.graves, v.sessions[id].current.value, w.clock) && !Live(w, v.sessions[id].current.value)
  {
    var w, outgoing := RecoverStep(v, id, proven, offers).value, v.sessions[id].predecessor.value.credential;
    var first := if |offers| > 4 then offers[..4] else offers;
    IssuedIsFree(v, id, first);
    RecoverIsSafe(v, id, proven, offers);
    BuryOutside(v.graves, {v.sessions[id].current.value}, outgoing, v.clock);
    BuryOutside(v.graves, {v.sessions[id].current.value}, v.sessions[id].current.value, v.clock);
    assert Holds(v.sessions[id], outgoing) && Holds(v.sessions[id], v.sessions[id].current.value);
    assert Live(v, outgoing);
    LiveOnce(v, id, outgoing);
  }
}
