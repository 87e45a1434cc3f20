/** A lost rotation response: whatever other transactions run meanwhile, repeating the rotation returns the same secret. */
module SessionRetry {
  import opened Basics
  import opened SessionVault
  import opened SessionSafety
  import opened SessionRotation
  import opened SessionEffects

  // ---------------------------------------------------------------- the hand-over awaiting delivery

  /** Session `id` awaits delivery of a rotation, its outgoing digest in grace; both slots can be verified. */
  ghost predicate Standing(u: Vault, id: SessionId, outgoing: Secret, incoming: Secret) {
    && id in u.sessions && u.sessions[id].player in u.players && u.sessions[id].state == PendingDelivery && Awake(u.sessions[id], u.clock)
    && u.sessions[id].current.Some? && Matches(u.ring, incoming, u.sessions[id].current.value, u.clock)
    && u.sessions[id].predecessor.Some? && u.clock < u.sessions[id].predecessor.value.validUntil
    && Matches(u.ring, outgoing, u.sessions[id].predecessor.value.credential, u.clock)
  }

  /** The operation delivers, recovers, logs out or deletes session `id`, or changes the keys. */
  ghost predicate Disturbs(u: Vault, op: Op, id: SessionId) {
    match op
    case Acknowledge(j, secret, generation) => j == id && AcknowledgeStep(u, j, secret, generation).Success?
    case Recover(j, proven, offers) => j == id && RecoverStep(u, j, proven, offers).Success?
    case Logout(secret) =>
      !LoggedOut(u, secret) && var r := Unlock(u, secret, {Active, PendingDelivery}); r.Success? && r.value.0 == id
    case Delete(secret) =>
      DeleteStep(u, secret).Success? && id in u.sessions && var found := Resolve(u, secret, 0);
      found.Some? && found.value in u.sessions && u.sessions[found.value].player == u.sessions[id].player
    case DeleteProven(player) => id in u.sessions && u.sessions[id].player == player
    case ChangeKeys(ring) => ring != u.ring
    case _ => false
  }

  /** The session is as it was, but for when it was last seen. */
  ghost predicate SameHandOver(u: Vault, w: Vault, id: SessionId) {
    id in u.sessions && id in w.sessions && u.sessions[id].lastSeen <= w.sessions[id].lastSeen
    && w.sessions[id] == u.sessions[id].(lastSeen := w.sessions[id].lastSeen)
    && (u.sessions[id].player in u.players ==> w.sessions[id].player in w.players)
  }

  lemma MatchedIsNotGone(ring: seq<HmacKey>, secret: Secret, c: Credential, now: int)
    requires Matches(ring, secret, c, now)
    ensures !KeyGone(ring, c, now) && c.digest.secret == secret
  {
    var i :| 0 <= i < |ring| && Usable(ring[i], now) && CredentialOf(ring[i], secret) == c;
    assert ring[i].version == c.version;
  }

  /** Retention leaves a session in its grace window alone. */
  lemma RetentionSpares(u: Vault, op: Op, id: SessionId, outgoing: Secret, incoming: Secret)
    requires Standing(u, id, outgoing, incoming) && (op.Expire? || op.ExpirePredecessor? || op.Purge? || op.DropReceipt?)
    ensures SameHandOver(u, Exec(u, op), id)
  {
    MatchedIsNotGone(u.ring, incoming, u.sessions[id].current.value, u.clock);
    MatchedIsNotGone(u.ring, outgoing, u.sessions[id].predecessor.value.credential, u.clock);
    hide KeyGone, Matches, Bury;
  }

  lemma SecretsSpare(u: Vault, op: Op, id: SessionId, outgoing: Secret, incoming: Secret)
    requires Standing(u, id, outgoing, incoming) && (op.Authenticate? || op.Rotate? || op.Logout?) && !Disturbs(u, op, id)
    requires u.sessions[id].lastSeen <= u.clock
    ensures SameHandOver(u, Exec(u, op), id)
  {
    UnlockedIsLive(u, op.secret, {Active});
    UnlockedIsLive(u, op.secret, {Active, PendingDelivery});
    UnlockedState(u, op.secret, {Active});
    hide Unlock, Matches, Bury, DerivedClear, LoggedOut;
  }

  lemma UnlockedState(u: Vault, secret: Secret, states: set<SessionState>)
    ensures Unlock(u, secret, states).Success? ==>
      Unlock(u, secret, states).value.0 in u.sessions && u.sessions[Unlock(u, secret, states).value.0].state in states
  {
  }

  lemma OthersSpare(u: Vault, op: Op, id: SessionId, outgoing: Secret, incoming: Secret)
    requires Standing(u, id, outgoing, incoming) && !Disturbs(u, op, id)
    requires !(op.Authenticate? || op.Rotate? || op.Logout? || op.Expire? || op.ExpirePredecessor? || op.Purge? || op.DropReceipt?)
    ensures SameHandOver(u, Exec(u, op), id)
  {
    hide Resolve, Matches, Bury, Issue, HeldBy, Buried;
  }

  /** Nothing short of a disturbance touches the session's slots, state or generation. */
  lemma OpSpares(u: Vault, op: Op, id: SessionId, outgoing: Secret, incoming: Secret)
    requires Standing(u, id, outgoing, incoming) && !Disturbs(u, op, id) && u.sessions[id].lastSeen <= u.clock
    ensures SameHandOver(u, Exec(u, op), id)
  {
    hide Standing, Disturbs, SameHandOver, Exec;
    if op.Authenticate? || op.Rotate? || op.Logout? {
      SecretsSpare(u, op, id, outgoing, incoming);
    } else if op.Expire? || op.ExpirePredecessor? || op.Purge? || op.DropReceipt? {
      RetentionSpares(u, op, id, outgoing, incoming);
    } else {
      OthersSpare(u, op, id, outgoing, incoming);
    }
  }

  // ---------------------------------------------------------------- what stays true over a run

  /** Since the hand-over `z`: same keys, same session, no new digest of either secret, none of the incoming one buried. */
  ghost predicate Undelivered(z: Vault, u: Vault, id: SessionId, outgoing: Secret, incoming: Secret) {
    && Safe(u) && u.ring == z.ring && z.clock <= u.clock && SameHandOver(z, u, id) && u.sessions[id].lastSeen <= u.clock
    && NothingAdded(z, u, outgoing) && NothingAdded(z, u, incoming) && NothingBuried(z, u, incoming)
  }

  ghost predicate NothingAdded(z: Vault, u: Vault, secret: Secret) {
    forall c: Credential :: c.digest.secret == secret && Live(u, c) ==> Live(z, c)
  }

  /** No digest of the secret under a key that was verifying at the hand-over is buried. */
  ghost predicate NothingBuried(z: Vault, u: Vault, secret: Secret) {
    forall i :: 0 <= i < |z.ring| && WithinHorizon(z.ring[i], z.clock) ==> !Buried(u.graves, CredentialOf(z.ring[i], secret), u.clock)
  }

  /** No digest of either secret is introduced while both slots can be verified. */
  lemma NotIntroduced(u: Vault, op: Op, id: SessionId, outgoing: Secret, incoming: Secret, c: Credential)
    requires Standing(u, id, outgoing, incoming) && Introduced(u, op, c)
    ensures c.digest.secret != outgoing && c.digest.secret != incoming
  {
    MatchedIsLive(u, id, incoming, u.sessions[id].current.value);
    MatchedIsLive(u, id, outgoing, u.sessions[id].predecessor.value.credential);
    hide Live, Matches;
  }

  lemma MatchedIsLive(u: Vault, id: SessionId, secret: Secret, c: Credential)
    requires id in u.sessions && Holds(u.sessions[id], c) && Matches(u.ring, secret, c, u.clock)
    ensures !Fresh(u, secret)
  {
    var i :| 0 <= i < |u.ring| && Usable(u.ring[i], u.clock) && CredentialOf(u.ring[i], secret) == c;
    assert WithinHorizon(u.ring[i], u.clock) && Live(u, CredentialOf(u.ring[i], secret));
  }

  lemma AddsNothing(z: Vault, u: Vault, op: Op, added: Option<Credential>, id: SessionId, outgoing: Secret, incoming: Secret, secret: Secret)
    requires NothingAdded(z, u, secret) && Standing(u, id, outgoing, incoming) && (secret == outgoing || secret == incoming)
    requires Effect(u, op, Exec(u, op), added)
    ensures NothingAdded(z, Exec(u, op), secret)
  {
    var w := Exec(u, op);
    if added.Some? { NotIntroduced(u, op, id, outgoing, incoming, added.value); }
    hide Exec, Standing, Introduced, BuriesReleased;
    forall c: Credential | c.digest.secret == secret && Live(w, c) ensures Live(z, c) {
      var j :| j in w.sessions && Holds(w.sessions[j], c);
      assert j in u.sessions && Holds(u.sessions[j], c);
      assert Live(u, c);
    }
  }

  /** At the hand-over the incoming secret is live under its own digest only. */
  ghost predicate LiveOnceOnly(z: Vault, id: SessionId, secret: Secret) {
    && id in z.sessions && z.sessions[id].current.Some?
    && forall i :: 0 <= i < |z.ring| && WithinHorizon(z.ring[i], z.clock) && Live(z, CredentialOf(z.ring[i], secret)) ==>
         Some(CredentialOf(z.ring[i], secret)) == z.sessions[id].current
  }

  lemma BuriesNothing(z: Vault, u: Vault, op: Op, added: Option<Credential>, id: SessionId, incoming: Secret)
    requires Safe(u) && NothingBuried(z, u, incoming) && NothingAdded(z, u, incoming) && LiveOnceOnly(z, id, incoming)
    requires SameHandOver(z, u, id) && SameHandOver(u, Exec(u, op), id) && Effect(u, op, Exec(u, op), added)
    ensures NothingBuried(z, Exec(u, op), incoming)
  {
    var w := Exec(u, op);
    hide Exec, Introduced, SlotsFollow, Buried;
    forall i | 0 <= i < |z.ring| && WithinHorizon(z.ring[i], z.clock) ensures !Buried(w.graves, CredentialOf(z.ring[i], incoming), w.clock) {
      NotReleased(z, u, w, id, incoming, CredentialOf(z.ring[i], incoming), i);
    }
  }

  /** A digest of the incoming secret that is live is the session's own, which it keeps. */
  lemma NotReleased(z: Vault, u: Vault, w: Vault, id: SessionId, incoming: Secret, c: Credential, i: nat)
    requires Safe(u) && NothingAdded(z, u, incoming) && LiveOnceOnly(z, id, incoming) && SameHandOver(z, u, id) && SameHandOver(u, w, id)
    requires i < |z.ring| && WithinHorizon(z.ring[i], z.clock) && c == CredentialOf(z.ring[i], incoming)
    ensures forall j :: !Releases(u, w, j, c)
  {
    forall j ensures !Releases(u, w, j, c) {
      if j in u.sessions && Holds(u.sessions[j], c) {
        assert Live(u, c);
        assert Holds(u.sessions[id], c);
      }
    }
  }

  lemma StepKeeps(z: Vault, u: Vault, op: Op, id: SessionId, outgoing: Secret, incoming: Secret)
    requires Undelivered(z, u, id, outgoing, incoming) && Standing(u, id, outgoing, incoming) && LiveOnceOnly(z, id, incoming)
    requires !Disturbs(u, op, id)
    ensures Undelivered(z, Exec(u, op), id, outgoing, incoming)
  {
    hide Standing, Disturbs, Safe, NothingAdded, NothingBuried, LiveOnceOnly, Effect;
    var added := OpEffect(u, op);
    OpSpares(u, op, id, outgoing, incoming);
    AddsNothing(z, u, op, added, id, outgoing, incoming, outgoing);
    AddsNothing(z, u, op, added, id, outgoing, incoming, incoming);
    BuriesNothing(z, u, op, added, id, incoming);
    ExecIsSafe(u, op);
    ExecKeepsGraves(u, op);
    SeenByNow(u, op, id, outgoing, incoming);
    KeysStay(u, op, id);
    hide Exec;
  }

  lemma KeysStay(u: Vault, op: Op, id: SessionId)
    requires !Disturbs(u, op, id)
    ensures Exec(u, op).ring == u.ring
  {
    hide Resolve, Unlock, Issue, Bury, DerivedClear;
  }

  lemma SeenByNow(u: Vault, op: Op, id: SessionId, outgoing: Secret, incoming: Secret)
    requires Standing(u, id, outgoing, incoming) && u.sessions[id].lastSeen <= u.clock && SameHandOver(u, Exec(u, op), id)
    ensures Exec(u, op).sessions[id].lastSeen <= Exec(u, op).clock
  {
    UnlockedState(u, if op.Authenticate? || op.Rotate? || op.Logout? then op.secret else 0, {Active, PendingDelivery});
    UnlockedState(u, if op.Authenticate? then op.secret else 0, {Active});
    hide Resolve, Unlock, Issue, Bury, DerivedClear, LoggedOut, Matches, KeyGone, HeldBy;
  }

  // ---------------------------------------------------------------- the grace window

  lemma SteadyBetween(ring: seq<HmacKey>, from: int, now: int, until: int, secret: Secret, c: Credential)
    requires from <= now <= until && KeysSteady(ring, from, until) && Matches(ring, secret, c, from)
    ensures Matches(ring, secret, c, now)
  {
    var i :| 0 <= i < |ring| && Usable(ring[i], from) && CredentialOf(ring[i], secret) == c;
    assert Usable(ring[i], until) && Usable(ring[i], now);
  }

  /** As long as the keys hold and the grace window lasts, an undelivered hand-over stands. */
  lemma StillStands(z: Vault, u: Vault, id: SessionId, outgoing: Secret, incoming: Secret, t: int)
    requires Undelivered(z, u, id, outgoing, incoming) && Standing(z, id, outgoing, incoming)
    requires u.clock <= t < Min(z.sessions[id].expires, z.sessions[id].predecessor.value.validUntil) && t < z.sessions[id].lastSeen + IDLE_MS
    requires KeysSteady(z.ring, z.clock, t)
    ensures Standing(u, id, outgoing, incoming)
  {
    SteadyBetween(z.ring, z.clock, u.clock, t, incoming, z.sessions[id].current.value);
    SteadyBetween(z.ring, z.clock, u.clock, t, outgoing, z.sessions[id].predecessor.value.credential);
    hide Matches, Safe, NothingAdded, NothingBuried, KeysSteady;
  }

  ghost predicate Undisturbed(z: Vault, ops: seq<Op>, id: SessionId) {
    forall i :: 0 <= i < |ops| ==> !Disturbs(Run(z, ops[..i]), ops[i], id)
  }

  lemma UndisturbedFront(z: Vault, ops: seq<Op>, id: SessionId)
    requires Undisturbed(z, ops, id) && ops != []
    ensures Undisturbed(z, ops[..|ops| - 1], id) && !Disturbs(Run(z, ops[..|ops| - 1]), ops[|ops| - 1], id)
  {
    hide Disturbs, Run;
    var front := ops[..|ops| - 1];
    forall i | 0 <= i < |front| ensures !Disturbs(Run(z, front[..i]), front[i], id) { assert front[i] == ops[i] && front[..i] == ops[..i]; }
  }

  lemma LastStep(z: Vault, ops: seq<Op>)
    requires ops != []
    ensures Run(z, ops) == Exec(Run(z, ops[..|ops| - 1]), ops[|ops| - 1])
    ensures Run(z, ops[..|ops| - 1]).clock <= Run(z, ops).clock
  {
    ExecKeepsGraves(Run(z, ops[..|ops| - 1]), ops[|ops| - 1]);
    hide Exec;
  }

  lemma {:induction false} RunKeeps(z: Vault, ops: seq<Op>, id: SessionId, outgoing: Secret, incoming: Secret, t: int)
    requires Undelivered(z, z, id, outgoing, incoming) && Standing(z, id, outgoing, incoming) && LiveOnceOnly(z, id, incoming)
    requires Run(z, ops).clock <= t < Min(z.sessions[id].expires, z.sessions[id].predecessor.value.validUntil) && t < z.sessions[id].lastSeen + IDLE_MS
    requires KeysSteady(z.ring, z.clock, t) && Undisturbed(z, ops, id)
    ensures Undelivered(z, Run(z, ops), id, outgoing, incoming)
  {
    hide Exec, Undelivered, LiveOnceOnly, KeysSteady, Disturbs, Standing, Undisturbed;
    if ops != [] {
      var front, last := ops[..|ops| - 1], ops[|ops| - 1];
      UndisturbedFront(z, ops, id);
      LastStep(z, ops);
      hide Run;
      RunKeeps(z, front, id, outgoing, incoming, t);
      StillStands(z, Run(z, front), id, outgoing, incoming, t);
      StepKeeps(z, Run(z, front), last, id, outgoing, incoming);
    }
  }

  // ---------------------------------------------------------------- the hand-over itself

  /** An accepted rotation of an active session through its current digest, no other digest of it being of the same secret. */
  ghost predicate Rotates(v: Vault, secret: Secret, derive: (KeyIdentity, Secret) -> Secret, id: SessionId) {
    && Safe(v) && Unlock(v, secret, {Active, PendingDelivery}) == Success((id, Current)) && v.sessions[id].state == Active
    && RotateStep(v, secret, derive).Success?
    && (v.sessions[id].predecessor.Some? ==> v.sessions[id].predecessor.value.credential.digest.secret != secret)
  }

  lemma CurrentMatches(v: Vault, secret: Secret, states: set<SessionState>, id: SessionId)
    requires Unlock(v, secret, states) == Success((id, Current))
    ensures id in v.sessions && v.sessions[id].current.Some? && Matches(v.ring, secret, v.sessions[id].current.value, v.clock)
    ensures Awake(v.sessions[id], v.clock) && v.sessions[id].player in v.players
  {
  }

  /** What the hand-over leaves: both slots verifiable, the incoming secret derived clear. */
  lemma HandOverStands(v: Vault, secret: Secret, derive: (KeyIdentity, Secret) -> Secret, id: SessionId)
    requires Rotates(v, secret, derive, id)
    ensures var z, incoming := RotateStep(v, secret, derive).value.vault, RotateStep(v, secret, derive).value.secret;
      && Standing(z, id, secret, incoming) && z.sessions[id].lastSeen == z.clock == v.clock && incoming != secret
      && DerivedClear(v, incoming, None) && z.ring == v.ring && z.players == v.players && z.sessions[id].expires == v.sessions[id].expires
  {
    RotationHandsOver(v, secret, derive, id);
    CurrentMatches(v, secret, {Active, PendingDelivery}, id);
    var z, incoming := RotateStep(v, secret, derive).value.vault, RotateStep(v, secret, derive).value.secret;
    assert CredentialOf(z.ring[0], incoming) == z.sessions[id].current.value;
    assert Matches(z.ring, incoming, z.sessions[id].current.value, z.clock);
    assert DerivedClear(v, incoming, None);
    if incoming == secret {
      DerivedIsFresh(v, secret);
      MatchedIsLive(v, id, secret, v.sessions[id].current.value);
    }
    hide Unlock, Resolve, Safe, Fresh, Live, DerivedClear;
  }

  lemma HandOverIsClear(v: Vault, secret: Secret, derive: (KeyIdentity, Secret) -> Secret, id: SessionId)
    requires Rotates(v, secret, derive, id)
    ensures var z, incoming := RotateStep(v, secret, derive).value.vault, RotateStep(v, secret, derive).value.secret;
      LiveOnceOnly(z, id, incoming) && NothingBuried(z, z, incoming)
  {
    HandOverStands(v, secret, derive, id);
    var first := RotateStep(v, secret, derive).value;
    var z := first.vault;
    forall i | 0 <= i < |z.ring| && WithinHorizon(z.ring[i], z.clock)
      ensures !Buried(z.graves, CredentialOf(z.ring[i], first.secret), z.clock)
      ensures Live(z, CredentialOf(z.ring[i], first.secret)) ==> Some(CredentialOf(z.ring[i], first.secret)) == z.sessions[id].current
    {
      var c := CredentialOf(z.ring[i], first.secret);
      RotatedLives(v, secret, derive, id, c);
      if v.sessions[id].predecessor.Some? {
        var outgoing := v.sessions[id].predecessor.value.credential;
        assert Holds(v.sessions[id], outgoing) && Live(v, outgoing);
        BuryOutside(v.graves, {outgoing}, c, v.clock);
      }
    }
  }

  /** The key whose digest of the secret is found first finds the hand-over's session. */
  lemma OutgoingResolves(v: Vault, secret: Secret, derive: (KeyIdentity, Secret) -> Secret, id: SessionId, w: Vault)
    requires Rotates(v, secret, derive, id)
    requires Undelivered(RotateStep(v, secret, derive).value.vault, w, id, secret, RotateStep(v, secret, derive).value.secret)
    requires KeysSteady(v.ring, v.clock, w.clock)
    ensures Resolve(w, secret, 0) == Some(id)
  {
    var z := RotateStep(v, secret, derive).value.vault;
    HandOverStands(v, secret, derive, id);
    RotationHandsOver(v, secret, derive, id);
    var at := ResolvedAt(v, secret, 0);
    forall i | 0 <= i < at && Usable(w.ring[i], w.clock) && Live(w, CredentialOf(w.ring[i], secret))
      ensures Holds(w.sessions[id], CredentialOf(w.ring[i], secret))
    {
      assert Live(z, CredentialOf(w.ring[i], secret));
      RotatedLives(v, secret, derive, id, CredentialOf(w.ring[i], secret));
    }
    assert Holds(v.sessions[id], CredentialOf(v.ring[at], secret));
    hide Live, NothingAdded, NothingBuried, Safe, RotateStep, Unlock;
    ResolvesTo(w, secret, 0, at, id);
  }

  lemma RetryUnlocks(w: Vault, id: SessionId, outgoing: Secret, incoming: Secret)
    requires Safe(w) && Standing(w, id, outgoing, incoming) && outgoing != incoming && Resolve(w, outgoing, 0) == Some(id)
    ensures Unlock(w, outgoing, {Active, PendingDelivery}) == Success((id, Predecessor))
  {
    MatchedIsNotGone(w.ring, incoming, w.sessions[id].current.value, w.clock);
    assert !Matches(w.ring, outgoing, w.sessions[id].current.value, w.clock);
    assert Holds(w.sessions[id], w.sessions[id].predecessor.value.credential);
    hide Matches, Resolve, KeyGone;
  }

  lemma RetryIsClear(z: Vault, w: Vault, id: SessionId, outgoing: Secret, incoming: Secret)
    requires Undelivered(z, w, id, outgoing, incoming) && LiveOnceOnly(z, id, incoming) && KeysSteady(z.ring, z.clock, w.clock)
    ensures DerivedClear(w, incoming, w.sessions[id].current)
  {
    hide Buried, Live, Safe, Usable;
  }

  /** A retry through the predecessor slot of a session awaiting delivery changes nothing but the time it was seen. */
  lemma PredecessorRetry(w: Vault, secret: Secret, derive: (KeyIdentity, Secret) -> Secret, id: SessionId, generation: nat, replacement: Secret)
    requires Unlock(w, secret, {Active, PendingDelivery}) == Success((id, Predecessor)) && ActiveKeyReady(w)
    requires id in w.sessions && w.sessions[id].state == PendingDelivery && w.sessions[id].current.Some? && w.sessions[id].predecessor.Some?
    requires w.sessions[id].generation == generation && replacement == derive(w.sessions[id].predecessor.value.credential.digest.key, secret)
    requires DerivedClear(w, replacement, w.sessions[id].current)
    ensures RotateStep(w, secret, derive) == Success(Rotated(Touched(w, id), replacement, generation))
  {
    hide Unlock, DerivedClear;
  }

  /**
   * A lost response is harmless.  Let anything run after a rotation that does not deliver, recover, log out or delete
   * that session and leaves the keys as they are: other claims, other rotations, clean-ups, earlier retries.  Inside
   * the grace window, repeating the rotation with the outgoing secret returns the same secret and generation, and
   * changes no digest and no tombstone.
   */
  lemma RetryReturnsSame(v: Vault, secret: Secret, derive: (KeyIdentity, Secret) -> Secret, id: SessionId, ops: seq<Op>)
    requires Rotates(v, secret, derive, id)
    requires var z := RotateStep(v, secret, derive).value.vault;
      && Undisturbed(z, ops, id) && Run(z, ops).clock < Min(v.sessions[id].expires, v.clock + GRACE_MS)
      && KeysSteady(v.ring, v.clock, Run(z, ops).clock)
    ensures var first := RotateStep(v, secret, derive).value;
      var w := Run(first.vault, ops);
      && id in w.sessions && RotateStep(w, secret, derive) == Success(Rotated(Touched(w, id), first.secret, first.generation))
      && w.sessions[id].current == first.vault.sessions[id].current && w.sessions[id].predecessor == first.vault.sessions[id].predecessor
  {
    hide Resolve, Unlock, DerivedClear, Safe, Live, RotateStep, Undisturbed, Run, KeysSteady, Matches;
    var first := RotateStep(v, secret, derive).value;
    var z, w := first.vault, Run(first.vault, ops);
    RotationHandsOver(v, secret, derive, id);
    HandOverStands(v, secret, derive, id);
    HandOverIsClear(v, secret, derive, id);
    RotateIsSafe(v, secret, derive);
    assert Undelivered(z, z, id, secret, first.secret);
    hide LiveOnceOnly, NothingAdded, NothingBuried;
    RunKeeps(z, ops, id, secret, first.secret, w.clock);
    StillStands(z, w, id, secret, first.secret, w.clock);
    OutgoingResolves(v, secret, derive, id, w);
    RetryUnlocks(w, id, secret, first.secret);
    RetryIsClear(z, w, id, secret, first.secret);
    ReadyStays(v, w.ring, w.clock);
    PredecessorRetry(w, secret, derive, id, first.generation, first.secret);
  }

  lemma ReadyStays(v: Vault, ring: seq<HmacKey>, t: int)
    requires ActiveKeyReady(v) && ring == v.ring && KeysSteady(v.ring, v.clock, t)
    ensures |ring| > 0 && Usable(ring[0], t)
  {
  }
}
