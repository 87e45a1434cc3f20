/** Delivered secrets work until something ends them, and a log-out ends them: laws over every later run. */
module SessionLogout {
  import opened Basics
  import opened SessionVault
  import opened SessionSafety
  import opened SessionEffects
  import opened SessionOutcomes
  import opened SessionWrites
  import opened SessionRetention

  // ---------------------------------------------------------------- log-out

  /** A log-out that is not a repetition ends one session: the one some slot of which holds a digest of the secret. */
  lemma LogoutEnds(v: Vault, secret: Secret) returns (id: SessionId, c: Credential)
    requires Safe(v) && LogoutStep(v, secret).Success? && !WasOut(v, secret)
    ensures id in v.sessions && Holds(v.sessions[id], c) && (exists i :: 0 <= i < |v.ring| && Verifies(v, i, secret, c))
    ensures var w, s := Exec(v, Op.Logout(secret)), v.sessions[id];
      && w.sessions == v.sessions[id := Session(s.player, s.claim, Revoked, s.generation, v.clock, s.expires, s.rotateAfter, None, None)]
      && w.clock == v.clock && w.ring == v.ring && w.players == v.players
      && (forall d: Credential :: s.current == Some(d) || (s.predecessor.Some? && s.predecessor.value.credential == d) ==>
        d in w.graves && w.graves[d] >= v.clock + MONTH_MS && d in w.logouts && w.logouts[d] >= v.clock + MONTH_MS)
  {
    var w := Exec(v, Op.Logout(secret));
    LogoutExactly(v, secret, w);
    hide LogoutStep, Safe, WasOut, Unlocks, BuriedJust, Exec;
    var slot;
    id, slot :| LogsOut(v, secret, id, slot, w);
    c := UnlocksHeld(v, secret, {Active, PendingDelivery}, id, slot);
    var s := v.sessions[id];
    forall d: Credential | s.current == Some(d) || (s.predecessor.Some? && s.predecessor.value.credential == d)
      ensures d in w.graves && w.graves[d] >= v.clock + MONTH_MS && d in w.logouts && w.logouts[d] >= v.clock + MONTH_MS
    {
      BuriedWith(v.graves, w.graves, v.clock, s, d);
      BuriedWith(v.logouts, w.logouts, v.clock, s, d);
    }
  }

  lemma BuriedWith(before: map<Credential, int>, after: map<Credential, int>, now: int, s: Session, d: Credential)
    requires BuriedJust(before, after, now, s, {Current, Predecessor})
    requires s.current == Some(d) || (s.predecessor.Some? && s.predecessor.value.credential == d)
    ensures d in after && after[d] >= now + MONTH_MS
  {
    var slot := if s.current == Some(d) then Current else Predecessor;
    assert slot in {Current, Predecessor} && InSlot(s, slot, d);
  }

  lemma UnlocksHeld(v: Vault, secret: Secret, states: set<SessionState>, id: SessionId, slot: Slot) returns (c: Credential)
    requires Unlocks(v, secret, states, id, slot)
    ensures id in v.sessions && Holds(v.sessions[id], c) && exists i :: 0 <= i < |v.ring| && Verifies(v, i, secret, c)
  {
    hide FoundFirst, Verifies, SlotSpent;
    var i;
    i, c :| 0 <= i < |v.ring| && Verifies(v, i, secret, c) && InSlot(v.sessions[id], slot, c);
    HoldsMeans(v.sessions[id], c);
  }

  /** Log-out tombstones of `v` that have not lapsed at `w`'s clock still stand in `w`. */
  ghost predicate LogoutsLast(v: Vault, w: Vault) {
    v.clock <= w.clock && forall c :: c in v.logouts && v.logouts[c] > w.clock ==> c in w.logouts && w.logouts[c] >= v.logouts[c]
  }

  lemma ExecKeepsLogouts(v: Vault, op: Op)
    ensures LogoutsLast(v, Exec(v, op))
  {
    forall cs: set<Credential> ensures forall c :: c in v.logouts ==> c in Bury(v.logouts, cs, v.clock) && Bury(v.logouts, cs, v.clock)[c] >= v.logouts[c] {
      BuryKeeps(v.logouts, cs, v.clock);
    }
    hide Resolve, Unlock, Live, Fresh, Issue, DerivedClear, OpenSlot, Matches, Bury;
  }

  lemma {:induction false} RunKeepsLogouts(v: Vault, ops: seq<Op>)
    ensures LogoutsLast(v, Run(v, ops))
  {
    if ops != [] {
      RunKeepsLogouts(v, ops[..|ops| - 1]);
      ExecKeepsLogouts(Run(v, ops[..|ops| - 1]), ops[|ops| - 1]);
      hide Exec;
    }
  }

  lemma BuriedOpensNothing(w: Vault, ops: seq<Op>, d: Credential)
    requires Safe(w) && d in w.graves && w.graves[d] > Run(w, ops).clock
    ensures !Live(Run(w, ops), d) && forall x, states :: !Opens(Run(w, ops), x, states, d)
  {
    BuriedStaysOut(w, ops, d);
    hide Run, Unlock, Safe, Live;
  }

  lemma LogoutBuries(v: Vault, secret: Secret) returns (id: SessionId)
    requires Safe(v) && LogoutStep(v, secret).Success? && !WasOut(v, secret)
    ensures id in v.sessions && HeldDigest(v, secret, id)
    ensures var w := Exec(v, Op.Logout(secret));
      forall d: Credential :: Holds(v.sessions[id], d) ==> d in w.graves && w.graves[d] >= v.clock + MONTH_MS
  {
    var c;
    id, c := LogoutEnds(v, secret);
    hide Exec, LogoutStep, Safe, Verifies, WasOut;
  }

  /** Some slot of the session held a digest of the secret that a key of the ring verifies. */
  ghost predicate HeldDigest(v: Vault, secret: Secret, id: SessionId)
    requires id in v.sessions
  {
    exists c, i :: Holds(v.sessions[id], c) && 0 <= i < |v.ring| && Verifies(v, i, secret, c)
  }

  /** For thirty days after a log-out, whatever runs, nothing the session held opens any session with any secret. */
  lemma LoggedOutOpensNothing(v: Vault, secret: Secret, ops: seq<Op>)
    requires Safe(v) && LogoutStep(v, secret).Success? && !WasOut(v, secret)
    requires Run(Exec(v, Op.Logout(secret)), ops).clock < v.clock + MONTH_MS
    ensures exists id :: id in v.sessions && EndedBy(v, secret, id, Run(Exec(v, Op.Logout(secret)), ops))
  {
    var id := LogoutBuries(v, secret);
    var w := Exec(v, Op.Logout(secret));
    var u := Run(w, ops);
    ExecIsSafe(v, Op.Logout(secret));
    hide Exec, Safe, LogoutStep, WasOut, Run, Holds, HeldDigest, Live, Opens;
    forall d | Holds(v.sessions[id], d) ensures !Live(u, d) && forall x, states :: !Opens(u, x, states, d) {
      BuriedOpensNothing(w, ops, d);
    }
    assert EndedBy(v, secret, id, u);
  }

  /** The session of `v` held a digest of the secret, and in `u` none of its digests is live or opens anything. */
  ghost predicate EndedBy(v: Vault, secret: Secret, id: SessionId, u: Vault)
    requires id in v.sessions
  {
    && HeldDigest(v, secret, id)
    && forall d :: Holds(v.sessions[id], d) ==> !Live(u, d) && forall x, states :: !Opens(u, x, states, d)
  }

  /** And as long as the key that made the digest is not retired, logging out again is recognised and changes nothing. */
  lemma LogoutRepeats(v: Vault, secret: Secret, ops: seq<Op>)
    requires Safe(v) && LogoutStep(v, secret).Success? && !WasOut(v, secret)
    requires var u := Run(Exec(v, Op.Logout(secret)), ops);
      && u.clock < v.clock + MONTH_MS
      && forall i | 0 <= i < |v.ring| :: v.ring[i] in u.ring && (v.ring[i].verifyUntil == None || u.clock < v.ring[i].verifyUntil.value)
    ensures var u := Run(Exec(v, Op.Logout(secret)), ops);
      WasOut(u, secret) && LogoutStep(u, secret) == Success(u) && Exec(u, Op.Logout(secret)) == u
  {
    var id, c := LogoutEnds(v, secret);
    var w := Exec(v, Op.Logout(secret));
    var u := Run(w, ops);
    RunKeepsLogouts(w, ops);
    hide Run, Exec, Safe, LogoutStep;
    assert c in u.logouts && u.logouts[c] > u.clock;
    var i :| 0 <= i < |v.ring| && Verifies(v, i, secret, c);
    var j :| 0 <= j < |u.ring| && u.ring[j] == v.ring[i];
    assert Digests(u, j, secret, c);
    RepeatIsNoted(u, secret);
  }

  lemma RepeatIsNoted(u: Vault, secret: Secret)
    requires WasOut(u, secret)
    ensures LogoutStep(u, secret) == Success(u) && Exec(u, Op.Logout(secret)) == u
  {
    WasOutMeans(u, secret);
    hide WasOut, LoggedOut, Unlock;
  }

  // ---------------------------------------------------------------- ended sessions stay ended

  predicate Over(v: Vault, id: SessionId) {
    id in v.sessions ==> v.sessions[id].state == Revoked && v.sessions[id].current == None && v.sessions[id].predecessor == None
  }

  lemma ExecKeepsOver(v: Vault, op: Op, id: SessionId)
    requires Over(v, id) && !(op.Claim? && op.id == id)
    ensures Over(Exec(v, op), id)
  {
    forall secret, states ensures Unlock(v, secret, states).Success? ==>
      Unlock(v, secret, states).value.0 in v.sessions && v.sessions[Unlock(v, secret, states).value.0].state in states
    {
      UnlockedStates(v, secret, states);
    }
    hide Resolve, Unlock, Live, Fresh, Issue, DerivedClear, OpenSlot, Matches, Bury;
  }

  /** An ended, empty session never comes back, unless its identifier is claimed anew after it is gone. */
  lemma {:induction false} OverStaysOver(v: Vault, ops: seq<Op>, id: SessionId)
    requires Over(v, id) && forall i :: 0 <= i < |ops| ==> !(ops[i].Claim? && ops[i].id == id)
    ensures Over(Run(v, ops), id)
  {
    if ops != [] {
      OverStaysOver(v, ops[..|ops| - 1], id);
      ExecKeepsOver(Run(v, ops[..|ops| - 1]), ops[|ops| - 1], id);
      hide Exec;
    }
  }

  // ---------------------------------------------------------------- delivered secrets work

  /** The operation recovers, rotates, logs out or deletes session `id`, or changes the keys. */
  ghost predicate Ends(u: Vault, op: Op, id: SessionId) {
    match op
    case Recover(j, _, _) => j == id
    case Rotate(secret, _) => var r := Unlock(u, secret, {Active, PendingDelivery}); r.Success? && r.value.0 == id
    case Logout(secret) => var r := Unlock(u, secret, {Active, PendingDelivery}); r.Success? && r.value.0 == id
    case Delete(secret) => DeleteStep(u, secret).Success? && id in u.sessions && id !in DeleteStep(u, secret).value.sessions
    case DeleteProven(player) => id in u.sessions && u.sessions[id].player == player
    case ChangeKeys(keys) => keys != u.ring
    case _ => false
  }

  /** Session `id` is not revoked and still holds, under the same keys, what it held in `v`; it was seen no earlier. */
  ghost predicate Goes(v: Vault, u: Vault, id: SessionId) {
    && id in v.sessions && id in u.sessions && u.ring == v.ring && v.clock <= u.clock
    && u.sessions[id].current == v.sessions[id].current && u.sessions[id].expires == v.sessions[id].expires
    && v.sessions[id].lastSeen <= u.sessions[id].lastSeen <= u.clock
    && u.sessions[id].state != Revoked && u.sessions[id].player in u.players
    && u.sessions[id].generation == v.sessions[id].generation
  }

  lemma UpkeepSpares(v: Vault, u: Vault, op: Op, id: SessionId)
    requires Goes(v, u, id) && (op.Expire? || op.ExpirePredecessor? || op.Purge? || op.DropReceipt?)
    requires Awake(u.sessions[id], u.clock) && u.sessions[id].current.Some? && !KeyGone(u.ring, u.sessions[id].current.value, u.clock)
    ensures Goes(v, Exec(u, op), id)
  {
    hide KeyGone, Bury;
  }

  lemma SecretsSpare(v: Vault, u: Vault, op: Op, id: SessionId)
    requires Goes(v, u, id) && !Ends(u, op, id) && (op.Authenticate? || op.Rotate? || op.Logout?)
    ensures Goes(v, Exec(u, op), id)
  {
    UnlockedStates(u, op.secret, {Active});
    UnlockedStates(u, op.secret, {Active, PendingDelivery});
    hide Unlock, Matches, Bury, DerivedClear, LoggedOut;
  }

  lemma OthersSpare(v: Vault, u: Vault, op: Op, id: SessionId)
    requires Goes(v, u, id) && !Ends(u, op, id)
    requires !(op.Authenticate? || op.Rotate? || op.Logout? || op.Expire? || op.ExpirePredecessor? || op.Purge? || op.DropReceipt?)
    ensures Goes(v, Exec(u, op), id)
  {
    hide Resolve, Matches, Bury, Issue, HeldBy, Buried;
  }

  lemma VerifiedIsNotGone(u: Vault, secret: Secret, c: Credential)
    requires |u.ring| > 0 && Verifies(u, 0, secret, c)
    ensures !KeyGone(u.ring, c, u.clock)
  {
    assert u.ring[0].version == c.version;
  }

  /** The first key verifies from `v`'s clock up to `t`. */
  ghost predicate HoldsUntil(v: Vault, secret: Secret, c: Credential, t: int) {
    |v.ring| > 0 && Verifies(v, 0, secret, c) && Verifies(v.(clock := t), 0, secret, c)
  }

  lemma StillVerifies(v: Vault, u: Vault, secret: Secret, c: Credential, t: int)
    requires HoldsUntil(v, secret, c, t) && u.ring == v.ring && v.clock <= u.clock <= t
    ensures |u.ring| > 0 && Verifies(u, 0, secret, c)
  {
  }

  lemma StepGoes(v: Vault, u: Vault, op: Op, id: SessionId, secret: Secret, t: int)
    requires Goes(v, u, id) && !Ends(u, op, id) && v.sessions[id].current.Some? && HoldsUntil(v, secret, v.sessions[id].current.value, t)
    requires u.clock <= t < v.sessions[id].expires && t < v.sessions[id].lastSeen + WEEK_MS
    ensures Goes(v, Exec(u, op), id)
  {
    StillVerifies(v, u, secret, v.sessions[id].current.value, t);
    VerifiedIsNotGone(u, secret, v.sessions[id].current.value);
    assert Awake(u.sessions[id], u.clock);
    hide Exec, Ends, KeyGone, HoldsUntil, Verifies;
    if op.Authenticate? || op.Rotate? || op.Logout? {
      SecretsSpare(v, u, op, id);
    } else if op.Expire? || op.ExpirePredecessor? || op.Purge? || op.DropReceipt? {
      UpkeepSpares(v, u, op, id);
    } else {
      OthersSpare(v, u, op, id);
    }
  }

  ghost predicate Unended(v: Vault, ops: seq<Op>, id: SessionId) {
    forall i :: 0 <= i < |ops| ==> !Ends(Run(v, ops[..i]), ops[i], id)
  }

  lemma UnendedFront(v: Vault, ops: seq<Op>, id: SessionId)
    requires Unended(v, ops, id) && ops != []
    ensures Unended(v, ops[..|ops| - 1], id) && !Ends(Run(v, ops[..|ops| - 1]), ops[|ops| - 1], id)
  {
    hide Ends, Run;
    var front := ops[..|ops| - 1];
    forall i | 0 <= i < |front| ensures !Ends(Run(v, front[..i]), front[i], id) { assert front[i] == ops[i] && front[..i] == ops[..i]; }
  }

  lemma {:induction false} RunGoes(v: Vault, ops: seq<Op>, id: SessionId, secret: Secret, t: int)
    requires Goes(v, v, id) && Unended(v, ops, id) && v.sessions[id].current.Some? && HoldsUntil(v, secret, v.sessions[id].current.value, t)
    requires Run(v, ops).clock <= t < v.sessions[id].expires && t < v.sessions[id].lastSeen + WEEK_MS
    ensures Goes(v, Run(v, ops), id)
  {
    if ops != [] {
      var front, last := ops[..|ops| - 1], ops[|ops| - 1];
      UnendedFront(v, ops, id);
      ExecKeepsGraves(Run(v, front), last);
      assert Run(v, ops) == Exec(Run(v, front), last);
      hide Exec, Run, Ends, Unended, Goes, HoldsUntil;
      RunGoes(v, front, id, secret, t);
      StepGoes(v, Run(v, front), last, id, secret, t);
    }
  }

  /**
   * A session's current secret keeps opening it.  Let anything run that does not recover, rotate, log out or delete
   * that session and leaves the keys as they are: until it expires, lies idle for a week, or the active key that made
   * its digest stops verifying, the secret unlocks its current slot.
   */
  lemma CurrentKeepsOpening(v: Vault, ops: seq<Op>, id: SessionId, secret: Secret)
    requires Safe(v) && id in v.sessions && v.sessions[id].state != Revoked && v.sessions[id].lastSeen <= v.clock && v.sessions[id].current.Some?
    requires var t := Run(v, ops).clock;
      && t < v.sessions[id].expires && t < v.sessions[id].lastSeen + WEEK_MS
      && HoldsUntil(v, secret, v.sessions[id].current.value, t) && Unended(v, ops, id)
    ensures Unlock(Run(v, ops), secret, {Active, PendingDelivery}) == Success((id, Current))
  {
    var u := Run(v, ops);
    assert v.sessions[id].player in v.players;
    RunGoes(v, ops, id, secret, u.clock);
    StillVerifies(v, u, secret, v.sessions[id].current.value, u.clock);
    RunIsSafe(v, ops);
    hide Run, Safe, Unlock, Unended, Verifies, HoldsUntil;
    DeliveredOpens(u, secret, {Active, PendingDelivery}, id);
  }

  /** A claimed session is delivered: the secret issued with it acknowledges it, and then authenticates it. */
  lemma ClaimDelivers(v: Vault, id: SessionId, player: PlayerId, create: bool, claim: ClaimId, offers: seq<Secret>)
    requires Safe(v) && ClaimStep(v, id, player, create, claim, offers).Success?
    ensures exists n: nat | TakenOffer(v, offers, n) :: Delivers(ClaimStep(v, id, player, create, claim, offers).value, id, offers[n], 1)
  {
    var w := ClaimStep(v, id, player, create, claim, offers).value;
    ClaimExactly(v, id, player, create, claim, offers, w);
    ClaimIsSafe(v, id, player, create, claim, offers);
    hide Safe, ClaimStep, TakenOffer;
    var c :| Issues(v, offers, c) && w == Vault(
      v.clock, v.players + {player},
      v.sessions[id := Session(player, claim, PendingDelivery, 1, v.clock, v.clock + MONTH_MS, v.clock + WEEK_MS, Some(c), None)],
      v.merges + {id}, v.graves, v.logouts, v.ring);
    var n: nat :| TakenOffer(v, offers, n) && Verifies(v, 0, offers[n], c);
    assert Verifies(w, 0, offers[n], c);
    PendingDelivers(w, id, offers[n]);
  }

  /** So is a recovered one, at the next generation. */
  lemma RecoveryDelivers(v: Vault, id: SessionId, proven: bool, offers: seq<Secret>)
    requires Safe(v) && RecoverStep(v, id, proven, offers).Success?
    ensures id in v.sessions
    ensures exists n: nat | TakenOffer(v, offers, n) ::
      Delivers(RecoverStep(v, id, proven, offers).value, id, offers[n], v.sessions[id].generation + 1)
  {
    var w := RecoverStep(v, id, proven, offers).value;
    RecoverExactly(v, id, proven, offers, w);
    RecoverIsSafe(v, id, proven, offers);
    hide Safe, RecoverStep, TakenOffer, SlotSpent, BuriedJust;
    var c := w.sessions[id].current.value;
    var n: nat :| TakenOffer(v, offers, n) && Verifies(v, 0, offers[n], c);
    assert Verifies(w, 0, offers[n], c);
    PendingDelivers(w, id, offers[n]);
  }

  /** And a rotated one. */
  lemma RotationDelivers(v: Vault, secret: Secret, derive: (KeyIdentity, Secret) -> Secret, id: SessionId)
    requires Safe(v) && Unlock(v, secret, {Active, PendingDelivery}) == Success((id, Current)) && RotateStep(v, secret, derive).Success?
    ensures var r := RotateStep(v, secret, derive).value; Delivers(r.vault, id, r.secret, r.generation)
  {
    var r := RotateStep(v, secret, derive).value;
    RotateAt(v, derive, secret, id, Current, r);
    RotateIsSafe(v, secret, derive);
    UnlockedAwake(v, secret, {Active, PendingDelivery});
    hide Safe, RotateStep, Unlock, Unlocks, UnseenBut, BuriedJust;
    var c :| Verifies(v, 0, r.secret, c) && HandsOver(v, id, c, r.vault);
    assert Verifies(r.vault, 0, r.secret, c);
    PendingDelivers(r.vault, id, r.secret);
  }

  lemma UnlockedAwake(v: Vault, secret: Secret, states: set<SessionState>)
    ensures Unlock(v, secret, states).Success? ==>
      && Unlock(v, secret, states).value.0 in v.sessions
      && v.clock < v.sessions[Unlock(v, secret, states).value.0].expires
  {
  }

  /** The secret acknowledges the session at this generation, and once it is active authenticates it. */
  ghost predicate Delivers(w: Vault, id: SessionId, secret: Secret, generation: nat) {
    && AcknowledgeStep(w, id, secret, generation).Success?
    && var u := AcknowledgeStep(w, id, secret, generation).value;
      && id in u.sessions && u.sessions[id].state == Active && Unlock(u, secret, {Active}) == Success((id, Current))
  }

  lemma PendingDelivers(w: Vault, id: SessionId, secret: Secret)
    requires Safe(w) && id in w.sessions && w.sessions[id].state == PendingDelivery && w.sessions[id].lastSeen == w.clock < w.sessions[id].expires
    requires |w.ring| > 0 && w.sessions[id].current.Some? && Verifies(w, 0, secret, w.sessions[id].current.value)
    ensures Delivers(w, id, secret, w.sessions[id].generation)
  {
    var s, c := w.sessions[id], w.sessions[id].current.value;
    var u := w.(sessions := w.sessions[id := Session(s.player, s.claim, Active, s.generation, w.clock, s.expires, s.rotateAfter, s.current, s.predecessor)]);
    assert s.player in w.players;
    assert InSlot(s, Current, c);
    assert !SlotSpent(w, s, Current) by { assert Holds(s, c) && !Buried(w.graves, c, w.clock); }
    assert SlotOpens(w, secret, s, Current);
    AcknowledgeExactly(w, id, secret, s.generation, u);
    AcknowledgeIsSafe(w, id, secret, s.generation);
    assert Verifies(u, 0, secret, c);
    hide Safe, AcknowledgeStep, SlotOpens, SlotSpent, Verifies, Unlock;
    DeliveredOpens(u, secret, {Active}, id);
  }
}
