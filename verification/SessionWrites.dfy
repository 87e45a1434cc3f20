/** Each session transaction as a relation: exactly which vaults it can lead to, with every field spelled out. */
module SessionWrites {
  import opened Basics
  import opened SessionVault
  import opened SessionSafety
  import opened SessionOutcomes

  // ---------------------------------------------------------------- vocabulary

  /** No key that is not retired makes the secret a digest some slot holds or a standing tombstone names. */
  ghost predicate Unseen(v: Vault, secret: Secret) {
    forall i, c | 0 <= i < |v.ring| && Digests(v, i, secret, c) ::
      !(c in v.graves && v.graves[c] > v.clock) && !Occupied(v, c)
  }

  ghost predicate Occupied(v: Vault, c: Credential) {
    exists id, slot :: id in v.sessions && InSlot(v.sessions[id], slot, c)
  }

  /** The offer taken is the first unseen one of at most four. */
  ghost predicate TakenOffer(v: Vault, offers: seq<Secret>, n: nat) {
    && n < |offers| && n < 4 && Unseen(v, offers[n])
    && forall m :: 0 <= m < n ==> !Unseen(v, offers[m])
  }

  /** The active key digests the offer taken to `c`. */
  ghost predicate Issues(v: Vault, offers: seq<Secret>, c: Credential) {
    |v.ring| > 0 && exists n: nat :: TakenOffer(v, offers, n) && Verifies(v, 0, offers[n], c)
  }

  /** `after` adds a tombstone of thirty days for what these slots held; an existing later one stays. */
  ghost predicate BuriedJust(before: map<Credential, int>, after: map<Credential, int>, now: int, s: Session, slots: set<Slot>) {
    forall c: Credential ::
      if exists slot :: slot in slots && InSlot(s, slot, c)
      then c in after && after[c] == (if c in before && before[c] > now + MONTH_MS then before[c] else now + MONTH_MS)
      else (c in after <==> c in before) && (c in before ==> after[c] == before[c])
  }

  /** Everything but sessions and tombstones is as before. */
  predicate SameRest(v: Vault, w: Vault) {
    w.clock == v.clock && w.players == v.players && w.merges == v.merges && w.ring == v.ring && w.logouts == v.logouts
  }

  function Earlier(a: int, b: int): int { if a < b then a else b }
  function Later(a: int, b: int): int { if a < b then b else a }

  lemma BuryMeans(before: map<Credential, int>, now: int, s: Session, slots: set<Slot>, cs: set<Credential>, after: map<Credential, int>)
    requires forall c :: c in cs <==> exists slot :: slot in slots && InSlot(s, slot, c)
    ensures BuriedJust(before, after, now, s, slots) <==> after == Bury(before, cs, now)
  {
    var due := Bury(before, cs, now);
    hide InSlot;
    if BuriedJust(before, after, now, s, slots) {
      forall c ensures c in after <==> c in due {}
      assert after == due;
    }
  }

  lemma HeldMeans(s: Session, c: Credential)
    ensures c in Held(s) <==> exists slot :: slot in {Current, Predecessor} && InSlot(s, slot, c)
  {
    HoldsMeans(s, c);
    assert c in Held(s) <==> Holds(s, c);
    hide InSlot, Held, Holds;
    if slot :| InSlot(s, slot, c) { assert slot == Current || slot == Predecessor; }
  }

  lemma BuryHeldMeans(before: map<Credential, int>, now: int, s: Session, after: map<Credential, int>)
    ensures BuriedJust(before, after, now, s, {Current, Predecessor}) <==> after == Bury(before, Held(s), now)
  {
    forall c ensures c in Held(s) <==> exists slot :: slot in {Current, Predecessor} && InSlot(s, slot, c) { HeldMeans(s, c); }
    hide Held, InSlot, Bury;
    BuryMeans(before, now, s, {Current, Predecessor}, Held(s), after);
  }

  lemma BuryOneMeans(before: map<Credential, int>, now: int, s: Session, slot: Slot, after: map<Credential, int>)
    ensures SlotCredential(s, slot).Some? ==>
      (BuriedJust(before, after, now, s, {slot}) <==> after == Bury(before, {SlotCredential(s, slot).value}, now))
    ensures SlotCredential(s, slot).None? ==> (BuriedJust(before, after, now, s, {slot}) <==> after == before)
  {
    forall c ensures InSlot(s, slot, c) <==> SlotCredential(s, slot) == Some(c) {}
    var cs := if SlotCredential(s, slot).Some? then {SlotCredential(s, slot).value} else {};
    hide InSlot, SlotCredential;
    assert forall c :: c in cs <==> SlotCredential(s, slot) == Some(c);
    forall c ensures c in cs <==> exists t :: t in {slot} && InSlot(s, t, c) {
      if c in cs { assert slot in {slot} && InSlot(s, slot, c); }
    }
    BuryMeans(before, now, s, {slot}, cs, after);
    BuryNothing(before, now);
    hide Bury;
  }

  lemma SpentMeans(v: Vault, s: Session, slot: Slot)
    ensures SlotSpent(v, s, slot) <==> SlotCredential(s, slot).Some? && Buried(v.graves, SlotCredential(s, slot).value, v.clock)
  {
    forall c ensures InSlot(s, slot, c) <==> SlotCredential(s, slot) == Some(c) {}
    hide InSlot, SlotCredential;
  }

  lemma LiveMeans(v: Vault, c: Credential)
    ensures Occupied(v, c) <==> Live(v, c)
  {
    forall id | id in v.sessions ensures Holds(v.sessions[id], c) <==> exists slot :: InSlot(v.sessions[id], slot, c) {
      HoldsMeans(v.sessions[id], c);
    }
    hide InSlot, Holds;
  }

  lemma UnseenMeans(v: Vault, secret: Secret)
    ensures Unseen(v, secret) <==> Fresh(v, secret)
  {
    forall i, c | 0 <= i < |v.ring| ensures Digests(v, i, secret, c) <==> WithinHorizon(v.ring[i], v.clock) && CredentialOf(v.ring[i], secret) == c {
      VerifiesMeans(v, i, secret, c);
    }
    forall c ensures Occupied(v, c) <==> Live(v, c) { LiveMeans(v, c); }
    hide Digests, WithinHorizon, CredentialOf, Occupied, Live;
    if Unseen(v, secret) {
      forall i | 0 <= i < |v.ring| && WithinHorizon(v.ring[i], v.clock)
        ensures !Buried(v.graves, CredentialOf(v.ring[i], secret), v.clock) && !Live(v, CredentialOf(v.ring[i], secret))
      {
        assert Digests(v, i, secret, CredentialOf(v.ring[i], secret));
      }
    }
  }

  /** Issuing takes the first fresh offer. */
  lemma {:induction false} IssueTakes(v: Vault, offers: seq<Secret>)
    ensures Issue(v, offers).Some? <==> exists n: nat :: FirstFresh(v, offers, n)
    ensures forall n: nat :: FirstFresh(v, offers, n) ==> Issue(v, offers) == Some(offers[n])
    decreases |offers|
  {
    if offers != [] {
      hide Fresh;
      var rest := offers[1..];
      IssueTakes(v, rest);
      if Fresh(v, offers[0]) {
        assert FirstFresh(v, offers, 0);
      } else {
        if n: nat :| FirstFresh(v, rest, n) {
          assert FirstFresh(v, offers, n + 1) by {
            forall m | 0 <= m < n + 1 ensures !Fresh(v, offers[m]) { if m > 0 { assert rest[m - 1] == offers[m]; } }
          }
        }
        forall n: nat | FirstFresh(v, offers, n) ensures n > 0 && FirstFresh(v, rest, n - 1) {
          forall m | 0 <= m < n - 1 ensures !Fresh(v, rest[m]) { assert rest[m] == offers[m + 1]; }
        }
      }
    }
  }

  ghost predicate FirstFresh(v: Vault, offers: seq<Secret>, n: nat) {
    n < |offers| && Fresh(v, offers[n]) && forall m :: 0 <= m < n ==> !Fresh(v, offers[m])
  }

  lemma TakenMeans(v: Vault, offers: seq<Secret>, n: nat)
    ensures TakenOffer(v, offers, n) <==> FirstFresh(v, if |offers| > 4 then offers[..4] else offers, n)
  {
    forall m | 0 <= m < |offers| ensures Unseen(v, offers[m]) <==> Fresh(v, offers[m]) { UnseenMeans(v, offers[m]); }
    hide Unseen, Fresh;
  }

  lemma ActiveVerifies(v: Vault, secret: Secret, c: Credential)
    ensures |v.ring| > 0 && Verifies(v, 0, secret, c) <==> ActiveKeyReady(v) && c == CredentialOf(v.ring[0], secret)
  {
  }

  /** The issuing part of a claim and of a recovery, both ways. */
  lemma IssuesExactly(v: Vault, offers: seq<Secret>, c: Credential)
    ensures Issues(v, offers, c) <==> var issued := Issue(v, if |offers| > 4 then offers[..4] else offers);
      ActiveKeyReady(v) && issued.Some? && c == CredentialOf(v.ring[0], issued.value)
  {
    var first := if |offers| > 4 then offers[..4] else offers;
    IssueTakes(v, first);
    hide Issue, TakenOffer, FirstFresh, Verifies, CredentialOf;
    if Issue(v, first).Some? {
      var n: nat :| FirstFresh(v, first, n);
      TakenMeans(v, offers, n);
      assert first[n] == offers[n] by { FirstInside(v, first, n); }
      ActiveVerifies(v, offers[n], c);
    }
    if Issues(v, offers, c) {
      var n: nat :| TakenOffer(v, offers, n) && Verifies(v, 0, offers[n], c);
      TakenMeans(v, offers, n);
      assert first[n] == offers[n] by { FirstInside(v, first, n); }
      ActiveVerifies(v, offers[n], c);
    }
  }

  lemma FirstInside(v: Vault, offers: seq<Secret>, n: nat)
    requires FirstFresh(v, offers, n)
    ensures n < |offers|
  {
  }

  // ---------------------------------------------------------------- issuing and delivery

  /** A claim succeeds exactly so, and leaves exactly this: an undelivered session of thirty days, rotation due in seven. */
  lemma ClaimExactly(v: Vault, id: SessionId, player: PlayerId, create: bool, claim: ClaimId, offers: seq<Secret>, w: Vault)
    ensures ClaimStep(v, id, player, create, claim, offers) == Success(w) <==> Claims(v, id, player, create, claim, offers, w)
  {
    forall c ensures Issues(v, offers, c) <==> var issued := Issue(v, if |offers| > 4 then offers[..4] else offers);
      ActiveKeyReady(v) && issued.Some? && c == CredentialOf(v.ring[0], issued.value)
    {
      IssuesExactly(v, offers, c);
    }
    hide Issues, Issue, Usable;
    if ClaimStep(v, id, player, create, claim, offers) == Success(w) {
      assert Issues(v, offers, w.sessions[id].current.value);
    }
  }

  ghost predicate Claims(v: Vault, id: SessionId, player: PlayerId, create: bool, claim: ClaimId, offers: seq<Secret>, w: Vault) {
    && id !in v.sessions && (create <==> player !in v.players)
    && (forall other | other in v.sessions && v.sessions[other].player == player :: v.sessions[other].claim != claim)
    && exists c | Issues(v, offers, c) ::
        w == Vault(
          v.clock, v.players + {player},
          v.sessions[id := Session(player, claim, PendingDelivery, 1, v.clock, v.clock + MONTH_MS, v.clock + WEEK_MS, Some(c), None)],
          v.merges + {id}, v.graves, v.logouts, v.ring)
  }

  /** A recovery reaches an undelivered, unexpired session with an unspent current digest, replaces both slots and buries that one. */
  ghost predicate Recovers(v: Vault, id: SessionId, proven: bool, offers: seq<Secret>, w: Vault) {
    && proven && id in v.sessions && SameRest(v, w)
    && var s := v.sessions[id];
      && s.player in v.players && s.state == PendingDelivery && v.clock < s.expires && s.current.Some? && !SlotSpent(v, s, Current)
      && BuriedJust(v.graves, w.graves, v.clock, s, {Current})
      && exists c | Issues(v, offers, c) ::
          w.sessions == v.sessions[id := Session(
            s.player, s.claim, PendingDelivery, s.generation + 1, v.clock, s.expires, Earlier(s.expires - 1, v.clock + WEEK_MS), Some(c), None)]
  }

  lemma RecoverExactly(v: Vault, id: SessionId, proven: bool, offers: seq<Secret>, w: Vault)
    ensures RecoverStep(v, id, proven, offers) == Success(w) <==> Recovers(v, id, proven, offers, w)
  {
    forall c ensures Issues(v, offers, c) <==> var issued := Issue(v, if |offers| > 4 then offers[..4] else offers);
      ActiveKeyReady(v) && issued.Some? && c == CredentialOf(v.ring[0], issued.value)
    {
      IssuesExactly(v, offers, c);
    }
    if id in v.sessions {
      SpentMeans(v, v.sessions[id], Current);
      BuryOneMeans(v.graves, v.clock, v.sessions[id], Current, w.graves);
    }
    hide Issues, Issue, Usable, SlotSpent, BuriedJust, Bury, Buried;
    if RecoverStep(v, id, proven, offers) == Success(w) {
      assert Issues(v, offers, w.sessions[id].current.value);
    }
  }

  /** Delivery is acknowledged with the current secret and the latest generation; the session is then active. */
  ghost predicate Acknowledges(v: Vault, id: SessionId, secret: Secret, generation: nat, w: Vault) {
    && id in v.sessions
    && var s := v.sessions[id];
      && s.player in v.players && s.state != Revoked && s.generation == generation
      && v.clock < s.expires && v.clock < s.lastSeen + WEEK_MS && SlotOpens(v, secret, s, Current) && !SlotSpent(v, s, Current)
      && (s.state == Active ==> w == v)
      && (s.state == PendingDelivery ==> SameRest(v, w) && w.graves == v.graves && w.sessions == v.sessions[id := Session(
        s.player, s.claim, Active, s.generation, v.clock, s.expires, s.rotateAfter, s.current, s.predecessor)])
  }

  lemma AcknowledgeExactly(v: Vault, id: SessionId, secret: Secret, generation: nat, w: Vault)
    ensures AcknowledgeStep(v, id, secret, generation) == Success(w) <==> Acknowledges(v, id, secret, generation, w)
  {
    if id in v.sessions {
      SpentMeans(v, v.sessions[id], Current);
      SlotOpensMeans(v, secret, v.sessions[id], Current);
    }
    hide SlotSpent, SlotOpens, Buried, Matches;
  }

  // ---------------------------------------------------------------- authentication and rotation

  ghost predicate Seen(v: Vault, id: SessionId, w: Vault) {
    && id in v.sessions && SameRest(v, w) && w.graves == v.graves
    && var s := v.sessions[id];
      w.sessions == v.sessions[id := Session(
        s.player, s.claim, s.state, s.generation, v.clock, s.expires, s.rotateAfter, s.current, s.predecessor)]
  }

  /** Authentication stamps the one active session the secret unlocks, and changes nothing else. */
  lemma AuthenticateExactly(v: Vault, secret: Secret, w: Vault)
    requires Safe(v)
    ensures AuthenticateStep(v, secret) == Success(w) <==> exists id, slot :: Unlocks(v, secret, {Active}, id, slot) && Seen(v, id, w)
  {
    forall id: SessionId, slot ensures Unlocks(v, secret, {Active}, id, slot) <==> Unlock(v, secret, {Active}) == Success((id, slot)) {
      UnlocksExactly(v, secret, {Active}, id, slot);
    }
    UnlockedIsLive(v, secret, {Active});
    hide Unlocks, Unlock, Safe;
    if AuthenticateStep(v, secret) == Success(w) {
      var at := Unlock(v, secret, {Active}).value;
      assert Unlocks(v, secret, {Active}, at.0, at.1) && Seen(v, at.0, w);
    }
  }

  /** Nothing under any key that is not retired is buried or held, except what the session itself holds as current. */
  ghost predicate UnseenBut(v: Vault, secret: Secret, own: Option<Credential>) {
    forall i, c | 0 <= i < |v.ring| && Digests(v, i, secret, c) ::
      !(c in v.graves && v.graves[c] > v.clock) && (Occupied(v, c) ==> own == Some(c))
  }

  lemma ClearMeans(v: Vault, secret: Secret, own: Option<Credential>)
    ensures UnseenBut(v, secret, own) <==> DerivedClear(v, secret, own)
  {
    forall i, c | 0 <= i < |v.ring| ensures Digests(v, i, secret, c) <==> WithinHorizon(v.ring[i], v.clock) && CredentialOf(v.ring[i], secret) == c {
      VerifiesMeans(v, i, secret, c);
    }
    forall c ensures Occupied(v, c) <==> Live(v, c) { LiveMeans(v, c); }
    hide Digests, WithinHorizon, CredentialOf, Occupied, Live;
    if UnseenBut(v, secret, own) {
      forall i | 0 <= i < |v.ring| && WithinHorizon(v.ring[i], v.clock)
        ensures var c := CredentialOf(v.ring[i], secret); !Buried(v.graves, c, v.clock) && (Live(v, c) ==> Some(c) == own)
      {
        assert Digests(v, i, secret, CredentialOf(v.ring[i], secret));
      }
    }
  }

  /** The current digest goes out for a minute, `c` takes its place, a lapsed outgoing one is buried. */
  ghost predicate HandsOver(v: Vault, id: SessionId, c: Credential, w: Vault)
    requires id in v.sessions && v.sessions[id].current.Some?
  {
    var s := v.sessions[id];
    && SameRest(v, w) && BuriedJust(v.graves, w.graves, v.clock, s, {Predecessor})
    && w.sessions == v.sessions[id := Session(
      s.player, s.claim, PendingDelivery, s.generation + 1, v.clock, s.expires, Earlier(s.expires, v.clock + WEEK_MS),
      Some(c), Some(Outgoing(s.current.value, Earlier(s.expires, v.clock + MINUTE_MS))))]
  }

  /**
   * Repeated through the outgoing secret, the secret already derived is returned and the session only stamped.  Through
   * the current secret of an active session without an outgoing digest in grace, one is derived: the current digest
   * goes out for a minute, the derived one takes its place, a lapsed outgoing one is buried.
   */
  ghost predicate Rotates(v: Vault, derive: (KeyIdentity, Secret) -> Secret, secret: Secret, id: SessionId, slot: Slot, r: Rotated) {
    && Unlocks(v, secret, {Active, PendingDelivery}, id, slot) && id in v.sessions && |v.ring| > 0
    && var s, w := v.sessions[id], r.vault;
      if s.state == PendingDelivery then
        && slot == Predecessor && s.predecessor.Some? && s.current.Some?
        && r.secret == derive(s.predecessor.value.credential.digest.key, secret) && r.generation == s.generation
        && Verifies(v, 0, r.secret, Credential(v.ring[0].version, Mac(v.ring[0].identity, r.secret)))
        && UnseenBut(v, r.secret, s.current) && Seen(v, id, w)
      else
        && slot == Current && s.current.Some? && (s.predecessor.None? || s.predecessor.value.validUntil <= v.clock)
        && r.secret == derive(s.current.value.digest.key, secret) && r.generation == s.generation + 1
        && UnseenBut(v, r.secret, None) && exists c :: Verifies(v, 0, r.secret, c) && HandsOver(v, id, c, w)
  }

  lemma RepeatAt(v: Vault, derive: (KeyIdentity, Secret) -> Secret, secret: Secret, id: SessionId, slot: Slot, r: Rotated)
    requires Safe(v) && Unlock(v, secret, {Active, PendingDelivery}) == Success((id, slot)) && id in v.sessions
    requires v.sessions[id].state == PendingDelivery
    ensures RotateStep(v, secret, derive) == Success(r) <==> Rotates(v, derive, secret, id, slot, r)
  {
    UnlocksExactly(v, secret, {Active, PendingDelivery}, id, slot);
    UnlockedIsLive(v, secret, {Active, PendingDelivery});
    var s := v.sessions[id];
    ClearMeans(v, r.secret, s.current);
    ActiveVerifies(v, r.secret, Credential(if |v.ring| > 0 then v.ring[0].version else 0, Mac(if |v.ring| > 0 then v.ring[0].identity else 0, r.secret)));
    hide Unlocks, Unlock, Safe, UnseenBut, DerivedClear, BuriedJust, Verifies, Usable;
  }

  lemma HandsOverExactly(v: Vault, id: SessionId, c: Credential, w: Vault)
    requires id in v.sessions && v.sessions[id].current.Some?
    ensures HandedOver(v, id, c) == w <==> HandsOver(v, id, c, w)
  {
    BuryOneMeans(v.graves, v.clock, v.sessions[id], Predecessor, w.graves);
    hide BuriedJust, Bury;
  }

  lemma HandOverAt(v: Vault, derive: (KeyIdentity, Secret) -> Secret, secret: Secret, id: SessionId, slot: Slot, r: Rotated)
    requires Safe(v) && Unlock(v, secret, {Active, PendingDelivery}) == Success((id, slot)) && id in v.sessions
    requires v.sessions[id].state == Active
    ensures RotateStep(v, secret, derive) == Success(r) <==> Rotates(v, derive, secret, id, slot, r)
  {
    UnlocksExactly(v, secret, {Active, PendingDelivery}, id, slot);
    UnlockedIsLive(v, secret, {Active, PendingDelivery});
    ClearMeans(v, r.secret, None);
    forall c ensures |v.ring| > 0 && Verifies(v, 0, r.secret, c) <==> ActiveKeyReady(v) && c == CredentialOf(v.ring[0], r.secret) {
      ActiveVerifies(v, r.secret, c);
    }
    if v.sessions[id].current.Some? && |v.ring| > 0 { HandsOverExactly(v, id, CredentialOf(v.ring[0], r.secret), r.vault); }
    hide Unlocks, Unlock, Safe, UnseenBut, DerivedClear, HandsOver, HandedOver, Verifies, Usable, CredentialOf;
  }

  lemma RotateAt(v: Vault, derive: (KeyIdentity, Secret) -> Secret, secret: Secret, id: SessionId, slot: Slot, r: Rotated)
    requires Safe(v) && Unlock(v, secret, {Active, PendingDelivery}) == Success((id, slot))
    ensures RotateStep(v, secret, derive) == Success(r) <==> Rotates(v, derive, secret, id, slot, r)
  {
    UnlockedStates(v, secret, {Active, PendingDelivery});
    hide Unlock, Rotates, RotateStep, Safe;
    if v.sessions[id].state == PendingDelivery {
      RepeatAt(v, derive, secret, id, slot, r);
    } else {
      HandOverAt(v, derive, secret, id, slot, r);
    }
  }

  lemma UnlockedStates(v: Vault, secret: Secret, states: set<SessionState>)
    ensures Unlock(v, secret, states).Success? ==>
      Unlock(v, secret, states).value.0 in v.sessions && v.sessions[Unlock(v, secret, states).value.0].state in states
  {
  }

  /** A rotation succeeds exactly so. */
  lemma RotateExactly(v: Vault, secret: Secret, derive: (KeyIdentity, Secret) -> Secret, r: Rotated)
    requires Safe(v)
    ensures RotateStep(v, secret, derive) == Success(r) <==> exists id, slot :: Rotates(v, derive, secret, id, slot, r)
  {
    if id, slot :| Rotates(v, derive, secret, id, slot, r) {
      UnlocksExactly(v, secret, {Active, PendingDelivery}, id, slot);
      RotateAt(v, derive, secret, id, slot, r);
    }
    if RotateStep(v, secret, derive) == Success(r) {
      assert Unlock(v, secret, {Active, PendingDelivery}).Success?;
      var at := Unlock(v, secret, {Active, PendingDelivery}).value;
      hide Rotates, RotateStep, Unlock, Safe;
      RotateAt(v, derive, secret, at.0, at.1, r);
    }
  }

  // ---------------------------------------------------------------- log-out

  /** A log-out tombstone of the secret under some key that is not retired still stands. */
  ghost predicate WasOut(v: Vault, secret: Secret) {
    exists i, c :: 0 <= i < |v.ring| && Digests(v, i, secret, c) && c in v.logouts && v.logouts[c] > v.clock
  }

  /** The session is revoked, both its slots are empty, and what they held is buried twice for thirty days. */
  ghost predicate LogsOut(v: Vault, secret: Secret, id: SessionId, slot: Slot, w: Vault) {
    && Unlocks(v, secret, {Active, PendingDelivery}, id, slot) && id in v.sessions
    && var s := v.sessions[id];
      && w.sessions == v.sessions[id := Session(
        s.player, s.claim, Revoked, s.generation, v.clock, s.expires, s.rotateAfter, None, None)]
      && BuriedJust(v.graves, w.graves, v.clock, s, {Current, Predecessor})
      && BuriedJust(v.logouts, w.logouts, v.clock, s, {Current, Predecessor})
      && w.clock == v.clock && w.players == v.players && w.merges == v.merges && w.ring == v.ring
  }

  lemma WasOutMeans(v: Vault, secret: Secret)
    ensures WasOut(v, secret) <==> LoggedOut(v, secret)
  {
    forall i, c | 0 <= i < |v.ring| ensures Digests(v, i, secret, c) <==> WithinHorizon(v.ring[i], v.clock) && CredentialOf(v.ring[i], secret) == c {
      VerifiesMeans(v, i, secret, c);
    }
    hide Digests, WithinHorizon, CredentialOf;
    if i :| 0 <= i < |v.ring| && WithinHorizon(v.ring[i], v.clock) && Buried(v.logouts, CredentialOf(v.ring[i], secret), v.clock) {
      assert Digests(v, i, secret, CredentialOf(v.ring[i], secret));
    }
  }

  lemma LogoutAt(v: Vault, secret: Secret, id: SessionId, slot: Slot, w: Vault)
    requires Safe(v) && !LoggedOut(v, secret) && Unlock(v, secret, {Active, PendingDelivery}) == Success((id, slot))
    ensures LogoutStep(v, secret) == Success(w) <==> LogsOut(v, secret, id, slot, w)
  {
    UnlocksExactly(v, secret, {Active, PendingDelivery}, id, slot);
    UnlockedIsLive(v, secret, {Active, PendingDelivery});
    BuryHeldMeans(v.graves, v.clock, v.sessions[id], w.graves);
    BuryHeldMeans(v.logouts, v.clock, v.sessions[id], w.logouts);
    hide Unlocks, Unlock, Safe, BuriedJust, Bury, LoggedOut, Held;
  }

  /** A log-out answers already-logged-out and changes nothing, or ends exactly the session the secret unlocks. */
  lemma LogoutExactly(v: Vault, secret: Secret, w: Vault)
    requires Safe(v)
    ensures LogoutStep(v, secret) == Success(w) <==>
      if WasOut(v, secret) then w == v else exists id, slot :: LogsOut(v, secret, id, slot, w)
  {
    WasOutMeans(v, secret);
    if !LoggedOut(v, secret) {
      if id, slot :| LogsOut(v, secret, id, slot, w) {
        UnlocksExactly(v, secret, {Active, PendingDelivery}, id, slot);
        LogoutAt(v, secret, id, slot, w);
      }
      if LogoutStep(v, secret) == Success(w) {
        assert Unlock(v, secret, {Active, PendingDelivery}).Success?;
        var at := Unlock(v, secret, {Active, PendingDelivery}).value;
        hide LogsOut, LogoutStep, Unlock, Safe, LoggedOut, WasOut;
        LogoutAt(v, secret, at.0, at.1, w);
      }
    }
    hide WasOut, LoggedOut, Unlock, LogsOut;
  }
}
