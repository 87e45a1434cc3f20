/** Over every run: no digest is both live and buried or live twice, buried digests stay out, generations only grow. */
module SessionSafety {
  import opened Basics
  import opened SessionVault

  predicate SlotsDiffer(s: Session) {
    s.current.Some? && s.predecessor.Some? ==> s.current.value != s.predecessor.value.credential
  }

  ghost predicate Safe(v: Vault) {
    && (forall id :: id in v.sessions ==> SlotsDiffer(v.sessions[id]))
    && (forall a, b, c :: a in v.sessions && b in v.sessions && Holds(v.sessions[a], c) && Holds(v.sessions[b], c) ==> a == b)
    && (forall id, c :: id in v.sessions && Holds(v.sessions[id], c) ==> !Buried(v.graves, c, v.clock))
    && (forall id :: id in v.sessions ==> v.sessions[id].player in v.players)
    && (forall id :: id in v.sessions && v.sessions[id].predecessor.Some? ==>
      v.sessions[id].predecessor.value.validUntil <= v.clock + GRACE_MS)
  }

  /** A digest the session may hold from now on: one it held, or one nobody holds and nobody buried. */
  ghost predicate MayHold(v: Vault, id: SessionId, c: Credential) {
    (id in v.sessions && Holds(v.sessions[id], c)) || (!Live(v, c) && !Buried(v.graves, c, v.clock))
  }

  lemma BuryOutside(graves: map<Credential, int>, cs: set<Credential>, c: Credential, now: int)
    ensures c !in cs ==> (Buried(Bury(graves, cs, now), c, now) <==> Buried(graves, c, now))
    ensures c in cs ==> Buried(Bury(graves, cs, now), c, now)
  {
  }

  /** Every transaction on one session is an instance of this: it buries only what the session held and gives up. */
  lemma ReplaceSession(v: Vault, id: SessionId, s: Session, cs: set<Credential>, players: set<PlayerId>, w: Vault)
    requires Safe(v) && SlotsDiffer(s) && v.players <= players && s.player in players
    requires forall c :: Holds(s, c) ==> c !in cs && MayHold(v, id, c)
    requires forall c :: c in cs ==> id in v.sessions && Holds(v.sessions[id], c)
    requires s.predecessor.Some? ==> s.predecessor.value.validUntil <= v.clock + GRACE_MS
    requires w.sessions == v.sessions[id := s] && w.graves == Bury(v.graves, cs, v.clock)
    requires w.clock == v.clock && w.players == players
    ensures Safe(w)
  {
    forall a, c | a in w.sessions && Holds(w.sessions[a], c)
      ensures !Buried(w.graves, c, w.clock)
    {
      BuryOutside(v.graves, cs, c, v.clock);
      if a != id { assert Holds(v.sessions[a], c); }
    }
  }

  lemma RemoveSessions(v: Vault, ids: set<SessionId>, cs: set<Credential>, w: Vault)
    requires Safe(v) && ids <= v.sessions.Keys && w.sessions == v.sessions - ids && w.clock == v.clock
    requires forall c :: c in cs ==> exists id :: id in ids && Holds(v.sessions[id], c)
    requires w.graves == Bury(v.graves, cs, v.clock)
    requires forall id :: id in v.sessions && id !in ids ==> v.sessions[id].player in w.players
    ensures Safe(w)
  {
    forall a, c | a in w.sessions && Holds(w.sessions[a], c)
      ensures !Buried(w.graves, c, w.clock)
    {
      BuryOutside(v.graves, cs, c, v.clock);
      assert Holds(v.sessions[a], c);
    }
  }

  lemma {:induction false} IssuedIsFresh(v: Vault, offers: seq<Secret>)
    ensures Issue(v, offers).Some? ==> Issue(v, offers).value in offers && Fresh(v, Issue(v, offers).value)
    ensures Issue(v, offers).None? ==> forall secret :: secret in offers ==> !Fresh(v, secret)
    decreases |offers|
  {
    if offers != [] {
      if !Fresh(v, offers[0]) { IssuedIsFresh(v, offers[1..]); }
      assert offers == [offers[0]] + offers[1..];
    }
  }

  /** The active key's digest of an issued secret is free to use. */
  lemma IssuedIsFree(v: Vault, id: SessionId, offers: seq<Secret>)
    requires ActiveKeyReady(v) && Issue(v, offers).Some?
    ensures MayHold(v, id, CredentialOf(v.ring[0], Issue(v, offers).value))
    ensures !Live(v, CredentialOf(v.ring[0], Issue(v, offers).value))
  {
    IssuedIsFresh(v, offers);
  }

  lemma BuryNothing(graves: map<Credential, int>, now: int)
    ensures Bury(graves, {}, now) == graves
  {
  }

  lemma ClaimIsSafe(v: Vault, id: SessionId, player: PlayerId, create: bool, claim: ClaimId, offers: seq<Secret>)
    requires Safe(v)
    ensures Safe(OrSame(v, ClaimStep(v, id, player, create, claim, offers)))
  {
    var first := if |offers| > 4 then offers[..4] else offers;
    var r := ClaimStep(v, id, player, create, claim, offers);
    if r.Success? {
      IssuedIsFree(v, id, first);
      BuryNothing(v.graves, v.clock);
      ReplaceSession(v, id, r.value.sessions[id], {}, r.value.players, r.value);
    }
  }

  lemma RecoverIsSafe(v: Vault, id: SessionId, proven: bool, offers: seq<Secret>)
    requires Safe(v)
    ensures Safe(OrSame(v, RecoverStep(v, id, proven, offers)))
  {
    var first := if |offers| > 4 then offers[..4] else offers;
    var r := RecoverStep(v, id, proven, offers);
    if r.Success? {
      IssuedIsFree(v, id, first);
      var was := v.sessions[id].current.value;
      assert Holds(v.sessions[id], was);
      ReplaceSession(v, id, r.value.sessions[id], {was}, v.players, r.value);
    }
  }

  /** Steps that keep both slots of a session and bury nothing. */
  lemma TouchIsSafe(v: Vault, id: SessionId, s: Session, w: Vault)
    requires Safe(v) && id in v.sessions && s.player == v.sessions[id].player
    requires s.current == v.sessions[id].current && s.predecessor == v.sessions[id].predecessor
    requires w == v.(sessions := v.sessions[id := s])
    ensures Safe(w)
  {
    BuryNothing(v.graves, v.clock);
    ReplaceSession(v, id, s, {}, v.players, w);
  }

  lemma AcknowledgeIsSafe(v: Vault, id: SessionId, secret: Secret, generation: nat)
    requires Safe(v)
    ensures Safe(OrSame(v, AcknowledgeStep(v, id, secret, generation)))
  {
    var r := AcknowledgeStep(v, id, secret, generation);
    if r.Success? && r.value != v { TouchIsSafe(v, id, r.value.sessions[id], r.value); }
  }

  lemma AuthenticateIsSafe(v: Vault, secret: Secret)
    requires Safe(v)
    ensures Safe(OrSame(v, AuthenticateStep(v, secret)))
  {
    var r := AuthenticateStep(v, secret);
    if r.Success? {
      var id := Unlock(v, secret, {Active}).value.0;
      TouchIsSafe(v, id, r.value.sessions[id], r.value);
    }
  }

  /** What an accepted rotation of an active session does to its two slots. */
  lemma RotateIsSafe(v: Vault, secret: Secret, derive: (KeyIdentity, Secret) -> Secret)
    requires Safe(v)
    ensures RotateStep(v, secret, derive).Success? ==> Safe(RotateStep(v, secret, derive).value.vault)
  {
    var r := RotateStep(v, secret, derive);
    if r.Success? {
      var id := Unlock(v, secret, {Active, PendingDelivery}).value.0;
      var s, next := v.sessions[id], r.value.vault.sessions[id];
      if s.state == PendingDelivery {
        TouchIsSafe(v, id, next, r.value.vault);
      } else {
        var added := next.current.value;
        assert WithinHorizon(v.ring[0], v.clock) && added == CredentialOf(v.ring[0], r.value.secret);
        assert Holds(s, s.current.value);
        var retired := if s.predecessor.Some? then {s.predecessor.value.credential} else {};
        BuryNothing(v.graves, v.clock);
        ReplaceSession(v, id, next, retired, v.players, r.value.vault);
      }
    }
  }

  lemma LogoutIsSafe(v: Vault, secret: Secret)
    requires Safe(v)
    ensures Safe(OrSame(v, LogoutStep(v, secret)))
  {
    var r := LogoutStep(v, secret);
    if r.Success? && !LoggedOut(v, secret) {
      var id := Unlock(v, secret, {Active, PendingDelivery}).value.0;
      ReplaceSession(v, id, r.value.sessions[id], Held(v.sessions[id]), v.players, r.value);
    }
  }

  lemma SweepIsSafe(v: Vault, id: SessionId)
    requires Safe(v)
    ensures Safe(Sweep(v, id))
  {
    BuryNothing(v.graves, v.clock);
    if Sweep(v, id) != v { RemoveSessions(v, {id}, {}, Sweep(v, id)); }
  }

  lemma ExpireIsSafe(v: Vault, id: SessionId)
    requires Safe(v)
    ensures Safe(ExpireStep(v, id))
  {
    if id in v.sessions {
      var s := v.sessions[id];
      var retired := Retired(s, Min(s.expires, Max(s.lastSeen, v.clock)));
      var w := v.(graves := Bury(v.graves, Held(s), v.clock), sessions := v.sessions[id := retired]);
      ReplaceSession(v, id, retired, Held(s), v.players, w);
      SweepIsSafe(w, id);
    }
  }

  lemma ExpirePredecessorIsSafe(v: Vault, id: SessionId)
    requires Safe(v)
    ensures Safe(ExpirePredecessorStep(v, id))
  {
    if id in v.sessions && v.sessions[id].predecessor.Some? {
      var s := v.sessions[id];
      var c := s.predecessor.value.credential;
      var w := v.(graves := Bury(v.graves, {c}, v.clock), sessions := v.sessions[id := s.(predecessor := None)]);
      ReplaceSession(v, id, s.(predecessor := None), {c}, v.players, w);
      SweepIsSafe(w, id);
    }
  }

  lemma PurgeIsSafe(v: Vault, id: SessionId, slot: Slot)
    requires Safe(v)
    ensures Safe(PurgeStep(v, id, slot))
  {
    if id in v.sessions && SlotCredential(v.sessions[id], slot).Some? {
      var s := v.sessions[id];
      var c := SlotCredential(s, slot).value;
      var next := if slot == Current then s.(current := None, state := Revoked, lastSeen := Min(s.expires, Max(s.lastSeen, v.clock)))
                  else s.(predecessor := None);
      var w := v.(graves := Bury(v.graves, {c}, v.clock), sessions := v.sessions[id := next]);
      ReplaceSession(v, id, next, {c}, v.players, w);
      SweepIsSafe(w, id);
    }
  }

  lemma DeletePlayerIsSafe(v: Vault, player: PlayerId)
    requires Safe(v)
    ensures Safe(DeletePlayer(v, player))
  {
    var owned := OwnedBy(v, player);
    forall c | c in HeldBy(v, owned) ensures exists id :: id in owned && Holds(v.sessions[id], c) {
      var id :| id in owned && id in v.sessions && c in Held(v.sessions[id]);
      assert Holds(v.sessions[id], c);
    }
    RemoveSessions(v, owned, HeldBy(v, owned), DeletePlayer(v, player));
  }

  lemma ForgetIsSafe(v: Vault)
    requires Safe(v)
    ensures Safe(Exec(v, ForgetTombstones))
  {
    var w := Exec(v, ForgetTombstones);
    forall id, c | id in w.sessions && Holds(w.sessions[id], c) ensures !Buried(w.graves, c, w.clock) {
      assert Holds(v.sessions[id], c) && !Buried(v.graves, c, v.clock);
    }
  }

  lemma PassIsSafe(v: Vault, ms: nat)
    requires Safe(v)
    ensures Safe(Exec(v, Pass(ms)))
  {
    var w := Exec(v, Pass(ms));
    forall id, c | id in w.sessions && Holds(w.sessions[id], c) ensures !Buried(w.graves, c, w.clock) {
      assert Holds(v.sessions[id], c) && !Buried(v.graves, c, v.clock);
    }
  }

  /** Every transaction, whatever its arguments and outcome, keeps the vault safe. */
  lemma ExecIsSafe(v: Vault, op: Op)
    requires Safe(v)
    ensures Safe(Exec(v, op))
  {
    match op {
      case Claim(id, player, create, claim, offers) => ClaimIsSafe(v, id, player, create, claim, offers);
      case Recover(id, proven, offers) => RecoverIsSafe(v, id, proven, offers);
      case Acknowledge(id, secret, generation) => AcknowledgeIsSafe(v, id, secret, generation);
      case Authenticate(secret) => AuthenticateIsSafe(v, secret);
      case Rotate(secret, derive) => RotateIsSafe(v, secret, derive);
      case Logout(secret) => LogoutIsSafe(v, secret);
      case Delete(secret) =>
        var r := DeleteStep(v, secret);
        if r.Success? { DeletePlayerIsSafe(v, v.sessions[Resolve(v, secret, 0).value].player); }
      case DeleteProven(player) => DeletePlayerIsSafe(v, player);
      case Expire(id) => ExpireIsSafe(v, id);
      case ExpirePredecessor(id) => ExpirePredecessorIsSafe(v, id);
      case Purge(id, slot) => PurgeIsSafe(v, id, slot);
      case DropReceipt(id) => SweepIsSafe(v.(merges := v.merges - {id}), id);
      case ForgetTombstones => ForgetIsSafe(v);
      case Pass(ms) => PassIsSafe(v, ms);
      case ChangeKeys(ring) =>
    }
  }

  /** Over every run: no digest is both live and buried, and none is live in two slots. */
  lemma {:induction false} RunIsSafe(v: Vault, ops: seq<Op>)
    requires Safe(v)
    ensures Safe(Run(v, ops))
  {
    if ops != [] {
      RunIsSafe(v, ops[..|ops| - 1]);
      ExecIsSafe(Run(v, ops[..|ops| - 1]), ops[|ops| - 1]);
    }
  }

  // ---------------------------------------------------------------- buried digests stay out

  /** Tombstones of `v` that have not lapsed at `w`'s clock still stand in `w`. */
  ghost predicate GravesLast(v: Vault, w: Vault) {
    v.clock <= w.clock && forall c :: c in v.graves && v.graves[c] > w.clock ==> c in w.graves && w.graves[c] >= v.graves[c]
  }

  lemma BuryKeeps(graves: map<Credential, int>, cs: set<Credential>, now: int)
    ensures forall c :: c in graves ==> c in Bury(graves, cs, now) && Bury(graves, cs, now)[c] >= graves[c]
  {
  }

  lemma ExecKeepsGraves(v: Vault, op: Op)
    ensures GravesLast(v, Exec(v, op))
  {
    forall cs: set<Credential> ensures forall c :: c in v.graves ==> c in Bury(v.graves, cs, v.clock) && Bury(v.graves, cs, v.clock)[c] >= v.graves[c] {
      BuryKeeps(v.graves, cs, v.clock);
    }
    hide Resolve, Unlock, Live, Fresh, Issue, DerivedClear, OpenSlot, Matches, Bury;
  }

  lemma {:induction false} RunKeepsGraves(v: Vault, ops: seq<Op>)
    ensures GravesLast(v, Run(v, ops))
  {
    if ops != [] {
      RunKeepsGraves(v, ops[..|ops| - 1]);
      ExecKeepsGraves(Run(v, ops[..|ops| - 1]), ops[|ops| - 1]);
      hide Exec;
    }
  }

  /** A secret only ever opens a slot that holds its digest, and never a buried one. */
  lemma UnlockedIsLive(v: Vault, secret: Secret, states: set<SessionState>)
    ensures var r := Unlock(v, secret, states);
      r.Success? ==>
        && r.value.0 in v.sessions
        && SlotCredential(v.sessions[r.value.0], r.value.1).Some?
        && SlotCredential(v.sessions[r.value.0], r.value.1).value.digest.secret == secret
        && Holds(v.sessions[r.value.0], SlotCredential(v.sessions[r.value.0], r.value.1).value)
        && !Buried(v.graves, SlotCredential(v.sessions[r.value.0], r.value.1).value, v.clock)
  {
  }

  /** While a digest's tombstone lasts, no run makes it live again, so nothing it stands for authenticates. */
  lemma BuriedStaysOut(v: Vault, ops: seq<Op>, c: Credential)
    requires Safe(v) && c in v.graves && v.graves[c] > Run(v, ops).clock
    ensures !Live(Run(v, ops), c)
    ensures forall secret, states ::
      Unlock(Run(v, ops), secret, states).Success? ==>
        SlotCredential(Run(v, ops).sessions[Unlock(Run(v, ops), secret, states).value.0], Unlock(Run(v, ops), secret, states).value.1) != Some(c)
  {
    var w := Run(v, ops);
    RunIsSafe(v, ops);
    RunKeepsGraves(v, ops);
    assert Buried(w.graves, c, w.clock);
    forall secret, states | Unlock(w, secret, states).Success?
      ensures SlotCredential(w.sessions[Unlock(w, secret, states).value.0], Unlock(w, secret, states).value.1) != Some(c)
    {
      UnlockedIsLive(w, secret, states);
    }
  }

  /** At most two secrets open a session: the one behind its current digest and the one behind its predecessor. */
  lemma AtMostTwoSecrets(v: Vault, id: SessionId, secret: Secret, states: set<SessionState>)
    requires id in v.sessions && Unlock(v, secret, states).Success? && Unlock(v, secret, states).value.0 == id
    ensures var s := v.sessions[id];
      (s.current.Some? && secret == s.current.value.digest.secret)
      || (s.predecessor.Some? && secret == s.predecessor.value.credential.digest.secret && v.clock < s.predecessor.value.validUntil)
  {
  }

  // ---------------------------------------------------------------- generations and hand-over

  /** A session's generation never falls, and a new current digest always comes with a higher one. */
  ghost predicate GenerationMoves(v: Vault, w: Vault, id: SessionId) {
    id in v.sessions && id in w.sessions ==>
      && v.sessions[id].generation <= w.sessions[id].generation
      && (w.sessions[id].current.Some? && w.sessions[id].current != v.sessions[id].current ==>
        v.sessions[id].generation < w.sessions[id].generation)
  }

  lemma ExecMovesGeneration(v: Vault, op: Op, id: SessionId)
    ensures GenerationMoves(v, Exec(v, op), id)
    ensures id in Exec(v, op).sessions && id !in v.sessions ==> op.Claim? && op.id == id
  {
    forall secret, states ensures Unlock(v, secret, states).Success? ==> Unlock(v, secret, states).value.0 in v.sessions {
      UnlockedIsLive(v, secret, states);
    }
    hide Resolve, Unlock, Live, Fresh, Issue, DerivedClear, OpenSlot, Matches, Bury;
  }

  /** Over a run that does not claim `id` anew, its generation never falls. */
  lemma {:induction false} RunRaisesGeneration(v: Vault, ops: seq<Op>, id: SessionId)
    requires forall i :: 0 <= i < |ops| ==> !(ops[i].Claim? && ops[i].id == id)
    ensures id in Run(v, ops).sessions ==> id in v.sessions && v.sessions[id].generation <= Run(v, ops).sessions[id].generation
    ensures id in Run(v, ops).sessions && Run(v, ops).sessions[id].current.Some? && Run(v, ops).sessions[id].current != v.sessions[id].current ==>
      v.sessions[id].generation < Run(v, ops).sessions[id].generation || v.sessions[id].current.None?
  {
    if ops != [] {
      RunRaisesGeneration(v, ops[..|ops| - 1], id);
      ExecMovesGeneration(Run(v, ops[..|ops| - 1]), ops[|ops| - 1], id);
      hide Exec;
    }
  }
}
