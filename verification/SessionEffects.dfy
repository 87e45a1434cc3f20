/** What any transaction can do to the digests and the tombstones, and so when an outgoing digest can ever come back. */
module SessionEffects {
  import opened Basics
  import opened SessionVault
  import opened SessionSafety

  /** A digest put in place now: the active key's digest of a secret of which nothing verifiable is live or buried. */
  ghost predicate Introduced(u: Vault, op: Op, c: Credential) {
    && (op.Claim? || op.Recover? || op.Rotate?) && ActiveKeyReady(u)
    && c == CredentialOf(u.ring[0], c.digest.secret) && Fresh(u, c.digest.secret)
  }

  /** Slots only keep what they held, pass the current digest on to the predecessor, or take the one introduced. */
  ghost predicate SlotsFollow(u: Vault, w: Vault, added: Option<Credential>) {
    forall j :: j in w.sessions ==>
      && (w.sessions[j].current.Some? ==>
        (j in u.sessions && u.sessions[j].current == w.sessions[j].current) || w.sessions[j].current == added)
      && (w.sessions[j].predecessor.Some? ==>
        j in u.sessions && (u.sessions[j].predecessor == w.sessions[j].predecessor
          || u.sessions[j].current == Some(w.sessions[j].predecessor.value.credential)))
  }

  /** Whatever is newly buried was given up by the session that held it. */
  ghost predicate BuriesReleased(u: Vault, w: Vault) {
    && u.clock <= w.clock
    && forall c :: Buried(w.graves, c, w.clock) ==>
      Buried(u.graves, c, u.clock) || exists j :: Releases(u, w, j, c)
  }

  ghost predicate Releases(u: Vault, w: Vault, j: SessionId, c: Credential) {
    j in u.sessions && Holds(u.sessions[j], c) && !(j in w.sessions && Holds(w.sessions[j], c))
  }

  ghost predicate Effect(u: Vault, op: Op, w: Vault, added: Option<Credential>) {
    && (added.Some? ==> Introduced(u, op, added.value))
    && SlotsFollow(u, w, added) && BuriesReleased(u, w)
  }

  lemma UnchangedEffect(u: Vault, op: Op)
    ensures Effect(u, op, u, None)
  {
  }

  /** One session replaced: nothing, or some of what it held, is buried. */
  lemma ReplaceEffect(u: Vault, op: Op, j: SessionId, s: Session, cs: set<Credential>, added: Option<Credential>, w: Vault)
    requires w.sessions == u.sessions[j := s] && w.graves == Bury(u.graves, cs, u.clock) && w.clock == u.clock
    requires forall c :: c in cs ==> j in u.sessions && Holds(u.sessions[j], c) && !Holds(s, c)
    requires s.current.Some? ==> (j in u.sessions && u.sessions[j].current == s.current) || s.current == added
    requires s.predecessor.Some? ==>
      j in u.sessions && (u.sessions[j].predecessor == s.predecessor || u.sessions[j].current == Some(s.predecessor.value.credential))
    requires added.Some? ==> Introduced(u, op, added.value)
    ensures Effect(u, op, w, added)
  {
    hide Introduced;
    forall c | Buried(w.graves, c, w.clock) && !Buried(u.graves, c, u.clock) ensures exists k :: Releases(u, w, k, c) {
      BuryOutside(u.graves, cs, c, u.clock);
      assert Releases(u, w, j, c);
    }
  }

  /** Sessions removed: some of what they held is buried. */
  lemma RemoveEffect(u: Vault, op: Op, ids: set<SessionId>, cs: set<Credential>, w: Vault)
    requires w.sessions == u.sessions - ids && w.graves == Bury(u.graves, cs, u.clock) && w.clock == u.clock
    requires forall c :: c in cs ==> exists j :: j in ids && j in u.sessions && Holds(u.sessions[j], c)
    ensures Effect(u, op, w, None)
  {
    forall c | Buried(w.graves, c, w.clock) && !Buried(u.graves, c, u.clock) ensures exists k :: Releases(u, w, k, c) {
      BuryOutside(u.graves, cs, c, u.clock);
      var j :| j in ids && j in u.sessions && Holds(u.sessions[j], c);
      assert Releases(u, w, j, c);
    }
  }

  /** Sweeping a session that holds nothing changes none of this. */
  lemma SweepEffect(u: Vault, op: Op, w: Vault, id: SessionId, added: Option<Credential>)
    requires Effect(u, op, w, added)
    ensures Effect(u, op, Sweep(w, id), added)
  {
    hide Introduced, Buried;
    var x := Sweep(w, id);
    forall c | Buried(x.graves, c, x.clock) && !Buried(u.graves, c, u.clock) ensures exists k :: Releases(u, x, k, c) {
      assert Buried(w.graves, c, w.clock);
      var k :| Releases(u, w, k, c);
      assert Releases(u, x, k, c);
    }
  }

  lemma IssueEffect(u: Vault, op: Op, offers: seq<Secret>)
    requires (op.Claim? || op.Recover?) && ActiveKeyReady(u) && Issue(u, offers).Some?
    ensures Introduced(u, op, CredentialOf(u.ring[0], Issue(u, offers).value))
  {
    IssuedIsFresh(u, offers);
  }

  lemma ClaimEffect(u: Vault, op: Op) returns (added: Option<Credential>)
    requires op.Claim?
    ensures Effect(u, op, Exec(u, op), added)
  {
    hide Issue, Fresh, Effect, Introduced, Live;
    var r := ClaimStep(u, op.id, op.player, op.create, op.claim, op.offers);
    if r.Success? {
      var first := if |op.offers| > 4 then op.offers[..4] else op.offers;
      IssueEffect(u, op, first);
      added := r.value.sessions[op.id].current;
      BuryNothing(u.graves, u.clock);
      ReplaceEffect(u, op, op.id, r.value.sessions[op.id], {}, added, r.value);
    } else {
      added := None;
      UnchangedEffect(u, op);
    }
  }

  lemma RecoverEffect(u: Vault, op: Op) returns (added: Option<Credential>)
    requires op.Recover?
    ensures Effect(u, op, Exec(u, op), added)
  {
    var r := RecoverStep(u, op.id, op.proven, op.offers);
    if r.Success? {
      var first := if |op.offers| > 4 then op.offers[..4] else op.offers;
      IssueEffect(u, op, first);
      added := r.value.sessions[op.id].current;
      var was := u.sessions[op.id].current.value;
      assert Live(u, was) && WithinHorizon(u.ring[0], u.clock) by { assert Holds(u.sessions[op.id], was); }
      assert added != Some(was);
      hide Issue, Fresh, Effect, Introduced, Live, Bury;
      ReplaceEffect(u, op, op.id, r.value.sessions[op.id], {was}, added, r.value);
    } else {
      added := None;
      UnchangedEffect(u, op);
    }
  }

  /** A digest derived clear of everything is fresh. */
  lemma DerivedIsFresh(u: Vault, secret: Secret)
    requires DerivedClear(u, secret, None)
    ensures Fresh(u, secret)
  {
  }

  lemma RotateEffect(u: Vault, op: Op) returns (added: Option<Credential>)
    requires op.Rotate? && Safe(u)
    ensures Effect(u, op, Exec(u, op), added)
  {
    var r := RotateStep(u, op.secret, op.derive);
    added := None;
    if r.Success? {
      UnlockedIsLive(u, op.secret, {Active, PendingDelivery});
      var j := Unlock(u, op.secret, {Active, PendingDelivery}).value.0;
      var s, next := u.sessions[j], r.value.vault.sessions[j];
      BuryNothing(u.graves, u.clock);
      if s.state == PendingDelivery {
        ReplaceEffect(u, op, j, next, {}, None, r.value.vault);
      } else {
        DerivedIsFresh(u, r.value.secret);
        added := next.current;
        assert Holds(s, s.current.value);
        if s.predecessor.Some? { assert Holds(s, s.predecessor.value.credential) && Live(u, s.predecessor.value.credential); }
        var retired := if s.predecessor.Some? then {s.predecessor.value.credential} else {};
        assert WithinHorizon(u.ring[0], u.clock) && added == Some(CredentialOf(u.ring[0], r.value.secret)) && !Live(u, added.value);
        hide Effect, Introduced, Live, Bury, Unlock, DerivedClear;
        ReplaceEffect(u, op, j, next, retired, added, r.value.vault);
      }
    } else {
      UnchangedEffect(u, op);
    }
  }

  lemma TouchEffect(u: Vault, op: Op, j: SessionId, s: Session)
    requires j in u.sessions && s.current == u.sessions[j].current && s.predecessor == u.sessions[j].predecessor
    ensures Effect(u, op, u.(sessions := u.sessions[j := s]), None)
  {
    BuryNothing(u.graves, u.clock);
    hide Effect, Introduced;
    ReplaceEffect(u, op, j, s, {}, None, u.(sessions := u.sessions[j := s]));
  }

  predicate GivenUp(before: Session, after: Session, c: Credential) {
    || (after.current.None? && before.current == Some(c))
    || (after.predecessor.None? && before.predecessor.Some? && before.predecessor.value.credential == c)
  }

  /** Taking slots away from one session and burying them. */
  lemma StripEffect(u: Vault, op: Op, j: SessionId, s: Session, cs: set<Credential>, w: Vault)
    requires j in u.sessions && Safe(u) && w.sessions == u.sessions[j := s] && w.graves == Bury(u.graves, cs, u.clock) && w.clock == u.clock
    requires s.current.None? || s.current == u.sessions[j].current
    requires s.predecessor.None? || s.predecessor == u.sessions[j].predecessor
    requires forall c :: c in cs ==> GivenUp(u.sessions[j], s, c)
    ensures Effect(u, op, w, None)
  {
    assert SlotsDiffer(u.sessions[j]);
    hide Effect, Introduced, Bury, Safe;
    ReplaceEffect(u, op, j, s, cs, None, w);
  }

  lemma LogoutEffect(u: Vault, op: Op)
    requires op.Logout? && Safe(u)
    ensures Effect(u, op, Exec(u, op), None)
  {
    hide Effect, LoggedOut, Safe, Bury;
    UnlockedIsLive(u, op.secret, {Active, PendingDelivery});
    if !LoggedOut(u, op.secret) && Unlock(u, op.secret, {Active, PendingDelivery}).Success? {
      var j := Unlock(u, op.secret, {Active, PendingDelivery}).value.0;
      hide Unlock;
      StripEffect(u, op, j, Retired(u.sessions[j], u.clock), Held(u.sessions[j]), SignedOff(u, j));
    } else {
      UnchangedEffect(u, op);
    }
  }

  lemma ExpireEffect(u: Vault, op: Op)
    requires op.Expire? && Safe(u)
    ensures Effect(u, op, Exec(u, op), None)
  {
    hide Effect, Safe, Bury;
    UnchangedEffect(u, op);
    if op.id in u.sessions {
      var s := u.sessions[op.id];
      var retired := Retired(s, Min(s.expires, Max(s.lastSeen, u.clock)));
      var w := u.(graves := Bury(u.graves, Held(s), u.clock), sessions := u.sessions[op.id := retired]);
      StripEffect(u, op, op.id, retired, Held(s), w);
      SweepEffect(u, op, w, op.id, None);
    }
  }

  lemma ExpirePredecessorEffect(u: Vault, op: Op)
    requires op.ExpirePredecessor? && Safe(u)
    ensures Effect(u, op, Exec(u, op), None)
  {
    hide Effect, Safe, Bury;
    UnchangedEffect(u, op);
    if op.id in u.sessions && u.sessions[op.id].predecessor.Some? {
      var s := u.sessions[op.id];
      var c := s.predecessor.value.credential;
      var w := u.(graves := Bury(u.graves, {c}, u.clock), sessions := u.sessions[op.id := s.(predecessor := None)]);
      StripEffect(u, op, op.id, s.(predecessor := None), {c}, w);
      SweepEffect(u, op, w, op.id, None);
    }
  }

  lemma PurgeEffect(u: Vault, op: Op)
    requires op.Purge? && Safe(u)
    ensures Effect(u, op, Exec(u, op), None)
  {
    hide Effect, Safe, Bury, KeyGone;
    UnchangedEffect(u, op);
    if op.id in u.sessions && SlotCredential(u.sessions[op.id], op.slot).Some? {
      var w := Purged(u, op.id, op.slot);
      StripEffect(u, op, op.id, w.sessions[op.id], {SlotCredential(u.sessions[op.id], op.slot).value}, w);
      SweepEffect(u, op, w, op.id, None);
    }
  }

  lemma DeletePlayerEffect(u: Vault, op: Op, player: PlayerId)
    ensures Effect(u, op, DeletePlayer(u, player), None)
  {
    var owned := OwnedBy(u, player);
    forall c | c in HeldBy(u, owned) ensures exists j :: j in owned && j in u.sessions && Holds(u.sessions[j], c) {
      var j :| j in owned && j in u.sessions && c in Held(u.sessions[j]);
      assert Holds(u.sessions[j], c);
    }
    hide Effect, HeldBy, Bury;
    RemoveEffect(u, op, owned, HeldBy(u, owned), DeletePlayer(u, player));
  }

  /** Every transaction, whatever its arguments and outcome, has an effect of this kind. */
  lemma OpEffect(u: Vault, op: Op) returns (added: Option<Credential>)
    requires Safe(u)
    ensures Effect(u, op, Exec(u, op), added)
  {
    hide Effect, Safe, ClaimStep, RecoverStep, RotateStep, Unlock, DeletePlayer, Resolve, ExpireStep, ExpirePredecessorStep, PurgeStep, LogoutStep;
    added := None;
    UnchangedEffect(u, op);
    match op {
      case Claim(_, _, _, _, _) => added := ClaimEffect(u, op);
      case Recover(_, _, _) => added := RecoverEffect(u, op);
      case Rotate(_, _) => added := RotateEffect(u, op);
      case Acknowledge(id, secret, generation) =>
        var r := AcknowledgeStep(u, id, secret, generation);
        if r.Success? && r.value != u { TouchEffect(u, op, id, r.value.sessions[id]); }
      case Authenticate(secret) =>
        UnlockedIsLive(u, secret, {Active});
        var r := Unlock(u, secret, {Active});
        if r.Success? { TouchEffect(u, op, r.value.0, u.sessions[r.value.0].(lastSeen := u.clock)); }
      case Logout(_) => LogoutEffect(u, op);
      case Delete(secret) =>
        var r := DeleteStep(u, secret);
        if r.Success? { DeletePlayerEffect(u, op, u.sessions[Resolve(u, secret, 0).value].player); }
      case DeleteProven(player) => DeletePlayerEffect(u, op, player);
      case Expire(_) => ExpireEffect(u, op);
      case ExpirePredecessor(_) => ExpirePredecessorEffect(u, op);
      case Purge(_, _) => PurgeEffect(u, op);
      case DropReceipt(id) =>
        MergelessEffect(u, op, id);
      case _ => TimeEffect(u, op);
    }
  }

  lemma MergelessEffect(u: Vault, op: Op, id: SessionId)
    ensures Effect(u, op, Sweep(u.(merges := u.merges - {id}), id), None)
  {
    var w := u.(merges := u.merges - {id});
    assert Effect(u, op, w, None);
    hide Effect;
    SweepEffect(u, op, w, id, None);
  }

  lemma TimeEffect(u: Vault, op: Op)
    requires op.ForgetTombstones? || op.Pass? || op.ChangeKeys?
    ensures Effect(u, op, Exec(u, op), None)
  {
  }

  // ---------------------------------------------------------------- outgoing digests

  /** The operation makes a digest live that was not: a claim, a recovery or a rotation issues it. */
  ghost predicate Reissues(u: Vault, op: Op, c: Credential) {
    !Live(u, c) && Live(Exec(u, op), c) && Introduced(u, op, c)
  }

  ghost predicate InPlaceOrGone(u: Vault, id: SessionId, o: Outgoing) {
    (id in u.sessions && u.sessions[id].predecessor == Some(o)) || !Live(u, o.credential)
  }

  lemma FreshIsNotLive(u: Vault, op: Op, c: Credential)
    requires Introduced(u, op, c)
    ensures !Live(u, c)
  {
    assert WithinHorizon(u.ring[0], u.clock);
  }

  lemma StaysOrGoes(u: Vault, op: Op, id: SessionId, o: Outgoing)
    requires Safe(u) && InPlaceOrGone(u, id, o)
    ensures InPlaceOrGone(Exec(u, op), id, o) || Reissues(u, op, o.credential)
  {
    var c, w := o.credential, Exec(u, op);
    var added := OpEffect(u, op);
    hide Exec, Introduced, Fresh, BuriesReleased;
    if Live(w, c) {
      var j :| j in w.sessions && Holds(w.sessions[j], c);
      if added == Some(c) {
        FreshIsNotLive(u, op, c);
      } else {
        assert j in u.sessions && Holds(u.sessions[j], c);
        assert Live(u, c) && Holds(u.sessions[id], c);
        assert j == id && SlotsDiffer(u.sessions[id]);
      }
    }
  }

  lemma {:induction false} RunStaysOrGoes(v: Vault, ops: seq<Op>, id: SessionId, o: Outgoing)
    requires Safe(v) && InPlaceOrGone(v, id, o)
    ensures InPlaceOrGone(Run(v, ops), id, o) || exists i :: 0 <= i < |ops| && Reissues(Run(v, ops[..i]), ops[i], o.credential)
  {
    if ops != [] {
      hide Exec, InPlaceOrGone, Reissues, Safe;
      var n := |ops| - 1;
      RunStaysOrGoes(v, ops[..n], id, o);
      if InPlaceOrGone(Run(v, ops[..n]), id, o) {
        RunIsSafe(v, ops[..n]);
        StaysOrGoes(Run(v, ops[..n]), ops[n], id, o);
      } else {
        var i :| 0 <= i < n && Reissues(Run(v, ops[..n][..i]), ops[..n][i], o.credential);
        assert ops[..n][..i] == ops[..i] && ops[..n][i] == ops[i];
      }
    }
  }

  /** The secret opens the slot that holds this digest. */
  ghost predicate Opens(w: Vault, secret: Secret, states: set<SessionState>, c: Credential) {
    var r := Unlock(w, secret, states);
    r.Success? && r.value.0 in w.sessions && SlotCredential(w.sessions[r.value.0], r.value.1) == Some(c)
  }

  /**
   * One minute after any moment it was outgoing a digest opens nothing, whatever ran in between, unless a claim, a
   * recovery or a rotation of the run issued that very digest again.
   */
  lemma OutgoingStops(v: Vault, ops: seq<Op>, id: SessionId, secret: Secret, states: set<SessionState>)
    requires Safe(v) && id in v.sessions && v.sessions[id].predecessor.Some? && v.clock + GRACE_MS <= Run(v, ops).clock
    ensures var w, c := Run(v, ops), v.sessions[id].predecessor.value.credential;
      Opens(w, secret, states, c) ==> exists i :: 0 <= i < |ops| && Reissues(Run(v, ops[..i]), ops[i], c)
  {
    var w, o := Run(v, ops), v.sessions[id].predecessor.value;
    RunIsSafe(v, ops);
    RunStaysOrGoes(v, ops, id, o);
    UnlockedIsLive(w, secret, states);
    if Unlock(w, secret, states).Success? && InPlaceOrGone(w, id, o) {
      LapsedOpensNothing(w, secret, states, id, o);
    }
    hide Run, Resolve, Reissues;
  }

  lemma HolderOfOutgoing(w: Vault, id: SessionId, o: Outgoing, j: SessionId)
    requires Safe(w) && InPlaceOrGone(w, id, o) && j in w.sessions && Holds(w.sessions[j], o.credential)
    ensures j == id && w.sessions[id].predecessor == Some(o) && w.sessions[id].current != Some(o.credential)
  {
    assert Live(w, o.credential) && Holds(w.sessions[id], o.credential) && SlotsDiffer(w.sessions[j]);
  }

  lemma LapsedOpensNothing(w: Vault, secret: Secret, states: set<SessionState>, id: SessionId, o: Outgoing)
    requires Safe(w) && InPlaceOrGone(w, id, o) && o.validUntil <= w.clock && Unlock(w, secret, states).Success?
    requires Unlock(w, secret, states).value.0 in w.sessions
    ensures SlotCredential(w.sessions[Unlock(w, secret, states).value.0], Unlock(w, secret, states).value.1) != Some(o.credential)
  {
    UnlockedIsLive(w, secret, states);
    var j := Unlock(w, secret, states).value.0;
    if Holds(w.sessions[j], o.credential) { HolderOfOutgoing(w, id, o, j); }
    hide Resolve, Matches, Safe;
  }
}
