/** Deletion, retention and the passing of time as relations on vaults, with every field spelled out. */
module SessionRetention {
  import opened Basics
  import opened SessionVault
  import opened SessionSafety
  import opened SessionOutcomes
  import opened SessionWrites

  /** Session `id` becomes `s`, or goes when it is then revoked, empty and without a merge receipt. */
  ghost predicate Leaves(v: Vault, id: SessionId, s: Session, w: Vault) {
    && SameRest(v, w)
    && w.sessions == if s.state == Revoked && s.current == None && s.predecessor == None && id !in v.merges
      then map other | other in v.sessions && other != id :: v.sessions[other]
      else v.sessions[id := s]
  }

  lemma SweepLeaves(v: Vault, id: SessionId, s: Session, graves: map<Credential, int>, w: Vault)
    ensures Sweep(v.(graves := graves, sessions := v.sessions[id := s]), id) == w <==> Leaves(v, id, s, w) && w.graves == graves
  {
    assert v.sessions[id := s] - {id} == map other | other in v.sessions && other != id :: v.sessions[other];
  }

  /** A session nobody used for seven days, or past its thirty, ends; what it held is buried. */
  ghost predicate Expires(v: Vault, id: SessionId, w: Vault) {
    if id in v.sessions && v.sessions[id].player in v.players
      && (v.sessions[id].expires <= v.clock || v.sessions[id].lastSeen + WEEK_MS <= v.clock)
      && !(v.sessions[id].state == Revoked && v.sessions[id].current == None && v.sessions[id].predecessor == None)
    then
      var s := v.sessions[id];
      && BuriedJust(v.graves, w.graves, v.clock, s, {Current, Predecessor})
      && Leaves(v, id, Session(
        s.player, s.claim, Revoked, s.generation, Earlier(s.expires, Later(s.lastSeen, v.clock)), s.expires, s.rotateAfter, None, None), w)
    else w == v
  }

  lemma ExpireExactly(v: Vault, id: SessionId, w: Vault)
    ensures ExpireStep(v, id) == w <==> Expires(v, id, w)
  {
    if id in v.sessions {
      var s := v.sessions[id];
      BuryHeldMeans(v.graves, v.clock, s, w.graves);
      var next := Session(s.player, s.claim, Revoked, s.generation, Earlier(s.expires, Later(s.lastSeen, v.clock)), s.expires, s.rotateAfter, None, None);
      SweepLeaves(v, id, next, Bury(v.graves, Held(s), v.clock), w);
      hide Sweep, Leaves, BuriedJust, Bury, Held;
    }
  }

  /** An outgoing digest whose grace is over goes and is buried. */
  ghost predicate ExpiresPredecessor(v: Vault, id: SessionId, w: Vault) {
    if id in v.sessions && v.sessions[id].player in v.players
      && v.sessions[id].predecessor.Some? && v.sessions[id].predecessor.value.validUntil <= v.clock
    then
      var s := v.sessions[id];
      && BuriedJust(v.graves, w.graves, v.clock, s, {Predecessor})
      && Leaves(v, id, Session(s.player, s.claim, s.state, s.generation, s.lastSeen, s.expires, s.rotateAfter, s.current, None), w)
    else w == v
  }

  lemma ExpirePredecessorExactly(v: Vault, id: SessionId, w: Vault)
    ensures ExpirePredecessorStep(v, id) == w <==> ExpiresPredecessor(v, id, w)
  {
    if id in v.sessions && v.sessions[id].predecessor.Some? {
      var s := v.sessions[id];
      BuryOneMeans(v.graves, v.clock, s, Predecessor, w.graves);
      SweepLeaves(v, id, s.(predecessor := None), Bury(v.graves, {s.predecessor.value.credential}, v.clock), w);
      hide Sweep, Leaves, BuriedJust, Bury;
    }
  }

  /** No key of the ring verifies the digest. */
  ghost predicate Unverifiable(v: Vault, c: Credential) {
    forall i | 0 <= i < |v.ring| :: !Verifies(v, i, c.digest.secret, c)
  }

  /** A digest no key verifies any more goes and is buried; without its current digest a session ends. */
  ghost predicate Purges(v: Vault, id: SessionId, slot: Slot, w: Vault) {
    if id in v.sessions && v.sessions[id].player in v.players && exists c :: InSlot(v.sessions[id], slot, c) && Unverifiable(v, c)
    then
      var s := v.sessions[id];
      && BuriedJust(v.graves, w.graves, v.clock, s, {slot})
      && Leaves(v, id, match slot
        case Current => Session(
          s.player, s.claim, Revoked, s.generation, Earlier(s.expires, Later(s.lastSeen, v.clock)), s.expires, s.rotateAfter, None, s.predecessor)
        case Predecessor => Session(s.player, s.claim, s.state, s.generation, s.lastSeen, s.expires, s.rotateAfter, s.current, None), w)
    else w == v
  }

  lemma UnverifiableMeans(v: Vault, c: Credential)
    ensures Unverifiable(v, c) <==> KeyGone(v.ring, c, v.clock)
  {
    hide Verifies, Usable;
    if Unverifiable(v, c) {
      forall i | 0 <= i < |v.ring| && v.ring[i].version == c.version ensures v.ring[i].identity != c.digest.key || !Usable(v.ring[i], v.clock) {
        VerifiesMeans(v, i, c.digest.secret, c);
      }
    }
    forall i | 0 <= i < |v.ring| && KeyGone(v.ring, c, v.clock) ensures !Verifies(v, i, c.digest.secret, c) {
      VerifiesMeans(v, i, c.digest.secret, c);
    }
  }

  lemma PurgeExactly(v: Vault, id: SessionId, slot: Slot, w: Vault)
    ensures PurgeStep(v, id, slot) == w <==> Purges(v, id, slot, w)
  {
    if id in v.sessions {
      var s := v.sessions[id];
      forall c ensures InSlot(s, slot, c) <==> SlotCredential(s, slot) == Some(c) {}
      if SlotCredential(s, slot).Some? {
        var c := SlotCredential(s, slot).value;
        UnverifiableMeans(v, c);
        BuryOneMeans(v.graves, v.clock, s, slot, w.graves);
        var next := if slot == Current then s.(current := None, state := Revoked, lastSeen := Min(s.expires, Max(s.lastSeen, v.clock)))
                    else s.(predecessor := None);
        SweepLeaves(v, id, next, Bury(v.graves, {c}, v.clock), w);
      }
      hide Sweep, Leaves, BuriedJust, Bury, KeyGone, Unverifiable, SlotCredential, InSlot;
    }
  }

  ghost predicate PlayerHeld(v: Vault, player: PlayerId, c: Credential) {
    exists id, slot :: id in v.sessions && v.sessions[id].player == player && InSlot(v.sessions[id], slot, c)
  }

  /** Each digest a session of the player held is buried for thirty days; an existing later tombstone stays. */
  ghost predicate BuriedAll(v: Vault, player: PlayerId, w: Vault) {
    forall c: Credential ::
      if PlayerHeld(v, player, c)
      then c in w.graves && w.graves[c] == (if c in v.graves && v.graves[c] > v.clock + MONTH_MS then v.graves[c] else v.clock + MONTH_MS)
      else (c in w.graves <==> c in v.graves) && (c in v.graves ==> w.graves[c] == v.graves[c])
  }

  /** The player, its sessions and their merge receipts go; what any of them held is buried; nothing else changes. */
  ghost predicate RemovesPlayer(v: Vault, player: PlayerId, w: Vault) {
    && w.clock == v.clock && w.ring == v.ring && w.logouts == v.logouts
    && (forall p :: p in w.players <==> p in v.players && p != player)
    && w.sessions == (map id | id in v.sessions && v.sessions[id].player != player :: v.sessions[id])
    && (forall id :: id in w.merges <==> id in v.merges && !(id in v.sessions && v.sessions[id].player == player))
    && BuriedAll(v, player, w)
  }

  lemma PlayerHeldMeans(v: Vault, player: PlayerId, c: Credential)
    ensures c in HeldBy(v, OwnedBy(v, player)) <==> PlayerHeld(v, player, c)
  {
    forall id | id in v.sessions ensures c in Held(v.sessions[id]) <==> exists slot :: InSlot(v.sessions[id], slot, c) {
      HoldsMeans(v.sessions[id], c);
    }
    hide Held, InSlot;
  }

  lemma BuriedAllMeans(v: Vault, player: PlayerId, w: Vault)
    ensures BuriedAll(v, player, w) <==> w.graves == Bury(v.graves, HeldBy(v, OwnedBy(v, player)), v.clock)
  {
    forall c ensures c in HeldBy(v, OwnedBy(v, player)) <==> PlayerHeld(v, player, c) { PlayerHeldMeans(v, player, c); }
    hide HeldBy, PlayerHeld, OwnedBy;
    if BuriedAll(v, player, w) {
      var due := Bury(v.graves, HeldBy(v, OwnedBy(v, player)), v.clock);
      forall c ensures c in w.graves <==> c in due {}
      assert w.graves == due;
    }
  }

  lemma DeletePlayerExactly(v: Vault, player: PlayerId, w: Vault)
    ensures DeletePlayer(v, player) == w <==> RemovesPlayer(v, player, w)
  {
    BuriedAllMeans(v, player, w);
    var due := DeletePlayer(v, player);
    assert due.sessions == map id | id in v.sessions && v.sessions[id].player != player :: v.sessions[id];
    hide HeldBy, BuriedAll, Bury;
    if RemovesPlayer(v, player, w) {
      assert w.players == due.players && w.merges == due.merges;
    }
  }

  /** Deleting on a session's authority needs its current secret, whether delivered or not. */
  ghost predicate Deletes(v: Vault, secret: Secret, id: SessionId, w: Vault) {
    && FoundFirst(v, secret, id) && id in v.sessions
    && var s := v.sessions[id];
      && s.player in v.players && s.state != Revoked && v.clock < s.expires && v.clock < s.lastSeen + WEEK_MS
      && SlotOpens(v, secret, s, Current) && !SlotSpent(v, s, Current) && RemovesPlayer(v, s.player, w)
  }

  lemma DeleteAt(v: Vault, secret: Secret, id: SessionId, w: Vault)
    requires id in v.sessions
    ensures Resolve(v, secret, 0) == Some(id) && FoundFirst(v, secret, id) ==>
      (DeleteStep(v, secret) == Success(w) <==> Deletes(v, secret, id, w))
  {
    SpentMeans(v, v.sessions[id], Current);
    SlotOpensMeans(v, secret, v.sessions[id], Current);
    DeletePlayerExactly(v, v.sessions[id].player, w);
    hide Resolve, FoundFirst, SlotSpent, SlotOpens, RemovesPlayer, DeletePlayer, Buried, Matches;
  }

  lemma DeleteExactly(v: Vault, secret: Secret, w: Vault)
    requires Safe(v)
    ensures DeleteStep(v, secret) == Success(w) <==> exists id :: Deletes(v, secret, id, w)
  {
    var found := Resolve(v, secret, 0);
    if id :| Deletes(v, secret, id, w) {
      ResolvesExactly(v, secret, id);
      hide Resolve, Safe;
      DeleteAt(v, secret, id, w);
    }
    if DeleteStep(v, secret) == Success(w) {
      ResolvesExactly(v, secret, found.value);
      hide Resolve, Safe, Deletes;
      DeleteAt(v, secret, found.value, w);
    }
  }

  /** Dropping a merge receipt takes an ended, empty session along. */
  ghost predicate DropsReceipt(v: Vault, id: SessionId, w: Vault) {
    && w.clock == v.clock && w.players == v.players && w.graves == v.graves && w.logouts == v.logouts && w.ring == v.ring
    && (forall other :: other in w.merges <==> other in v.merges && other != id)
    && (forall other :: other in w.sessions <==> other in v.sessions && (other == id ==>
      !(v.sessions[id].state == Revoked && v.sessions[id].current == None && v.sessions[id].predecessor == None)))
    && forall other :: other in w.sessions ==> w.sessions[other] == v.sessions[other]
  }

  lemma DropReceiptExactly(v: Vault, id: SessionId, w: Vault)
    ensures Exec(v, DropReceipt(id)) == w <==> DropsReceipt(v, id, w)
  {
    var due := Exec(v, DropReceipt(id));
    assert DropsReceipt(v, id, due);
    if DropsReceipt(v, id, w) {
      assert w.merges == due.merges && w.sessions.Keys == due.sessions.Keys;
      assert w.sessions == due.sessions;
    }
  }

  /** Exactly the tombstones that have not lapsed are kept. */
  predicate KeepsStanding(before: map<Credential, int>, after: map<Credential, int>, now: int) {
    after == map c | c in before && now < before[c] :: before[c]
  }

  // ---------------------------------------------------------------- all transactions

  /** `w` is what the transaction leads to; when it can lead nowhere it is refused and changes nothing. */
  ghost predicate Outcome(v: Vault, op: Op, w: Vault) {
    match op
    case Claim(id, player, create, claim, offers) =>
      Claims(v, id, player, create, claim, offers, w) || (w == v && forall x :: !Claims(v, id, player, create, claim, offers, x))
    case Recover(id, proven, offers) => Recovers(v, id, proven, offers, w) || (w == v && forall x :: !Recovers(v, id, proven, offers, x))
    case Acknowledge(id, secret, generation) =>
      Acknowledges(v, id, secret, generation, w) || (w == v && forall x :: !Acknowledges(v, id, secret, generation, x))
    case Authenticate(secret) =>
      || (exists id, slot :: Unlocks(v, secret, {Active}, id, slot) && Seen(v, id, w))
      || (w == v && forall id, slot :: !Unlocks(v, secret, {Active}, id, slot))
    case Rotate(secret, derive) =>
      (exists r :: RotatesTo(v, secret, derive, r) && w == r.vault) || (w == v && forall r :: !RotatesTo(v, secret, derive, r))
    case Logout(secret) => LogsOutTo(v, secret, w) || (w == v && forall x :: !LogsOutTo(v, secret, x))
    case Delete(secret) => DeletesTo(v, secret, w) || (w == v && forall x :: !DeletesTo(v, secret, x))
    case DeleteProven(player) => RemovesPlayer(v, player, w)
    case Expire(id) => Expires(v, id, w)
    case ExpirePredecessor(id) => ExpiresPredecessor(v, id, w)
    case Purge(id, slot) => Purges(v, id, slot, w)
    case DropReceipt(id) => DropsReceipt(v, id, w)
    case ForgetTombstones =>
      KeepsStanding(v.graves, w.graves, v.clock) && KeepsStanding(v.logouts, w.logouts, v.clock) && w == v.(graves := w.graves, logouts := w.logouts)
    case Pass(ms) => w == Vault(v.clock + ms, v.players, v.sessions, v.merges, v.graves, v.logouts, v.ring)
    case ChangeKeys(keys) => w == Vault(v.clock, v.players, v.sessions, v.merges, v.graves, v.logouts, keys)
  }

  ghost predicate RotatesTo(v: Vault, secret: Secret, derive: (KeyIdentity, Secret) -> Secret, r: Rotated) {
    exists id, slot :: Rotates(v, derive, secret, id, slot, r)
  }

  ghost predicate LogsOutTo(v: Vault, secret: Secret, w: Vault) {
    if WasOut(v, secret) then w == v else exists id, slot :: LogsOut(v, secret, id, slot, w)
  }

  ghost predicate DeletesTo(v: Vault, secret: Secret, w: Vault) {
    exists id :: Deletes(v, secret, id, w)
  }

  lemma ClaimOutcome(v: Vault, op: Op, w: Vault)
    requires op.Claim?
    ensures w == Exec(v, op) <==> Outcome(v, op, w)
  {
    forall x ensures ClaimStep(v, op.id, op.player, op.create, op.claim, op.offers) == Success(x)
      <==> Claims(v, op.id, op.player, op.create, op.claim, op.offers, x)
    {
      ClaimExactly(v, op.id, op.player, op.create, op.claim, op.offers, x);
    }
    hide Claims, ClaimStep;
  }

  lemma RecoverOutcome(v: Vault, op: Op, w: Vault)
    requires op.Recover?
    ensures w == Exec(v, op) <==> Outcome(v, op, w)
  {
    forall x ensures RecoverStep(v, op.id, op.proven, op.offers) == Success(x) <==> Recovers(v, op.id, op.proven, op.offers, x) {
      RecoverExactly(v, op.id, op.proven, op.offers, x);
    }
    hide Recovers, RecoverStep;
  }

  lemma AcknowledgeOutcome(v: Vault, op: Op, w: Vault)
    requires op.Acknowledge?
    ensures w == Exec(v, op) <==> Outcome(v, op, w)
  {
    forall x ensures AcknowledgeStep(v, op.id, op.secret, op.generation) == Success(x) <==> Acknowledges(v, op.id, op.secret, op.generation, x) {
      AcknowledgeExactly(v, op.id, op.secret, op.generation, x);
    }
    hide Acknowledges, AcknowledgeStep;
  }

  lemma AuthenticateOutcome(v: Vault, op: Op, w: Vault)
    requires op.Authenticate? && Safe(v)
    ensures w == Exec(v, op) <==> Outcome(v, op, w)
  {
    AuthenticateExactly(v, op.secret, w);
    forall id: SessionId, slot ensures Unlocks(v, op.secret, {Active}, id, slot) <==> Unlock(v, op.secret, {Active}) == Success((id, slot)) {
      UnlocksExactly(v, op.secret, {Active}, id, slot);
    }
    hide Unlocks, Unlock, Seen, Safe;
    if AuthenticateStep(v, op.secret).Success? {
      var at := Unlock(v, op.secret, {Active}).value;
      assert Unlocks(v, op.secret, {Active}, at.0, at.1);
    }
  }

  lemma RotateOutcome(v: Vault, op: Op, w: Vault)
    requires op.Rotate? && Safe(v)
    ensures w == Exec(v, op) <==> Outcome(v, op, w)
  {
    var step := RotateStep(v, op.secret, op.derive);
    forall r ensures step == Success(r) <==> RotatesTo(v, op.secret, op.derive, r) {
      RotateExactly(v, op.secret, op.derive, r);
    }
    assert Exec(v, op) == if step.Success? then step.value.vault else v;
    hide RotatesTo, RotateStep, Safe, Exec;
    if step.Success? { assert RotatesTo(v, op.secret, op.derive, step.value); }
  }

  lemma LogoutOutcome(v: Vault, op: Op, w: Vault)
    requires op.Logout? && Safe(v)
    ensures w == Exec(v, op) <==> Outcome(v, op, w)
  {
    var step := LogoutStep(v, op.secret);
    forall x ensures step == Success(x) <==> LogsOutTo(v, op.secret, x) {
      LogoutExactly(v, op.secret, x);
    }
    assert Exec(v, op) == if step.Success? then step.value else v;
    hide LogsOutTo, LogoutStep, Safe, Exec;
    if step.Success? { assert LogsOutTo(v, op.secret, step.value); }
  }

  lemma DeleteOutcome(v: Vault, op: Op, w: Vault)
    requires op.Delete? && Safe(v)
    ensures w == Exec(v, op) <==> Outcome(v, op, w)
  {
    var step := DeleteStep(v, op.secret);
    forall x ensures step == Success(x) <==> DeletesTo(v, op.secret, x) {
      DeleteExactly(v, op.secret, x);
    }
    assert Exec(v, op) == if step.Success? then step.value else v;
    hide DeletesTo, DeleteStep, Safe, Exec;
    if step.Success? { assert DeletesTo(v, op.secret, step.value); }
  }

  lemma UpkeepOutcome(v: Vault, op: Op, w: Vault)
    requires op.DeleteProven? || op.Expire? || op.ExpirePredecessor? || op.Purge? || op.DropReceipt?
    ensures w == Exec(v, op) <==> Outcome(v, op, w)
  {
    match op {
      case DeleteProven(player) => DeletePlayerExactly(v, player, w);
      case Expire(id) => ExpireExactly(v, id, w);
      case ExpirePredecessor(id) => ExpirePredecessorExactly(v, id, w);
      case Purge(id, slot) => PurgeExactly(v, id, slot, w);
      case DropReceipt(id) => DropReceiptExactly(v, id, w);
    }
    hide RemovesPlayer, DeletePlayer, Expires, ExpiresPredecessor, Purges, DropsReceipt, Sweep, ExpireStep, ExpirePredecessorStep, PurgeStep;
  }

  lemma TimeOutcome(v: Vault, op: Op, w: Vault)
    requires op.ForgetTombstones? || op.Pass? || op.ChangeKeys?
    ensures w == Exec(v, op) <==> Outcome(v, op, w)
  {
  }

  /** Every transaction on a safe vault leads exactly where the relations say. */
  lemma ExecExactly(v: Vault, op: Op, w: Vault)
    requires Safe(v)
    ensures w == Exec(v, op) <==> Outcome(v, op, w)
  {
    hide Exec, Outcome, Safe;
    match op {
      case Claim(_, _, _, _, _) => ClaimOutcome(v, op, w);
      case Recover(_, _, _) => RecoverOutcome(v, op, w);
      case Acknowledge(_, _, _) => AcknowledgeOutcome(v, op, w);
      case Authenticate(_) => AuthenticateOutcome(v, op, w);
      case Rotate(_, _) => RotateOutcome(v, op, w);
      case Logout(_) => LogoutOutcome(v, op, w);
      case Delete(_) => DeleteOutcome(v, op, w);
      case ForgetTombstones => TimeOutcome(v, op, w);
      case Pass(_) => TimeOutcome(v, op, w);
      case ChangeKeys(_) => TimeOutcome(v, op, w);
      case _ => UpkeepOutcome(v, op, w);
    }
  }
}
