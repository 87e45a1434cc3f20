/**
 * The session tables updated in place: parent rows, digest rows keyed by session and slot, tombstones.  Every
 * transaction is proved to do exactly what its step on the assembled `Vault` says, and to keep the vault safe.
 */
module SessionStore {
  import opened Basics
  import opened SessionVault
  import opened SessionSafety
  import opened SessionRotation

  datatype SessionRow = SessionRow(
    player: PlayerId, claim: ClaimId, state: SessionState, generation: nat, lastSeen: int, expires: int, rotateAfter: int)

  datatype DigestKey = DigestKey(session: SessionId, slot: Slot)

  datatype DigestRow = DigestRow(credential: Credential, validUntil: Option<int>)

  function CurrentOf(digests: map<DigestKey, DigestRow>, id: SessionId): Option<Credential> {
    if DigestKey(id, Current) in digests then Some(digests[DigestKey(id, Current)].credential) else None
  }

  function PredecessorOf(digests: map<DigestKey, DigestRow>, id: SessionId): Option<Outgoing> {
    if DigestKey(id, Predecessor) in digests && digests[DigestKey(id, Predecessor)].validUntil.Some?
    then Some(Outgoing(digests[DigestKey(id, Predecessor)].credential, digests[DigestKey(id, Predecessor)].validUntil.value))
    else None
  }

  function Joined(row: SessionRow, digests: map<DigestKey, DigestRow>, id: SessionId): Session {
    Session(row.player, row.claim, row.state, row.generation, row.lastSeen, row.expires, row.rotateAfter,
            CurrentOf(digests, id), PredecessorOf(digests, id))
  }

  function WithRow(row: SessionRow, s: Session): Session {
    Session(row.player, row.claim, row.state, row.generation, row.lastSeen, row.expires, row.rotateAfter, s.current, s.predecessor)
  }

  function Assemble(rows: map<SessionId, SessionRow>, digests: map<DigestKey, DigestRow>): map<SessionId, Session> {
    map id | id in rows :: Joined(rows[id], digests, id)
  }

  /** Only a predecessor carries an end of validity, and no digest outlives its session. */
  ghost predicate Keyed(rows: map<SessionId, SessionRow>, digests: map<DigestKey, DigestRow>) {
    forall k :: k in digests ==> k.session in rows && (k.slot == Predecessor <==> digests[k].validUntil.Some?)
  }

  /** The tables agree outside session `id`. */
  ghost predicate AgreeBeside(id: SessionId, rows: map<SessionId, SessionRow>, digests: map<DigestKey, DigestRow>,
                              rows': map<SessionId, SessionRow>, digests': map<DigestKey, DigestRow>) {
    && (forall other :: other != id ==> (other in rows <==> other in rows') && (other in rows ==> rows[other] == rows'[other]))
    && (forall k: DigestKey :: k.session != id ==> (k in digests <==> k in digests') && (k in digests ==> digests[k] == digests'[k]))
  }

  lemma AssembleBeside(id: SessionId, rows: map<SessionId, SessionRow>, digests: map<DigestKey, DigestRow>,
                       rows': map<SessionId, SessionRow>, digests': map<DigestKey, DigestRow>)
    requires AgreeBeside(id, rows, digests, rows', digests')
    ensures id in rows' ==> Assemble(rows', digests') == Assemble(rows, digests)[id := Joined(rows'[id], digests', id)]
    ensures id !in rows' ==> Assemble(rows', digests') == Assemble(rows, digests) - {id}
  {
    forall other | other != id && other in rows ensures Joined(rows'[other], digests', other) == Joined(rows[other], digests, other) {
      assert DigestKey(other, Current).session != id && DigestKey(other, Predecessor).session != id;
    }
  }

  lemma BuryTwice(graves: map<Credential, int>, a: set<Credential>, b: set<Credential>, now: int)
    ensures Bury(Bury(graves, a, now), b, now) == Bury(graves, a + b, now)
  {
  }

  /** Seeing a session changes no digest. */
  lemma TouchedClear(v: Vault, id: SessionId, secret: Secret, allowed: Option<Credential>)
    requires id in v.sessions
    ensures DerivedClear(Touched(v, id), secret, allowed) == DerivedClear(v, secret, allowed)
  {
    var w := Touched(v, id);
    forall other, c | other in v.sessions ensures Holds(w.sessions[other], c) == Holds(v.sessions[other], c) {}
    forall c ensures Live(w, c) == Live(v, c) {}
  }

  /** Having been seen makes no difference to a hand-over or a log-out, which stamp the session themselves. */
  lemma TouchedSame(v: Vault, id: SessionId, c: Credential)
    requires id in v.sessions
    ensures SignedOff(Touched(v, id), id) == SignedOff(v, id)
    ensures v.sessions[id].current.Some? ==> HandedOver(Touched(v, id), id, c) == HandedOver(v, id, c)
  {
    hide Bury;
  }

  /** Removing sessions with all their digest rows removes just those sessions. */
  lemma AssembleWithout(rows: map<SessionId, SessionRow>, digests: map<DigestKey, DigestRow>, gone: set<SessionId>)
    ensures var left := map k | k in digests && k.session !in gone :: digests[k];
      Assemble(rows - gone, left) == Assemble(rows, digests) - gone && (Keyed(rows, digests) ==> Keyed(rows - gone, left))
  {
    var left := map k | k in digests && k.session !in gone :: digests[k];
    forall id | id in rows && id !in gone ensures Joined(rows[id], left, id) == Joined(rows[id], digests, id) {
      assert DigestKey(id, Current).session !in gone && DigestKey(id, Predecessor).session !in gone;
    }
  }

  lemma RunNext(v: Vault, ops: seq<Op>, op: Op)
    ensures Run(v, ops + [op]) == Exec(Run(v, ops), op)
    ensures Changes(v, ops + [op]) == Changes(v, ops) + if Exec(Run(v, ops), op) != Run(v, ops) then 1 else 0
  {
    var all := ops + [op];
    assert all[..|all| - 1] == ops && all[|all| - 1] == op;
    hide Exec;
  }

  lemma RotateOp(v: Vault, secret: Secret, derive: (KeyIdentity, Secret) -> Secret)
    ensures Exec(v, Op.Rotate(secret, derive)) == match RotateStep(v, secret, derive) case Success(r) => r.vault case Failure(_) => v
  {
  }

  /** A sweep over one more candidate is one more step, counted when it changed something. */
  lemma ExpiriesNext(v: Vault, ids: seq<SessionId>, i: nat)
    requires i < |ids|
    ensures var before := Run(v, Expiries(ids[..i]));
      && Run(v, Expiries(ids[..i + 1])) == ExpireStep(before, ids[i])
      && Changes(v, Expiries(ids[..i + 1])) == Changes(v, Expiries(ids[..i])) + if ExpireStep(before, ids[i]) != before then 1 else 0
  {
    assert Expiries(ids[..i + 1]) == Expiries(ids[..i]) + [Op.Expire(ids[i])];
    RunNext(v, Expiries(ids[..i]), Op.Expire(ids[i]));
    hide Run, Changes, ExpireStep;
  }

  lemma PredecessorExpiriesNext(v: Vault, ids: seq<SessionId>, i: nat)
    requires i < |ids|
    ensures var before := Run(v, PredecessorExpiries(ids[..i]));
      && Run(v, PredecessorExpiries(ids[..i + 1])) == ExpirePredecessorStep(before, ids[i])
      && Changes(v, PredecessorExpiries(ids[..i + 1])) == Changes(v, PredecessorExpiries(ids[..i]))
           + if ExpirePredecessorStep(before, ids[i]) != before then 1 else 0
  {
    assert PredecessorExpiries(ids[..i + 1]) == PredecessorExpiries(ids[..i]) + [Op.ExpirePredecessor(ids[i])];
    RunNext(v, PredecessorExpiries(ids[..i]), Op.ExpirePredecessor(ids[i]));
    hide Run, Changes, ExpirePredecessorStep;
  }

  lemma NoPurges(v: Vault, keys: seq<DigestKey>)
    ensures Run(v, Purges(keys[..0])) == v && Changes(v, Purges(keys[..0])) == 0
  {
  }

  lemma PurgesNext(v: Vault, keys: seq<DigestKey>, i: nat)
    requires i < |keys|
    ensures var before := Run(v, Purges(keys[..i]));
      && Run(v, Purges(keys[..i + 1])) == PurgeStep(before, keys[i].session, keys[i].slot)
      && Changes(v, Purges(keys[..i + 1])) == Changes(v, Purges(keys[..i]))
           + if PurgeStep(before, keys[i].session, keys[i].slot) != before then 1 else 0
  {
    assert Purges(keys[..i + 1]) == Purges(keys[..i]) + [Op.Purge(keys[i].session, keys[i].slot)];
    RunNext(v, Purges(keys[..i]), Op.Purge(keys[i].session, keys[i].slot));
    hide Run, Changes, PurgeStep;
  }

  /** The digest rows of a player's sessions are the digests those sessions hold. */
  lemma PlayerDigests(rows: map<SessionId, SessionRow>, digests: map<DigestKey, DigestRow>, player: PlayerId, v: Vault)
    requires Keyed(rows, digests) && v.sessions == Assemble(rows, digests)
    ensures HeldBy(v, OwnedBy(v, player)) == set k | k in digests && rows[k.session].player == player :: digests[k].credential
  {
    var cs := set k | k in digests && rows[k.session].player == player :: digests[k].credential;
    forall c | c in cs ensures c in HeldBy(v, OwnedBy(v, player)) {
      var k :| k in digests && rows[k.session].player == player && digests[k].credential == c;
      assert k == DigestKey(k.session, Current) || k == DigestKey(k.session, Predecessor);
      assert k.session in OwnedBy(v, player) && c in Held(v.sessions[k.session]);
    }
  }

  function Expiries(ids: seq<SessionId>): seq<Op> {
    seq(|ids|, i requires 0 <= i < |ids| => Op.Expire(ids[i]))
  }

  function PredecessorExpiries(ids: seq<SessionId>): seq<Op> {
    seq(|ids|, i requires 0 <= i < |ids| => Op.ExpirePredecessor(ids[i]))
  }

  function Purges(keys: seq<DigestKey>): seq<Op> {
    seq(|keys|, i requires 0 <= i < |keys| => Op.Purge(keys[i].session, keys[i].slot))
  }

  lemma UnlockedByKey(v: Vault, secret: Secret, states: set<SessionState>)
    ensures Unlock(v, secret, states).Success? ==> |v.ring| > 0
  {
  }

  /** Digest rows fetched by one query of the purge. */
  const PAGE: nat := 256

  /** How many operations of a run changed the vault. */
  ghost function Changes(v: Vault, ops: seq<Op>): nat {
    if ops == [] then 0
    else
      var before := Run(v, ops[..|ops| - 1]);
      Changes(v, ops[..|ops| - 1]) + if Exec(before, ops[|ops| - 1]) != before then 1 else 0
  }

  class Store {
    var clock: int
    var players: set<PlayerId>
    var rows: map<SessionId, SessionRow>
    var digests: map<DigestKey, DigestRow>
    var merges: set<SessionId>
    var graves: map<Credential, int>
    var logouts: map<Credential, int>
    var ring: seq<HmacKey>

    ghost function View(): Vault reads this {
      Vault(clock, players, Assemble(rows, digests), merges, graves, logouts, ring)
    }

    ghost predicate Valid() reads this {
      Keyed(rows, digests) && Safe(View())
    }

    constructor (now: int, keys: seq<HmacKey>)
      ensures Valid() && View() == Vault(now, {}, map[], {}, map[], map[], keys)
    {
      clock, players, rows, digests, merges, graves, logouts, ring := now, {}, map[], map[], {}, map[], map[], keys;
    }

    // -------------------------------------------------------------- lookups

    /** The session whose digest row is `c`, if any. */
    method FindLive(c: Credential) returns (found: Option<SessionId>)
      requires Keyed(rows, digests)
      ensures found.None? <==> !Live(View(), c)
      ensures found.Some? ==> found.value in View().sessions && Holds(View().sessions[found.value], c)
    {
      if k :| k in digests && digests[k].credential == c {
        found := Some(k.session);
        assert k == DigestKey(k.session, Current) || k == DigestKey(k.session, Predecessor);
        assert Holds(View().sessions[k.session], c);
      } else {
        found := None;
      }
    }

    method Recompute(secret: Secret, c: Credential) returns (same: bool)
      ensures same == Matches(ring, secret, c, clock)
    {
      var i := 0;
      while i < |ring|
        invariant i <= |ring|
        invariant forall j :: 0 <= j < i ==> !(Usable(ring[j], clock) && CredentialOf(ring[j], secret) == c)
      {
        if Usable(ring[i], clock) && CredentialOf(ring[i], secret) == c { return true; }
        i := i + 1;
      }
      return false;
    }

    /** Candidates are tried key by key; the first that hits a digest row decides. */
    method ResolveSecret(secret: Secret) returns (found: Option<SessionId>)
      requires Valid()
      ensures found == Resolve(View(), secret, 0)
      ensures found.Some? ==> found.value in rows
    {
      var i := 0;
      while i < |ring|
        invariant i <= |ring| && Resolve(View(), secret, 0) == Resolve(View(), secret, i)
      {
        if Usable(ring[i], clock) {
          var c := CredentialOf(ring[i], secret);
          found := FindLive(c);
          if found.Some? {
            LiveOnce(View(), found.value, c);
            return;
          }
        }
        i := i + 1;
      }
      found := None;
    }

    /** Walk the session's digest rows in slot order. */
    method MatchSlot(secret: Secret, id: SessionId) returns (slot: Option<Slot>)
      requires Valid() && id in rows
      ensures slot == OpenSlot(ring, secret, View().sessions[id], clock)
    {
      var order, i := [Current, Predecessor], 0;
      while i < |order|
        invariant i <= |order|
        invariant OpenSlot(ring, secret, View().sessions[id], clock).Some? ==> OpenSlot(ring, secret, View().sessions[id], clock).value in order[i..]
      {
        var k := DigestKey(id, order[i]);
        if k in digests && (order[i] == Predecessor ==> digests[k].validUntil.Some? && clock < digests[k].validUntil.value) {
          var same := Recompute(secret, digests[k].credential);
          if same { return Some(order[i]); }
        }
        i := i + 1;
      }
      return None;
    }

    method IsFresh(secret: Secret) returns (unseen: bool)
      requires Keyed(rows, digests)
      ensures unseen == Fresh(View(), secret)
    {
      var i := 0;
      while i < |ring|
        invariant i <= |ring|
        invariant forall j :: 0 <= j < i && WithinHorizon(ring[j], clock) ==>
          !Buried(graves, CredentialOf(ring[j], secret), clock) && !Live(View(), CredentialOf(ring[j], secret))
      {
        if WithinHorizon(ring[i], clock) {
          var c := CredentialOf(ring[i], secret);
          var found := FindLive(c);
          if Buried(graves, c, clock) || found.Some? { return false; }
        }
        i := i + 1;
      }
      return true;
    }

    /** Four attempts at most; each asks the generator for a new secret. */
    method IssueFresh(offers: seq<Secret>) returns (issued: Option<Secret>)
      requires Keyed(rows, digests)
      ensures issued == Issue(View(), if |offers| > 4 then offers[..4] else offers)
    {
      ghost var first := if |offers| > 4 then offers[..4] else offers;
      var attempt := 0;
      while attempt < 4 && attempt < |offers|
        invariant attempt <= |first| && Issue(View(), first) == Issue(View(), first[attempt..])
      {
        var unseen := IsFresh(offers[attempt]);
        assert first[attempt..][0] == offers[attempt] && first[attempt..][1..] == first[attempt + 1..];
        if unseen { return Some(offers[attempt]); }
        attempt := attempt + 1;
      }
      assert first[attempt..] == [];
      return None;
    }

    method IsDerivedClear(secret: Secret, allowed: Option<Credential>) returns (clear: bool)
      requires Keyed(rows, digests)
      ensures clear == DerivedClear(View(), secret, allowed)
    {
      var i := 0;
      while i < |ring|
        invariant i <= |ring|
        invariant forall j :: 0 <= j < i && WithinHorizon(ring[j], clock) ==>
          var c := CredentialOf(ring[j], secret);
          !Buried(graves, c, clock) && (Live(View(), c) ==> Some(c) == allowed)
      {
        if WithinHorizon(ring[i], clock) {
          var c := CredentialOf(ring[i], secret);
          if Buried(graves, c, clock) { return false; }
          var found := FindLive(c);
          if found.Some? && Some(c) != allowed { return false; }
        }
        i := i + 1;
      }
      return true;
    }

    // -------------------------------------------------------------- row updates

    /** Insert a tombstone, keeping the later expiry of an existing one. */
    method InsertTombstone(c: Credential)
      modifies `graves
      ensures graves == Bury(old(graves), {c}, clock)
    {
      var until := clock + TOMBSTONE_MS;
      graves := graves[c := if c in graves && graves[c] > until then graves[c] else until];
    }

    method InsertLogoutTombstone(c: Credential)
      modifies `logouts
      ensures logouts == Bury(old(logouts), {c}, clock)
    {
      var until := clock + TOMBSTONE_MS;
      logouts := logouts[c := if c in logouts && logouts[c] > until then logouts[c] else until];
    }

    /** Bury every digest of the session, and under a logout key too when it is logged out. */
    method BuryHeld(id: SessionId, logout: bool)
      requires Keyed(rows, digests) && id in rows
      modifies `graves, `logouts
      ensures graves == Bury(old(graves), Held(View().sessions[id]), clock)
      ensures logouts == if logout then Bury(old(logouts), Held(View().sessions[id]), clock) else old(logouts)
    {
      ghost var s := View().sessions[id];
      ghost var done: set<Credential> := {};
      BuryNothing(graves, clock);
      BuryNothing(logouts, clock);
      for i := 0 to 2
        invariant done == (if i > 0 && s.current.Some? then {s.current.value} else {})
          + (if i > 1 && s.predecessor.Some? then {s.predecessor.value.credential} else {})
        invariant graves == Bury(old(graves), done, clock)
        invariant logouts == if logout then Bury(old(logouts), done, clock) else old(logouts)
      {
        var k := DigestKey(id, if i == 0 then Current else Predecessor);
        if k in digests {
          var c := digests[k].credential;
          BuryTwice(old(graves), done, {c}, clock);
          BuryTwice(old(logouts), done, {c}, clock);
          InsertTombstone(c);
          if logout { InsertLogoutTombstone(c); }
          done := done + {c};
        }
      }
      assert done == Held(s);
    }

    method InsertRow(id: SessionId, row: SessionRow)
      requires Keyed(rows, digests) && id !in rows
      modifies `rows
      ensures Keyed(rows, digests) && rows == old(rows)[id := row]
      ensures View() == old(View()).(sessions := old(View()).sessions[id :=
        Session(row.player, row.claim, row.state, row.generation, row.lastSeen, row.expires, row.rotateAfter, None, None)])
    {
      rows := rows[id := row];
      AssembleBeside(id, old(rows), digests, rows, digests);
    }

    method PutRow(id: SessionId, row: SessionRow)
      requires Keyed(rows, digests) && id in rows
      modifies `rows
      ensures Keyed(rows, digests) && rows == old(rows)[id := row] && id in View().sessions
      ensures View() == old(View()).(sessions := old(View()).sessions[id := WithRow(row, old(View()).sessions[id])])
    {
      rows := rows[id := row];
      AssembleBeside(id, old(rows), digests, rows, digests);
    }

    /** What the parent row and the digest rows of a session say. */
    lemma RowFacts(id: SessionId)
      requires id in rows
      ensures id in View().sessions && View().sessions[id] == Joined(rows[id], digests, id)
    {
    }

    method PutCurrent(id: SessionId, c: Credential)
      requires Keyed(rows, digests) && id in rows
      modifies `digests
      ensures Keyed(rows, digests) && PredecessorOf(digests, id) == PredecessorOf(old(digests), id)
      ensures View() == old(View()).(sessions := old(View()).sessions[id := old(View()).sessions[id].(current := Some(c))])
    {
      digests := digests[DigestKey(id, Current) := DigestRow(c, None)];
      AssembleBeside(id, rows, old(digests), rows, digests);
    }

    /** The current digest row becomes the predecessor and a new current row is inserted. */
    method Demote(id: SessionId, row: SessionRow, until: int, replacement: Credential)
      requires Keyed(rows, digests) && id in rows && CurrentOf(digests, id).Some?
      modifies `rows, `digests
      ensures Keyed(rows, digests) && id in old(View()).sessions && old(View()).sessions[id].current.Some?
      ensures var s := old(View()).sessions[id];
        View() == old(View()).(sessions := old(View()).sessions[id :=
          WithRow(row, s).(current := Some(replacement), predecessor := Some(Outgoing(s.current.value, until)))])
    {
      digests := digests[DigestKey(id, Predecessor) := digests[DigestKey(id, Current)].(validUntil := Some(until))];
      digests := digests[DigestKey(id, Current) := DigestRow(replacement, None)];
      rows := rows[id := row];
      AssembleBeside(id, old(rows), old(digests), rows, digests);
    }

    /** Both digest rows go and a new current row is inserted. */
    method Reissue(id: SessionId, row: SessionRow, c: Credential)
      requires Keyed(rows, digests) && id in rows
      modifies `rows, `digests
      ensures Keyed(rows, digests) && id in old(View()).sessions
      ensures View() == old(View()).(sessions := old(View()).sessions[id := WithRow(row, old(View()).sessions[id]).(current := Some(c), predecessor := None)])
    {
      digests := digests - {DigestKey(id, Current), DigestKey(id, Predecessor)};
      digests := digests[DigestKey(id, Current) := DigestRow(c, None)];
      rows := rows[id := row];
      AssembleBeside(id, old(rows), old(digests), rows, digests);
    }

    method DeleteSlot(id: SessionId, slot: Slot)
      requires Keyed(rows, digests) && id in rows
      modifies `digests
      ensures Keyed(rows, digests)
      ensures slot == Predecessor ==> CurrentOf(digests, id) == CurrentOf(old(digests), id)
      ensures View() == old(View()).(sessions := old(View()).sessions[id :=
        if slot == Current then old(View()).sessions[id].(current := None) else old(View()).sessions[id].(predecessor := None)])
    {
      digests := digests - {DigestKey(id, slot)};
      AssembleBeside(id, rows, old(digests), rows, digests);
    }

    method DeleteDigests(id: SessionId)
      requires Keyed(rows, digests) && id in rows
      modifies `digests
      ensures Keyed(rows, digests)
      ensures View() == old(View()).(sessions := old(View()).sessions[id := old(View()).sessions[id].(current := None, predecessor := None)])
    {
      digests := digests - {DigestKey(id, Current), DigestKey(id, Predecessor)};
      AssembleBeside(id, rows, old(digests), rows, digests);
    }

    // -------------------------------------------------------------- transactions

    /** The guarded lookup every session transaction starts with; it stamps the session as seen. */
    method LockAuthenticated(secret: Secret, states: set<SessionState>) returns (r: Result<(SessionId, Slot), Refusal>)
      requires Valid()
      modifies `rows
      ensures Keyed(rows, digests) && r == Unlock(old(View()), secret, states)
      ensures r.Failure? ==> rows == old(rows)
      ensures r.Success? ==> (
        r.value.0 in old(View()).sessions && r.value.0 in rows && View() == Touched(old(View()), r.value.0))
    {
      var found := ResolveSecret(secret);
      if found.None? { return Failure(SessionInvalid); }
      var id := found.value;
      var row := rows[id];
      if row.player !in players || row.state !in states || row.expires <= clock || row.lastSeen + IDLE_MS <= clock { return Failure(SessionInvalid); }
      var slot := MatchSlot(secret, id);
      if slot.None? { return Failure(SessionInvalid); }
      if Buried(graves, digests[DigestKey(id, slot.value)].credential, clock) { return Failure(SessionInvalid); }
      PutRow(id, row.(lastSeen := clock));
      return Success((id, slot.value));
    }

    /** `due` asks the client to rotate: its current digest is not the active key's, or is older than seven days. */
    method Authenticate(secret: Secret) returns (r: Result<(SessionId, Slot), Refusal>, due: bool)
      requires Valid()
      modifies `rows
      ensures Valid() && View() == Exec(old(View()), Op.Authenticate(secret))
      ensures r == Unlock(old(View()), secret, {Active})
      ensures r.Success? ==> r.value.0 in View().sessions && |ring| > 0 && var s := View().sessions[r.value.0];
        due <==> r.value.1 == Current && s.current.Some? && (s.current.value.version != ring[0].version || s.rotateAfter <= clock)
    {
      AuthenticateIsSafe(View(), secret);
      UnlockedByKey(View(), secret, {Active});
      r := LockAuthenticated(secret, {Active});
      due := false;
      if r.Success? && r.value.1 == Current && DigestKey(r.value.0, Current) in digests {
        due := digests[DigestKey(r.value.0, Current)].credential.version != ring[0].version || rows[r.value.0].rotateAfter <= clock;
      }
    }

    method OpenSession(id: SessionId, player: PlayerId, claim: ClaimId, c: Credential)
      requires Keyed(rows, digests) && id !in rows
      modifies this
      ensures Keyed(rows, digests) && View() == Claimed(old(View()), id, player, claim, c)
    {
      players := players + {player};
      merges := merges + {id};
      InsertRow(id, SessionRow(player, claim, PendingDelivery, 1, clock, clock + LIFETIME_MS, clock + ROTATE_MS));
      RowFacts(id);
      hide Assemble, Keyed;
      PutCurrent(id, c);
    }

    method CheckClaim(id: SessionId, player: PlayerId, create: bool, claim: ClaimId, offers: seq<Secret>) returns (r: Result<Secret, Refusal>)
      requires Valid()
      ensures match ClaimStep(View(), id, player, create, claim, offers)
        case Success(next) => r.Success? && |ring| > 0 && id !in rows && next == Claimed(View(), id, player, claim, CredentialOf(ring[0], r.value))
          && !Live(View(), CredentialOf(ring[0], r.value))
        case Failure(e) => r == Failure(e)
    {
      var issued := IssueFresh(offers);
      if |ring| == 0 || !Usable(ring[0], clock) || issued.None? { return Failure(IssuanceFailed); }
      IssuedIsFree(View(), id, if |offers| > 4 then offers[..4] else offers);
      hide Safe, Issue;
      if id in rows || (create <==> player in players) { return Failure(ClaimRejected); }
      if other :| other in rows && rows[other].player == player && rows[other].claim == claim {
        assert View().sessions[other].player == player && View().sessions[other].claim == claim;
        return Failure(ClaimRejected);
      }
      assert !exists other :: other in View().sessions && View().sessions[other].player == player && View().sessions[other].claim == claim;
      return Success(issued.value);
    }

    /** The session part of a successful claim: a new row awaiting delivery with its first digest. */
    method Claim(id: SessionId, player: PlayerId, create: bool, claim: ClaimId, offers: seq<Secret>) returns (r: Result<Secret, Refusal>)
      requires Valid()
      modifies this
      ensures Valid() && View() == Exec(old(View()), Op.Claim(id, player, create, claim, offers))
      ensures r.Success? <==> ClaimStep(old(View()), id, player, create, claim, offers).Success?
      ensures r.Success? ==> |ring| > 0 && Live(View(), CredentialOf(ring[0], r.value)) && !Live(old(View()), CredentialOf(ring[0], r.value))
    {
      ClaimIsSafe(View(), id, player, create, claim, offers);
      r := CheckClaim(id, player, create, claim, offers);
      hide Safe, Assemble, Keyed, ClaimStep;
      if r.Success? {
        OpenSession(id, player, claim, CredentialOf(ring[0], r.value));
        assert Holds(View().sessions[id], CredentialOf(ring[0], r.value));
      }
    }

    method Redeliver(id: SessionId, c: Credential)
      requires Keyed(rows, digests) && id in rows && CurrentOf(digests, id).Some?
      modifies `rows, `digests, `graves
      ensures Keyed(rows, digests) && id in old(View()).sessions && old(View()).sessions[id].current.Some?
      ensures View() == Redelivered(old(View()), id, c)
    {
      RowFacts(id);
      var row, was := rows[id], digests[DigestKey(id, Current)].credential;
      hide Assemble, Keyed, Bury;
      Reissue(id, row.(generation := row.generation + 1, lastSeen := clock, rotateAfter := Min(row.expires - 1, clock + ROTATE_MS)), c);
      InsertTombstone(was);
    }

    method CheckRecover(id: SessionId, proven: bool, offers: seq<Secret>) returns (r: Result<Secret, Refusal>)
      requires Valid()
      ensures match RecoverStep(View(), id, proven, offers)
        case Success(next) => r.Success? && |ring| > 0 && id in rows && id in View().sessions && CurrentOf(digests, id).Some?
          && View().sessions[id].current.Some? && next == Redelivered(View(), id, CredentialOf(ring[0], r.value))
        case Failure(e) => r == Failure(e)
    {
      if id !in rows || !proven || rows[id].player !in players || DigestKey(id, Current) !in digests { return Failure(RecoveryInvalid); }
      RowFacts(id);
      var row, was := rows[id], digests[DigestKey(id, Current)].credential;
      var issued := IssueFresh(offers);
      hide Safe, Issue, Redelivered, Assemble;
      if |ring| == 0 || !Usable(ring[0], clock) || issued.None?
         || row.state != PendingDelivery || row.expires <= clock || Buried(graves, was, clock) { return Failure(RecoveryInvalid); }
      return Success(issued.value);
    }

    /** Recovery deletes both digest rows, inserts the new one and buries the one that was current. */
    method Recover(id: SessionId, proven: bool, offers: seq<Secret>) returns (r: Result<(Secret, nat), Refusal>)
      requires Valid()
      modifies this
      ensures Valid() && View() == Exec(old(View()), Op.Recover(id, proven, offers))
      ensures r.Success? <==> RecoverStep(old(View()), id, proven, offers).Success?
      ensures r.Success? ==> (
        && id in View().sessions && r.value.1 == View().sessions[id].generation
        && |ring| > 0 && View().sessions[id].current == Some(CredentialOf(ring[0], r.value.0)))
    {
      RecoverIsSafe(View(), id, proven, offers);
      var issued := CheckRecover(id, proven, offers);
      if id in rows { RowFacts(id); }
      hide Safe, Assemble, Keyed, RecoverStep, Bury;
      if issued.Failure? { return Failure(issued.error); }
      var generation := rows[id].generation + 1;
      Redeliver(id, CredentialOf(ring[0], issued.value));
      return Success((issued.value, generation));
    }

    method Acknowledge(id: SessionId, secret: Secret, generation: nat) returns (r: Result<(), Refusal>)
      requires Valid()
      modifies `rows
      ensures Valid() && View() == Exec(old(View()), Op.Acknowledge(id, secret, generation))
      ensures r.Success? <==> AcknowledgeStep(old(View()), id, secret, generation).Success?
    {
      AcknowledgeIsSafe(View(), id, secret, generation);
      if id !in rows || rows[id].player !in players || DigestKey(id, Current) !in digests { return Failure(RecoveryInvalid); }
      var row, stored := rows[id], digests[DigestKey(id, Current)].credential;
      if row.state == Revoked || row.generation != generation || row.expires <= clock || row.lastSeen + IDLE_MS <= clock { return Failure(RecoveryInvalid); }
      var same := Recompute(secret, stored);
      if !same || Buried(graves, stored, clock) { return Failure(RecoveryInvalid); }
      if row.state == Active { return Success(()); }
      PutRow(id, row.(state := Active, lastSeen := clock));
      return Success(());
    }

    /** Decide a rotation once the session is locked; `None` means the hand-over already happened and is repeated. */
    method CheckRotate(ghost v: Vault, secret: Secret, derive: (KeyIdentity, Secret) -> Secret, id: SessionId, slot: Slot) returns (r: Result<Secret, Refusal>)
      requires Keyed(rows, digests) && id in rows && id in v.sessions && clock == v.clock && ring == v.ring
      requires Unlock(v, secret, {Active, PendingDelivery}) == Success((id, slot))
      requires View() == Touched(v, id)
      ensures match RotateStep(v, secret, derive)
        case Success(o) =>
          && r == Success(o.secret) && |ring| > 0 && CurrentOf(digests, id).Some? && v.sessions[id].current.Some?
          && o.vault == (if rows[id].state == PendingDelivery then Touched(v, id) else HandedOver(v, id, CredentialOf(ring[0], o.secret)))
          && o.generation == if rows[id].state == PendingDelivery then rows[id].generation else rows[id].generation + 1
        case Failure(e) => r == Failure(e)
    {
      RowFacts(id);
      UnlockedIsLive(v, secret, {Active, PendingDelivery});
      hide Unlock, Resolve, Live, OpenSlot, Assemble, HandedOver;
      var row, current, predecessor := rows[id], CurrentOf(digests, id), PredecessorOf(digests, id);
      assert row.state == v.sessions[id].state && current == v.sessions[id].current && predecessor == v.sessions[id].predecessor;
      if |ring| == 0 || !Usable(ring[0], clock) { return Failure(SessionInvalid); }
      var retry := row.state == PendingDelivery;
      if (retry && slot == Current) || current.None? || (!retry && slot == Predecessor) { return Failure(SessionInvalid); }
      if !retry && predecessor.Some? && clock < predecessor.value.validUntil { return Failure(RotationDeferred); }
      var source := if retry then predecessor.value.credential else current.value;
      var replacement := derive(source.digest.key, secret);
      var clear := IsDerivedClear(replacement, if retry then current else None);
      TouchedClear(v, id, replacement, if retry then current else None);
      hide DerivedClear;
      if !clear { return Failure(SessionInvalid); }
      return Success(replacement);
    }

    /** Rotate the locked session; a refusal leaves every table alone. */
    method RotateLocked(ghost v: Vault, secret: Secret, derive: (KeyIdentity, Secret) -> Secret, id: SessionId, slot: Slot)
      returns (r: Result<(Secret, nat), Refusal>)
      requires Keyed(rows, digests) && id in rows && id in v.sessions && clock == v.clock && ring == v.ring
      requires Unlock(v, secret, {Active, PendingDelivery}) == Success((id, slot))
      requires View() == Touched(v, id)
      modifies `rows, `digests, `graves
      ensures Keyed(rows, digests)
      ensures match RotateStep(v, secret, derive)
        case Success(o) => r == Success((o.secret, o.generation)) && View() == o.vault
        case Failure(e) => r == Failure(e) && digests == old(digests) && graves == old(graves)
    {
      var decided := CheckRotate(v, secret, derive, id, slot);
      hide RotateStep, Unlock, Keyed, HandedOver, Touched, Assemble, CurrentOf;
      if decided.Failure? { return Failure(decided.error); }
      var row := rows[id];
      if row.state == PendingDelivery { return Success((decided.value, row.generation)); }
      HandOver(id, CredentialOf(ring[0], decided.value));
      TouchedSame(v, id, CredentialOf(ring[0], decided.value));
      return Success((decided.value, row.generation + 1));
    }

    method Rotate(secret: Secret, derive: (KeyIdentity, Secret) -> Secret) returns (r: Result<(Secret, nat), Refusal>)
      requires Valid()
      modifies this
      ensures Valid() && View() == Exec(old(View()), Op.Rotate(secret, derive))
      ensures match RotateStep(old(View()), secret, derive)
        case Success(o) => r == Success((o.secret, o.generation))
        case Failure(e) => r == Failure(e)
    {
      RotateIsSafe(View(), secret, derive);
      RotateOp(View(), secret, derive);
      hide Exec;
      var saved := rows;
      var at := LockAuthenticated(secret, {Active, PendingDelivery});
      if at.Failure? { return Failure(at.error); }
      hide RotateStep, Unlock, Safe, Touched, Assemble;
      r := RotateLocked(old(View()), secret, derive, at.value.0, at.value.1);
      if r.Failure? { rows := saved; }
    }

    /** The slot updates of a rotation: bury a lapsed predecessor, demote the current digest, insert the new one. */
    method HandOver(id: SessionId, replacement: Credential)
      requires Keyed(rows, digests) && id in rows && CurrentOf(digests, id).Some?
      modifies `rows, `digests, `graves
      ensures Keyed(rows, digests) && id in old(View()).sessions && old(View()).sessions[id].current.Some?
      ensures View() == HandedOver(old(View()), id, replacement)
    {
      RowFacts(id);
      var row := rows[id];
      BuryPredecessor(id);
      hide Assemble, Keyed, Bury, CurrentOf, PredecessorOf;
      Demote(id, row.(state := PendingDelivery, lastSeen := clock, rotateAfter := Min(row.expires, clock + ROTATE_MS), generation := row.generation + 1),
             Min(row.expires, clock + GRACE_MS), replacement);
    }

    method BuryPredecessor(id: SessionId)
      requires Keyed(rows, digests) && id in rows
      modifies `digests, `graves
      ensures Keyed(rows, digests) && CurrentOf(digests, id) == CurrentOf(old(digests), id)
      ensures var s := old(View()).sessions[id];
        View() == old(View()).(
          graves := if s.predecessor.Some? then Bury(old(graves), {s.predecessor.value.credential}, clock) else old(graves),
          sessions := old(View()).sessions[id := s.(predecessor := None)])
    {
      RowFacts(id);
      if DigestKey(id, Predecessor) in digests {
        InsertTombstone(digests[DigestKey(id, Predecessor)].credential);
        DeleteSlot(id, Predecessor);
      }
    }

    method WasLoggedOut(secret: Secret) returns (was: bool)
      ensures was == LoggedOut(View(), secret)
    {
      var i := 0;
      while i < |ring|
        invariant i <= |ring|
        invariant forall j :: 0 <= j < i ==> !(WithinHorizon(ring[j], clock) && Buried(logouts, CredentialOf(ring[j], secret), clock))
      {
        if WithinHorizon(ring[i], clock) && Buried(logouts, CredentialOf(ring[i], secret), clock) { return true; }
        i := i + 1;
      }
      return false;
    }

    /** Bury and delete every digest of a session, and revoke it. */
    method Retire(id: SessionId, lastSeen: int, logout: bool)
      requires Keyed(rows, digests) && id in rows
      modifies `rows, `digests, `graves, `logouts
      ensures Keyed(rows, digests)
      ensures var s := old(View()).sessions[id];
        View() == old(View()).(
          graves := Bury(old(graves), Held(s), clock), logouts := if logout then Bury(old(logouts), Held(s), clock) else old(logouts),
          sessions := old(View()).sessions[id := Retired(s, lastSeen)])
    {
      RowFacts(id);
      hide Assemble, Keyed, Bury, Held;
      BuryHeld(id, logout);
      DeleteDigests(id);
      PutRow(id, rows[id].(state := Revoked, lastSeen := lastSeen));
    }

    /** Logging out buries every digest of the session twice over: as spent, and as logged out. */
    method Logout(secret: Secret) returns (r: Result<bool, Refusal>)
      requires Valid()
      modifies this
      ensures Valid() && View() == Exec(old(View()), Op.Logout(secret))
      ensures r.Success? <==> LogoutStep(old(View()), secret).Success?
      ensures r == Success(false) <==> LoggedOut(old(View()), secret)
    {
      LogoutIsSafe(View(), secret);
      var was := WasLoggedOut(secret);
      if was { return Success(false); }
      var at := LockAuthenticated(secret, {Active, PendingDelivery});
      if at.Failure? { return Failure(at.error); }
      var id := at.value.0;
      hide Unlock, Safe, Keyed, Touched, LoggedOut, Bury, Retired, Held;
      Retire(id, clock, true);
      TouchedSame(old(View()), id, Credential(0, Mac(0, 0)));
      return Success(true);
    }

    // -------------------------------------------------------------- retention

    /** Delete a revoked session with no digest and no merge receipt. */
    method SweepRow(id: SessionId)
      requires Keyed(rows, digests)
      modifies `rows
      ensures Keyed(rows, digests) && View() == Sweep(old(View()), id)
    {
      if id in rows && rows[id].state == Revoked && DigestKey(id, Current) !in digests && DigestKey(id, Predecessor) !in digests && id !in merges {
        rows := rows - {id};
      }
      AssembleBeside(id, old(rows), digests, rows, digests);
    }

    /** One candidate of the session retention sweep. */
    method ExpireSession(id: SessionId) returns (done: bool)
      requires Valid()
      modifies this
      ensures Valid() && View() == ExpireStep(old(View()), id)
      ensures done <==> View() != old(View())
    {
      ExpireIsSafe(View(), id);
      hide Safe;
      if id !in rows || rows[id].player !in players { return false; }
      var row := rows[id];
      if clock < row.expires && clock < row.lastSeen + IDLE_MS { return false; }
      if row.state == Revoked && DigestKey(id, Current) !in digests && DigestKey(id, Predecessor) !in digests { return false; }
      Retire(id, Min(row.expires, Max(row.lastSeen, clock)), false);
      SweepRow(id);
      return true;
    }

    method ExpirePredecessor(id: SessionId) returns (done: bool)
      requires Valid()
      modifies this
      ensures Valid() && View() == ExpirePredecessorStep(old(View()), id)
      ensures done <==> View() != old(View())
    {
      ExpirePredecessorIsSafe(View(), id);
      hide Safe;
      if id !in rows || rows[id].player !in players || DigestKey(id, Predecessor) !in digests { return false; }
      var outgoing := digests[DigestKey(id, Predecessor)];
      if outgoing.validUntil.None? || clock < outgoing.validUntil.value { return false; }
      InsertTombstone(outgoing.credential);
      DeleteSlot(id, Predecessor);
      SweepRow(id);
      return true;
    }

    /** The retention sweep over a bounded list of candidates counts exactly the sessions it changed. */
    method ExpireSessions(candidates: seq<SessionId>) returns (cleaned: nat)
      requires Valid()
      modifies this
      ensures Valid() && View() == Run(old(View()), Expiries(candidates))
      ensures cleaned == Changes(old(View()), Expiries(candidates))
    {
      cleaned := 0;
      assert Run(View(), []) == View() && Changes(View(), []) == 0;
      hide Safe, Run, Changes, ExpireStep, ExpirePredecessorStep, Assemble, Keyed, Expiries, PredecessorExpiries;
      for i := 0 to |candidates|
        invariant Valid() && View() == Run(old(View()), Expiries(candidates[..i])) && cleaned == Changes(old(View()), Expiries(candidates[..i]))
      {
        ExpiriesNext(old(View()), candidates, i);
        var done := ExpireSession(candidates[i]);
        if done { cleaned := cleaned + 1; }
      }
      assert candidates[..|candidates|] == candidates;
    }

    method ExpirePredecessors(candidates: seq<SessionId>) returns (cleaned: nat)
      requires Valid()
      modifies this
      ensures Valid() && View() == Run(old(View()), PredecessorExpiries(candidates))
      ensures cleaned == Changes(old(View()), PredecessorExpiries(candidates))
    {
      cleaned := 0;
      assert Run(View(), []) == View() && Changes(View(), []) == 0;
      hide Safe, Run, Changes, ExpireStep, ExpirePredecessorStep, Assemble, Keyed, Expiries, PredecessorExpiries;
      for i := 0 to |candidates|
        invariant Valid() && View() == Run(old(View()), PredecessorExpiries(candidates[..i]))
        invariant cleaned == Changes(old(View()), PredecessorExpiries(candidates[..i]))
      {
        PredecessorExpiriesNext(old(View()), candidates, i);
        var done := ExpirePredecessor(candidates[i]);
        if done { cleaned := cleaned + 1; }
      }
      assert candidates[..|candidates|] == candidates;
    }

    /** A merge receipt that is dropped frees a revoked, digest-less session to go with it. */
    method DropReceipt(id: SessionId)
      requires Valid()
      modifies this
      ensures Valid() && View() == Exec(old(View()), Op.DropReceipt(id))
    {
      SweepIsSafe(View().(merges := merges - {id}), id);
      merges := merges - {id};
      SweepRow(id);
    }

    method Purge(id: SessionId, slot: Slot)
      requires Keyed(rows, digests) && id in rows && DigestKey(id, slot) in digests
      modifies `rows, `digests, `graves
      ensures Keyed(rows, digests) && id in old(View()).sessions && SlotCredential(old(View()).sessions[id], slot).Some?
      ensures View() == Purged(old(View()), id, slot)
    {
      RowFacts(id);
      var row := rows[id];
      var c := digests[DigestKey(id, slot)].credential;
      assert SlotCredential(View().sessions[id], slot) == Some(c);
      hide Assemble, Keyed, Bury;
      InsertTombstone(c);
      DeleteSlot(id, slot);
      if slot == Current {
        PutRow(id, row.(state := Revoked, lastSeen := Min(row.expires, Max(row.lastSeen, clock))));
      }
    }

    /** A digest whose key can no longer verify is buried and its row removed. */
    method PurgeDigest(id: SessionId, slot: Slot) returns (done: bool)
      requires Valid()
      modifies this
      ensures Valid() && View() == PurgeStep(old(View()), id, slot)
      ensures done <==> View() != old(View())
    {
      PurgeIsSafe(View(), id, slot);
      hide Safe;
      if id !in rows || rows[id].player !in players || DigestKey(id, slot) !in digests { return false; }
      RowFacts(id);
      var c := digests[DigestKey(id, slot)].credential;
      if !KeyGone(ring, c, clock) { return false; }
      hide Assemble, Keyed, Bury, KeyGone;
      Purge(id, slot);
      SweepRow(id);
      return true;
    }

    /** The next digest row: one more step of the purge, counted when it did something. */
    method PurgeNext(ghost was: Vault, order: seq<DigestKey>, cursor: nat, purged: nat) returns (total: nat)
      requires Valid() && cursor < |order| && View() == Run(was, Purges(order[..cursor])) && purged == Changes(was, Purges(order[..cursor]))
      modifies this
      ensures Valid() && View() == Run(was, Purges(order[..cursor + 1])) && total == Changes(was, Purges(order[..cursor + 1]))
      ensures purged <= total <= purged + 1
    {
      hide Safe, Run, Changes, PurgeStep, Assemble, Keyed, Purges;
      PurgesNext(was, order, cursor);
      var done := PurgeDigest(order[cursor].session, order[cursor].slot);
      total := if done then purged + 1 else purged;
    }

    /** One page of rows behind the cursor. */
    method PurgePage(ghost was: Vault, order: seq<DigestKey>, from: nat, limit: nat, start: nat) returns (purged: nat, cursor: nat)
      requires Valid() && from < |order| && View() == Run(was, Purges(order[..from])) && start == Changes(was, Purges(order[..from])) < limit
      modifies this
      ensures Valid() && from < cursor <= |order| && View() == Run(was, Purges(order[..cursor]))
      ensures purged == Changes(was, Purges(order[..cursor])) <= limit
    {
      hide Safe, Run, Changes, Assemble, Keyed, Purges;
      purged, cursor := start, from;
      var end := if from + PAGE < |order| then from + PAGE else |order|;
      while cursor < end && purged < limit
        invariant Valid() && from <= cursor <= end && View() == Run(was, Purges(order[..cursor]))
        invariant purged == Changes(was, Purges(order[..cursor])) <= limit && (cursor == from ==> purged == start)
        decreases end - cursor
      {
        purged := PurgeNext(was, order, cursor, purged);
        cursor := cursor + 1;
      }
    }

    /**
     * The purge walks the digest rows in key order, a page at a time behind a cursor, until it has purged `limit` of
     * them or seen them all.
     */
    method PurgeUnavailable(order: seq<DigestKey>, limit: nat) returns (purged: nat, cursor: nat)
      requires Valid()
      modifies this
      ensures Valid() && cursor <= |order| && View() == Run(old(View()), Purges(order[..cursor]))
      ensures purged == Changes(old(View()), Purges(order[..cursor])) <= limit
      ensures purged < limit ==> cursor == |order|
    {
      purged, cursor := 0, 0;
      ghost var was := View();
      NoPurges(was, order);
      hide Safe, Run, Changes, Assemble, Keyed, Purges;
      while purged < limit && cursor < |order|
        invariant Valid() && cursor <= |order| && View() == Run(was, Purges(order[..cursor]))
        invariant purged == Changes(was, Purges(order[..cursor])) <= limit
        decreases |order| - cursor
      {
        purged, cursor := PurgePage(was, order, cursor, limit, purged);
      }
    }

    /** Insert a tombstone for every digest row of the player's sessions, one row at a time. */
    method BuryPlayer(player: PlayerId)
      requires Keyed(rows, digests)
      modifies `graves
      ensures graves == Bury(old(graves), HeldBy(View(), OwnedBy(View(), player)), clock)
    {
      var pending := set k | k in digests && rows[k.session].player == player;
      ghost var all, done: set<Credential> := HeldBy(View(), OwnedBy(View(), player)), {};
      PlayerDigests(rows, digests, player, View());
      BuryNothing(graves, clock);
      hide Bury, HeldBy, OwnedBy, Assemble;
      while pending != {}
        invariant pending <= digests.Keys
        invariant graves == Bury(old(graves), done, clock)
        invariant all == done + set k | k in pending :: digests[k].credential
      {
        var k :| k in pending;
        BuryTwice(old(graves), done, {digests[k].credential}, clock);
        InsertTombstone(digests[k].credential);
        done, pending := done + {digests[k].credential}, pending - {k};
      }
      assert done == all;
    }

    /** Deleting a player buries its sessions' digests, then removes every row it owns. */
    method RemovePlayer(player: PlayerId)
      requires Valid()
      modifies this
      ensures Valid() && View() == DeletePlayer(old(View()), player)
    {
      DeletePlayerIsSafe(View(), player);
      BuryPlayer(player);
      hide Safe, Bury, HeldBy, Keyed;
      var owned := set id | id in rows && rows[id].player == player;
      assert owned == OwnedBy(View(), player);
      AssembleWithout(rows, digests, owned);
      digests := map k | k in digests && k.session !in owned :: digests[k];
      rows := rows - owned;
      merges := merges - owned;
      players := players - {player};
    }

    method Delete(secret: Secret) returns (r: Result<(), Refusal>)
      requires Valid()
      modifies this
      ensures Valid() && View() == Exec(old(View()), Op.Delete(secret))
      ensures r.Success? <==> DeleteStep(old(View()), secret).Success?
    {
      var found := ResolveSecret(secret);
      if found.None? { return Failure(SessionInvalid); }
      var id := found.value;
      var row := rows[id];
      if row.player !in players || row.state == Revoked || row.expires <= clock || row.lastSeen + IDLE_MS <= clock
         || DigestKey(id, Current) !in digests { return Failure(SessionInvalid); }
      var c := digests[DigestKey(id, Current)].credential;
      var same := Recompute(secret, c);
      if !same || Buried(graves, c, clock) { return Failure(SessionInvalid); }
      RemovePlayer(row.player);
      return Success(());
    }
  }
}
