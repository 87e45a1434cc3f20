/** Who can add a receipt, pause the contract or revoke an issuer: exactly which call of a run did, and with what authority. */
module ReceiptAuthorship {
  import opened Basics
  import opened ReceiptContract
  import opened ReceiptRuns

  // ---------------------------------------------------------------- what a submission must bring

  /** The payload names this contract, chain, content and deployment, and the sender as both owner and source. */
  predicate Names(c: Config, env: Env, p: Payload) {
    && p.domain == ReceiptDomain && p.schemaVersion == 1 && p.entrypoint == SubmitEntrypoint
    && p.chain == c.chain && env.chain == c.chain && p.destination == c.self
    && p.contentVersion == c.contentVersion && p.manifestHash == c.manifestHash
    && p.owner == env.sender && p.source == env.sender && p.attachedMutez == 0
  }

  /** The issuer's policy is the one named, not revoked, and its key signed the hash of this payload. */
  predicate Signed(c: Config, policies: map<KeyId, Policy>, p: Permit) {
    && p.payloadHash == Blake2b(p.payload)
    && p.payload.issuerKeyId in policies
    && var policy := policies[p.payload.issuerKeyId];
      && policy.version == p.payload.issuerPolicyVersion && !policy.revoked
      && c.checkSignature(policy.publicKey, p.signature, p.payloadHash)
  }

  /** The permit is in its window, and was issued in its issuer's. */
  predicate Current(c: Config, policies: map<KeyId, Policy>, p: Payload, now: int) {
    && p.issuerKeyId in policies
    && var policy := policies[p.issuerKeyId];
      && policy.activatesAt <= p.issuedAt && p.issuedAt < policy.retiresAt && now < policy.verifyUntil
      && p.issuedAt <= now + c.clockSkew && p.issuedAt < p.expiry && now < p.expiry && p.expiry - p.issuedAt <= c.maximumLifetime
  }

  /** No receipt has this nonce, and none this owner together with this commitment. */
  predicate Unused(receipts: map<Hash, PublicReceipt>, p: Payload) {
    forall h :: h in receipts ==>
      receipts[h].nonce != p.nonce && !(receipts[h].owner == p.owner && receipts[h].serviceCommitment == p.serviceCommitment)
  }

  predicate Grants(c: Config, s: Storage, env: Env, p: Permit) {
    && env.amount == 0 && !s.paused && Names(c, env, p.payload) && Signed(c, s.policies, p)
    && Current(c, s.policies, p.payload, env.now) && Unused(s.receipts, p.payload)
  }

  /** The new receipt and the new event, field by field; nothing else changes. */
  predicate Files(s: Storage, p: Payload, w: Storage) {
    && w.paused == s.paused && w.policies == s.policies
    && w.receipts == s.receipts[Blake2b(p) := PublicReceipt(
      p.owner, p.serviceCommitment, p.contentVersion, p.nonce, Blake2b(p), p.manifestHash, p.issuerKeyId, p.issuerPolicyVersion, p.issuedAt, p.expiry)]
    && w.events == s.events + [ReceiptEvent(p.owner, p.serviceCommitment, p.contentVersion, p.nonce, Blake2b(p))]
    && w.usedNonces == s.usedNonces + {p.nonce}
    && w.usedCommitments == s.usedCommitments + {OwnerCommitment(p.owner, p.serviceCommitment)}
  }

  /** Which storage a call leads to. */
  predicate Leads(c: Config, s: Storage, env: Env, call: Call, w: Storage) {
    match call
    case Submit(p) => if Grants(c, s, env, p) then Files(s, p.payload, w) else w == s
    case SetPaused(paused) =>
      if env.amount == 0 && env.sender == c.pauseController
      then w == Storage(paused, s.policies, s.receipts, s.usedNonces, s.usedCommitments, s.events) else w == s
    case RevokeIssuer(key) =>
      if env.amount == 0 && env.sender == c.administrator && key in s.policies
      then
        var was := s.policies[key];
        w == Storage(
          s.paused, s.policies[key := Policy(was.version, was.publicKey, was.activatesAt, was.retiresAt, was.verifyUntil, true)],
          s.receipts, s.usedNonces, s.usedCommitments, s.events)
      else w == s
  }

  lemma UnusedMeans(s: Storage, p: Payload)
    requires InStep(s)
    ensures Unused(s.receipts, p) <==> p.nonce !in s.usedNonces && CommitmentOf(ReceiptOf(p)) !in s.usedCommitments
  {
    forall h | h in s.receipts
      ensures s.receipts[h].nonce in s.usedNonces && CommitmentOf(s.receipts[h]) in s.usedCommitments {}
  }

  lemma GrantsExactly(c: Config, s: Storage, env: Env, p: Permit)
    requires OneToOne(s)
    ensures Acceptable(c, s, env, p) <==> Grants(c, s, env, p)
  {
    UnusedMeans(s, p.payload);
    hide OneToOne, Unused;
  }

  /** A call leads exactly there. */
  lemma StepExactly(c: Config, s: Storage, env: Env, call: Call, w: Storage)
    requires OneToOne(s)
    ensures w == Step(c, s, env, call) <==> Leads(c, s, env, call, w)
  {
    if call.Submit? { GrantsExactly(c, s, env, call.permit); }
    hide OneToOne, Acceptable, Grants;
  }

  // ---------------------------------------------------------------- over every run

  /** Call `i` of the run added a receipt. */
  predicate Grew(c: Config, s: Storage, calls: seq<(Env, Call)>, i: nat)
    requires i < |calls|
  {
    Run(c, s, calls[..i + 1]).receipts.Keys != Run(c, s, calls[..i]).receipts.Keys
  }

  /** A call adds a receipt exactly when it submits a permit that grants it, and it is the permit's. */
  lemma GrewExactly(c: Config, s: Storage, calls: seq<(Env, Call)>, i: nat)
    requires OneToOne(s) && i < |calls|
    ensures Grew(c, s, calls, i) <==> calls[i].1.Submit? && Grants(c, Run(c, s, calls[..i]), calls[i].0, calls[i].1.permit)
    ensures Grew(c, s, calls, i) ==> Files(Run(c, s, calls[..i]), calls[i].1.permit.payload, Run(c, s, calls[..i + 1]))
  {
    var before := Run(c, s, calls[..i]);
    RunKeepsOneToOne(c, s, calls[..i]);
    RunNext(c, s, calls, i);
    StepExactly(c, before, calls[i].0, calls[i].1, Run(c, s, calls[..i + 1]));
    if calls[i].1.Submit? && Grants(c, before, calls[i].0, calls[i].1.permit) {
      GrantsExactly(c, before, calls[i].0, calls[i].1.permit);
      AcceptedIsNew(c, before, calls[i].0, calls[i].1.permit);
      assert Blake2b(calls[i].1.permit.payload) in Run(c, s, calls[..i + 1]).receipts.Keys;
    }
    hide OneToOne, Step, Run, Grants, Acceptable;
  }

  /**
   * Only a signed permit adds a receipt: its signature checks under the key its issuer's policy had from the start, for
   * the very hash filed; the policy was the version named and not revoked, the contract not paused, the sender the
   * owner and source, and destination, chain, content and deployment the pinned ones.
   */
  lemma AddedWasSigned(c: Config, s: Storage, calls: seq<(Env, Call)>, i: nat)
    requires OneToOne(s) && i < |calls| && Grew(c, s, calls, i)
    ensures calls[i].1.Submit?
    ensures var env, permit, before, after := calls[i].0, calls[i].1.permit, Run(c, s, calls[..i]), Run(c, s, calls[..i + 1]);
      && !before.paused && env.amount == 0
      && after.receipts.Keys == before.receipts.Keys + {permit.payloadHash} && permit.payloadHash == Blake2b(permit.payload)
      && permit.payload.issuerKeyId in s.policies && permit.payload.issuerKeyId in before.policies
      && c.checkSignature(s.policies[permit.payload.issuerKeyId].publicKey, permit.signature, permit.payloadHash)
      && s.policies[permit.payload.issuerKeyId].version == permit.payload.issuerPolicyVersion
      && !before.policies[permit.payload.issuerKeyId].revoked
      && permit.payload.owner == env.sender && permit.payload.source == env.sender && permit.payload.destination == c.self
      && permit.payload.chain == c.chain && permit.payload.contentVersion == c.contentVersion && permit.payload.manifestHash == c.manifestHash
  {
    var before := Run(c, s, calls[..i]);
    GrewExactly(c, s, calls, i);
    RunExtends(c, s, calls[..i]);
    var key := calls[i].1.permit.payload.issuerKeyId;
    assert key in s.policies && SamePolicy(s.policies[key], before.policies[key]);
    hide OneToOne, Run, Grew, Unused, KeepsReceipts;
  }

  /** Call `i` added the receipt under hash `h`: its permit is for that hash. */
  predicate AddedBy(c: Config, s: Storage, calls: seq<(Env, Call)>, i: nat, h: Hash)
    requires i < |calls|
  {
    Grew(c, s, calls, i) && calls[i].1.Submit? && Blake2b(calls[i].1.permit.payload) == h
  }

  lemma AddedInPrefix(c: Config, s: Storage, calls: seq<(Env, Call)>, n: nat, i: nat, h: Hash)
    requires i < n <= |calls| && AddedBy(c, s, calls[..n], i, h)
    ensures AddedBy(c, s, calls, i, h)
  {
    assert calls[..n][..i] == calls[..i] && calls[..n][..i + 1] == calls[..i + 1] && calls[..n][i] == calls[i];
    hide Run;
  }

  lemma NewlyThere(c: Config, s: Storage, calls: seq<(Env, Call)>, h: Hash)
    requires OneToOne(s) && calls != [] && h in Run(c, s, calls).receipts && h !in Run(c, s, calls[..|calls| - 1]).receipts
    ensures AddedBy(c, s, calls, |calls| - 1, h)
  {
    var n := |calls| - 1;
    assert calls[..n + 1] == calls;
    GrewExactly(c, s, calls, n);
    hide Run, OneToOne, Grants;
  }

  /** Every receipt that was not there at the start was added by one such call of the run. */
  lemma {:induction false} ReceiptWasAdded(c: Config, s: Storage, calls: seq<(Env, Call)>, h: Hash)
    requires OneToOne(s) && h in Run(c, s, calls).receipts && h !in s.receipts
    ensures exists i: nat :: i < |calls| && AddedBy(c, s, calls, i, h)
  {
    assert calls != [];
    hide Run, OneToOne, AddedBy;
    var n := |calls| - 1;
    if h in Run(c, s, calls[..n]).receipts {
      ReceiptWasAdded(c, s, calls[..n], h);
      var i: nat :| i < n && AddedBy(c, s, calls[..n], i, h);
      AddedInPrefix(c, s, calls, n, i, h);
    } else {
      NewlyThere(c, s, calls, h);
    }
  }

  /** Only the pause controller pauses and resumes; only the administrator revokes, and only the issuer named. */
  lemma OnlyAuthorities(c: Config, s: Storage, calls: seq<(Env, Call)>, i: nat, key: KeyId)
    requires OneToOne(s) && i < |calls| && key in s.policies
    ensures var env, call, before, after := calls[i].0, calls[i].1, Run(c, s, calls[..i]), Run(c, s, calls[..i + 1]);
      && key in before.policies && key in after.policies
      && (after.paused != before.paused <==>
        call.SetPaused? && call.paused != before.paused && env.sender == c.pauseController && env.amount == 0)
      && (after.policies[key] != before.policies[key] <==>
        call == RevokeIssuer(key) && !before.policies[key].revoked && env.sender == c.administrator && env.amount == 0)
      && (after.policies[key] != before.policies[key] ==> after.policies[key].revoked)
  {
    RunKeepsOneToOne(c, s, calls[..i]);
    RunExtends(c, s, calls[..i]);
    RunNext(c, s, calls, i);
    StepExactly(c, Run(c, s, calls[..i]), calls[i].0, calls[i].1, Run(c, s, calls[..i + 1]));
    hide OneToOne, Step, Run, Grants, KeepsReceipts;
  }
}
