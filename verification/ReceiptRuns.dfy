/** What the receipt authority keeps over every run of calls. */
module ReceiptRuns {
  import opened Basics
  import opened ReceiptContract

  /** Each receipt is filed under its own hash, and no two share a nonce or an owner and commitment. */
  predicate Filed(s: Storage) {
    && (forall h :: h in s.receipts ==> s.receipts[h] == ReceiptOf(h.packed))
    && (forall g, h :: g in s.receipts && h in s.receipts && s.receipts[g].nonce == s.receipts[h].nonce ==> g == h)
    && (forall g, h :: g in s.receipts && h in s.receipts && CommitmentOf(s.receipts[g]) == CommitmentOf(s.receipts[h]) ==> g == h)
  }

  function Nonces(receipts: map<Hash, PublicReceipt>): set<Bytes> {
    set h | h in receipts :: receipts[h].nonce
  }

  function Commitments(receipts: map<Hash, PublicReceipt>): set<OwnerCommitment> {
    set h | h in receipts :: CommitmentOf(receipts[h])
  }

  lemma SetsGrow(receipts: map<Hash, PublicReceipt>, h: Hash, r: PublicReceipt)
    requires h !in receipts
    ensures Nonces(receipts[h := r]) == Nonces(receipts) + {r.nonce}
    ensures Commitments(receipts[h := r]) == Commitments(receipts) + {CommitmentOf(r)}
  {
    hide CommitmentOf;
    var grown := receipts[h := r];
    forall g | g in receipts ensures receipts[g].nonce in Nonces(grown) && CommitmentOf(receipts[g]) in Commitments(grown) {
      assert g in grown && grown[g] == receipts[g];
    }
    assert h in grown;
  }

  /** The uniqueness sets hold exactly the nonces and commitments of the receipts. */
  predicate InStep(s: Storage) {
    && s.usedNonces == Nonces(s.receipts) && s.usedCommitments == Commitments(s.receipts)
    && |s.usedNonces| == |s.receipts| && |s.usedCommitments| == |s.receipts|
  }

  /** One event per receipt, in order of acceptance, saying what the receipt says. */
  predicate Announced(s: Storage) {
    && |s.events| == |s.receipts|
    && (forall i :: 0 <= i < |s.events| ==> s.events[i].payloadHash in s.receipts && s.events[i] == EventOf(s.receipts[s.events[i].payloadHash]))
    && (forall i, j :: 0 <= i < j < |s.events| ==> s.events[i].payloadHash != s.events[j].payloadHash)
  }

  predicate OneToOne(s: Storage) {
    Filed(s) && InStep(s) && Announced(s)
  }

  lemma AcceptedIsNew(c: Config, s: Storage, env: Env, p: Permit)
    requires OneToOne(s) && Acceptable(c, s, env, p)
    ensures Blake2b(p.payload) !in s.receipts
    ensures forall h :: h in s.receipts ==> s.receipts[h].nonce != p.payload.nonce && CommitmentOf(s.receipts[h]) != CommitmentOf(ReceiptOf(p.payload))
  {
    forall h | h in s.receipts ensures s.receipts[h].nonce in s.usedNonces && CommitmentOf(s.receipts[h]) in s.usedCommitments {}
    FiledUnder(s, Blake2b(p.payload));
    hide Filed, Announced, Issued, WellAddressed, Timely;
  }

  lemma FiledUnder(s: Storage, h: Hash)
    requires Filed(s)
    ensures h in s.receipts ==> s.receipts[h].nonce == h.packed.nonce
  {
  }

  lemma AcceptKeepsFiled(s: Storage, p: Payload)
    requires Filed(s) && Blake2b(p) !in s.receipts
    requires forall h :: h in s.receipts ==> s.receipts[h].nonce != p.nonce && CommitmentOf(s.receipts[h]) != CommitmentOf(ReceiptOf(p))
    ensures Filed(Accepted(s, p))
  {
  }

  lemma AcceptKeepsInStep(s: Storage, p: Payload)
    requires InStep(s) && Blake2b(p) !in s.receipts
    requires p.nonce !in s.usedNonces && CommitmentOf(ReceiptOf(p)) !in s.usedCommitments
    ensures InStep(Accepted(s, p))
  {
    SetsGrow(s.receipts, Blake2b(p), ReceiptOf(p));
    var w := Accepted(s, p);
    hide Nonces, Commitments, CommitmentOf;
    assert |w.receipts| == |s.receipts| + 1;
  }

  lemma AcceptKeepsAnnounced(s: Storage, p: Payload)
    requires Announced(s) && Blake2b(p) !in s.receipts
    ensures Announced(Accepted(s, p))
  {
    var w := Accepted(s, p);
    assert |w.receipts| == |s.receipts| + 1;
    hide EventOf, CommitmentOf;
    forall i | 0 <= i < |s.events| ensures w.events[i] == s.events[i] && w.events[i].payloadHash in s.receipts && w.receipts[w.events[i].payloadHash] == s.receipts[w.events[i].payloadHash] {}
    LastEvent(p);
  }

  lemma LastEvent(p: Payload)
    ensures EventOf(ReceiptOf(p)).payloadHash == Blake2b(p)
  {
  }

  lemma StepKeepsOneToOne(c: Config, s: Storage, env: Env, call: Call)
    requires OneToOne(s)
    ensures OneToOne(Step(c, s, env, call))
  {
    if call.Submit? && Acceptable(c, s, env, call.permit) {
      AcceptedIsNew(c, s, env, call.permit);
      AcceptKeepsFiled(s, call.permit.payload);
      AcceptKeepsInStep(s, call.permit.payload);
      AcceptKeepsAnnounced(s, call.permit.payload);
      hide Filed, InStep, Announced, Accepted;
    }
  }

  /** Receipts, used nonces, used commitments and events stay in one-to-one correspondence. */
  lemma {:induction false} RunKeepsOneToOne(c: Config, s: Storage, calls: seq<(Env, Call)>)
    requires OneToOne(s)
    ensures OneToOne(Run(c, s, calls))
  {
    if calls != [] {
      RunKeepsOneToOne(c, s, calls[..|calls| - 1]);
      StepKeepsOneToOne(c, Run(c, s, calls[..|calls| - 1]), calls[|calls| - 1].0, calls[|calls| - 1].1);
      hide OneToOne, Step;
    }
  }

  lemma OriginatedIsOneToOne(policies: map<KeyId, Policy>)
    ensures OneToOne(Storage(false, policies, map[], {}, {}, []))
  {
    var s := Storage(false, policies, map[], {}, {}, []);
    assert Nonces(s.receipts) == {} && Commitments(s.receipts) == {};
  }

  // ---------------------------------------------------------------- nothing is altered or taken back

  predicate SamePolicy(a: Policy, b: Policy) {
    b == a.(revoked := b.revoked) && (a.revoked ==> b.revoked)
  }

  predicate KeepsReceipts(s: Storage, w: Storage) {
    forall h :: h in s.receipts ==> h in w.receipts && w.receipts[h] == s.receipts[h]
  }

  predicate KeepsPolicies(s: Storage, w: Storage) {
    s.policies.Keys == w.policies.Keys && forall k :: k in s.policies ==> SamePolicy(s.policies[k], w.policies[k])
  }

  /** The later storage has every receipt, nonce, commitment and event of the earlier one; policies change by revocation only. */
  predicate Extends(s: Storage, w: Storage) {
    KeepsReceipts(s, w) && KeepsPolicies(s, w) && s.usedNonces <= w.usedNonces && s.usedCommitments <= w.usedCommitments && s.events <= w.events
  }

  lemma StepExtends(c: Config, s: Storage, env: Env, call: Call)
    requires OneToOne(s)
    ensures Extends(s, Step(c, s, env, call))
  {
    if call.Submit? && Acceptable(c, s, env, call.permit) {
      AcceptedIsNew(c, s, env, call.permit);
      AcceptExtends(s, call.permit.payload);
      hide OneToOne, Acceptable, Accepted, Extends;
    } else {
      OtherExtends(c, s, env, call);
      hide OneToOne, Acceptable, Extends;
    }
  }

  lemma OtherExtends(c: Config, s: Storage, env: Env, call: Call)
    requires call.Submit? ==> !Acceptable(c, s, env, call.permit)
    ensures Extends(s, Step(c, s, env, call))
  {
    hide Acceptable, Accepted;
  }

  lemma AcceptExtends(s: Storage, p: Payload)
    requires Blake2b(p) !in s.receipts
    ensures Extends(s, Accepted(s, p))
  {
    hide CommitmentOf, EventOf, ReceiptOf;
  }

  lemma ExtendsChain(a: Storage, b: Storage, c: Storage)
    requires Extends(a, b) && Extends(b, c)
    ensures Extends(a, c)
  {
    hide SamePolicy;
    forall k | k in a.policies ensures SamePolicy(a.policies[k], c.policies[k]) { SameChain(a.policies[k], b.policies[k], c.policies[k]); }
  }

  lemma SameChain(a: Policy, b: Policy, c: Policy)
    requires SamePolicy(a, b) && SamePolicy(b, c)
    ensures SamePolicy(a, c)
  {
  }

  lemma {:induction false} RunExtends(c: Config, s: Storage, calls: seq<(Env, Call)>)
    requires OneToOne(s)
    ensures Extends(s, Run(c, s, calls))
  {
    if calls == [] {
      assert Extends(s, s);
    } else {
      var init, last := calls[..|calls| - 1], calls[|calls| - 1];
      RunExtends(c, s, init);
      RunKeepsOneToOne(c, s, init);
      StepExtends(c, Run(c, s, init), last.0, last.1);
      ExtendsChain(s, Run(c, s, init), Run(c, s, calls));
      hide OneToOne, Step, Extends;
    }
  }

  /** A revoked issuer stays revoked, and no receipt under its key is ever added again. */
  lemma {:induction false} RevocationIsFinal(c: Config, s: Storage, calls: seq<(Env, Call)>, key: KeyId)
    requires OneToOne(s) && key in s.policies && s.policies[key].revoked
    ensures key in Run(c, s, calls).policies && Run(c, s, calls).policies[key].revoked
    ensures forall h :: h in Run(c, s, calls).receipts && h.packed.issuerKeyId == key ==> h in s.receipts
  {
    if calls != [] {
      var init := calls[..|calls| - 1];
      RevocationIsFinal(c, s, init, key);
      RunExtends(c, s, calls);
      hide OneToOne, WellAddressed, Timely;
    }
  }

  // ---------------------------------------------------------------- acceptance

  /** The calls of a run that were accepted submissions, by position. */
  predicate AcceptedAt(c: Config, s: Storage, calls: seq<(Env, Call)>, i: nat)
    requires i < |calls|
  {
    calls[i].1.Submit? && Acceptable(c, Run(c, s, calls[..i]), calls[i].0, calls[i].1.permit)
  }

  /** Every acceptance falls inside the permit's own window and its issuer's, as the policies stood at the start. */
  lemma AcceptedInTime(c: Config, s: Storage, calls: seq<(Env, Call)>, i: nat)
    requires OneToOne(s) && i < |calls| && AcceptedAt(c, s, calls, i)
    ensures var p, now := calls[i].1.permit.payload, calls[i].0.now;
      && p.issuerKeyId in s.policies && !s.policies[p.issuerKeyId].revoked
      && var policy := s.policies[p.issuerKeyId];
        && p.issuedAt - c.clockSkew <= now < p.issuedAt + c.maximumLifetime
        && now < p.expiry && now < policy.verifyUntil
        && policy.activatesAt <= p.issuedAt < policy.retiresAt
  {
    RunExtends(c, s, calls[..i]);
    hide OneToOne, WellAddressed, Run;
  }

  lemma {:induction false} RunSplits(c: Config, s: Storage, calls: seq<(Env, Call)>, i: nat)
    requires i <= |calls|
    ensures Run(c, s, calls) == Run(c, Run(c, s, calls[..i]), calls[i..])
    decreases |calls|
  {
    if i == |calls| {
      assert calls[..i] == calls;
    } else {
      var init := calls[..|calls| - 1];
      RunSplits(c, s, init, i);
      assert init[..i] == calls[..i] && calls[i..][..|calls[i..]| - 1] == init[i..];
      hide Step;
    }
  }

  lemma AcceptedUses(c: Config, s: Storage, env: Env, p: Permit)
    requires Acceptable(c, s, env, p)
    ensures var w := Step(c, s, env, Submit(p)); p.payload.nonce in w.usedNonces && CommitmentOf(ReceiptOf(p.payload)) in w.usedCommitments
  {
    hide CommitmentOf;
  }

  lemma RunNext(c: Config, s: Storage, calls: seq<(Env, Call)>, i: nat)
    requires i < |calls|
    ensures Run(c, s, calls[..i + 1]) == Step(c, Run(c, s, calls[..i]), calls[i].0, calls[i].1)
  {
    assert calls[..i + 1][..i] == calls[..i];
    hide Step;
  }

  /** What an acceptance used up is still used up at every later point of the run. */
  lemma UsedFromThen(c: Config, s: Storage, calls: seq<(Env, Call)>, i: nat, j: nat)
    requires OneToOne(s) && i < j <= |calls| && AcceptedAt(c, s, calls, i)
    ensures var p, w := calls[i].1.permit.payload, Run(c, s, calls[..j]);
      p.nonce in w.usedNonces && CommitmentOf(ReceiptOf(p)) in w.usedCommitments
  {
    hide OneToOne, Run, Step, KeepsReceipts, KeepsPolicies, Acceptable, CommitmentOf;
    var before, after := Run(c, s, calls[..i]), Run(c, s, calls[..i + 1]);
    RunKeepsOneToOne(c, s, calls[..i + 1]);
    RunNext(c, s, calls, i);
    AcceptedUses(c, before, calls[i].0, calls[i].1.permit);
    assert calls[..j][..i + 1] == calls[..i + 1];
    RunSplits(c, s, calls[..j], i + 1);
    RunExtends(c, after, calls[..j][i + 1..]);
  }

  /** No permit, and no other permit with its nonce or for its owner and commitment, is accepted a second time. */
  lemma AcceptedOnce(c: Config, s: Storage, calls: seq<(Env, Call)>, i: nat, j: nat)
    requires OneToOne(s) && i < j < |calls| && AcceptedAt(c, s, calls, i) && AcceptedAt(c, s, calls, j)
    ensures var p, q := calls[i].1.permit.payload, calls[j].1.permit.payload;
      p.nonce != q.nonce && CommitmentOf(ReceiptOf(p)) != CommitmentOf(ReceiptOf(q))
  {
    UsedFromThen(c, s, calls, i, j);
    hide OneToOne, Run, Issued, WellAddressed, Timely, CommitmentOf;
  }
}
