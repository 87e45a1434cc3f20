/**
 * The on-chain receipt authority.  Packing and hashing a payload is injective, so a hash is its payload; the
 * signature check is any function of key, signature and hash.
 */
module ReceiptContract {
  import opened Basics

  type Address = nat
  type Bytes = nat
  type KeyId = nat
  type PublicKey = nat
  type Signature = nat

  /** The two fixed strings a payload must carry, and anything else. */
  datatype Tag = ReceiptDomain | SubmitEntrypoint | OtherTag(text: nat)

  datatype Payload = Payload(
    domain: Tag, schemaVersion: nat, chain: nat, owner: Address, source: Address, destination: Address, entrypoint: Tag,
    attachedMutez: nat, serviceCommitment: Bytes, contentVersion: nat, nonce: Bytes, issuedAt: int, expiry: int,
    manifestHash: Bytes, issuerKeyId: KeyId, issuerPolicyVersion: nat)

  datatype Hash = Blake2b(packed: Payload)

  datatype Permit = Permit(payload: Payload, payloadHash: Hash, signature: Signature)

  datatype Policy = Policy(version: nat, publicKey: PublicKey, activatesAt: int, retiresAt: int, verifyUntil: int, revoked: bool)

  datatype PublicReceipt = PublicReceipt(
    owner: Address, serviceCommitment: Bytes, contentVersion: nat, nonce: Bytes, payloadHash: Hash, manifestHash: Bytes,
    issuerKeyId: KeyId, issuerPolicyVersion: nat, issuedAt: int, expiry: int)

  datatype ReceiptEvent = ReceiptEvent(owner: Address, serviceCommitment: Bytes, contentVersion: nat, nonce: Bytes, payloadHash: Hash)

  /** What is fixed when the contract is originated. */
  datatype Config = Config(
    administrator: Address, pauseController: Address, chain: nat, contentVersion: nat, manifestHash: Bytes,
    maximumLifetime: nat, clockSkew: int, self: Address, checkSignature: (PublicKey, Signature, Hash) -> bool)

  /** The operation's context. */
  datatype Env = Env(sender: Address, amount: nat, now: int, chain: nat)

  datatype OwnerCommitment = OwnerCommitment(owner: Address, serviceCommitment: Bytes)

  /** Contract storage, with the events emitted so far. */
  datatype Storage = Storage(
    paused: bool, policies: map<KeyId, Policy>, receipts: map<Hash, PublicReceipt>,
    usedNonces: set<Bytes>, usedCommitments: set<OwnerCommitment>, events: seq<ReceiptEvent>)

  datatype Fault =
    | NonzeroMutez | Paused | Domain | Schema | Chain | PinnedChain | Owner | Source | OwnerSource | Destination | Entrypoint
    | PayloadMutez | ContentVersion | Manifest | IssuerKey | IssuerPolicy | IssuerRevoked | NotActive | Retired | ClockSkew
    | Duration | Lifetime | Expired | VerifyUntil | PayloadHash | BadSignature | NonceUsed | CommitmentUsed
    | NotPauseController | NotAdministrator

  function ReceiptOf(p: Payload): PublicReceipt {
    PublicReceipt(p.owner, p.serviceCommitment, p.contentVersion, p.nonce, Blake2b(p), p.manifestHash,
                  p.issuerKeyId, p.issuerPolicyVersion, p.issuedAt, p.expiry)
  }

  function EventOf(r: PublicReceipt): ReceiptEvent {
    ReceiptEvent(r.owner, r.serviceCommitment, r.contentVersion, r.nonce, r.payloadHash)
  }

  function CommitmentOf(r: PublicReceipt): OwnerCommitment {
    OwnerCommitment(r.owner, r.serviceCommitment)
  }

  // ---------------------------------------------------------------- when a permit is acceptable

  /** The payload is addressed to this contract, on this chain, by the sender, for this content and deployment. */
  predicate WellAddressed(c: Config, env: Env, p: Payload) {
    && p.domain == ReceiptDomain && p.schemaVersion == 1 && p.chain == env.chain == c.chain
    && p.owner == env.sender == p.source && p.destination == c.self && p.entrypoint == SubmitEntrypoint
    && p.attachedMutez == 0 && p.contentVersion == c.contentVersion && p.manifestHash == c.manifestHash
  }

  /** The times of a permit under its issuer's policy, judged at `now`. */
  predicate Timely(c: Config, policy: Policy, p: Payload, now: int) {
    && policy.activatesAt <= p.issuedAt < policy.retiresAt
    && p.issuedAt - c.clockSkew <= now < p.expiry <= p.issuedAt + c.maximumLifetime
    && p.issuedAt < p.expiry && now < policy.verifyUntil
  }

  predicate Issued(c: Config, s: Storage, p: Permit) {
    && p.payload.issuerKeyId in s.policies
    && var policy := s.policies[p.payload.issuerKeyId];
      policy.version == p.payload.issuerPolicyVersion && !policy.revoked
      && p.payloadHash == Blake2b(p.payload) && c.checkSignature(policy.publicKey, p.signature, p.payloadHash)
  }

  predicate Acceptable(c: Config, s: Storage, env: Env, p: Permit) {
    && env.amount == 0 && !s.paused && WellAddressed(c, env, p.payload) && Issued(c, s, p)
    && Timely(c, s.policies[p.payload.issuerKeyId], p.payload, env.now)
    && p.payload.nonce !in s.usedNonces && CommitmentOf(ReceiptOf(p.payload)) !in s.usedCommitments
  }

  /** Storage after accepting a payload. */
  function Accepted(s: Storage, p: Payload): Storage {
    var r := ReceiptOf(p);
    s.(receipts := s.receipts[Blake2b(p) := r], usedNonces := s.usedNonces + {p.nonce},
       usedCommitments := s.usedCommitments + {CommitmentOf(r)}, events := s.events + [EventOf(r)])
  }

  // ---------------------------------------------------------------- entrypoints as steps

  datatype Call = Submit(permit: Permit) | SetPaused(paused: bool) | RevokeIssuer(key: KeyId)

  function Step(c: Config, s: Storage, env: Env, call: Call): Storage {
    match call
    case Submit(p) => if Acceptable(c, s, env, p) then Accepted(s, p.payload) else s
    case SetPaused(paused) => if env.amount == 0 && env.sender == c.pauseController then s.(paused := paused) else s
    case RevokeIssuer(key) =>
      if env.amount == 0 && env.sender == c.administrator && key in s.policies
      then s.(policies := s.policies[key := s.policies[key].(revoked := true)]) else s
  }

  function Run(c: Config, s: Storage, calls: seq<(Env, Call)>): Storage {
    if calls == [] then s else Step(c, Run(c, s, calls[..|calls| - 1]), calls[|calls| - 1].0, calls[|calls| - 1].1)
  }

  // ---------------------------------------------------------------- the contract

  class ReceiptAuthority {
    const config: Config
    var paused: bool
    var policies: map<KeyId, Policy>
    var receipts: map<Hash, PublicReceipt>
    var usedNonces: set<Bytes>
    var usedCommitments: set<OwnerCommitment>
    var events: seq<ReceiptEvent>

    function View(): Storage
      reads this
    {
      Storage(paused, policies, receipts, usedNonces, usedCommitments, events)
    }

    constructor (config: Config, policies: map<KeyId, Policy>)
      ensures this.config == config && View() == Storage(false, policies, map[], {}, {}, [])
    {
      this.config := config;
      paused, this.policies, receipts, usedNonces, usedCommitments, events := false, policies, map[], {}, {}, [];
    }

    /** The addressing checks, in order. */
    method CheckAddressing(env: Env, p: Payload) returns (fault: Option<Fault>)
      ensures fault.None? <==> WellAddressed(config, env, p)
    {
      if p.domain != ReceiptDomain { return Some(Domain); }
      if p.schemaVersion != 1 { return Some(Schema); }
      if p.chain != env.chain { return Some(Chain); }
      if p.chain != config.chain { return Some(PinnedChain); }
      if p.owner != env.sender { return Some(Owner); }
      if p.source != env.sender { return Some(Source); }
      if p.owner != p.source { return Some(OwnerSource); }
      if p.destination != config.self { return Some(Destination); }
      if p.entrypoint != SubmitEntrypoint { return Some(Entrypoint); }
      if p.attachedMutez != 0 { return Some(PayloadMutez); }
      if p.contentVersion != config.contentVersion { return Some(ContentVersion); }
      if p.manifestHash != config.manifestHash { return Some(Manifest); }
      return None;
    }

    method CheckTimes(policy: Policy, p: Payload, now: int) returns (fault: Option<Fault>)
      ensures fault.None? <==> Timely(config, policy, p, now)
    {
      if !(policy.activatesAt <= p.issuedAt) { return Some(NotActive); }
      if !(p.issuedAt < policy.retiresAt) { return Some(Retired); }
      if !(p.issuedAt <= now + config.clockSkew) { return Some(ClockSkew); }
      if !(p.issuedAt < p.expiry) { return Some(Duration); }
      if !(p.expiry - p.issuedAt <= config.maximumLifetime) { return Some(Lifetime); }
      if !(now < p.expiry) { return Some(Expired); }
      if !(now < policy.verifyUntil) { return Some(VerifyUntil); }
      return None;
    }

    /** Every assertion in order, then the three maps and the event. */
    method SubmitReceipt(env: Env, permit: Permit) returns (fault: Option<Fault>)
      modifies this
      ensures fault.None? <==> old(Acceptable(config, View(), env, permit))
      ensures View() == Step(config, old(View()), env, Submit(permit))
    {
      var p := permit.payload;
      if env.amount != 0 { return Some(NonzeroMutez); }
      if paused { return Some(Paused); }
      fault := CheckAddressing(env, p);
      if fault.Some? { return; }
      if p.issuerKeyId !in policies { return Some(IssuerKey); }
      var policy := policies[p.issuerKeyId];
      if policy.version != p.issuerPolicyVersion { return Some(IssuerPolicy); }
      if policy.revoked { return Some(IssuerRevoked); }
      fault := CheckTimes(policy, p, env.now);
      if fault.Some? { return; }
      var computed := Blake2b(p);
      if computed != permit.payloadHash { return Some(PayloadHash); }
      if !config.checkSignature(policy.publicKey, permit.signature, computed) { return Some(BadSignature); }
      if p.nonce in usedNonces { return Some(NonceUsed); }
      if OwnerCommitment(p.owner, p.serviceCommitment) in usedCommitments { return Some(CommitmentUsed); }
      receipts := receipts[computed := PublicReceipt(
        p.owner, p.serviceCommitment, p.contentVersion, p.nonce, computed, p.manifestHash,
        p.issuerKeyId, p.issuerPolicyVersion, p.issuedAt, p.expiry)];
      usedNonces := usedNonces + {p.nonce};
      usedCommitments := usedCommitments + {OwnerCommitment(p.owner, p.serviceCommitment)};
      events := events + [ReceiptEvent(p.owner, p.serviceCommitment, p.contentVersion, p.nonce, computed)];
      return None;
    }

    method SetPaused(env: Env, value: bool) returns (fault: Option<Fault>)
      modifies `paused
      ensures View() == Step(config, old(View()), env, Call.SetPaused(value))
      ensures fault.None? <==> env.amount == 0 && env.sender == config.pauseController
    {
      if env.amount != 0 { return Some(NonzeroMutez); }
      if env.sender != config.pauseController { return Some(NotPauseController); }
      paused := value;
      return None;
    }

    method RevokeIssuer(env: Env, key: KeyId) returns (fault: Option<Fault>)
      modifies `policies
      ensures View() == Step(config, old(View()), env, Call.RevokeIssuer(key))
      ensures fault.None? <==> env.amount == 0 && env.sender == config.administrator && key in old(policies)
    {
      if env.amount != 0 { return Some(NonzeroMutez); }
      if env.sender != config.administrator { return Some(NotAdministrator); }
      if key !in policies { return Some(IssuerKey); }
      policies := policies[key := policies[key].(revoked := true)];
      return None;
    }
  }
}
