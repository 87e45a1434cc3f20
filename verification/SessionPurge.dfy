/** What a purge over all digest rows leaves behind: nothing whose key can no longer verify. */
module SessionPurge {
  import opened Basics
  import opened SessionSafety
  import opened SessionVault
  import opened SessionStore

  ghost predicate SlotUsable(v: Vault, k: DigestKey) {
    k.session in v.sessions && SlotCredential(v.sessions[k.session], k.slot).Some? ==>
      !KeyGone(v.ring, SlotCredential(v.sessions[k.session], k.slot).value, v.clock)
  }

  /** No slot of `w` holds anything the same slot of `v` did not, under the same keys at the same time. */
  ghost predicate NothingNew(v: Vault, w: Vault) {
    && w.ring == v.ring && w.clock == v.clock && w.players == v.players
    && forall id :: id in w.sessions ==> id in v.sessions && Shrunk(v.sessions[id], w.sessions[id])
  }

  predicate Shrunk(s: Session, t: Session) {
    && t.player == s.player && (t.current.Some? ==> t.current == s.current) && (t.predecessor.Some? ==> t.predecessor == s.predecessor)
  }

  ghost predicate Housed(v: Vault) {
    forall id :: id in v.sessions ==> v.sessions[id].player in v.players
  }

  lemma StepPurges(v: Vault, k: DigestKey)
    requires Housed(v)
    ensures var w := PurgeStep(v, k.session, k.slot); SlotUsable(w, k) && NothingNew(v, w) && Housed(w)
  {
    hide KeyGone, Bury;
  }

  lemma StaysUsable(v: Vault, w: Vault, k: DigestKey)
    requires SlotUsable(v, k) && NothingNew(v, w)
    ensures SlotUsable(w, k)
  {
    hide KeyGone;
  }

  lemma NewerStill(u: Vault, v: Vault, w: Vault)
    requires NothingNew(u, v) && NothingNew(v, w)
    ensures NothingNew(u, w)
  {
  }

  lemma {:induction false} PurgedSoFar(v: Vault, keys: seq<DigestKey>, i: nat)
    requires Housed(v) && i <= |keys|
    ensures var w := Run(v, Purges(keys[..i]));
      NothingNew(v, w) && Housed(w) && forall j :: 0 <= j < i ==> SlotUsable(w, keys[j])
    decreases i
  {
    if i == 0 {
      assert Purges(keys[..0]) == [];
    } else {
      hide Run, PurgeStep, SlotUsable, NothingNew, Housed, Purges, Changes;
      var before, after := Run(v, Purges(keys[..i - 1])), Run(v, Purges(keys[..i]));
      PurgedSoFar(v, keys, i - 1);
      PurgesNext(v, keys, i - 1);
      StepPurges(before, keys[i - 1]);
      NewerStill(v, before, after);
      forall j | 0 <= j < i ensures SlotUsable(after, keys[j]) {
        if j < i - 1 { StaysUsable(before, after, keys[j]); }
      }
    }
  }

  /**
   * A purge that reaches the end of the rows leaves no digest whose key is gone, and whatever is still there was there
   * before.
   */
  lemma PurgeIsComplete(v: Vault, order: seq<DigestKey>, k: DigestKey)
    requires Safe(v)
    requires k.session in v.sessions && SlotCredential(v.sessions[k.session], k.slot).Some? ==> k in order
    ensures SlotUsable(Run(v, Purges(order)), k) && NothingNew(v, Run(v, Purges(order)))
  {
    assert order[..|order|] == order;
    assert Housed(v);
    PurgedSoFar(v, order, |order|);
    hide Run, Purges, KeyGone, Safe, Housed;
    if k !in order { StaysUsable(v, Run(v, Purges(order)), k); }
  }
}
