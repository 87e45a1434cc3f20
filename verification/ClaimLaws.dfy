/** What a claim rules out for good: a second player for its wallet, a second claim under its names, a second use of what it spent. */
module ClaimLaws {
  import opened Basics
  import opened ClaimRows
  import opened ClaimSafety
  import opened ClaimOutcomes

  // ---------------------------------------------------------------- wallets

  /** The wallet's row of `s` is in `u` as it was. */
  predicate WalletStays(s: State, u: State, wallet: Wallet) {
    wallet in s.wallets ==> wallet in u.wallets && u.wallets[wallet] == s.wallets[wallet]
  }

  lemma ClaimLinks(s: State, c: ClaimInput)
    requires c.create && ClaimStep(s, c).Success?
    ensures c.wallet !in s.wallets
    ensures var w := ClaimStep(s, c).value;
      c.wallet in w.wallets && w.wallets[c.wallet] == WalletRow(c.credential, c.newPlayer, c.proofKey, c.claim) && c.newPlayer in w.players
  {
    ClaimExactly(s, c, ClaimStep(s, c).value);
    hide ClaimStep, MovesRows, ClosesChallenges, Buries, Mergeable, Called, Challenged, GuestReady, KeysFree, HistoriesApart;
  }

  lemma ExecKeepsWallet(s: State, op: Op, wallet: Wallet)
    requires wallet in s.wallets
    requires op.Serve? ==> wallet in op.wallets && op.wallets[wallet] == s.wallets[wallet]
    ensures WalletStays(s, Exec(s, op), wallet)
  {
    if op.Claim? && ClaimStep(s, op.input).Success? {
      ClaimExactly(s, op.input, ClaimStep(s, op.input).value);
      hide MovesRows, ClosesChallenges, Buries, Mergeable, Called, Challenged, GuestReady, KeysFree, HistoriesApart;
    }
    hide ClaimStep, Entomb, Presentable;
  }

  /** No one else takes the wallet's row away: the rest of the service leaves it, and claims never touch it. */
  ghost predicate Unserved(s: State, ops: seq<Op>, wallet: Wallet) {
    forall i | 0 <= i < |ops| && ops[i].Serve? && wallet in s.wallets ::
      wallet in ops[i].wallets && ops[i].wallets[wallet] == s.wallets[wallet]
  }

  lemma {:induction false} RunKeepsWallet(s: State, ops: seq<Op>, wallet: Wallet)
    requires wallet in s.wallets && Unserved(s, ops, wallet)
    ensures WalletStays(s, Run(s, ops), wallet)
  {
    if ops != [] {
      var init := ops[..|ops| - 1];
      assert Unserved(s, init, wallet);
      RunKeepsWallet(s, init, wallet);
      ExecKeepsWallet(Run(s, init), ops[|ops| - 1], wallet);
      hide Exec;
    }
  }

  /**
   * One wallet, one player: after a claim that made its player, and for as long as the wallet's row is not taken away,
   * no claim makes another player for that wallet or reuses the claim's name, and a claim into that player with the same
   * wallet and proof key finds its wallet in order.
   */
  lemma OnePlayerPerWallet(s: State, c: ClaimInput, ops: seq<Op>, d: ClaimInput)
    requires c.create && ClaimStep(s, c).Success? && Unserved(ClaimStep(s, c).value, ops, c.wallet)
    ensures var u := Run(ClaimStep(s, c).value, ops);
      && (d.create && d.wallet == c.wallet ==> ClaimStep(u, d).Failure?)
      && (d.claim == c.claim ==> ClaimStep(u, d).Failure?)
      && (!d.create && d.target == c.newPlayer && d.wallet == c.wallet ==> (WalletFits(u, d) <==> d.proofKey == c.proofKey))
      && (!d.create && d.target != c.newPlayer && d.wallet == c.wallet ==> ClaimStep(u, d).Failure?)
  {
    var w := ClaimStep(s, c).value;
    var u := Run(w, ops);
    ClaimLinks(s, c);
    RunKeepsWallet(w, ops, c.wallet);
    SucceedsExactly(u, d);
    hide Run, ClaimStep, Mergeable, Called, GuestReady, KeysFree, HistoriesApart, Unserved, Standing;
  }

  // ---------------------------------------------------------------- what was spent

  /** A tombstone for `r` stands until `until` at least. */
  predicate Interred(s: State, r: Replay, until: int) {
    s.now < until ==> r in s.tombstones && s.tombstones[r] >= until
  }

  lemma ExecKeepsInterred(s: State, op: Op, r: Replay, until: int)
    requires Interred(s, r, until)
    ensures Interred(Exec(s, op), r, until) && s.now <= Exec(s, op).now
  {
    if op.Claim? && ClaimStep(s, op.input).Success? {
      ClaimTombstones(s, op.input, r);
    } else if op.Consume? || op.Remove? {
      if op.id in s.challenges { EntombKeeps(s.tombstones, ChallengeReplays(s.challenges[op.id]), s.now, r); }
    }
    hide Entomb, ClaimStep, Presentable;
  }

  lemma {:induction false} RunKeepsInterred(s: State, ops: seq<Op>, r: Replay, until: int)
    requires Interred(s, r, until)
    ensures Interred(Run(s, ops), r, until) && s.now <= Run(s, ops).now
  {
    if ops != [] {
      RunKeepsInterred(s, ops[..|ops| - 1], r, until);
      ExecKeepsInterred(Run(s, ops[..|ops| - 1]), ops[|ops| - 1], r, until);
      hide Exec, Interred;
    }
  }

  lemma ClaimInters(s: State, c: ClaimInput, r: Replay)
    requires ClaimStep(s, c).Success? && Spent(s, c, r)
    ensures var w := ClaimStep(s, c).value; w.now == s.now && Interred(w, r, s.now + MONTH_MS)
  {
    ClaimExactly(s, c, ClaimStep(s, c).value);
    hide ClaimStep, Succeeds, MovesRows, ClosesChallenges, Spent, Mergeable;
  }

  /** For thirty days after a claim, whatever runs, everything it spent is still buried. */
  lemma SpentStaysBuried(s: State, c: ClaimInput, ops: seq<Op>, r: Replay)
    requires ClaimStep(s, c).Success? && Spent(s, c, r) && Run(ClaimStep(s, c).value, ops).now < s.now + MONTH_MS
    ensures Standing(Run(ClaimStep(s, c).value, ops), r)
  {
    ClaimInters(s, c, r);
    RunKeepsInterred(ClaimStep(s, c).value, ops, r, s.now + MONTH_MS);
    hide ClaimStep, Spent, Run;
  }

  /**
   * So in that time no other claim succeeds with its name, its idempotency key, any challenge the guest had open, or a
   * capability digest the guest held.
   */
  lemma NothingClaimedTwice(s: State, c: ClaimInput, ops: seq<Op>, d: ClaimInput)
    requires ClaimStep(s, c).Success? && Run(ClaimStep(s, c).value, ops).now < s.now + MONTH_MS
    requires d.claim == c.claim || d.key == c.key || Spent(s, c, ChallengeReplay(d.hash))
      || (d.capability.Some? && Spent(s, c, CapabilityReplay(d.capability.value)))
    ensures ClaimStep(Run(ClaimStep(s, c).value, ops), d).Failure?
  {
    var u := Run(ClaimStep(s, c).value, ops);
    var r := if d.claim == c.claim then ClaimReplay(d.claim) else if d.key == c.key then KeyReplay(d.key)
      else if Spent(s, c, ChallengeReplay(d.hash)) then ChallengeReplay(d.hash) else CapabilityReplay(d.capability.value);
    assert Spent(s, c, r);
    SpentStaysBuried(s, c, ops, r);
    SucceedsExactly(u, d);
    hide Run, ClaimStep, Spent, Standing, Mergeable, Called, PlayerReady, KeysFree, HistoriesApart;
  }
}
