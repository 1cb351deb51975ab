/** Protocol fees: the treasury/bounty split, the two accumulators, and the
    time-locked treasury withdrawal. */
module Fees {
  import opened Prelude
  import opened Arith
  import opened Sums
  import opened Apportion
  import opened Splitting

  const MAX_FEE_SHARE_BPS: int := 10_000
  const TIMELOCK_SECONDS: int := 86_400

  /** The treasury part of a fee: `fee * share / 10_000` rounded half up. */
  function TreasuryPart(fee: int, share: int): int {
    if fee <= 0 then 0 else (2 * fee * Min(share, 10_000) + 10_000) / 20_000
  }

  function BountyPart(fee: int, share: int): int {
    Max(fee, 0) - TreasuryPart(fee, share)
  }

  lemma HalfUp(W: int, f: int, r: int, x: int)
    requires W > 0 && x == W * f + r && 0 <= r < W
    ensures (2 * x + W) / (2 * W) == if 2 * r >= W then f + 1 else f
  {
    DivUnique(2 * x + W, 2 * W, if 2 * r >= W then f + 1 else f);
  }

  lemma Complement(total: int, s: int, f0: int, r0: int, f1: int, r1: int)
    requires total * s == 10_000 * f0 + r0 && total * (10_000 - s) == 10_000 * f1 + r1
    requires 0 <= r0 < 10_000 && 0 <= r1 < 10_000
    ensures r0 == 0 ==> r1 == 0 && f0 + f1 == total
    ensures r0 > 0 ==> r1 == 10_000 - r0 && f0 + f1 == total - 1
  {
    assert total * (10_000 - s) == 10_000 * total - total * s;
  }

  lemma SumOfTwo(s: seq<int>)
    requires |s| == 2
    ensures Sum(s) == s[0] + s[1]
  {
    assert s[..1] == [] + [s[0]];
    SumAppend([], s[0]);
  }

  /** With two buckets the largest-remainder split is rounding half up, with the
      exact half going to the first bucket. */
  lemma TwoBuckets(total: int, s: int, parts: seq<int>)
    requires 0 < s < 10_000 && 0 < total
    requires Apportioned(total, [s, 10_000 - s], parts)
    ensures |parts| == 2
    ensures parts[0] == TreasuryPart(total, s) && parts[1] == BountyPart(total, s)
  {
    var ws := [s, 10_000 - s];
    SumOfTwo(ws);
    var f, r := Floors(total, ws), Claims(total, ws);
    ShareOf(total, ws, 0);
    ShareOf(total, ws, 1);
    Complement(total, s, f[0], r[0], f[1], r[1]);
    SumOfTwo(parts);
    HalfUp(10_000, f[0], r[0], total * s);
    assert 2 * total * s == 2 * (total * s);
    if r[0] > 0 {
      assert parts[0] == f[0] + 1 ==> Beats(r, 0, 1);
      assert parts[1] == f[1] + 1 ==> Beats(r, 1, 0);
    }
  }

  lemma TreasuryPartRange(fee: int, share: int)
    requires 0 <= share
    ensures 0 <= TreasuryPart(fee, share) <= Max(fee, 0)
    ensures share >= 10_000 ==> BountyPart(fee, share) == 0
    ensures share == 0 ==> TreasuryPart(fee, share) == 0
  {
    if fee > 0 {
      var s := Min(share, 10_000);
      MulMono(s, 10_000, 2 * fee);
      MulNonNeg(2 * fee, s);
      DivLower(2 * fee * s + 10_000, 20_000, 0);
      DivUnique(20_000 * fee + 10_000, 20_000, fee);
      DivMono(2 * fee * s + 10_000, 20_000 * fee + 10_000, 20_000);
      if s == 0 {
        assert 2 * fee * s == 0;
      }
    }
  }

  lemma Numerators(fee: int, fee': int, s: int, s': int)
    requires 0 <= fee <= fee' && 0 <= s <= s' <= 10_000
    ensures 2 * fee * s <= 2 * fee' * s'
    ensures 2 * fee' * s <= 2 * fee * s + 20_000 * (fee' - fee)
  {
    MulMono(2 * fee, 2 * fee', s);
    MulMono(s, s', 2 * fee');
    MulMono(s, 10_000, 2 * (fee' - fee));
    assert 2 * fee' * s == 2 * fee * s + 2 * (fee' - fee) * s;
  }

  /** Both accumulators are monotone in the fee, and raising the share never
      moves a unit away from the treasury. */
  lemma SplitIsMonotone(fee: int, fee': int, share: int, share': int)
    requires fee <= fee' && 0 <= share <= share'
    ensures TreasuryPart(fee, share) <= TreasuryPart(fee', share')
    ensures BountyPart(fee, share) <= BountyPart(fee', share)
    ensures BountyPart(fee, share') <= BountyPart(fee, share)
  {
    TreasuryPartRange(fee', share);
    TreasuryPartRange(fee', share');
    if fee > 0 {
      var s, s' := Min(share, 10_000), Min(share', 10_000);
      Numerators(fee, fee', s, s');
      DivMono(2 * fee * s + 10_000, 2 * fee' * s' + 10_000, 20_000);
      Numerators(fee, fee, s, s');
      DivMono(2 * fee * s + 10_000, 2 * fee * s' + 10_000, 20_000);
      var n := 2 * fee * s + 10_000;
      DivMono(2 * fee' * s + 10_000, n + 20_000 * (fee' - fee), 20_000);
      DivMod(n, 20_000);
      DivUnique(n + 20_000 * (fee' - fee), 20_000, n / 20_000 + (fee' - fee));
    }
  }

  /** `split_protocol_fee`: computed with `split_conserving`, equal to rounding
      half up for every fee and every share, with nothing lost. */
  method SplitProtocolFee(totalFee: int, treasuryShareBps: u32) returns (treasury: int, bounty: int)
    requires InI128(totalFee)
    ensures treasury == TreasuryPart(totalFee, treasuryShareBps)
    ensures bounty == BountyPart(totalFee, treasuryShareBps)
    ensures treasury + bounty == Max(totalFee, 0)
  {
    TreasuryPartRange(totalFee, treasuryShareBps);
    if totalFee <= 0 {
      return 0, 0;
    }
    if treasuryShareBps == 0 {
      return 0, totalFee;
    }
    if treasuryShareBps >= MAX_FEE_SHARE_BPS {
      return totalFee, 0;
    }
    var parts := SplitConserving(totalFee, [treasuryShareBps, MAX_FEE_SHARE_BPS - treasuryShareBps]);
    TwoBuckets(totalFee, treasuryShareBps, parts.value);
    return parts.value[0], parts.value[1];
  }

  // ---- The accumulators ---------------------------------------------------

  datatype Proposal = Proposal(amount: int, proposedAt: u64, executeAfter: u64)

  /** A treasury transfer that was made, with the proposal it consumed. */
  datatype Payout = Payout(proposal: Proposal, at: u64)

  /** `treasury` and `bounty` are the stored accumulators; `collected`, `payouts`
      and `bountyPaid` record the token transfers into and out of custody. */
  datatype Vault = Vault(
    treasury: int,
    bounty: int,
    pending: Option<Proposal>,
    collected: int,
    payouts: seq<Payout>,
    bountyPaid: int)

  const EMPTY_VAULT := Vault(0, 0, None, 0, [], 0)

  function PaidOut(payouts: seq<Payout>): int {
    if |payouts| == 0 then 0
    else PaidOut(payouts[..|payouts| - 1]) + payouts[|payouts| - 1].proposal.amount
  }

  /** Every token collected is in an accumulator or was paid out; a pending
      withdrawal is covered; no payout came before its time lock expired. */
  ghost predicate VaultSound(v: Vault) {
    && 0 <= v.treasury
    && 0 <= v.bounty
    && v.collected == v.treasury + v.bounty + PaidOut(v.payouts) + v.bountyPaid
    && (v.pending.Some? ==> 0 <= v.pending.value.amount <= v.treasury && Timelocked(v.pending.value))
    && (forall p :: p in v.payouts ==> Timelocked(p.proposal) && p.proposal.executeAfter <= p.at)
  }

  predicate Timelocked(p: Proposal) {
    p.executeAfter == Min(p.proposedAt + 86_400, U64_MAX)
  }

  /** `accrue_protocol_fee` for a fee just transferred into custody. */
  function AccrueFee(v: Vault, fee: int, share: u32): Result<Vault> {
    if fee <= 0 then Ok(v)
    else
      var t :- CheckedI128(v.treasury + TreasuryPart(fee, share));
      var b :- CheckedI128(v.bounty + BountyPart(fee, share));
      Ok(v.(treasury := t, bounty := b, collected := v.collected + fee))
  }

  function Propose(v: Vault, now: u64, hasTreasury: bool): Result<Vault> {
    if !hasTreasury then Err(TreasuryNotSet)
    else
      :- Need(v.pending.None?, TreasuryProposalExists);
      Ok(v.(pending := Some(Proposal(v.treasury, now, SatAdd64(now, TIMELOCK_SECONDS)))))
  }

  /** `custody` is the contract's own token balance: the transfer out fails when
      it is short, and the host then rolls the whole call back. */
  function Execute(v: Vault, now: u64, hasToken: bool, custody: int): Result<Vault> {
    if v.pending.None? then Err(NoPendingTreasuryWithdrawal)
    else
      var p := v.pending.value;
      :- Need(now >= p.executeAfter, TreasuryTimelockActive);
      :- Need(p.amount >= 0 && v.treasury - p.amount >= 0, InsufficientTreasuryBalance);
      :- Need(p.amount > 0 ==> hasToken, MissingLiquidityToken);
      :- Need(p.amount > 0 ==> p.amount <= custody, TokenTransferFailed);
      Ok(v.(treasury := v.treasury - p.amount, pending := None, payouts := v.payouts + [Payout(p, now)]))
  }

  function WithdrawBounty(v: Vault, hasBounty: bool, hasToken: bool, custody: int): Result<Vault> {
    if !hasBounty then Err(BountyNotSet)
    else if v.bounty == 0 then Ok(v)
    else if !hasToken then Err(MissingLiquidityToken)
    else if custody < v.bounty then Err(TokenTransferFailed)
    else Ok(v.(bounty := 0, bountyPaid := v.bountyPaid + v.bounty))
  }

  lemma AccrueFeeKeepsVault(v: Vault, fee: int, share: u32)
    requires VaultSound(v)
    ensures AccrueFee(v, fee, share).Ok? ==>
      var w := AccrueFee(v, fee, share).value;
      VaultSound(w) && w.collected == v.collected + Max(fee, 0)
  {
    TreasuryPartRange(fee, share);
  }

  /** What has left custody through the vault. */
  function Spent(v: Vault): int {
    PaidOut(v.payouts) + v.bountyPaid
  }

  lemma PaidOutMore(payouts: seq<Payout>, p: Payout)
    ensures PaidOut(payouts + [p]) == PaidOut(payouts) + p.proposal.amount
  {
    assert (payouts + [p])[..|payouts|] == payouts;
  }

  /** Every vault step keeps the vault sound. */
  lemma WithdrawalsKeepVault(v: Vault, now: u64, hasTreasury: bool, hasBounty: bool, hasToken: bool, custody: int)
    requires VaultSound(v)
    ensures Propose(v, now, hasTreasury).Ok? ==> VaultSound(Propose(v, now, hasTreasury).value)
    ensures Execute(v, now, hasToken, custody).Ok? ==> VaultSound(Execute(v, now, hasToken, custody).value)
    ensures WithdrawBounty(v, hasBounty, hasToken, custody).Ok?
      ==> VaultSound(WithdrawBounty(v, hasBounty, hasToken, custody).value)
  {
    if Execute(v, now, hasToken, custody).Ok? {
      PaidOutMore(v.payouts, Payout(v.pending.value, now));
    }
  }

  /** Exactly when each vault step succeeds, and what it leaves: a proposal is the
      accumulator as it stands, a withdrawal pays it in full and consumes it, a
      sweep pays the whole bounty. */
  lemma VaultStepsExactly(v: Vault, now: u64, hasTreasury: bool, hasBounty: bool, hasToken: bool, custody: nat)
    requires VaultSound(v)
    ensures Propose(v, now, hasTreasury)
         == if !hasTreasury then Err(TreasuryNotSet)
            else if v.pending.Some? then Err(TreasuryProposalExists)
            else Ok(v.(pending := Some(Proposal(v.treasury, now, Min(now + 86_400, U64_MAX)))))
    ensures Execute(v, now, hasToken, custody).Ok? <==>
      && v.pending.Some? && (v.pending.value.proposedAt + 86_400 <= now || now == U64_MAX)
      && (v.pending.value.amount == 0 || (hasToken && v.pending.value.amount <= custody))
    ensures Execute(v, now, hasToken, custody).Ok? ==>
      var w, p := Execute(v, now, hasToken, custody).value, v.pending.value;
      w == v.(treasury := v.treasury - p.amount, pending := None, payouts := v.payouts + [Payout(p, now)])
    ensures WithdrawBounty(v, hasBounty, hasToken, custody).Ok? <==>
      hasBounty && (v.bounty == 0 || (hasToken && v.bounty <= custody))
    ensures WithdrawBounty(v, hasBounty, hasToken, custody).Ok? ==>
      WithdrawBounty(v, hasBounty, hasToken, custody).value == v.(bounty := 0, bountyPaid := v.bountyPaid + v.bounty)
  {
  }

  /** In a sound vault the accumulator always covers a mature withdrawal, so it is
      refused exactly when the token balance behind the accumulators is short. */
  lemma MatureWithdrawalPaysIff(v: Vault, now: u64, custody: nat)
    requires VaultSound(v) && v.pending.Some? && v.pending.value.executeAfter <= now
    ensures Execute(v, now, true, custody).Ok? <==> v.pending.value.amount <= custody
    ensures v.treasury <= custody ==> Execute(v, now, true, custody).Ok?
  {
  }
}
