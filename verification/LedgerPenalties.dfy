/** What a late borrower pays, from the stored schedule and the configuration: a
    surcharge on interest, or a fee per installment. */
module LedgerPenalties {
  import opened Prelude
  import opened Accrual
  import opened Ledger
  import opened LedgerLoops

  /** The next installment of `b` is unpaid strictly after its date and the grace. */
  predicate Overdue(s: State, cfg: Config, b: Address, now: u64) {
    b in s.schedules && s.schedules[b].nextDue + (if cfg.grace.Some? then cfg.grace.value.seconds else 0) < now
  }

  /** The configured surcharge: that of a rate-based late fee, none under a flat one,
      and the legacy surcharge without either. */
  predicate SurchargeIs(cfg: Config, surcharge: Bps) {
    || cfg.lateFee == Some(AprBased(surcharge))
    || (cfg.lateFee.Some? && cfg.lateFee.value.Flat? && surcharge == 0)
    || (cfg.lateFee.None? && cfg.legacySurcharge == surcharge)
  }

  /** The configured fee per late installment: that of a flat late fee, none under a
      rate-based one, and the legacy fee without either. */
  predicate FeeIs(cfg: Config, fee: nat) {
    || cfg.lateFee == Some(Flat(fee))
    || (cfg.lateFee.Some? && cfg.lateFee.value.AprBased? && fee == 0)
    || (cfg.lateFee.None? && cfg.legacyFlat == fee)
  }

  lemma PenaltiesOf(cfg: Config, surcharge: Bps, fee: nat)
    ensures SurchargeIs(cfg, surcharge) <==> Surcharge(cfg) == surcharge
    ensures FeeIs(cfg, fee) <==> FeePerInstallment(cfg) == fee
  {
  }

  /** A debt with a repayment schedule is delinquent exactly while it is overdue. */
  lemma DelinquentIffOverdue(s: State, cfg: Config, b: Address, now: u64)
    requires b in s.book.lines && s.book.lines[b].status != Closed && 0 < s.book.lines[b].utilized
    ensures EnvFor(s, cfg, b, now).delinquent <==> Overdue(s, cfg, b, now)
  {
  }

  /** `charged` is the floor of what `debt` costs at `rate` over `secs`. */
  predicate IsCharge(charged: int, debt: int, rate: int, secs: int) {
    0 <= charged && BPS_YEAR * charged <= debt * rate * secs < BPS_YEAR * charged + BPS_YEAR
  }

  lemma CapitalizedCharge(line: Line, env: Env, cur: Line)
    requires Accrue(line, env) == Ok(cur) && 0 < line.utilized && line.lastAccrual < env.now
    requires Interest(line, env).Ok? && 0 <= Interest(line, env).value
    ensures cur.utilized - line.utilized == Interest(line, env).value
  {
  }

  /** Every call that accrues a line which is neither suspended nor closed charges
      its own rate, plus the configured surcharge if and only if it is overdue. */
  lemma PenaltyIsCharged(s: State, cfg: Config, b: Address, now: u64, surcharge: Bps, cur: Line)
    requires Current(s, cfg, b, now) == Ok(cur) && SurchargeIs(cfg, surcharge)
    requires var line := s.book.lines[b]; 0 < line.utilized && line.lastAccrual < now
    requires var line := s.book.lines[b]; line.status == Active || line.status == Restricted || line.status == Defaulted
    ensures var line := s.book.lines[b];
      var rate := Min(line.rate + if Overdue(s, cfg, b, now) then surcharge else 0, 10_000);
      IsCharge(cur.utilized - line.utilized, line.utilized, rate, now - line.lastAccrual)
  {
    var line, env := s.book.lines[b], EnvFor(s, cfg, b, now);
    PenaltiesOf(cfg, surcharge, 0);
    DelinquentIffOverdue(s, cfg, b, now);
    PlainCharge(line, env);
    CapitalizedCharge(line, env, cur);
  }

  /** The accrual batch does so for every active borrower it lists. */
  lemma BatchChargesPenalty(s: State, cfg: Config, bs: seq<Address>, b: Address, now: u64, surcharge: Bps, q: State)
    requires Step(s, Call(AccrueBatch(bs), now, cfg)) == Ok(q) && SurchargeIs(cfg, surcharge)
    requires b in bs && b in s.book.lines && s.book.lines[b].status == Active
    requires 0 < s.book.lines[b].utilized && s.book.lines[b].lastAccrual < now
    ensures b in q.book.lines
    ensures var line := s.book.lines[b];
      var rate := Min(line.rate + if Overdue(s, cfg, b, now) then surcharge else 0, 10_000);
      IsCharge(q.book.lines[b].utilized - line.utilized, line.utilized, rate, now - line.lastAccrual)
  {
    AccrueEachAt(s, cfg, ActiveOnly, bs, now, b);
    PenaltyIsCharged(s, cfg, b, now, surcharge, q.book.lines[b]);
  }
}
