/** Credit lines and interest: `checked_prorate_interest`, the rate branches of
    `apply_accrual`, and how floor rounding behaves over whole runs. */
module Accrual {
  import opened Prelude
  import opened Arith

  const MAX_INTEREST_RATE_BPS: int := 10_000

  /** 10_000 basis points times the 31_557_600 seconds of a Julian year. */
  const BPS_YEAR: int := 315_576_000_000

  type Bps = x: int | 0 <= x <= 10_000

  datatype Status = Active | Suspended | Defaulted | Closed | Restricted | SelfSuspended

  datatype Line = Line(
    limit: int,
    utilized: int,
    rate: Bps,
    riskScore: u32,
    status: Status,
    lastRateUpdate: u64,
    accrued: int,
    lastAccrual: u64,
    suspendedAt: u64)

  datatype Schedule = Schedule(amountPerPeriod: int, period: u64, nextDue: u64)

  datatype WaiverMode = FullWaiver | ReducedRate
  datatype Grace = Grace(seconds: u64, mode: WaiverMode, reducedRate: Bps)
  datatype LateFee = Flat(amount: nat) | AprBased(surcharge: Bps)

  /** What `apply_accrual` reads besides the line. */
  datatype Env = Env(now: u64, delinquent: bool, surcharge: Bps, grace: Option<Grace>)

  // ---- Prorated interest --------------------------------------------------

  /** `checked_prorate_interest` with floor rounding, on a `u128` principal. */
  function Prorate(principal: int, rate: Bps, secs: u64): Result<int> {
    if principal == 0 || rate == 0 || secs == 0 then Ok(0)
    else if principal * rate > U128_MAX then Err(Overflow)
    else if principal * rate * secs > U128_MAX then Err(Overflow)
    else Ok(principal * rate * secs / BPS_YEAR)
  }

  /** Floor interest, without a bound on the inputs. */
  lemma ProrateIsFloor(p: int, rate: Bps, secs: u64)
    requires 0 <= p && Prorate(p, rate, secs).Ok?
    ensures var i := Prorate(p, rate, secs).value;
      0 <= i && BPS_YEAR * i <= p * rate * secs < BPS_YEAR * i + BPS_YEAR
  {
    MulNonNeg(p, rate);
    MulNonNeg(p * rate, secs);
    DivMod(p * rate * secs, BPS_YEAR);
    DivNonNeg(p * rate * secs, BPS_YEAR);
    if p == 0 || rate == 0 {
      assert p * rate == 0;
    }
  }

  lemma TripleMono(p: int, r: int, t: int, p': int, r': int, t': int)
    requires 0 <= p <= p' && 0 <= r <= r' && 0 <= t <= t'
    ensures 0 <= p * r <= p' * r' && 0 <= p * r * t <= p' * r' * t'
  {
    MulMono(p, p', r);
    MulMono(r, r', p');
    MulNonNeg(p, r);
    MulMono(p * r, p' * r', t);
    MulMono(t, t', p' * r');
    MulNonNeg(p * r, t);
  }

  /** Monotone in every argument, and overflowing upward-closed: no bound on the
      envelope is needed. */
  lemma ProrateIsMonotone(p: int, r: Bps, t: u64, p': int, r': Bps, t': u64)
    requires 0 <= p <= p' && r <= r' && t <= t'
    requires Prorate(p', r', t').Ok?
    ensures Prorate(p, r, t).Ok? && Prorate(p, r, t).value <= Prorate(p', r', t').value
  {
    TripleMono(p, r, t, p', r', t');
    ProrateIsFloor(p', r', t');
    if p != 0 && r != 0 && t != 0 {
      DivMono(p * r * t, p' * r' * t', BPS_YEAR);
    }
  }

  /** An interest is refused exactly when the exact product exceeds `u128`. */
  lemma ProrateFitsIff(p: int, rate: Bps, secs: u64)
    requires 0 <= p
    ensures Prorate(p, rate, secs).Ok? <==> p * rate * secs <= U128_MAX
  {
    MulNonNeg(p, rate);
    if p == 0 || rate == 0 {
      assert p * rate == 0;
    } else if 0 < secs {
      MulMono(1, secs, p * rate);
    }
  }

  /** A year of 365.25 days at 100 % doubles a debt. */
  lemma YearAtFullRate(p: int)
    requires 0 <= p && p * 10_000 * 31_557_600 <= U128_MAX
    ensures Prorate(p, 10_000, 31_557_600) == Ok(p)
  {
    DivUnique(p * 10_000 * 31_557_600, BPS_YEAR, p);
  }

  // ---- Rates --------------------------------------------------------------

  /** Base rate, plus the surcharge capped at 100 % while delinquent. */
  function EffectiveRate(rate: Bps, env: Env): Bps {
    if env.delinquent && env.surcharge > 0 then Min(rate + env.surcharge, MAX_INTEREST_RATE_BPS)
    else rate
  }

  predicate IsSuspended(line: Line) {
    line.status == Suspended || line.status == SelfSuspended
  }

  predicate HasGraceWindow(line: Line, env: Env) {
    IsSuspended(line) && env.grace.Some? && env.grace.value.seconds > 0
  }

  function GraceEnd(line: Line, env: Env): u64
    requires HasGraceWindow(line, env)
  {
    SatAdd64(line.suspendedAt, env.grace.value.seconds)
  }

  function GraceRate(env: Env): Bps
    requires env.grace.Some?
  {
    if env.grace.value.mode.FullWaiver? then 0 else env.grace.value.reducedRate
  }

  /** The interest of one accrual, branch by branch.  In the straddling branch
      the waived amount is priced too, so its overflow also reverts. */
  function Interest(line: Line, env: Env): Result<int>
    requires line.lastAccrual < env.now
  {
    var p, eff := AsU128(line.utilized), EffectiveRate(line.rate, env);
    if HasGraceWindow(line, env) then
      var end := GraceEnd(line, env);
      if env.now <= end then
        Prorate(p, GraceRate(env), env.now - line.lastAccrual)
      else if line.lastAccrual >= end then
        Prorate(p, eff, env.now - line.lastAccrual)
      else
        var inWindow :- Prorate(p, GraceRate(env), end - line.lastAccrual);
        var fullRate :- Prorate(p, eff, end - line.lastAccrual);
        var postWindow :- Prorate(p, eff, env.now - end);
        :- Need(inWindow + postWindow <= U128_MAX, Overflow);
        Ok(inWindow + postWindow)
    else
      Prorate(p, eff, env.now - line.lastAccrual)
  }

  /** `apply_accrual` on a line that accrues `interest` at `now`. */
  function Capitalize(line: Line, interest: int, now: u64): Result<Line> {
    if interest > I128_MAX then Err(Overflow)
    else if interest <= 0 then Ok(line)
    else
      var utilized :- CheckedI128(line.utilized + interest);
      var accrued :- CheckedI128(line.accrued + interest);
      Ok(line.(utilized := utilized, accrued := accrued, lastAccrual := now))
  }

  function Accrue(line: Line, env: Env): Result<Line> {
    if env.now <= line.lastAccrual then Ok(line)
    else if line.utilized == 0 then Ok(line.(lastAccrual := env.now))
    else
      var interest :- Interest(line, env);
      Capitalize(line, interest, env.now)
  }

  /** The rate branches of `apply_accrual`. */
  method PriceInterest(line: Line, env: Env) returns (accrued: Result<int>)
    requires line.lastAccrual < env.now
    ensures accrued == Interest(line, env)
  {
    var start := line.lastAccrual;
    var principal := AsU128(line.utilized);
    var effective := line.rate;
    if env.delinquent && env.surcharge > 0 {
      effective := Min(line.rate + env.surcharge, MAX_INTEREST_RATE_BPS);
    }
    if IsSuspended(line) && env.grace.Some? && env.grace.value.seconds > 0 {
      var graceEnd := SatAdd64(line.suspendedAt, env.grace.value.seconds);
      var reduced := if env.grace.value.mode.FullWaiver? then 0 else env.grace.value.reducedRate;
      if env.now <= graceEnd {
        accrued := Prorate(principal, reduced, env.now - start);
      } else if start >= graceEnd {
        accrued := Prorate(principal, effective, env.now - start);
      } else {
        var inWindow :- Prorate(principal, reduced, graceEnd - start);
        var fullRate :- Prorate(principal, effective, graceEnd - start);
        var postWindow :- Prorate(principal, effective, env.now - graceEnd);
        if inWindow + postWindow > U128_MAX {
          return Err(Overflow);
        }
        accrued := Ok(inWindow + postWindow);
      }
    } else {
      accrued := Prorate(principal, effective, env.now - start);
    }
  }

  /** `apply_accrual` as written: a mutable copy of the line, updated in place. */
  method ApplyAccrual(stored: Line, env: Env) returns (r: Result<Line>)
    ensures r == Accrue(stored, env)
  {
    var line := stored;
    if env.now <= line.lastAccrual {
      return Ok(line);
    }
    if line.utilized == 0 {
      line := line.(lastAccrual := env.now);
      return Ok(line);
    }
    var accrued :- PriceInterest(line, env);
    if accrued > I128_MAX {
      return Err(Overflow);
    }
    if accrued > 0 {
      if !InI128(line.utilized + accrued) || !InI128(line.accrued + accrued) {
        return Err(Overflow);
      }
      line := line.(utilized := line.utilized + accrued);
      line := line.(accrued := line.accrued + accrued);
      line := line.(lastAccrual := env.now);
    }
    return Ok(line);
  }

  /** `line` is `was` with some interest added to both debt fields. */
  predicate Grown(was: Line, line: Line) {
    && was.utilized <= line.utilized
    && line.utilized - was.utilized == line.accrued - was.accrued
    && line == was.(utilized := line.utilized, accrued := line.accrued, lastAccrual := line.lastAccrual)
    && (line.utilized != was.utilized ==> InI128(line.utilized) && InI128(line.accrued))
  }

  /** Interest only ever adds the same amount to both debt fields; without debt
      it adds nothing, and when it adds nothing the time stays pending. */
  lemma AccrueGrows(line: Line, env: Env)
    requires Accrue(line, env).Ok?
    ensures Grown(line, Accrue(line, env).value)
    ensures line.utilized == 0 ==> Accrue(line, env).value == line.(lastAccrual := Max(line.lastAccrual, env.now))
    ensures Accrue(line, env).value.utilized == line.utilized != 0 ==> Accrue(line, env).value == line
  {
  }

  // ---- The grace branches as one rate function ----------------------------

  /** The rate charged for second `t`: inside the waiver of a suspended line what
      the waiver says, and otherwise its own rate, plus the surcharge while
      delinquent, up to 100 %. */
  function RateAt(line: Line, env: Env, t: int): Bps {
    if (line.status == Suspended || line.status == SelfSuspended)
       && env.grace.Some? && 0 < env.grace.value.seconds && t < line.suspendedAt + env.grace.value.seconds
    then (match env.grace.value.mode case FullWaiver => 0 case ReducedRate => env.grace.value.reducedRate)
    else Min(line.rate + if env.delinquent then env.surcharge else 0, 10_000)
  }

  /** The branch conditions of the code, second by second. */
  lemma RateAtBranches(line: Line, env: Env, t: int)
    requires t < U64_MAX
    ensures RateAt(line, env, t)
         == if HasGraceWindow(line, env) && t < GraceEnd(line, env) then GraceRate(env) else EffectiveRate(line.rate, env)
  {
  }

  /** The per-second rates summed over `[from, upTo)`. */
  function RateSum(line: Line, env: Env, from: int, upTo: int): int
    decreases upTo - from
  {
    if upTo <= from then 0 else RateSum(line, env, from, upTo - 1) + RateAt(line, env, upTo - 1)
  }

  /** The seconds of `[from, upTo)` inside and after the grace window. */
  function InWindow(line: Line, env: Env, from: int, upTo: int): int {
    if HasGraceWindow(line, env) then Max(Min(upTo, GraceEnd(line, env)) - from, 0) else 0
  }

  lemma OneSecondMore(g: int, e: int, inside: int, after: int)
    ensures g * (inside + 1) == g * inside + g
    ensures e * (after + 1) == e * after + e
  {
  }

  lemma RateSumClosed(line: Line, env: Env, from: int, upTo: int)
    requires from <= upTo <= U64_MAX
    ensures 0 <= InWindow(line, env, from, upTo) <= upTo - from
    ensures RateSum(line, env, from, upTo)
         == (if HasGraceWindow(line, env) then GraceRate(env) else 0) * InWindow(line, env, from, upTo)
            + EffectiveRate(line.rate, env) * (upTo - from - InWindow(line, env, from, upTo))
    decreases upTo - from
  {
    if from < upTo {
      RateSumClosed(line, env, from, upTo - 1);
      RateAtBranches(line, env, upTo - 1);
      var g := if HasGraceWindow(line, env) then GraceRate(env) else 0;
      var e := EffectiveRate(line.rate, env);
      var w, w' := InWindow(line, env, from, upTo - 1), InWindow(line, env, from, upTo);
      assert w' == w + 1 || w' == w;
      OneSecondMore(g, e, w, upTo - 1 - from - w);
    }
  }

  /** Both sub-periods of `Interest` in one form. */
  lemma InterestPieces(line: Line, env: Env)
    requires line.lastAccrual < env.now && 0 < line.utilized && Interest(line, env).Ok?
    ensures var w := InWindow(line, env, line.lastAccrual, env.now);
      var g: Bps := if HasGraceWindow(line, env) then GraceRate(env) else 0;
      var a, b := Prorate(line.utilized, g, w), Prorate(line.utilized, EffectiveRate(line.rate, env), env.now - line.lastAccrual - w);
      && 0 <= w <= env.now - line.lastAccrual
      && a.Ok? && b.Ok? && Interest(line, env).value == a.value + b.value
  {
  }

  /** The branches refine the per-second rate: the charge is the floor of the
      exact integral or one unit less, never above it. */
  lemma GraceRefinesRate(line: Line, env: Env)
    requires line.lastAccrual < env.now && 0 < line.utilized
    ensures Interest(line, env).Ok? ==>
      var exact := line.utilized * RateSum(line, env, line.lastAccrual, env.now);
      && exact / BPS_YEAR - 1 <= Interest(line, env).value <= exact / BPS_YEAR
      && (line.status != Suspended && line.status != SelfSuspended ==> Interest(line, env).value == exact / BPS_YEAR)
  {
    if Interest(line, env).Ok? {
      var w := InWindow(line, env, line.lastAccrual, env.now);
      var g: Bps := if HasGraceWindow(line, env) then GraceRate(env) else 0;
      var p, e, rest := line.utilized, EffectiveRate(line.rate, env), env.now - line.lastAccrual - w;
      InterestPieces(line, env);
      RateSumClosed(line, env, line.lastAccrual, env.now);
      SplitIntegral(p, g, w, e, rest);
      ProrateIsFloor(p, g, w);
      ProrateIsFloor(p, e, rest);
      TwoFloors(p * g * w, p * e * rest, Prorate(p, g, w).value, Prorate(p, e, rest).value, BPS_YEAR);
    }
  }

  /** Outside a suspension: the charge is the floor of the debt at the line's own
      rate plus the surcharge while delinquent, up to 100 %, over the time elapsed,
      and it is refused exactly when the product exceeds `u128`. */
  lemma PlainCharge(line: Line, env: Env)
    requires line.lastAccrual < env.now && 0 <= line.utilized && line.status != Suspended && line.status != SelfSuspended
    ensures var product := line.utilized * Min(line.rate + if env.delinquent then env.surcharge else 0, 10_000)
                           * (env.now - line.lastAccrual);
      && (Interest(line, env).Ok? <==> product <= U128_MAX)
      && (Interest(line, env).Ok? ==>
            var i := Interest(line, env).value; 0 <= i && BPS_YEAR * i <= product < BPS_YEAR * i + BPS_YEAR)
  {
    var rate := Min(line.rate + if env.delinquent then env.surcharge else 0, 10_000);
    ProrateFitsIff(line.utilized, rate, env.now - line.lastAccrual);
    if Interest(line, env).Ok? {
      ProrateIsFloor(line.utilized, rate, env.now - line.lastAccrual);
    }
  }

  lemma SplitIntegral(p: int, g: int, w: int, e: int, rest: int)
    ensures p * (g * w + e * rest) == p * g * w + p * e * rest
  {
  }

  lemma TwoFloors(x: int, y: int, a: int, b: int, d: int)
    requires d > 0 && d * a <= x < d * a + d && d * b <= y < d * b + d
    ensures (x + y) / d - 1 <= a + b <= (x + y) / d
    ensures x == 0 && a == 0 ==> a + b == (x + y) / d
  {
    DivUnique(x, d, a);
    DivUnique(y, d, b);
    DivAdd(x, y, d);
    if x == 0 && a == 0 {
      DivUnique(y, d, b);
    }
  }

  /** A later accrual, or one at a higher effective rate (a surcharge setting in),
      never charges less, across both branch boundaries. */
  lemma InterestIsMonotone(line: Line, env: Env, later: Env)
    requires line.lastAccrual < env.now <= later.now && 0 < line.utilized
    requires env.grace == later.grace
    requires EffectiveRate(line.rate, env) <= EffectiveRate(line.rate, later)
    requires Interest(line, env).Ok? && Interest(line, later).Ok?
    ensures Interest(line, env).value <= Interest(line, later).value
  {
    var start := line.lastAccrual;
    InterestPieces(line, env);
    InterestPieces(line, later);
    var g: Bps := if HasGraceWindow(line, env) then GraceRate(env) else 0;
    var w, w' := InWindow(line, env, start, env.now), InWindow(line, later, start, later.now);
    ProrateIsMonotone(line.utilized, g, w, line.utilized, g, w');
    ProrateIsMonotone(line.utilized, EffectiveRate(line.rate, env), env.now - start - w,
                      line.utilized, EffectiveRate(line.rate, later), later.now - start - w');
  }

  lemma RateSumBound(line: Line, env: Env, from: int, upTo: int)
    requires from <= upTo <= U64_MAX
    requires HasGraceWindow(line, env) ==> GraceRate(env) <= EffectiveRate(line.rate, env)
    ensures 0 <= RateSum(line, env, from, upTo) <= EffectiveRate(line.rate, env) * (upTo - from)
    decreases upTo - from
  {
    if from < upTo {
      RateSumBound(line, env, from, upTo - 1);
      RateAtBranches(line, env, upTo - 1);
      var e := EffectiveRate(line.rate, env);
      assert e * (upTo - from) == e * (upTo - 1 - from) + e;
    }
  }

  lemma TripleAssoc(p: int, e: int, t: int, x: int)
    requires 0 <= p && x <= e * t
    ensures p * x <= p * e * t
  {
    MulMono(x, e * t, p);
    assert p * (e * t) == p * e * t;
  }

  /** The waiver never costs the borrower anything when it lowers the rate. */
  lemma GraceNeverExceedsFullRate(line: Line, env: Env)
    requires line.lastAccrual < env.now && 0 < line.utilized && Interest(line, env).Ok?
    requires HasGraceWindow(line, env) ==> GraceRate(env) <= EffectiveRate(line.rate, env)
    ensures Interest(line, env).value
         <= line.utilized * EffectiveRate(line.rate, env) * (env.now - line.lastAccrual) / BPS_YEAR
  {
    var e, span := EffectiveRate(line.rate, env), env.now - line.lastAccrual;
    var x := RateSum(line, env, line.lastAccrual, env.now);
    RateSumBound(line, env, line.lastAccrual, env.now);
    TripleAssoc(line.utilized, e, span, x);
    GraceRefinesRate(line, env);
    DivMono(line.utilized * x, line.utilized * e * span, BPS_YEAR);
  }

  // ---- Runs of accrual calls ----------------------------------------------

  /** A run of `apply_accrual` calls. */
  function Poll(line: Line, envs: seq<Env>): Result<Line> {
    if |envs| == 0 then Ok(line)
    else
      var before :- Poll(line, envs[..|envs| - 1]);
      Accrue(before, envs[|envs| - 1])
  }

  /** How many calls of the run credited interest. */
  function Credits(line: Line, envs: seq<Env>): nat {
    if |envs| == 0 then 0
    else
      var init, env := envs[..|envs| - 1], envs[|envs| - 1];
      var before, after := Poll(line, init), Poll(line, envs);
      Credits(line, init) + if before.Ok? && after.Ok? && after.value.utilized != before.value.utilized then 1 else 0
  }

  /** Exact compounding over the crediting times, in units of `BPS_YEAR` to the
      number of credits: the product of `BPS_YEAR + rate * elapsed`. */
  function Growth(line: Line, envs: seq<Env>, rate: Bps): int {
    if |envs| == 0 then 1
    else
      var init, env := envs[..|envs| - 1], envs[|envs| - 1];
      var before, after := Poll(line, init), Poll(line, envs);
      Growth(line, init, rate)
      * if before.Ok? && after.Ok? && after.value.utilized != before.value.utilized
        then BPS_YEAR + rate * (env.now - before.value.lastAccrual) else 1
  }

  function Pow(b: int, n: nat): int {
    if n == 0 then 1 else b * Pow(b, n - 1)
  }

  /** The run is in time order and always charged at the same rate, on a line
      without a grace window. */
  ghost predicate FixedRate(line: Line, envs: seq<Env>, rate: Bps) {
    && !IsSuspended(line)
    && (forall i :: 0 <= i < |envs| ==> EffectiveRate(line.rate, envs[i]) == rate)
    && (forall i, j :: 0 <= i < j < |envs| ==> envs[i].now <= envs[j].now)
  }

  function LastTime(line: Line, envs: seq<Env>): int {
    if |envs| == 0 then line.lastAccrual else envs[|envs| - 1].now
  }

  lemma FixedRateStep(line: Line, before: Line, env: Env, rate: Bps)
    requires !IsSuspended(line) && before.status == line.status && before.rate == line.rate
    requires EffectiveRate(line.rate, env) == rate && 0 <= before.utilized
    requires Accrue(before, env).Ok?
    ensures var after := Accrue(before, env).value; var dt := env.now - before.lastAccrual;
      && after.status == before.status && after.rate == before.rate && before.utilized <= after.utilized
      && (after.utilized != before.utilized ==>
            && after.lastAccrual == env.now > before.lastAccrual
            && BPS_YEAR * (after.utilized - before.utilized) <= before.utilized * rate * dt
            && before.utilized * rate * dt < BPS_YEAR * (after.utilized - before.utilized) + BPS_YEAR)
      && (after.utilized == before.utilized ==>
            (after == before && (dt > 0 ==> before.utilized * rate * dt < BPS_YEAR))
            || (before.utilized == 0 && after == before.(lastAccrual := env.now) && dt > 0))
  {
    if env.now > before.lastAccrual && before.utilized != 0 {
      ProrateIsFloor(before.utilized, rate, env.now - before.lastAccrual);
    }
  }

  lemma PollKeepsTerms(line: Line, envs: seq<Env>, rate: Bps)
    requires FixedRate(line, envs, rate) && 0 <= line.utilized && Poll(line, envs).Ok?
    ensures var l := Poll(line, envs).value;
      l.status == line.status && l.rate == line.rate && line.utilized <= l.utilized
  {
    if |envs| > 0 {
      var init := envs[..|envs| - 1];
      PollKeepsTerms(line, init, rate);
      FixedRateStep(line, Poll(line, init).value, envs[|envs| - 1], rate);
    }
  }

  lemma CreditArithmetic(u0: int, r: int, s: int, dt: int, u: int, u': int, c: int)
    requires 0 <= u0 <= u && 0 <= r && 0 <= dt
    requires u0 * r * s <= BPS_YEAR * (u - u0) + BPS_YEAR * c
    requires u * r * dt < BPS_YEAR * (u' - u) + BPS_YEAR
    ensures u0 * r * (s + dt) <= BPS_YEAR * (u' - u0) + BPS_YEAR * (c + 1)
  {
    TripleMono(u0, r, dt, u, r, dt);
    assert u0 * r * (s + dt) == u0 * r * s + u0 * r * dt;
  }

  /** Up to its last credited moment `l` owes simple interest, but for a unit
      lost to flooring per credit. */
  predicate CreditedUpTo(line: Line, l: Line, rate: Bps, credits: nat) {
    line.utilized * rate * (l.lastAccrual - line.lastAccrual)
      <= BPS_YEAR * (l.utilized - line.utilized) + BPS_YEAR * credits
  }

  /** At `last`, less than a unit of interest on `l` is still uncredited. */
  predicate RemainderBelowUnit(l: Line, last: int, rate: Bps) {
    l.lastAccrual < last ==> l.utilized * rate * (last - l.lastAccrual) < BPS_YEAR
  }

  /** The debt of `l` trails simple interest up to `last` by less than a unit per
      credit plus one. */
  predicate TrailsBy(line: Line, l: Line, last: int, rate: Bps, units: int) {
    line.utilized * rate * (last - line.lastAccrual) < BPS_YEAR * (l.utilized - line.utilized + units)
  }

  /** One more call: at most one more credit, and less than a unit lost with it. */
  lemma CreditStep(line: Line, before: Line, after: Line, env: Env, rate: Bps, credits: nat)
    requires !IsSuspended(line) && before.status == line.status && before.rate == line.rate
    requires EffectiveRate(line.rate, env) == rate && 0 <= line.utilized <= before.utilized
    requires Accrue(before, env) == Ok(after) && CreditedUpTo(line, before, rate, credits)
    ensures CreditedUpTo(line, after, rate, credits + if after.utilized != before.utilized then 1 else 0)
    ensures before.utilized <= after.utilized
  {
    FixedRateStep(line, before, env, rate);
    if after.utilized != before.utilized {
      CreditArithmetic(line.utilized, rate, before.lastAccrual - line.lastAccrual, env.now - before.lastAccrual,
                       before.utilized, after.utilized, credits);
    } else if before.utilized == 0 {
      assert line.utilized == 0;
    }
  }

  lemma {:induction false} CreditedInterest(line: Line, envs: seq<Env>, rate: Bps)
    requires FixedRate(line, envs, rate) && 0 <= line.utilized && Poll(line, envs).Ok?
    ensures CreditedUpTo(line, Poll(line, envs).value, rate, Credits(line, envs))
    ensures Credits(line, envs) <= Poll(line, envs).value.utilized - line.utilized
  {
    if |envs| > 0 {
      var init, env := envs[..|envs| - 1], envs[|envs| - 1];
      CreditedInterest(line, init, rate);
      PollKeepsTerms(line, init, rate);
      CreditStep(line, Poll(line, init).value, Poll(line, envs).value, env, rate, Credits(line, init));
    } else {
      assert line.utilized * rate * 0 == 0;
    }
  }

  lemma UncreditedRemainder(line: Line, envs: seq<Env>, rate: Bps)
    requires FixedRate(line, envs, rate) && 0 <= line.utilized && Poll(line, envs).Ok?
    ensures RemainderBelowUnit(Poll(line, envs).value, LastTime(line, envs), rate)
  {
    if |envs| > 0 {
      var init := envs[..|envs| - 1];
      PollKeepsTerms(line, init, rate);
      FixedRateStep(line, Poll(line, init).value, envs[|envs| - 1], rate);
    }
  }

  /** `s` seconds up to the last credit, `rest` after it. */
  lemma RemainderArithmetic(u0: int, r: int, s: int, rest: int, span: int, u: int, c: int)
    requires 0 <= u0 <= u && 0 <= r && span == s + rest
    requires u0 * r * s <= BPS_YEAR * (u - u0) + BPS_YEAR * c
    requires rest > 0 ==> u * r * rest < BPS_YEAR
    ensures u0 * r * span < BPS_YEAR * (u - u0 + c + 1)
  {
    assert u0 * r * span == u0 * r * s + u0 * r * rest;
    if rest > 0 {
      TripleMono(u0, r, rest, u, r, rest);
    } else {
      MulNonNeg(u0, r);
      MulMono(rest, 0, u0 * r);
    }
  }

  lemma CreditsAndRemainder(line: Line, l: Line, last: int, rate: Bps, credits: nat)
    requires 0 <= line.utilized <= l.utilized && credits <= l.utilized - line.utilized
    requires CreditedUpTo(line, l, rate, credits) && RemainderBelowUnit(l, last, rate)
    ensures TrailsBy(line, l, last, rate, credits + 1)
    ensures TrailsBy(line, l, last, rate, l.utilized - line.utilized + 1)
  {
    RemainderArithmetic(line.utilized, rate, l.lastAccrual - line.lastAccrual, last - l.lastAccrual,
                        last - line.lastAccrual, l.utilized, credits);
  }

  /** Lower bound: after any run of calls, however frequent, the debt trails
      simple interest on the starting debt by less than one unit per credit plus
      one.  Every credit is at least a unit, so at least half of the simple
      interest (less half a unit) is always charged. */
  lemma DebtTracksSimpleInterest(line: Line, envs: seq<Env>, rate: Bps)
    requires FixedRate(line, envs, rate) && 0 <= line.utilized && Poll(line, envs).Ok?
    ensures var l := Poll(line, envs).value;
      && TrailsBy(line, l, LastTime(line, envs), rate, Credits(line, envs) + 1)
      && TrailsBy(line, l, LastTime(line, envs), rate, l.utilized - line.utilized + 1)
  {
    CreditedInterest(line, envs, rate);
    UncreditedRemainder(line, envs, rate);
    PollKeepsTerms(line, envs, rate);
    CreditsAndRemainder(line, Poll(line, envs).value, LastTime(line, envs), rate, Credits(line, envs));
  }

  lemma CompoundArithmetic(u: int, u': int, rdt: int, p: int, g: int, u0: int)
    requires 0 <= u <= u' && 0 <= rdt && 0 < p && 0 <= u0 && 0 <= g
    requires BPS_YEAR * (u' - u) <= u * rdt
    requires u * p <= u0 * g
    ensures u' * (BPS_YEAR * p) <= u0 * (g * (BPS_YEAR + rdt))
  {
    assert u' * BPS_YEAR <= u * (BPS_YEAR + rdt);
    MulMono(u' * BPS_YEAR, u * (BPS_YEAR + rdt), p);
    MulMono(u * p, u0 * g, BPS_YEAR + rdt);
    calc {
      u' * (BPS_YEAR * p);
      u' * BPS_YEAR * p;
    <=
      u * (BPS_YEAR + rdt) * p;
      u * p * (BPS_YEAR + rdt);
    <=
      u0 * g * (BPS_YEAR + rdt);
      u0 * (g * (BPS_YEAR + rdt));
    }
  }

  /** After `n` credits the debt is at most `u0` times the exact growth, both
      sides multiplied by `BPS_YEAR` to the `n`. */
  predicate BelowCompounding(u: int, n: nat, u0: int, growth: int) {
    0 < Pow(BPS_YEAR, n) && 0 <= growth && u * Pow(BPS_YEAR, n) <= u0 * growth
  }

  lemma CompoundStep(before: Line, after: Line, env: Env, rate: Bps, n: nat, g: int, u0: int)
    requires 0 <= before.utilized <= after.utilized && before.lastAccrual < env.now && 0 <= u0
    requires BPS_YEAR * (after.utilized - before.utilized) <= before.utilized * rate * (env.now - before.lastAccrual)
    requires BelowCompounding(before.utilized, n, u0, g)
    ensures BelowCompounding(after.utilized, n + 1, u0, g * (BPS_YEAR + rate * (env.now - before.lastAccrual)))
  {
    var dt := env.now - before.lastAccrual;
    MulNonNeg(rate, dt);
    assert before.utilized * (rate * dt) == before.utilized * rate * dt;
    CompoundArithmetic(before.utilized, after.utilized, rate * dt, Pow(BPS_YEAR, n), g, u0);
    MulNonNeg(g, BPS_YEAR + rate * dt);
  }

  /** Upper bound: the debt never exceeds exact compounding over the crediting
      times. */
  lemma {:induction false} DebtBelowCompounding(line: Line, envs: seq<Env>, rate: Bps)
    requires FixedRate(line, envs, rate) && 0 <= line.utilized && Poll(line, envs).Ok?
    ensures BelowCompounding(Poll(line, envs).value.utilized, Credits(line, envs), line.utilized, Growth(line, envs, rate))
  {
    if |envs| > 0 {
      var init, env := envs[..|envs| - 1], envs[|envs| - 1];
      DebtBelowCompounding(line, init, rate);
      PollKeepsTerms(line, init, rate);
      var before, after := Poll(line, init).value, Poll(line, envs).value;
      FixedRateStep(line, before, env, rate);
      if after.utilized != before.utilized {
        assert Credits(line, envs) == Credits(line, init) + 1;
        assert Growth(line, envs, rate) == Growth(line, init, rate) * (BPS_YEAR + rate * (env.now - before.lastAccrual));
        CompoundStep(before, after, env, rate, Credits(line, init), Growth(line, init, rate), line.utilized);
      } else {
        assert Credits(line, envs) == Credits(line, init);
        assert Growth(line, envs, rate) == Growth(line, init, rate) * 1;
      }
    } else {
      assert BelowCompounding(line.utilized, 0, line.utilized, 1);
    }
  }

  /** A call that credits nothing leaves an indebted line exactly as it was, so
      its elapsed time is not lost; and a second call at the same moment never
      changes anything, whatever it reads. */
  lemma AccrueIsIdempotent(line: Line, env: Env, again: Env)
    requires Accrue(line, env).Ok?
    requires again.now == env.now
    requires line.utilized != 0 ==> again == env || Accrue(line, env).value != line
    ensures Accrue(Accrue(line, env).value, again) == Accrue(line, env)
  {
  }
}
