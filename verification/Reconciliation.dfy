/** The reconciliation an auditor is told to make: the token balances and the debts
    against what the published events say was earned. */
module Reconciliation {
  import opened Prelude
  import opened Sums
  import opened Ledger
  import opened LedgerInvariants
  import opened LedgerReplay
  import opened LedgerFunds
  import opened Custody
  import LedgerLoops
  import C = Collateral

  // ---- The log ------------------------------------------------------------

  /** What an event adds to tokens and debts together, given what the log knew of
      its borrower: draws and repayments only turn one into the other. */
  function EarnedBy(e: Event, v: View): int {
    match e
    case LineOpened(_) => if v.closed then -v.debt else 0
    case LineStatus(_, _) => 0
    case InterestAccrued(_, amount) => amount
    case Drawn(_, _) => 0
    case Repaid(_, _) => 0
    case DebtForgiven(_, amount) => -amount
    case LiquidationSettled(_, amount) => -amount
    case DrawReversed(_, amount) => -amount
    case LateFeeCharged(_, amount) => amount
  }

  /** Interest and late fees, less forgiveness, settlements, reversals and the debts
      written off by re-opening closed lines. */
  function Earned(events: seq<Event>): int {
    if |events| == 0 then 0
    else
      var init, e := events[..|events| - 1], events[|events| - 1];
      Earned(init) + EarnedBy(e, Replay(init, e.b))
  }

  function LoggedDebt(events: seq<Event>): Address -> int {
    (b: Address) => Replay(events, b).debt
  }

  lemma EventBalance(e: Event, v: View)
    ensures Apply1(v, e).debt - v.debt + CashOf(e) == EarnedBy(e, v)
  {
  }

  lemma NoDebtLogged(ids: seq<Address>)
    ensures SumOf(LoggedDebt([]), ids) == 0
  {
    if |ids| > 0 {
      NoDebtLogged(ids[..|ids| - 1]);
    }
  }

  ghost predicate Names(ids: seq<Address>, events: seq<Event>) {
    Distinct(ids) && forall e :: e in events ==> e.b in ids
  }

  /** In any log whatever, tokens received and debts add up to what was earned. */
  lemma {:induction false} LogBalances(events: seq<Event>, ids: seq<Address>)
    requires Names(ids, events)
    ensures Cash(events) + SumOf(LoggedDebt(events), ids) == Earned(events)
  {
    if |events| == 0 {
      NoDebtLogged(ids);
      assert events == [];
    } else {
      var init, e := events[..|events| - 1], events[|events| - 1];
      LogBalances(init, ids);
      assert e in events;
      EventBalance(e, Replay(init, e.b));
      SumOfOneChange(LoggedDebt(init), LoggedDebt(events), ids, e.b);
    }
  }

  /** `ids` and whoever else the log names. */
  function Everyone(ids: seq<Address>, events: seq<Event>): seq<Address> {
    if |events| == 0 then ids
    else
      var most, b := Everyone(ids, events[..|events| - 1]), events[|events| - 1].b;
      if b in most then most else most + [b]
  }

  /** Adding borrowers who owe nothing changes no sum. */
  lemma {:induction false} EveryoneOwes(ids: seq<Address>, events: seq<Event>, f: Address -> int)
    requires Distinct(ids) && forall b: Address :: b !in ids ==> f(b) == 0
    ensures Names(Everyone(ids, events), events)
    ensures (forall b :: b in ids ==> b in Everyone(ids, events)) && SumOf(f, Everyone(ids, events)) == SumOf(f, ids)
  {
    if |events| > 0 {
      var most, b := Everyone(ids, events[..|events| - 1]), events[|events| - 1].b;
      EveryoneOwes(ids, events[..|events| - 1], f);
      if b !in most {
        SumOfAppend(f, most, b);
        assert (most + [b])[..|most|] == most;
      }
    }
  }

  // ---- The ledger ---------------------------------------------------------

  ghost predicate AllTracked(s: State) {
    forall b: Address :: Tracks(s, b, Debt)
  }

  /** Where the log accounts for every line, `TotalUtilized` is what was earned and
      not yet paid. */
  lemma TotalFromLog(s: State)
    requires Accounting(s) && AllTracked(s)
    ensures s.book.totalUtilized + Cash(s.events) == Earned(s.events)
  {
    var f, ids := LoggedDebt(s.events), s.book.ids;
    forall b: Address
      ensures f(b) == DebtIn(s.book.lines)(b)
    {
      assert Tracks(s, b, Debt);
    }
    EveryoneOwes(ids, s.events, f);
    LogBalances(s.events, Everyone(ids, s.events));
    LedgerLoops.SumOfSame(f, DebtIn(s.book.lines), ids);
  }

  // ---- Ledger and collateral ----------------------------------------------

  /** The audited figure, over both balances. */
  function Audited(w: World): int {
    w.ledger.reserve + w.ledger.custody + w.ledger.book.totalUtilized
    - w.pool.total - w.ledger.vault.treasury - w.ledger.vault.bounty
  }

  /** Tokens that neither the log nor the collateral explains. */
  ghost function Unpooled(token: C.Token, w: World): int {
    Unexplained(w.ledger) - w.pool.total - HeldIn(token, w.pool)
  }

  lemma AuditedMeaning(token: C.Token, w: World)
    requires WorldSound(w) && AllTracked(w.ledger)
    ensures Audited(w) == Unpooled(token, w) + Earned(w.ledger.events) - w.ledger.vault.collected + HeldIn(token, w.pool)
  {
    TotalFromLog(w.ledger);
    UnpledgedMeaning(w.ledger);
  }

  /** The call repays no negative debt. */
  predicate Recorded(w: World, move: Move) {
    move.Credit? && move.call.op.RepayCredit? ==> PublishesAll(w.ledger, move.call, move.call.op.b, Debt)
  }

  ghost predicate RecordedRun(token: C.Token, w: World, moves: seq<Move>) {
    |moves| == 0
    || (RecordedRun(token, w, moves[..|moves| - 1]) && Recorded(WorldRun(token, w, moves[..|moves| - 1]), moves[|moves| - 1]))
  }

  lemma CreditTracks(s: State, call: Call, q: State)
    requires AllTracked(s) && Step(s, call) == Ok(q) && (call.op.RepayCredit? ==> PublishesAll(s, call, call.op.b, Debt))
    ensures AllTracked(q)
  {
    forall b: Address
      ensures Tracks(q, b, Debt)
    {
      StepTracks(s, call, b, Debt);
    }
  }

  lemma MoveKeepsUnpooled(token: C.Token, w: World, move: Move, q: World)
    requires WorldStep(token, w, move) == Ok(q)
    ensures Unpooled(token, q) == Unpooled(token, w)
    ensures move.Pledge? || move.call.cfg.selfSourced ==> q.ledger.reserve == w.ledger.reserve
  {
    WorldStepShape(token, w, move);
    match move
    case Credit(call, pledge) => var flow := StepMovesFunds(w.ledger, Priced(w, call, pledge).value);
    case Pledge(op, pledge) => PoolStepMoves(token, pledge, w.ledger.book.ids, StoredDebts(w.ledger), w.pool, op);
  }

  lemma MoveKeepsTracks(token: C.Token, w: World, move: Move, q: World)
    requires AllTracked(w.ledger) && Recorded(w, move) && WorldStep(token, w, move) == Ok(q)
    ensures AllTracked(q.ledger)
  {
    WorldStepShape(token, w, move);
    if move.Credit? {
      CreditTracks(w.ledger, Priced(w, move.call, move.pledge).value, q.ledger);
    } else {
      forall b: Address
        ensures Tracks(q.ledger, b, Debt)
      {
        assert Tracks(w.ledger, b, Debt);
      }
    }
  }

  lemma {:induction false} RunReconciles(token: C.Token, w: World, moves: seq<Move>)
    requires WorldSound(w) && AllTracked(w.ledger) && RecordedRun(token, w, moves)
    ensures WorldSound(WorldRun(token, w, moves)) && AllTracked(WorldRun(token, w, moves).ledger)
    ensures Unpooled(token, WorldRun(token, w, moves)) == Unpooled(token, w)
  {
    if |moves| > 0 {
      var before, move := WorldRun(token, w, moves[..|moves| - 1]), moves[|moves| - 1];
      RunReconciles(token, w, moves[..|moves| - 1]);
      if WorldStep(token, before, move).Ok? {
        WorldStepKeepsSound(token, before, move);
        MoveKeepsUnpooled(token, before, move, WorldStep(token, before, move).value);
        MoveKeepsTracks(token, before, move, WorldStep(token, before, move).value);
      }
    }
  }

  /** A contract just deployed, with nothing published. */
  ghost predicate Deployed(w: World, reserve: int, custody: int) {
    && Launched(w, custody) && w.ledger.reserve == reserve
    && w.ledger.book.lines == map[] && w.ledger.book.totalUtilized == 0 && w.ledger.events == []
  }

  lemma GenesisIsDeployed(reserve: int, custody: int, w: World)
    requires w.ledger == Genesis(reserve, custody) && w.pool == C.Pool(map[], map[], 0)
    ensures Deployed(w, reserve, custody)
  {
    GenesisIsLaunched(reserve, custody, w);
  }

  lemma DeployedIsTracked(token: C.Token, w: World, reserve: int, custody: nat)
    requires Deployed(w, reserve, custody)
    ensures WorldSound(w) && AllTracked(w.ledger) && Unpooled(token, w) == reserve + custody
  {
    LaunchedIsSound(token, w, custody);
  }

  /** Over every joint run that repays no negative debt, from whatever sources: both
      balances and all debts, less collateral and accumulators, are what they were
      at first plus what the log says was earned, less the fees set aside, plus the
      collateral held in the liquidity token outside the audited total. */
  lemma AuditReconciles(token: C.Token, w: World, reserve: int, custody: nat, moves: seq<Move>)
    requires Deployed(w, reserve, custody) && RecordedRun(token, w, moves)
    ensures var q := WorldRun(token, w, moves);
      Audited(q) == reserve + custody + Earned(q.ledger.events) - q.ledger.vault.collected + HeldIn(token, q.pool)
  {
    DeployedIsTracked(token, w, reserve, custody);
    RunReconciles(token, w, moves);
    AuditedMeaning(token, WorldRun(token, w, moves));
  }

  ghost predicate SelfSourced(moves: seq<Move>) {
    forall m :: m in moves && m.Credit? ==> m.call.cfg.selfSourced
  }

  lemma {:induction false} SelfSourcedKeepsReserve(token: C.Token, w: World, moves: seq<Move>)
    requires SelfSourced(moves)
    ensures WorldRun(token, w, moves).ledger.reserve == w.ledger.reserve
  {
    if |moves| > 0 {
      var before, move := WorldRun(token, w, moves[..|moves| - 1]), moves[|moves| - 1];
      SelfSourcedKeepsReserve(token, w, moves[..|moves| - 1]);
      assert move in moves;
      if WorldStep(token, before, move).Ok? {
        MoveKeepsUnpooled(token, before, move, WorldStep(token, before, move).value);
      }
    }
  }

  /** With the default source the documented figure needs the contract's own balance
      only. */
  lemma SelfSourcedAudit(token: C.Token, w: World, reserve: int, custody: nat, moves: seq<Move>)
    requires Deployed(w, reserve, custody) && RecordedRun(token, w, moves) && SelfSourced(moves)
    ensures var q := WorldRun(token, w, moves);
      q.ledger.custody + q.ledger.book.totalUtilized - q.pool.total - q.ledger.vault.treasury - q.ledger.vault.bounty
      == custody + Earned(q.ledger.events) - q.ledger.vault.collected + HeldIn(token, q.pool)
  {
    AuditReconciles(token, w, reserve, custody, moves);
    SelfSourcedKeepsReserve(token, w, moves);
  }
}
