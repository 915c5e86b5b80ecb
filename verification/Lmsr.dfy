/** The automated-market-maker market as a state machine. */
module Lmsr {
  import opened Sums
  import opened Ledgers
  import opened LmsrPricing

  /** A row of lmsr_positions, and an `lmsr_trade.place` audit event. */
  datatype Position = Position(user: nat, side: Side, contracts: int)

  datatype Trade = Trade(user: nat, side: Side, quantity: int, cost: int, fee: int)

  datatype State = State(
    status: MarketStatus,
    subsidy: int,
    feeBps: nat,
    b: real,
    qYes: int,
    qNo: int,
    realizedLoss: int,
    positions: seq<Position>,
    trades: seq<Trade>,
    books: Books)
  {
    function Quantity(side: Side): int {
      if side == YES then qYes else qNo
    }
  }

  // ----- Lmsr::LmsrTradeService

  function Abs(x: int): int {
    if x < 0 then -x else x
  }

  function RawCost(s: State, lse: LogSumExp, side: Side, quantity: int): int
    requires s.b != 0.0
  {
    var deltaYes, deltaNo := if side == YES then quantity else 0, if side == NO then quantity else 0;
    Round(TradeCost(lse, s.b, s.qYes, s.qNo, deltaYes, deltaNo) * 100.0)
  }

  /** `find_or_initialize_by`: the row's position, or the table's length. */
  function FindRow(rows: seq<Position>, user: nat, side: Side): (i: nat)
    ensures i <= |rows|
    ensures i < |rows| ==> rows[i].user == user && rows[i].side == side
    ensures forall j :: 0 <= j < i ==> !(rows[j].user == user && rows[j].side == side)
  {
    if rows == [] then 0
    else
      var i := FindRow(rows[..|rows| - 1], user, side);
      if i < |rows| - 1 || (rows[i].user == user && rows[i].side == side) then i else |rows|
  }

  function Upsert(rows: seq<Position>, user: nat, side: Side, quantity: int): seq<Position> {
    var i := FindRow(rows, user, side);
    if i < |rows| then rows[i := rows[i].(contracts := rows[i].contracts + quantity)]
    else rows + [Position(user, side, quantity)]
  }

  function Pay(b: Books, user: nat, raw: int, fee: int): Option<Books> {
    var moved :- Move(b, user, -(raw + fee), 0);
    var staked :- Post(moved, Entry(user, LmsrTradeStake, if raw >= 0 then Debit else Credit, Abs(raw)));
    if fee > 0 then Post(staked, Entry(user, LmsrFee, Debit, fee)) else Some(staked)
  }

  function Buy(s: State, lse: LogSumExp, user: nat, side: Side, quantity: int, pastClose: bool): Option<State>
    requires s.b != 0.0
  {
    if !s.status.Open? || pastClose || quantity <= 0 || user >= |s.books.wallets| then None
    else
      var raw := RawCost(s, lse, side, quantity);
      var fee := CeilDiv(s.feeBps * Abs(raw), BPS);
      var total := raw + fee;
      var outflow := if total < 0 then -total else 0;
      if outflow > 0 && s.realizedLoss + outflow > s.subsidy then None
      else if total > 0 && s.books.wallets[user].available < total then None
      else
        var paid :- Pay(s.books, user, raw, fee);
        Some(s.(books := paid,
                qYes := s.qYes + (if side == YES then quantity else 0),
                qNo := s.qNo + (if side == NO then quantity else 0),
                realizedLoss := s.realizedLoss + outflow,
                positions := Upsert(s.positions, user, side, quantity),
                trades := s.trades + [Trade(user, side, quantity, raw, fee)]))
  }

  // ----- Settlement::LmsrSettlementHandler

  function PayFrom(b: Books, rows: seq<Position>, side: Side, k: nat): Option<Books>
    decreases |rows| - k
  {
    if k >= |rows| then Some(b)
    else if rows[k].side != side || rows[k].contracts <= 0 then PayFrom(b, rows, side, k + 1)
    else
      var payout := rows[k].contracts * CONTRACT_MINOR;
      var next :- MoveAndPost(b, payout, Entry(rows[k].user, SettlementWin, Credit, payout));
      PayFrom(next, rows, side, k + 1)
  }

  function Settle(s: State, outcome: Side): Option<State> {
    if !(s.status.Open? || s.status.Closed?) then None
    else
      var paid :- PayFrom(s.books, s.positions, outcome, 0);
      Some(s.(status := MarketStatus.Settled, books := paid))
  }

  // ----- MarketCancellationService on an LMSR market

  function TallyCosts(trades: seq<Trade>, n: nat): Tally
    requires n <= |trades|
  {
    if n == 0 then Tally([], map[])
    else TallyCosts(trades, n - 1).Add(trades[n - 1].user, trades[n - 1].cost)
  }

  function RefundFrom(b: Books, t: Tally, k: nat): Option<Books>
    decreases |t.users| - k
  {
    if k >= |t.users| then Some(b)
    else if t.At(t.users[k]) <= 0 then RefundFrom(b, t, k + 1)
    else
      var cost := t.At(t.users[k]);
      var next :- MoveAndPost(b, cost, Entry(t.users[k], MarketCancelRefund, Credit, cost));
      RefundFrom(next, t, k + 1)
  }

  function Emptied(rows: seq<Position>): (r: seq<Position>)
    ensures |r| == |rows| && forall k :: 0 <= k < |rows| ==> r[k] == rows[k].(contracts := 0)
  {
    seq(|rows|, k requires 0 <= k < |rows| => rows[k].(contracts := 0))
  }

  function CancelMarket(s: State, reason: string): Option<State> {
    if |reason| < MIN_REASON || !(s.status.Open? || s.status.Closed?) then None
    else
      var refunded :- RefundFrom(s.books, TallyCosts(s.trades, |s.trades|), 0);
      Some(s.(status := MarketStatus.Cancelled, books := refunded, positions := Emptied(s.positions)))
  }

  // ----- runs

  datatype Step =
    | PlaceTrade(user: nat, side: Side, quantity: int, pastClose: bool)
    | CloseMarket
    | SettleMarket(outcome: Side)
    | AbortMarket(reason: string)

  function Attempt(s: State, lse: LogSumExp, step: Step): Option<State>
    requires s.b != 0.0
  {
    match step
    case PlaceTrade(user, side, quantity, pastClose) => Buy(s, lse, user, side, quantity, pastClose)
    case CloseMarket => if s.status.Open? then Some(s.(status := MarketStatus.Closed)) else None
    case SettleMarket(outcome) => Settle(s, outcome)
    case AbortMarket(reason) => CancelMarket(s, reason)
  }

  function Next(s: State, lse: LogSumExp, step: Step): (s': State)
    requires s.b != 0.0
    ensures s'.b == s.b
  {
    var r := Attempt(s, lse, step);
    if r.Some? then r.value else s
  }

  function Run(s: State, lse: LogSumExp, steps: seq<Step>): (s': State)
    requires s.b != 0.0
    ensures s'.b == s.b
  {
    if steps == [] then s else Next(Run(s, lse, steps[..|steps| - 1]), lse, steps[|steps| - 1])
  }

  /** A market just opened with its parameter computed from the subsidy. */
  ghost predicate Fresh(s: State, lse: LogSumExp) {
    && IsLogSumExp(lse) && s.subsidy > 0 && s.b == BFromSubsidy(lse, s.subsidy) && s.b > 0.0
    && s.status.Open? && s.qYes == 0 && s.qNo == 0 && s.realizedLoss == 0
    && s.positions == [] && s.trades == [] && s.books.ledger == [] && WalletsSound(s.books)
  }

  // ----- measures

  /** Contracts of one side, and of one user on one side, in the position table ... */
  function ContractsOn(side: Side): (f: Position -> int)
    ensures forall p :: f(p) == if p.side == side then p.contracts else 0
  {
    (p: Position) => if p.side == side then p.contracts else 0
  }

  function ContractsOf(user: nat, side: Side): (f: Position -> int)
    ensures forall p :: f(p) == if p.user == user && p.side == side then p.contracts else 0
  {
    (p: Position) => if p.user == user && p.side == side then p.contracts else 0
  }

  /** ... and as `positions_from_ledger` replays them from the audit events. */
  function BoughtOf(user: nat, side: Side): (f: Trade -> int)
    ensures forall t :: f(t) == if t.user == user && t.side == side then t.quantity else 0
  {
    (t: Trade) => if t.user == user && t.side == side then t.quantity else 0
  }

  function Costs(): (f: Trade -> int)
    ensures forall t :: f(t) == t.cost
  {
    (t: Trade) => t.cost
  }

  function CostsOf(user: nat): (f: Trade -> int)
    ensures forall t :: f(t) == if t.user == user then t.cost else 0
  {
    (t: Trade) => if t.user == user then t.cost else 0
  }

  function FeesOf(user: nat): (f: Trade -> int)
    ensures forall t :: f(t) == if t.user == user then t.fee else 0
  {
    (t: Trade) => if t.user == user then t.fee else 0
  }

  // ----- the invariant

  ghost predicate OneRowEach(rows: seq<Position>) {
    forall i, j :: 0 <= i < j < |rows| ==> rows[i].user != rows[j].user || rows[i].side != rows[j].side
  }

  /** The position table, the audit events and the market's quantities agree. */
  ghost predicate Indexed(s: State) {
    && OneRowEach(s.positions)
    && (forall k :: 0 <= k < |s.positions| ==> s.positions[k].contracts > 0 && s.positions[k].user < |s.books.wallets|)
    && (forall u: nat, side :: Sum(ContractsOf(u, side), s.positions) == Sum(BoughtOf(u, side), s.trades))
    && (forall side :: Sum(ContractsOn(side), s.positions) == s.Quantity(side))
  }

  /** Rounding is the only difference between costs collected and the cost function's climb. */
  ghost predicate Telescoped(s: State, lse: LogSumExp)
    requires s.b != 0.0
  {
    var climb := (CostFunction(lse, s.b, s.qYes, s.qNo) - CostFunction(lse, s.b, 0, 0)) * 100.0;
    2.0 * climb - |s.trades| as real <= 2.0 * Sum(Costs(), s.trades) as real <= 2.0 * climb + |s.trades| as real
  }

  ghost predicate TradeSound(s: State, t: Trade) {
    && 0 < t.cost <= 100 * t.quantity && t.quantity > 0 && t.user < |s.books.wallets|
    && s.feeBps * t.cost <= t.fee * 10_000 < s.feeBps * t.cost + 10_000
  }

  /** The ledger of a market in play records each user's costs and fees and nothing else. */
  ghost predicate Charged(s: State) {
    && (forall u: nat :: Sum(Flow(u), s.books.ledger) == -(Sum(CostsOf(u), s.trades) + Sum(FeesOf(u), s.trades)))
    && (forall k :: 0 <= k < |s.trades| ==> TradeSound(s, s.trades[k]))
  }

  ghost predicate Inv(s: State, lse: LogSumExp, opening: seq<int>) {
    && IsLogSumExp(lse) && s.subsidy > 0 && s.b > 0.0 && s.b == BFromSubsidy(lse, s.subsidy)
    && s.realizedLoss == 0
    && BooksSound(s.books, opening)
    && Sum(Winnings(), s.books.ledger) == 0
    && Indexed(s)
    && Telescoped(s, lse)
    && Charged(s)
  }

  ghost predicate InPlay(s: State) {
    s.status.Open? || s.status.Closed?
  }

  /** A settled market has paid one side's contracts, once; a cancelled one has paid no winners and
      holds no contracts any more. */
  ghost predicate PaidUp(s: State) {
    || (s.status.Settled? && exists outcome :: Sum(Winnings(), s.books.ledger) == 100 * s.Quantity(outcome))
    || (s.status.Cancelled? && Sum(Winnings(), s.books.ledger) == 0
        && forall k :: 0 <= k < |s.positions| ==> s.positions[k].contracts == 0)
  }

  /** Everything true of every reachable state. */
  ghost predicate Kept(s: State, lse: LogSumExp, opening: seq<int>) {
    if InPlay(s) then Inv(s, lse, opening) else PaidUp(s)
  }

  // ----- one trade

  lemma CostIsPositive(s: State, lse: LogSumExp, side: Side, quantity: int)
    requires IsLogSumExp(lse) && s.b > 0.0 && quantity > 0
    ensures 0 <= RawCost(s, lse, side, quantity) <= 100 * quantity
  {
    var deltaYes, deltaNo := if side == YES then quantity else 0, if side == NO then quantity else 0;
    ContractPrice(lse, s.b, s.qYes, s.qNo, quantity);
    RoundIsNear(TradeCost(lse, s.b, s.qYes, s.qNo, deltaYes, deltaNo) * 100.0);
  }

  lemma UpsertRows(rows: seq<Position>, user: nat, side: Side, quantity: int, users: nat)
    requires OneRowEach(rows) && quantity > 0 && user < users
    requires forall k :: 0 <= k < |rows| ==> rows[k].contracts > 0 && rows[k].user < users
    ensures var r := Upsert(rows, user, side, quantity);
      OneRowEach(r) && forall k :: 0 <= k < |r| ==> r[k].contracts > 0 && r[k].user < users
  {
  }

  /** `r` is `rows` with the trade's row at `i` raised, or with a new row. */
  ghost predicate Raised(rows: seq<Position>, r: seq<Position>, i: nat, t: Trade) {
    if i < |rows| then rows[i].user == t.user && rows[i].side == t.side
                       && r == rows[i := rows[i].(contracts := rows[i].contracts + t.quantity)]
    else r == rows + [Position(t.user, t.side, t.quantity)]
  }

  lemma UpsertRaises(rows: seq<Position>, t: Trade)
    ensures Raised(rows, Upsert(rows, t.user, t.side, t.quantity), FindRow(rows, t.user, t.side), t)
  {
  }

  lemma UpsertOneRow(rows: seq<Position>, user: nat, side: Side, quantity: int)
    requires OneRowEach(rows)
    ensures OneRowEach(Upsert(rows, user, side, quantity))
  {
  }

  /** Exactly the trader's contracts on the traded side rise. */
  lemma UpsertAdds(rows: seq<Position>, user: nat, side: Side, quantity: int, u: nat, sd: Side)
    ensures Sum(ContractsOf(u, sd), Upsert(rows, user, side, quantity))
         == Sum(ContractsOf(u, sd), rows) + if u == user && sd == side then quantity else 0
  {
    var i := FindRow(rows, user, side);
    if i < |rows| {
      SumUpdate(ContractsOf(u, sd), rows, i, rows[i].(contracts := rows[i].contracts + quantity));
    } else {
      SumAppend(ContractsOf(u, sd), rows, Position(user, side, quantity));
    }
  }

  /** One trade moves the position table and the audit events by the same contracts. */
  lemma RaisedOf(rows: seq<Position>, r: seq<Position>, i: nat, trades: seq<Trade>, t: Trade, u: nat, sd: Side)
    requires Raised(rows, r, i, t) && Sum(ContractsOf(u, sd), rows) == Sum(BoughtOf(u, sd), trades)
    ensures Sum(ContractsOf(u, sd), r) == Sum(BoughtOf(u, sd), trades + [t])
  {
    if i < |rows| {
      SumUpdate(ContractsOf(u, sd), rows, i, rows[i].(contracts := rows[i].contracts + t.quantity));
    } else {
      SumAppend(ContractsOf(u, sd), rows, Position(t.user, t.side, t.quantity));
    }
    SumAppend(BoughtOf(u, sd), trades, t);
  }

  lemma RaisedOn(rows: seq<Position>, r: seq<Position>, i: nat, t: Trade, sd: Side)
    requires Raised(rows, r, i, t)
    ensures Sum(ContractsOn(sd), r) == Sum(ContractsOn(sd), rows) + if t.side == sd then t.quantity else 0
  {
    if i < |rows| {
      SumUpdate(ContractsOn(sd), rows, i, rows[i].(contracts := rows[i].contracts + t.quantity));
    } else {
      SumAppend(ContractsOn(sd), rows, Position(t.user, t.side, t.quantity));
    }
  }

  /** Rounding each step costs at most half a unit; the cost function itself telescopes. */
  lemma TelescopeStep(s: State, lse: LogSumExp, side: Side, quantity: int, s': State)
    requires s.b > 0.0 && Telescoped(s, lse) && quantity > 0 && s'.b == s.b
    requires s'.qYes == s.qYes + (if side == YES then quantity else 0)
    requires s'.qNo == s.qNo + (if side == NO then quantity else 0)
    requires |s'.trades| == |s.trades| + 1 && s'.trades[..|s.trades|] == s.trades
    requires s'.trades[|s.trades|].cost == RawCost(s, lse, side, quantity)
    ensures Telescoped(s', lse)
  {
    var deltaYes, deltaNo := if side == YES then quantity else 0, if side == NO then quantity else 0;
    RoundIsNear(TradeCost(lse, s.b, s.qYes, s.qNo, deltaYes, deltaNo) * 100.0);
    assert Sum(Costs(), s'.trades) == Sum(Costs(), s.trades) + RawCost(s, lse, side, quantity);
  }

  /** The ledger after a paid trade. */
  function PaidRows(ledger: seq<Entry>, user: nat, raw: int, fee: int): seq<Entry> {
    var staked := ledger + [Entry(user, LmsrTradeStake, Debit, raw)];
    if fee > 0 then staked + [Entry(user, LmsrFee, Debit, fee)] else staked
  }

  lemma PaidRowSums(ledger: seq<Entry>, user: nat, raw: int, fee: int)
    requires fee >= 0
    ensures Sum(Winnings(), PaidRows(ledger, user, raw, fee)) == Sum(Winnings(), ledger)
    ensures forall u: nat ::
      Sum(Flow(u), PaidRows(ledger, user, raw, fee)) == Sum(Flow(u), ledger) - if u == user then raw + fee else 0
  {
    var e1, e2 := Entry(user, LmsrTradeStake, Debit, raw), Entry(user, LmsrFee, Debit, fee);
    SumAppend(Winnings(), ledger, e1);
    SumAppend(Winnings(), ledger + [e1], e2);
    assert Signed(e1) == -raw && Signed(e2) == -fee && Owner(e1) == user && Owner(e2) == user;
    forall u: nat
      ensures Sum(Flow(u), PaidRows(ledger, user, raw, fee))
           == Sum(Flow(u), ledger) - if u == user then raw + fee else 0
    {
      SumAppend(Flow(u), ledger, e1);
      SumAppend(Flow(u), ledger + [e1], e2);
    }
  }

  lemma PayEffect(b: Books, user: nat, raw: int, fee: int, b': Books, opening: seq<int>)
    requires BooksSound(b, opening) && raw > 0 && fee >= 0 && user < |b.wallets| && Pay(b, user, raw, fee) == Some(b')
    ensures BooksSound(b', opening) && b'.ledger == PaidRows(b.ledger, user, raw, fee)
    ensures b'.wallets
         == b.wallets[user := Wallet(b.wallets[user].available - (raw + fee), b.wallets[user].reserved)]
  {
    var moved := Move(b, user, -(raw + fee), 0).value;
    var e1, e2 := Entry(user, LmsrTradeStake, Debit, raw), Entry(user, LmsrFee, Debit, fee);
    var staked := Post(moved, e1).value;
    MoveDrifts(b, user, -(raw + fee), 0, moved, opening);
    PostDrifts(moved, e1, staked, opening);
    if fee > 0 {
      PostDrifts(staked, e2, b', opening);
    }
  }

  lemma IndexKeeps(s: State, t: Trade, s': State)
    requires Indexed(s) && t.quantity > 0 && t.user < |s.books.wallets| == |s'.books.wallets|
    requires s'.positions == Upsert(s.positions, t.user, t.side, t.quantity) && s'.trades == s.trades + [t]
    requires forall sd :: s'.Quantity(sd) == s.Quantity(sd) + if sd == t.side then t.quantity else 0
    ensures Indexed(s')
  {
    var i := FindRow(s.positions, t.user, t.side);
    UpsertRows(s.positions, t.user, t.side, t.quantity, |s.books.wallets|);
    UpsertRaises(s.positions, t);
    forall u: nat, sd ensures Sum(ContractsOf(u, sd), s'.positions) == Sum(BoughtOf(u, sd), s'.trades) {
      RaisedOf(s.positions, s'.positions, i, s.trades, t, u, sd);
    }
    forall sd ensures Sum(ContractsOn(sd), s'.positions) == s'.Quantity(sd) {
      RaisedOn(s.positions, s'.positions, i, t, sd);
    }
  }

  /** The tables after trade `t`. */
  ghost predicate Entered(s: State, t: Trade, s': State) {
    && s' == s.(books := s'.books,
                qYes := s.qYes + (if t.side == YES then t.quantity else 0),
                qNo := s.qNo + (if t.side == NO then t.quantity else 0),
                positions := Upsert(s.positions, t.user, t.side, t.quantity),
                trades := s.trades + [t])
    && Pay(s.books, t.user, t.cost, t.fee) == Some(s'.books) && TradeSound(s, t) && t.fee >= 0
  }

  lemma BuyEnters(s: State, lse: LogSumExp, user: nat, side: Side, quantity: int, pastClose: bool, s': State)
    returns (t: Trade)
    requires IsLogSumExp(lse) && s.b > 0.0 && Buy(s, lse, user, side, quantity, pastClose) == Some(s')
    ensures t == Trade(user, side, quantity, RawCost(s, lse, side, quantity), t.fee) && Entered(s, t, s')
  {
    var raw := RawCost(s, lse, side, quantity);
    var fee := CeilDiv(s.feeBps * Abs(raw), BPS);
    CostIsPositive(s, lse, side, quantity);
    FeeIsRate(s.feeBps, raw, fee);
    t := Trade(user, side, quantity, raw, fee);
  }

  lemma FeeIsRate(feeBps: nat, cost: int, fee: int)
    requires cost >= 0 && fee == CeilDiv(feeBps * Abs(cost), BPS)
    ensures fee >= 0 && feeBps * cost <= fee * 10_000 < feeBps * cost + 10_000
  {
    assert feeBps * cost >= 0;
    CeilDivBounds(feeBps * cost, BPS);
  }

  /** What a trade does to the books. */
  lemma TradePaid(s: State, t: Trade, s': State, opening: seq<int>)
    requires BooksSound(s.books, opening) && Entered(s, t, s')
    ensures BooksSound(s'.books, opening) && Sum(Winnings(), s'.books.ledger) == Sum(Winnings(), s.books.ledger)
    ensures s'.books.wallets == s.books.wallets[t.user :=
      Wallet(s.books.wallets[t.user].available - (t.cost + t.fee), s.books.wallets[t.user].reserved)]
    ensures s'.books.ledger == PaidRows(s.books.ledger, t.user, t.cost, t.fee)
    ensures forall u: nat ::
      Sum(Flow(u), s'.books.ledger) == Sum(Flow(u), s.books.ledger) - if u == t.user then t.cost + t.fee else 0
  {
    PayEffect(s.books, t.user, t.cost, t.fee, s'.books, opening);
    PaidRowSums(s.books.ledger, t.user, t.cost, t.fee);
  }

  lemma BuyKeeps(s: State, lse: LogSumExp, user: nat, side: Side, quantity: int, pastClose: bool, s': State,
          opening: seq<int>)
    requires Inv(s, lse, opening) && Buy(s, lse, user, side, quantity, pastClose) == Some(s')
    ensures Inv(s', lse, opening) && s'.status == s.status
  {
    var t := BuyEnters(s, lse, user, side, quantity, pastClose, s');
    BooksKeep(s, t, s', opening);
    assert s'.trades[..|s.trades|] == s.trades;
    TelescopeStep(s, lse, side, quantity, s');
  }

  lemma BooksKeep(s: State, t: Trade, s': State, opening: seq<int>)
    requires BooksSound(s.books, opening) && Indexed(s) && Charged(s) && Entered(s, t, s')
    ensures BooksSound(s'.books, opening) && Sum(Winnings(), s'.books.ledger) == Sum(Winnings(), s.books.ledger)
    ensures Indexed(s') && Charged(s')
  {
    TradePaid(s, t, s', opening);
    IndexKeeps(s, t, s');
    ChargesKeep(s, t, s');
  }

  lemma ChargesKeep(s: State, t: Trade, s': State)
    requires Charged(s) && TradeSound(s, t) && s'.trades == s.trades + [t]
    requires s'.feeBps == s.feeBps && |s'.books.wallets| == |s.books.wallets|
    requires forall u: nat ::
      Sum(Flow(u), s'.books.ledger) == Sum(Flow(u), s.books.ledger) - if u == t.user then t.cost + t.fee else 0
    ensures Charged(s')
  {
    forall u: nat ensures Sum(Flow(u), s'.books.ledger) == -(Sum(CostsOf(u), s'.trades) + Sum(FeesOf(u), s'.trades)) {
      SumAppend(CostsOf(u), s.trades, t);
      SumAppend(FeesOf(u), s.trades, t);
      assert Sum(Flow(u), s.books.ledger) == -(Sum(CostsOf(u), s.trades) + Sum(FeesOf(u), s.trades));
    }
    forall k | 0 <= k < |s'.trades| ensures TradeSound(s', s'.trades[k]) {
      assert k < |s.trades| ==> TradeSound(s, s.trades[k]);
    }
  }

  /** Trade `t`, column by column: the contracts are the trader's, who pays its cost and fee. */
  ghost predicate Acquired(s: State, t: Trade, s': State) {
    && s'.trades == s.trades + [t]
    && s'.qYes == s.qYes + (if t.side == YES then t.quantity else 0)
    && s'.qNo == s.qNo + (if t.side == NO then t.quantity else 0)
    && t.user < |s.books.wallets| && s'.books.wallets == s.books.wallets[t.user :=
      Wallet(s.books.wallets[t.user].available - (t.cost + t.fee), s.books.wallets[t.user].reserved)]
    && s'.books.ledger == PaidRows(s.books.ledger, t.user, t.cost, t.fee)
    && forall u: nat, sd ::
      Sum(ContractsOf(u, sd), s'.positions)
           == Sum(ContractsOf(u, sd), s.positions) + if u == t.user && sd == t.side then t.quantity else 0
  }

  lemma TradeAcquires(s: State, t: Trade, s': State, opening: seq<int>)
    requires BooksSound(s.books, opening) && Entered(s, t, s')
    ensures Acquired(s, t, s')
  {
    TradePaid(s, t, s', opening);
    forall u: nat, sd ensures Sum(ContractsOf(u, sd), s'.positions)
      == Sum(ContractsOf(u, sd), s.positions) + if u == t.user && sd == t.side then t.quantity else 0
    {
      UpsertAdds(s.positions, t.user, t.side, t.quantity, u, sd);
    }
  }

  /** The call's trade, at the cost of its contracts to the nearest unit. */
  ghost predicate Traded(s: State, lse: LogSumExp, user: nat, side: Side, quantity: int, s': State)
    requires s.b != 0.0
  {
    var yes, no := if side == YES then quantity else 0, if side == NO then quantity else 0;
    && |s'.trades| == |s.trades| + 1
    && var t := s'.trades[|s.trades|];
    && t.user == user && t.side == side && t.quantity == quantity && TradeSound(s, t) && Acquired(s, t, s')
    && -0.5 <= t.cost as real - 100.0 * TradeCost(lse, s.b, s.qYes, s.qNo, yes, no) <= 0.5
  }

  lemma BuyTrades(s: State, lse: LogSumExp, user: nat, side: Side, quantity: int, pastClose: bool, s': State,
          opening: seq<int>)
    requires Inv(s, lse, opening) && Buy(s, lse, user, side, quantity, pastClose) == Some(s')
    ensures Traded(s, lse, user, side, quantity, s')
  {
    var t := BuyEnters(s, lse, user, side, quantity, pastClose, s');
    var yes, no := if side == YES then quantity else 0, if side == NO then quantity else 0;
    RoundIsNear(TradeCost(lse, s.b, s.qYes, s.qNo, yes, no) * 100.0);
    TradeAcquires(s, t, s', opening);
  }

  // ----- settlement and cancellation

  /** The payout loop goes through, pays every holder 100 per contract and records what it pays. */
  lemma {:induction false} PayoutLoop(b: Books, rows: seq<Position>, side: Side, k: nat, opening: seq<int>)
      returns (b': Books)
    requires BooksSound(b, opening) && k <= |rows|
    requires forall j :: 0 <= j < |rows| ==> rows[j].contracts > 0 && rows[j].user < |b.wallets|
    ensures PayFrom(b, rows, side, k) == Some(b') && BooksSound(b', opening) && |b'.wallets| == |b.wallets|
    ensures forall u :: 0 <= u < |b.wallets| ==> b'.wallets[u] == b.wallets[u].(available := b.wallets[u].available
              + 100 * (Sum(ContractsOf(u, side), rows) - Sum(ContractsOf(u, side), rows[..k])))
    ensures Sum(Winnings(), b'.ledger) == Sum(Winnings(), b.ledger)
              + 100 * (Sum(ContractsOn(side), rows) - Sum(ContractsOn(side), rows[..k]))
    decreases |rows| - k
  {
    if k == |rows| {
      b' := b;
      assert rows[..k] == rows;
    } else {
      var next := PayRow(b, rows[k], side, opening);
      b' := PayoutLoop(next, rows, side, k + 1, opening);
      SumPrefix(ContractsOn(side), rows, k);
      forall u: nat ensures Sum(ContractsOf(u, side), rows[..k + 1])
        == Sum(ContractsOf(u, side), rows[..k])
           + if rows[k].user == u && rows[k].side == side then rows[k].contracts else 0
      {
        SumPrefix(ContractsOf(u, side), rows, k);
      }
    }
  }

  lemma PayRow(b: Books, p: Position, side: Side, opening: seq<int>) returns (b': Books)
    requires BooksSound(b, opening) && p.contracts > 0 && p.user < |b.wallets|
    ensures BooksSound(b', opening)
    ensures p.side != side ==> b' == b
    ensures p.side == side ==>
      var payout := p.contracts * CONTRACT_MINOR;
      && MoveAndPost(b, payout, Entry(p.user, SettlementWin, Credit, payout)) == Some(b')
      && b'.wallets == b.wallets[p.user := b.wallets[p.user].(available := b.wallets[p.user].available + payout)]
      && Sum(Winnings(), b'.ledger) == Sum(Winnings(), b.ledger) + 100 * p.contracts
  {
    b' := b;
    if p.side == side {
      var e := Entry(p.user, SettlementWin, Credit, p.contracts * CONTRACT_MINOR);
      b' := MoveAndPost(b, e.amount, e).value;
      PostedMoveReplays(b, e.amount, e, b', opening);
      SumAppend(Winnings(), b.ledger, e);
    }
  }

  /** Settlement always goes through while the market is in play, and pays 100 per winning contract. */
  lemma SettlementPays(s: State, lse: LogSumExp, outcome: Side, opening: seq<int>) returns (s': State)
    requires Inv(s, lse, opening) && InPlay(s)
    ensures Settle(s, outcome) == Some(s') && s'.status.Settled? && |s'.books.wallets| == |s.books.wallets|
    ensures forall u :: 0 <= u < |s.books.wallets| ==> s'.books.wallets[u] == s.books.wallets[u].(
      available := s.books.wallets[u].available + 100 * Sum(BoughtOf(u, outcome), s.trades))
    ensures Sum(Winnings(), s'.books.ledger) - Sum(Winnings(), s.books.ledger) == 100 * s.Quantity(outcome)
    ensures PaidUp(s')
  {
    var paid := PayoutLoop(s.books, s.positions, outcome, 0, opening);
    s' := Settle(s, outcome).value;
    forall u: nat ensures Sum(ContractsOf(u, outcome), s.positions) == Sum(BoughtOf(u, outcome), s.trades) {
    }
    assert s.positions[..0] == [];
    assert Sum(Winnings(), s'.books.ledger) == 100 * s'.Quantity(outcome);
  }

  ghost predicate Proper(t: Tally, users: nat) {
    && (forall u :: u in t.net <==> u in t.users)
    && (forall i, j :: 0 <= i < j < |t.users| ==> t.users[i] != t.users[j])
    && (forall j :: 0 <= j < |t.users| ==> t.users[j] < users)
  }

  lemma {:induction false} TallyIsProper(trades: seq<Trade>, n: nat, users: nat)
    requires n <= |trades| && forall k :: 0 <= k < |trades| ==> trades[k].user < users
    ensures Proper(TallyCosts(trades, n), users)
    decreases n
  {
    if n > 0 {
      TallyIsProper(trades, n - 1, users);
    }
  }

  lemma {:induction false} CostsTallied(trades: seq<Trade>, n: nat, user: nat)
    requires n <= |trades| && forall k :: 0 <= k < |trades| ==> trades[k].cost > 0
    ensures TallyCosts(trades, n).At(user) == Sum(CostsOf(user), trades[..n]) >= 0
    decreases n
  {
    if n > 0 {
      CostsTallied(trades, n - 1, user);
      assert trades[..n][..n - 1] == trades[..n - 1];
    }
  }

  lemma RefundOne(b: Books, user: nat, cost: int, opening: seq<int>) returns (b': Books)
    requires BooksSound(b, opening) && user < |b.wallets| && cost > 0
    ensures MoveAndPost(b, cost, Entry(user, MarketCancelRefund, Credit, cost)) == Some(b') && BooksSound(b', opening)
    ensures b'.wallets == b.wallets[user := b.wallets[user].(available := b.wallets[user].available + cost)]
    ensures Sum(Winnings(), b'.ledger) == Sum(Winnings(), b.ledger)
  {
    var e := Entry(user, MarketCancelRefund, Credit, cost);
    b' := MoveAndPost(b, cost, e).value;
    PostedMoveReplays(b, cost, e, b', opening);
    SumAppend(Winnings(), b.ledger, e);
  }

  /** What the hash entries from `k` on owe a user. */
  function Owed(t: Tally, k: nat, user: nat): int
    decreases |t.users| - k
  {
    if k >= |t.users| then 0 else Owed(t, k + 1, user) + if t.users[k] == user then t.At(user) else 0
  }

  lemma {:induction false} OwedOnce(t: Tally, k: nat, user: nat, users: nat)
    requires Proper(t, users) && k <= |t.users|
    ensures Owed(t, k, user) == if user in t.users[k..] then t.At(user) else 0
    decreases |t.users| - k
  {
    if k < |t.users| {
      OwedOnce(t, k + 1, user, users);
      assert t.users[k..] == [t.users[k]] + t.users[k + 1..];
    }
  }

  /** The refund loop goes through and gives every user what the hash owes them. */
  lemma {:induction false} RefundLoop(b: Books, t: Tally, k: nat, opening: seq<int>) returns (b': Books)
    requires BooksSound(b, opening) && (forall j :: 0 <= j < |t.users| ==> t.users[j] < |b.wallets|)
    requires forall u: nat :: t.At(u) >= 0
    ensures RefundFrom(b, t, k) == Some(b') && BooksSound(b', opening) && |b'.wallets| == |b.wallets|
    ensures Sum(Winnings(), b'.ledger) == Sum(Winnings(), b.ledger)
    ensures forall u :: 0 <= u < |b.wallets| ==>
      b'.wallets[u] == b.wallets[u].(available := b.wallets[u].available + Owed(t, k, u))
    decreases |t.users| - k
  {
    if k >= |t.users| {
      b' := b;
    } else {
      var next := b;
      if t.At(t.users[k]) > 0 {
        next := RefundOne(b, t.users[k], t.At(t.users[k]), opening);
      }
      b' := RefundLoop(next, t, k + 1, opening);
    }
  }

  /** Cancelling gives every trader exactly their recorded costs back and empties every position. */
  lemma CancelRefunds(s: State, lse: LogSumExp, reason: string, opening: seq<int>) returns (s': State)
    requires Inv(s, lse, opening) && InPlay(s) && |reason| >= 10
    ensures CancelMarket(s, reason) == Some(s') && s'.status.Cancelled? && |s'.books.wallets| == |s.books.wallets|
    ensures forall u :: 0 <= u < |s.books.wallets| ==>
      s'.books.wallets[u] == s.books.wallets[u].(available := s.books.wallets[u].available + Sum(CostsOf(u), s.trades))
    ensures forall k :: 0 <= k < |s'.positions| ==> s'.positions[k].contracts == 0
    ensures Sum(Winnings(), s'.books.ledger) == Sum(Winnings(), s.books.ledger)
  {
    var t := TallyCosts(s.trades, |s.trades|);
    TallyIsProper(s.trades, |s.trades|, |s.books.wallets|);
    forall u: nat ensures t.At(u) == Sum(CostsOf(u), s.trades) >= 0 {
      CostsTallied(s.trades, |s.trades|, u);
      assert s.trades[..|s.trades|] == s.trades;
    }
    var b := RefundLoop(s.books, t, 0, opening);
    forall u | 0 <= u < |s.books.wallets| ensures Owed(t, 0, u) == t.At(u) {
      OwedOnce(t, 0, u, |s.books.wallets|);
      assert t.users[0..] == t.users;
    }
    s' := CancelMarket(s, reason).value;
  }

  // ----- whole runs

  /** Every step of every service keeps it. */
  lemma NextKeeps(s: State, lse: LogSumExp, step: Step, opening: seq<int>)
    requires s.b != 0.0 && Kept(s, lse, opening)
    ensures Kept(Next(s, lse, step), lse, opening)
  {
    if InPlay(s) {
      match step
      case PlaceTrade(user, side, quantity, pastClose) =>
        var r := Buy(s, lse, user, side, quantity, pastClose);
        if r.Some? {
          BuyKeeps(s, lse, user, side, quantity, pastClose, r.value, opening);
        }
      case CloseMarket =>
      case SettleMarket(outcome) => var settled := SettlementPays(s, lse, outcome, opening);
      case AbortMarket(reason) =>
        if |reason| >= 10 {
          var cancelled := CancelRefunds(s, lse, reason, opening);
        }
    }
  }

  lemma {:induction false} AlwaysKept(s: State, lse: LogSumExp, steps: seq<Step>)
    requires Fresh(s, lse)
    ensures Kept(Run(s, lse, steps), lse, OpeningOf(s.books.wallets))
  {
    if steps == [] {
      FreshBooksSound(s.books);
    } else {
      AlwaysKept(s, lse, steps[..|steps| - 1]);
      NextKeeps(Run(s, lse, steps[..|steps| - 1]), lse, steps[|steps| - 1], OpeningOf(s.books.wallets));
    }
  }

  /** In every reachable state in play: the position table is the replay of the audit events, its
      sides add up to the market's quantities, the ledger charges costs and fees, and the subsidy
      guard has never been drawn on. */
  lemma RunKeeps(s: State, lse: LogSumExp, steps: seq<Step>)
    requires Fresh(s, lse) && InPlay(Run(s, lse, steps))
    ensures Inv(Run(s, lse, steps), lse, OpeningOf(s.books.wallets))
  {
    AlwaysKept(s, lse, steps);
  }

  /** Bounded loss: after any run of n successful trades, settling on either side pays out at most
      the costs collected plus the subsidy plus n/2 (in minor units), the n/2 being rounding. */
  lemma BoundedLoss(s: State, lse: LogSumExp, steps: seq<Step>, outcome: Side)
    requires Fresh(s, lse) && InPlay(Run(s, lse, steps))
    ensures var now := Run(s, lse, steps);
            var r := Settle(now, outcome);
      && r.Some?
      && 2 * (Sum(Winnings(), r.value.books.ledger) - Sum(Winnings(), now.books.ledger) - Sum(Costs(), now.trades))
           <= 2 * now.subsidy + |now.trades|
  {
    RunKeeps(s, lse, steps);
    var now := Run(s, lse, steps);
    var settled := SettlementPays(now, lse, outcome, OpeningOf(s.books.wallets));
    EmptyMarketCost(lse, now.subsidy);
    CostCoversQuantities(lse, now.b, now.qYes, now.qNo);
  }

  /** The payout itself is bounded by the subsidy exactly when the winning side's contracts are few
      enough, which the market row tells. */
  lemma PayoutWithinSubsidyIff(s: State, lse: LogSumExp, steps: seq<Step>, outcome: Side)
    requires Fresh(s, lse) && InPlay(Run(s, lse, steps))
    ensures var now := Run(s, lse, steps);
            var r := Settle(now, outcome);
      && r.Some?
      && (Sum(Winnings(), r.value.books.ledger) - Sum(Winnings(), now.books.ledger) <= now.subsidy
          <==> 100 * now.Quantity(outcome) <= now.subsidy)
  {
    RunKeeps(s, lse, steps);
    var settled := SettlementPays(Run(s, lse, steps), lse, outcome, OpeningOf(s.books.wallets));
  }

  /** It is not bounded in general: for any cost function and any subsidy there is a market in which
      one trade leads to a larger payout. */
  lemma PayoutCanExceedSubsidy(lse: LogSumExp, subsidy: int) returns (s: State, steps: seq<Step>)
    requires IsLogSumExp(lse) && subsidy > 0
    ensures Fresh(s, lse) && s.subsidy == subsidy && InPlay(Run(s, lse, steps))
    ensures var now := Run(s, lse, steps);
            var r := Settle(now, YES);
      r.Some? && Sum(Winnings(), r.value.books.ledger) - Sum(Winnings(), now.books.ledger) > now.subsidy
  {
    var quantity := subsidy + 1;
    var b := BFromSubsidy(lse, subsidy);
    BIsPositive(lse, subsidy);
    var poor := State(MarketStatus.Open, subsidy, 0, b, 0, 0, 0, [], [], Books([Wallet(0, 0)], []));
    var cost := RawCost(poor, lse, YES, quantity);
    CostIsPositive(poor, lse, YES, quantity);
    s := poor.(books := Books([Wallet(cost, 0)], []));
    LargeTradeCosts(s, lse, quantity);
    steps := [PlaceTrade(0, YES, quantity, false)];
    assert steps[..0] == [];
    var traded := Buy(s, lse, 0, YES, quantity, false);
    PaysIffAffordable(s.books, 0, cost, 0);
    assert traded.Some? && Run(s, lse, steps[..0]) == s && Run(s, lse, steps) == traded.value;
    PayoutWithinSubsidyIff(s, lse, steps, YES);
  }

  lemma LargeTradeCosts(s: State, lse: LogSumExp, quantity: int)
    requires IsLogSumExp(lse) && s.subsidy > 0 && s.b == BFromSubsidy(lse, s.subsidy) && s.b > 0.0
    requires s.qYes == 0 && s.qNo == 0 && quantity > s.subsidy
    ensures RawCost(s, lse, YES, quantity) > 0
  {
    EmptyMarketCost(lse, s.subsidy);
    CostCoversQuantities(lse, s.b, quantity, 0);
    RoundIsNear(TradeCost(lse, s.b, 0, 0, quantity, 0) * 100.0);
  }

  /** The position table agrees with the replay of the audit events, row by row and side by side. */
  lemma PositionsAreReplayed(s: State, lse: LogSumExp, steps: seq<Step>, user: nat, side: Side)
    requires Fresh(s, lse) && InPlay(Run(s, lse, steps))
    ensures var now := Run(s, lse, steps);
      && Sum(ContractsOf(user, side), now.positions) == Sum(BoughtOf(user, side), now.trades)
      && Sum(ContractsOn(side), now.positions) == now.Quantity(side)
      && OneRowEach(now.positions) && now.realizedLoss == 0
  {
    RunKeeps(s, lse, steps);
  }

  /** A trader can pay for a trade whose cost does not round to nothing. */
  predicate Affordable(s: State, lse: LogSumExp, user: nat, side: Side, quantity: int)
    requires s.b != 0.0
  {
    var cost := RawCost(s, lse, side, quantity);
    cost > 0 && user < |s.books.wallets| && s.books.wallets[user].available >= cost + CeilDiv(s.feeBps * cost, BPS)
  }

  lemma BuyGoesThrough(s: State, lse: LogSumExp, user: nat, side: Side, quantity: int, pastClose: bool,
          opening: seq<int>)
    requires Inv(s, lse, opening)
    ensures Buy(s, lse, user, side, quantity, pastClose).Some?
      <==> s.status.Open? && !pastClose && quantity > 0 && Affordable(s, lse, user, side, quantity)
  {
    if quantity > 0 && user < |s.books.wallets| {
      var cost := RawCost(s, lse, side, quantity);
      CostIsPositive(s, lse, side, quantity);
      assert s.feeBps * cost >= 0;
      CeilDivBounds(s.feeBps * cost, BPS);
      PaysIffAffordable(s.books, user, cost, CeilDiv(s.feeBps * cost, BPS));
    }
  }

  /** In any reachable market a trade goes through exactly when the market is open, the quantity is
      positive, the cost does not round to nothing and the trader can pay cost and fee: the subsidy
      guard never refuses one. */
  lemma TradeGoesThrough(s: State, lse: LogSumExp, steps: seq<Step>, user: nat, side: Side, quantity: int,
          pastClose: bool)
    requires Fresh(s, lse) && InPlay(Run(s, lse, steps))
    ensures var now := Run(s, lse, steps);
      Buy(now, lse, user, side, quantity, pastClose).Some? <==>
        now.status.Open? && !pastClose && quantity > 0 && Affordable(now, lse, user, side, quantity)
  {
    RunKeeps(s, lse, steps);
    BuyGoesThrough(Run(s, lse, steps), lse, user, side, quantity, pastClose, OpeningOf(s.books.wallets));
  }

  lemma PaysIffAffordable(b: Books, user: nat, cost: int, fee: int)
    requires user < |b.wallets| && WalletsSound(b) && cost >= 0 && fee >= 0
    ensures Pay(b, user, cost, fee).Some? <==> cost > 0 && b.wallets[user].available >= cost + fee
  {
  }

  /** Every fee is the spread rate on the trade's cost, rounded up. */
  lemma FeesFollowRate(s: State, lse: LogSumExp, steps: seq<Step>, k: nat)
    requires Fresh(s, lse) && InPlay(Run(s, lse, steps)) && k < |Run(s, lse, steps).trades|
    ensures var now := Run(s, lse, steps);
      now.feeBps * now.trades[k].cost <= now.trades[k].fee * 10_000 < now.feeBps * now.trades[k].cost + 10_000
  {
    RunKeeps(s, lse, steps);
    assert TradeSound(Run(s, lse, steps), Run(s, lse, steps).trades[k]);
  }

  /** No trade of any run costs more than its contracts can pay, and none is free. */
  lemma ContractsCostWithinPayout(s: State, lse: LogSumExp, steps: seq<Step>, k: nat)
    requires Fresh(s, lse) && InPlay(Run(s, lse, steps)) && k < |Run(s, lse, steps).trades|
    ensures var t := Run(s, lse, steps).trades[k]; 0 < t.cost <= 100 * t.quantity
  {
    RunKeeps(s, lse, steps);
    assert TradeSound(Run(s, lse, steps), Run(s, lse, steps).trades[k]);
  }

  lemma {:induction false} ReservesUntouched(s: State, lse: LogSumExp, steps: seq<Step>, user: nat)
    requires Fresh(s, lse) && InPlay(Run(s, lse, steps)) && user < |s.books.wallets|
    ensures |Run(s, lse, steps).books.wallets| == |s.books.wallets|
    ensures Run(s, lse, steps).books.wallets[user].reserved == s.books.wallets[user].reserved
  {
    if steps != [] {
      assert InPlay(Run(s, lse, steps[..|steps| - 1]));
      ReservesUntouched(s, lse, steps[..|steps| - 1], user);
    }
  }

  /** Cancelling a market returns every trader everything except fees. */
  lemma CancelReturnsAllButFees(s: State, lse: LogSumExp, steps: seq<Step>, reason: string, user: nat)
    requires Fresh(s, lse) && InPlay(Run(s, lse, steps)) && |reason| >= 10 && user < |s.books.wallets|
    ensures var now := Run(s, lse, steps);
            var r := CancelMarket(now, reason);
      && r.Some? && |r.value.books.wallets| == |s.books.wallets|
      && r.value.books.wallets[user]
           == s.books.wallets[user].(available := s.books.wallets[user].available - Sum(FeesOf(user), now.trades))
  {
    RunKeeps(s, lse, steps);
    ReservesUntouched(s, lse, steps, user);
    var now := Run(s, lse, steps);
    var opening := OpeningOf(s.books.wallets);
    var cancelled := CancelRefunds(now, lse, reason, opening);
    assert Drift(now.books, opening, user) == 0;
  }

  /** Single payout: a market that has ended was settled, having paid one side's contracts once, or
      cancelled, having paid no winners; and no later call changes anything. */
  lemma EndedIsFinal(s: State, lse: LogSumExp, steps: seq<Step>, step: Step)
    requires Fresh(s, lse) && !InPlay(Run(s, lse, steps))
    ensures PaidUp(Run(s, lse, steps)) && Next(Run(s, lse, steps), lse, step) == Run(s, lse, steps)
  {
    AlwaysKept(s, lse, steps);
  }
}
