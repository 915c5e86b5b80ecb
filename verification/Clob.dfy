/** The order-book market as a state machine: what each service call does to the tables.
    Every function returns None where the service raises, which rolls its transaction back. */
module Clob {
  import opened Sums
  import opened Ledgers
  import opened Orders

  /** One market's tables; an order's id is its position, which is also its age. */
  datatype State = State(status: MarketStatus, feeBps: nat, orders: seq<Order>, books: Books)

  datatype Params = Params(user: nat, side: Side, direction: Direction, price: int, quantity: int, tif: TimeInForce)

  // ----- Clob::OrderMatchingService

  function NewOrder(p: Params): Order {
    Order(p.user, p.side, p.direction, p.price, p.quantity, 0, 0, p.tif, OrderStatus.Open)
  }

  predicate ValidParams(s: State, p: Params) {
    1 <= p.price <= 99 && p.quantity > 0 && p.user < |s.books.wallets|
  }

  function WithBooks(s: State, b: Option<Books>): Option<State> {
    if b.None? then None else Some(s.(books := b.value))
  }

  function ReserveFunds(s: State, id: nat): (r: Option<State>)
    requires id < |s.orders|
    ensures r.Some? ==> |r.value.orders| == |s.orders|
  {
    var o := s.orders[id];
    WithBooks(s, Move(s.books, o.user, -(o.price * o.quantity), o.price * o.quantity))
  }

  /** Net position less what the user's other live sells of that side already offer. */
  function FreeToSell(s: State, id: nat): int
    requires id < |s.orders|
  {
    var o := s.orders[id];
    Sum(NetOf(o.user, o.side), s.orders) - (Sum(CommittedOf(o.user, o.side), s.orders) - o.Offers(o.side))
  }

  /** `count_matchable_quantity` from position `k` of the resting list on. */
  function CountFrom(orders: seq<Order>, inc: nat, list: seq<nat>, k: nat, total: int): int
    requires inc < |orders| && Within(list, |orders|)
    decreases |list| - k
  {
    if k >= |list| || !Compatible(orders[inc], orders[list[k]]) then total
    else
      var t := total + orders[list[k]].Unfilled();
      if t >= orders[inc].quantity then t else CountFrom(orders, inc, list, k + 1, t)
  }

  function CountMatchable(orders: seq<Order>, inc: nat): int
    requires inc < |orders|
  {
    CountFrom(orders, inc, Resting(orders, inc), 0, 0)
  }

  function FillBoth(orders: seq<Order>, a: nat, b: nat, qty: int): (r: seq<Order>)
    requires a < |orders| && b < |orders|
    ensures |r| == |orders|
  {
    var first := orders[a := orders[a].Fill(qty)];
    first[b := first[b].Fill(qty)]
  }

  /** `execute_fill!`: both parties pay their own price out of reserve, the taker pays the fee. */
  function BuyFill(s: State, taker: nat, maker: nat, qty: int): (r: Option<State>)
    requires taker < |s.orders| && maker < |s.orders|
    ensures r.Some? ==> |r.value.orders| == |s.orders|
  {
    var t, m := s.orders[taker], s.orders[maker];
    var b1 :- Move(s.books, m.user, 0, -(m.price * qty));
    var b2 :- Move(b1, t.user, 0, -(t.price * qty));
    var b3 :- Post(b2, Entry(t.user, OrderFillStake, Debit, t.price * qty));
    var b4 :- Post(b3, Entry(m.user, OrderFillCredit, Credit, m.price * qty));
    var b5 :- ChargeFee(b4, t.user, CeilDiv(s.feeBps * (t.price * qty), BPS));
    Some(s.(orders := FillBoth(s.orders, taker, maker, qty), books := b5))
  }

  function ChargeFee(b: Books, user: nat, fee: int): Option<Books> {
    if fee <= 0 then Some(b)
    else
      var posted :- Post(b, Entry(user, ClobFee, Debit, fee));
      Move(posted, user, -fee, 0)
  }

  /** `execute_sell_fill!`: the buyer's reserve pays the seller at the fill price. */
  function SellFill(s: State, sell: nat, buy: nat, qty: int, price: int): (r: Option<State>)
    requires sell < |s.orders| && buy < |s.orders|
    ensures r.Some? ==> |r.value.orders| == |s.orders|
  {
    var seller, buyer := s.orders[sell].user, s.orders[buy].user;
    var b1 :- Move(s.books, buyer, 0, -(price * qty));
    var b2 :- Move(b1, seller, price * qty, 0);
    var b3 :- Post(b2, Entry(seller, ClobSellCredit, Credit, price * qty));
    var b4 :- Post(b3, Entry(buyer, OrderFillStake, Debit, price * qty));
    Some(s.(orders := FillBoth(s.orders, sell, buy, qty), books := b4))
  }

  /** One turn of the matching loop. An incoming buy goes to `execute_fill!` even against a sell. */
  function FillOne(s: State, inc: nat, rest: nat): (r: Option<State>)
    requires inc < |s.orders| && rest < |s.orders|
    ensures r.Some? ==> |r.value.orders| == |s.orders|
  {
    var i, r := s.orders[inc], s.orders[rest];
    var qty := Min(i.Unfilled(), r.Unfilled());
    if i.direction.Sell? then SellFill(s, inc, rest, qty, r.price) else BuyFill(s, inc, rest, qty)
  }

  /** `match!` from position `k` of the resting list on. */
  function MatchFrom(s: State, inc: nat, list: seq<nat>, k: nat): (r: Option<State>)
    requires inc < |s.orders| && Within(list, |s.orders|)
    ensures r.Some? ==> |r.value.orders| == |s.orders|
    decreases |list| - k
  {
    if k >= |list| || s.orders[inc].Unfilled() <= 0 || !Compatible(s.orders[inc], s.orders[list[k]]) then Some(s)
    else
      var next :- FillOne(s, inc, list[k]);
      MatchFrom(next, inc, list, k + 1)
  }

  function CancelRemainder(s: State, id: nat): (r: Option<State>)
    requires id < |s.orders|
    ensures r.Some? ==> |r.value.orders| == |s.orders|
  {
    var o := s.orders[id];
    if o.Unfilled() <= 0 then Some(s)
    else
      var s' := s.(orders := s.orders[id := o.CancelRemainder()]);
      if o.direction.Sell? then Some(s')
      else WithBooks(s', Move(s.books, o.user, o.price * o.Unfilled(), -(o.price * o.Unfilled())))
  }

  function ApplyTif(s: State, id: nat): (r: Option<State>)
    requires id < |s.orders|
    ensures r.Some? ==> |r.value.orders| == |s.orders|
  {
    var o := s.orders[id];
    if o.status.Filled? || o.status.Cancelled? || !o.tif.IOC? then Some(s) else CancelRemainder(s, id)
  }

  /** The order row is in the table and its funds or contracts are secured. */
  function Admit(s: State, p: Params, pastClose: bool): (r: Option<State>)
    ensures r.Some? ==> |r.value.orders| == |s.orders| + 1
  {
    if !s.status.Open? || pastClose || !ValidParams(s, p) then None
    else
      var id := |s.orders|;
      var s' := s.(orders := s.orders + [NewOrder(p)]);
      if p.direction.Buy? then ReserveFunds(s', id)
      else if FreeToSell(s', id) < p.quantity then None
      else Some(s')
  }

  /** The fill-or-kill check, the matching loop and time in force. */
  function Execute(s: State, id: nat): (r: Option<State>)
    requires id < |s.orders|
    ensures r.Some? ==> |r.value.orders| == |s.orders|
  {
    var o := s.orders[id];
    if o.tif.FOK? && CountMatchable(s.orders, id) < o.quantity then CancelRemainder(s, id)
    else
      var matched :- MatchFrom(s, id, Resting(s.orders, id), 0);
      ApplyTif(matched, id)
  }

  /** `call`: `pastClose` is the reading of the clock against `close_at`. */
  function Place(s: State, p: Params, pastClose: bool): (r: Option<State>)
    ensures r.Some? ==> |r.value.orders| == |s.orders| + 1
  {
    var admitted :- Admit(s, p, pastClose);
    Execute(admitted, |s.orders|)
  }

  // ----- Clob::OrderCancellationService

  function CancelOrder(s: State, id: nat): Option<State> {
    if id >= |s.orders| || !s.orders[id].Live() then None
    else
      var o := s.orders[id];
      WithBooks(s.(orders := s.orders[id := o.Cancel()]),
                Move(s.books, o.user, o.ReservedMinor(), -o.ReservedMinor()))
  }

  // ----- releasing the whole book, in settlement and in market cancellation

  /** Cancel order `i` and release its reservation; market cancellation caps the release at
      what the wallet still has in reserve. */
  function ReleaseOne(s: State, i: nat, capped: bool): (r: Option<State>)
    requires i < |s.orders|
    ensures r.Some? ==> |r.value.orders| == |s.orders|
  {
    var o := s.orders[i];
    if capped && o.user >= |s.books.wallets| then None
    else
      var released := if capped then Min(o.ReservedMinor(), s.books.wallets[o.user].reserved) else o.ReservedMinor();
      var s' := s.(orders := s.orders[i := o.Cancel()]);
      if released == 0 then Some(s') else WithBooks(s', Move(s.books, o.user, released, -released))
  }

  function ReleaseFrom(s: State, i: nat, capped: bool): (r: Option<State>)
    ensures r.Some? ==> |r.value.orders| == |s.orders|
    decreases |s.orders| - i
  {
    if i >= |s.orders| then Some(s)
    else if s.orders[i].Live() then
      var next :- ReleaseOne(s, i, capped);
      ReleaseFrom(next, i + 1, capped)
    else ReleaseFrom(s, i + 1, capped)
  }

  // ----- Settlement::ClobSettlementHandler

  predicate HasFills(orders: seq<Order>, user: nat, side: Side) {
    exists i :: 0 <= i < |orders| && orders[i].user == user && orders[i].side == side && orders[i].filled != 0
  }

  function PayOne(b: Books, orders: seq<Order>, side: Side, user: nat): (r: Option<Books>)
    ensures r.Some? ==> |r.value.wallets| == |b.wallets|
  {
    var net := Sum(NetOf(user, side), orders);
    if HasFills(orders, user, side) && net > 0
    then MoveAndPost(b, net * CONTRACT_MINOR, Entry(user, SettlementWin, Credit, net * CONTRACT_MINOR))
    else Some(b)
  }

  function PayFrom(b: Books, orders: seq<Order>, side: Side, user: nat): Option<Books>
    decreases |b.wallets| - user
  {
    if user >= |b.wallets| then Some(b)
    else
      var next :- PayOne(b, orders, side, user);
      PayFrom(next, orders, side, user + 1)
  }

  /** `SettlementService.settle!` with its status guard. */
  function Settle(s: State, outcome: Side): Option<State> {
    if !(s.status.Open? || s.status.Closed?) then None
    else
      var released :- ReleaseFrom(s, 0, false);
      var paid :- PayFrom(released.books, released.orders, outcome, 0);
      Some(released.(books := paid, status := MarketStatus.Settled))
  }

  // ----- MarketCancellationService on a CLOB market

  datatype Pass = Stakes | Sales | Fees

  predicate Counted(pass: Pass, kind: Kind) {
    match pass
    case Stakes => kind.OrderFillStake? || kind.OrderFillCredit?
    case Sales => kind.ClobSellCredit?
    case Fees => kind.ClobFee?
  }

  /** One pass over the first `n` ledger rows. */
  function TallyPass(t: Tally, ledger: seq<Entry>, n: nat, pass: Pass): Tally
    requires n <= |ledger|
  {
    if n == 0 then t
    else
      var before := TallyPass(t, ledger, n - 1, pass);
      var e := ledger[n - 1];
      if !Counted(pass, e.kind) then before
      else before.Add(e.user, if pass.Sales? then -e.amount else e.amount)
  }

  function Outlays(ledger: seq<Entry>): Tally {
    var stakes := TallyPass(Tally([], map[]), ledger, |ledger|, Stakes);
    var sales := TallyPass(stakes, ledger, |ledger|, Sales);
    TallyPass(sales, ledger, |ledger|, Fees)
  }

  /** Books under repair, with the totals the service reports. */
  datatype Undo = Undo(books: Books, refunded: int, clawedBack: int, shortfall: int)

  /** `credit!` or `clawback!`, by the sign of the user's outlay. */
  function UndoOne(u: Undo, user: nat, amount: int): Option<Undo> {
    if amount > 0 then
      var b :- MoveAndPost(u.books, amount, Entry(user, MarketCancelRefund, Credit, amount));
      Some(u.(books := b, refunded := u.refunded + amount))
    else if amount == 0 then Some(u)
    else if user >= |u.books.wallets| then None
    else
      var taken := Min(-amount, u.books.wallets[user].available);
      var b :- MoveAndPost(u.books, -taken, Entry(user, MarketCancelClawback(-amount), Debit, taken));
      Some(u.(books := b, clawedBack := u.clawedBack + taken, shortfall := u.shortfall + (-amount - taken)))
  }

  function UndoFrom(u: Undo, t: Tally, k: nat): Option<Undo>
    decreases |t.users| - k
  {
    if k >= |t.users| then Some(u)
    else
      var next :- UndoOne(u, t.users[k], t.At(t.users[k]));
      UndoFrom(next, t, k + 1)
  }

  /** `refund_clob!`. */
  function RefundClob(s: State): Option<(State, Undo)> {
    var released :- ReleaseFrom(s, 0, true);
    var undo :- UndoFrom(Undo(released.books, 0, 0, 0), Outlays(released.books.ledger), 0);
    Some((released.(books := undo.books), undo))
  }

  /** `MarketCancellationService#call`; the reason arrives stripped. */
  function CancelMarket(s: State, reason: string): Option<(State, Undo)> {
    if |reason| < MIN_REASON || !(s.status.Open? || s.status.Closed?) then None
    else
      var r :- RefundClob(s);
      Some((r.0.(status := MarketStatus.Cancelled), r.1))
  }

  // ----- runs

  /** A call of one of the services, the closing job, or other markets at work on the same wallets. */
  datatype Step =
    | PlaceOrder(params: Params, pastClose: bool)
    | Withdraw(order: nat)
    | CloseMarket
    | SettleMarket(outcome: Side)
    | AbortMarket(reason: string)
    | Elsewhere(user: nat, toAvailable: int, toReserved: int)

  /** What another market, or the faucet, does to a wallet: it moves both columns and records the
      difference it makes to their sum, if any. */
  function MoveElsewhere(s: State, user: nat, toAvailable: int, toReserved: int): Option<State> {
    var moved :- Move(s.books, user, toAvailable, toReserved);
    var amount := toAvailable + toReserved;
    WithBooks(s, if amount == 0 then Some(moved) else Post(moved, ElsewhereRow(user, amount)))
  }

  function ElsewhereRow(user: nat, amount: int): (e: Entry)
    ensures Signed(e) == amount
  {
    if amount < 0 then Entry(user, Kind.Elsewhere, Debit, -amount) else Entry(user, Kind.Elsewhere, Credit, amount)
  }

  function Attempt(s: State, step: Step): Option<State> {
    match step
    case PlaceOrder(p, pastClose) => Place(s, p, pastClose)
    case Withdraw(id) => CancelOrder(s, id)
    case CloseMarket => if s.status.Open? then Some(s.(status := MarketStatus.Closed)) else None
    case SettleMarket(outcome) => Settle(s, outcome)
    case AbortMarket(reason) => (var r :- CancelMarket(s, reason); Some(r.0))
    case Elsewhere(user, toAvailable, toReserved) => MoveElsewhere(s, user, toAvailable, toReserved)
  }

  /** A raised error rolls the transaction back, so a failed step leaves the state as it was. */
  function Next(s: State, step: Step): State {
    var r := Attempt(s, step);
    if r.Some? then r.value else s
  }

  function Run(s: State, steps: seq<Step>): State {
    if steps == [] then s else Next(Run(s, steps[..|steps| - 1]), steps[|steps| - 1])
  }

  /** A market just opened: no orders and an empty ledger. The wallets are anybody's: their reserves
      may hold money for orders in other markets. */
  ghost predicate Fresh(s: State) {
    s.status.Open? && s.orders == [] && s.books.ledger == [] && WalletsSound(s.books)
  }
}
