/** What every step keeps: backing, parity, no overselling, replay. */
module ClobInvariant {
  import opened Sums
  import opened Ledgers
  import opened Orders
  import opened Clob
  import opened ClobMatching
  import opened ClobPlacement

  // ----- measures

  /** Cash that fills have collected and not paid out again. */
  function Collected(): (f: Entry -> int)
    ensures forall e :: f(e) == if e.kind.OrderFillStake? || e.kind.OrderFillCredit? then e.amount
                                else if e.kind.ClobSellCredit? then -e.amount else 0
  {
    (e: Entry) => if e.kind.OrderFillStake? || e.kind.OrderFillCredit? then e.amount
                  else if e.kind.ClobSellCredit? then -e.amount else 0
  }

  function Escrow(s: State): int {
    Sum(Collected(), s.books.ledger)
  }

  function Pairs(s: State, side: Side): int {
    Sum(OpenInterest(side), s.orders)
  }

  function Net(s: State, user: nat, side: Side): int {
    Sum(NetOf(user, side), s.orders)
  }

  function OnOffer(s: State, user: nat, side: Side): int {
    Sum(CommittedOf(user, side), s.orders)
  }

  function Claimed(s: State, user: nat): int {
    Sum(ClaimsOf(user), s.orders)
  }

  /** Money a user's live buys still need but their reserve no longer holds. */
  function Deficit(s: State, user: nat): int {
    Claimed(s, user) - if user < |s.books.wallets| then s.books.wallets[user].reserved else 0
  }

  // ----- the invariant

  ghost predicate NoOversell(s: State) {
    forall u: nat, side :: OnOffer(s, u, side) <= Net(s, u, side)
  }

  ghost predicate Backed(s: State) {
    && Pairs(s, YES) == Pairs(s, NO)
    && Escrow(s) >= 100 * Pairs(s, YES)
  }

  ghost predicate Core(s: State, opening: seq<int>) {
    && Sound(s)
    && BooksSound(s.books, opening)
    && NoOversell(s)
    && Backed(s)
  }

  // ----- one fill

  lemma FillDeltas(o: Order, qty: int)
    requires o.Sound() && 0 < qty <= o.Unfilled()
    ensures o.Fill(qty).Claims() == o.Claims() - if o.direction.Buy? then o.price * qty else 0
    ensures forall s :: o.Fill(qty).Offers(s) == o.Offers(s) - if o.direction.Sell? && o.side == s then qty else 0
    ensures forall s ::
      o.Fill(qty).Holds(s) == o.Holds(s) + if o.side != s then 0 else if o.direction.Buy? then qty else -qty
  {
    assert o.price * (o.Unfilled() - qty) == o.price * o.Unfilled() - o.price * qty;
  }

  lemma FillBothSum(f: Order -> int, orders: seq<Order>, a: nat, b: nat, qty: int)
    requires a < |orders| && b < |orders| && a != b
    ensures Sum(f, FillBoth(orders, a, b, qty))
         == Sum(f, orders) + f(orders[a].Fill(qty)) - f(orders[a]) + f(orders[b].Fill(qty)) - f(orders[b])
  {
    SumUpdate(f, orders, a, orders[a].Fill(qty));
    SumUpdate(f, orders[a := orders[a].Fill(qty)], b, orders[b].Fill(qty));
  }

  /** The stake `user` has in `qty` contracts at row `o`'s price, and the part of it a reserve holds. */
  function Stake(o: Order, user: nat, qty: int): int {
    if o.user == user then o.price * qty else 0
  }

  function HeldStake(o: Order, user: nat, qty: int): int {
    if o.user == user && o.direction.Buy? then o.price * qty else 0
  }

  /** Contracts of `side` that come into being when rows `a` and `b` trade `qty`. */
  function Minted(a: Order, b: Order, side: Side, qty: int): int {
    if a.direction != b.direction then 0
    else (if a.side == side then qty else 0) + (if b.side == side then qty else 0)
  }

  /** Two distinct live rows that may trade `qty` contracts. */
  ghost predicate Tradable(s: State, a: nat, b: nat, qty: int) {
    && Sound(s) && a < |s.orders| && b < |s.orders| && a != b
    && 0 < qty <= s.orders[a].Unfilled() && qty <= s.orders[b].Unfilled()
  }

  /** Positions after a fill: buyers gain what is bought, sellers give up what is offered. */
  lemma FillPositions(s: State, a: nat, b: nat, qty: int, s': State)
    requires Tradable(s, a, b, qty) && s'.orders == FillBoth(s.orders, a, b, qty)
    requires s.orders[a].direction.Sell? || s.orders[b].direction.Sell? ==>
      s.orders[a].side == s.orders[b].side && s.orders[a].direction != s.orders[b].direction
    requires NoOversell(s)
    ensures NoOversell(s')
    ensures forall side :: Pairs(s', side) == Pairs(s, side) + Minted(s.orders[a], s.orders[b], side, qty)
  {
    FillDeltas(s.orders[a], qty);
    FillDeltas(s.orders[b], qty);
    forall side ensures Pairs(s', side) == Pairs(s, side) + Minted(s.orders[a], s.orders[b], side, qty)
    {
      FillBothSum(OpenInterest(side), s.orders, a, b, qty);
    }
    forall u: nat, side ensures OnOffer(s', u, side) <= Net(s', u, side) {
      FillBothSum(CommittedOf(u, side), s.orders, a, b, qty);
      FillBothSum(NetOf(u, side), s.orders, a, b, qty);
      assert OnOffer(s, u, side) <= Net(s, u, side);
    }
  }

  /** Claims after a fill: each buying row needs `qty` contracts' worth less. */
  lemma FillClaims(s: State, a: nat, b: nat, qty: int, s': State)
    requires Tradable(s, a, b, qty) && s'.orders == FillBoth(s.orders, a, b, qty)
    ensures forall u: nat ::
      Claimed(s', u) == Claimed(s, u) - HeldStake(s.orders[a], u, qty) - HeldStake(s.orders[b], u, qty)
  {
    FillDeltas(s.orders[a], qty);
    FillDeltas(s.orders[b], qty);
    forall u: nat ensures Claimed(s', u)
         == Claimed(s, u) - HeldStake(s.orders[a], u, qty) - HeldStake(s.orders[b], u, qty)
    {
      FillBothSum(ClaimsOf(u), s.orders, a, b, qty);
    }
  }

  /** The books after a buy fill: both stakes leave the reserves into escrow, the fee is charged. */
  lemma BuyFillBooks(s: State, t: nat, m: nat, qty: int, s': State, opening: seq<int>)
    requires Tradable(s, t, m, qty) && BuyFill(s, t, m, qty) == Some(s') && BooksSound(s.books, opening)
    ensures BooksSound(s'.books, opening) && s'.orders == FillBoth(s.orders, t, m, qty)
    ensures s'.status == s.status && s'.feeBps == s.feeBps
    ensures Escrow(s') == Escrow(s) + s.orders[t].price * qty + s.orders[m].price * qty
    ensures forall u :: 0 <= u < |s.books.wallets| ==>
      s'.books.wallets[u].reserved
           == s.books.wallets[u].reserved - Stake(s.orders[t], u, qty) - Stake(s.orders[m], u, qty)
  {
    var tu, mu := s.orders[t].user, s.orders[m].user;
    var ts, ms := s.orders[t].price * qty, s.orders[m].price * qty;
    var b1 := Move(s.books, mu, 0, -ms).value;
    var b2 := Move(b1, tu, 0, -ts).value;
    var b4 := StakesLeave(s.books, tu, ts, mu, ms, b1, b2, opening);
    FeeDrifts(b4, tu, CeilDiv(s.feeBps * ts, BPS), s'.books, opening);
  }

  /** Before the fee: two stakes out of two reserves, or one, and into the ledger. */
  ghost predicate StakesMoved(b: Books, tu: nat, ts: int, mu: nat, ms: int, b': Books, opening: seq<int>)
    requires |opening| == |b.wallets|
  {
    && |b'.wallets| == |b.wallets| && WalletsSound(b') && OwnersKnown(b')
    && (forall u: nat :: Drift(b', opening, u) == Drift(b, opening, u))
    && Sum(Collected(), b'.ledger) == Sum(Collected(), b.ledger) + ts + ms
    && forall u :: 0 <= u < |b.wallets| ==>
      b'.wallets[u].reserved == b.wallets[u].reserved - (if u == tu then ts else 0) - (if u == mu then ms else 0)
  }

  lemma StakesLeave(b: Books, tu: nat, ts: int, mu: nat, ms: int, b1: Books, b2: Books, opening: seq<int>)
    returns (b4: Books)
    requires BooksSound(b, opening) && ts > 0 && ms > 0
    requires Move(b, mu, 0, -ms) == Some(b1) && Move(b1, tu, 0, -ts) == Some(b2)
    ensures b4
         == b2.(ledger := b2.ledger + [Entry(tu, OrderFillStake, Debit, ts)] + [Entry(mu, OrderFillCredit, Credit, ms)])
    ensures StakesMoved(b, tu, ts, mu, ms, b4, opening)
  {
    var e3, e4 := Entry(tu, OrderFillStake, Debit, ts), Entry(mu, OrderFillCredit, Credit, ms);
    var b3 := b2.(ledger := b2.ledger + [e3]);
    b4 := b3.(ledger := b3.ledger + [e4]);
    TwoMoves(b, mu, 0, -ms, b1, tu, 0, -ts, b2, opening);
    TwoPosts(b2, e3, b3, e4, b4, opening);
  }

  /** Two wallets updated, one after the other; they may be the same wallet. */
  lemma TwoMoves(b: Books, u1: nat, a1: int, r1: int, b1: Books, u2: nat, a2: int, r2: int, b2: Books,
          opening: seq<int>)
    requires |opening| == |b.wallets| && WalletsSound(b) && OwnersKnown(b)
    requires Move(b, u1, a1, r1) == Some(b1) && Move(b1, u2, a2, r2) == Some(b2)
    ensures |b2.wallets| == |b.wallets| && b2.ledger == b.ledger && WalletsSound(b2) && OwnersKnown(b2)
    ensures forall u: nat ::
      Drift(b2, opening, u)
           == Drift(b, opening, u) + (if u == u1 then a1 + r1 else 0) + (if u == u2 then a2 + r2 else 0)
    ensures forall u :: 0 <= u < |b.wallets| ==>
      b2.wallets[u].reserved == b.wallets[u].reserved + (if u == u1 then r1 else 0) + (if u == u2 then r2 else 0)
  {
    MoveDrifts(b, u1, a1, r1, b1, opening);
    MoveDrifts(b1, u2, a2, r2, b2, opening);
  }

  lemma TwoPosts(b: Books, e1: Entry, b1: Books, e2: Entry, b2: Books, opening: seq<int>)
    requires |opening| == |b.wallets| && e1.user < |b.wallets| && e2.user < |b.wallets| && OwnersKnown(b)
    requires Post(b, e1) == Some(b1) && Post(b1, e2) == Some(b2)
    ensures b2.wallets == b.wallets && OwnersKnown(b2)
    ensures forall u: nat ::
      Drift(b2, opening, u)
           == Drift(b, opening, u) - (if u == e1.user then Signed(e1) else 0) - (if u == e2.user then Signed(e2) else 0)
    ensures Sum(Collected(), b2.ledger) == Sum(Collected(), b.ledger) + Collected()(e1) + Collected()(e2)
  {
    PostDrifts(b, e1, b1, opening);
    PostDrifts(b1, e2, b2, opening);
    SumAppend(Collected(), b.ledger, e1);
    SumAppend(Collected(), b1.ledger, e2);
  }

  lemma FeeDrifts(b: Books, user: nat, fee: int, b': Books, opening: seq<int>)
    requires |opening| == |b.wallets| && user < |b.wallets| && ChargeFee(b, user, fee) == Some(b')
    requires WalletsSound(b) && OwnersKnown(b)
    ensures forall u: nat :: Drift(b', opening, u) == Drift(b, opening, u)
    ensures Sum(Collected(), b'.ledger) == Sum(Collected(), b.ledger)
    ensures WalletsSound(b') && OwnersKnown(b') && |b'.wallets| == |b.wallets|
    ensures forall u :: 0 <= u < |b.wallets| ==> b'.wallets[u].reserved == b.wallets[u].reserved
  {
    if fee > 0 {
      var e := Entry(user, ClobFee, Debit, fee);
      var posted := Post(b, e).value;
      PostDrifts(b, e, posted, opening);
      MoveDrifts(posted, user, -fee, 0, b', opening);
      SumAppend(Collected(), b.ledger, e);
    }
  }

  /** The books after a sell fill: the buyer's stake passes through escrow to the seller. */
  lemma SellFillBooks(s: State, a: nat, b: nat, qty: int, price: int, s': State, opening: seq<int>)
    requires Tradable(s, a, b, qty) && SellFill(s, a, b, qty, price) == Some(s') && BooksSound(s.books, opening)
    ensures BooksSound(s'.books, opening) && s'.orders == FillBoth(s.orders, a, b, qty)
    ensures s'.status == s.status && s'.feeBps == s.feeBps
    ensures Escrow(s') == Escrow(s)
    ensures forall u :: 0 <= u < |s.books.wallets| ==>
      s'.books.wallets[u].reserved == s.books.wallets[u].reserved - Stake(s.orders[b].(price := price), u, qty)
  {
    var su, bu := s.orders[a].user, s.orders[b].user;
    var cash := price * qty;
    var b1 := Move(s.books, bu, 0, -cash).value;
    var b2 := Move(b1, su, cash, 0).value;
    var e3, e4 := Entry(su, ClobSellCredit, Credit, cash), Entry(bu, OrderFillStake, Debit, cash);
    var b3 := Post(b2, e3).value;
    TwoMoves(s.books, bu, 0, -cash, b1, su, cash, 0, b2, opening);
    TwoPosts(b2, e3, b3, e4, s'.books, opening);
  }

  // ----- the matching loop

  /** The incoming row and a row it may be matched with. */
  predicate MayTrade(i: Order, r: Order) {
    if i.direction.Sell? then r.direction.Buy? && r.side == i.side
    else (r.direction.Sell? <==> r.side == i.side)
  }

  /** Contracts two rows trade when they meet. */
  function Lot(i: Order, r: Order): int {
    Min(i.Unfilled(), r.Unfilled())
  }

  /** What row `o` has been sold for, at its own price, when it stands as `o2` later. Nothing funds
      this when the row is a resting sell, yet it is taken out of the seller's reserve. */
  function SaleValue(o: Order, o2: Order, user: nat): int {
    if o.direction.Sell? && o.user == user then o.price * (o2.filled - o.filled) else 0
  }

  function SaleOf(user: nat): (f: (Order, Order) -> int)
    ensures forall o, o2 :: f(o, o2) == SaleValue(o, o2, user)
  {
    (o, o2) => SaleValue(o, o2, user)
  }

  /** The same for the first `n` rows. */
  function RestingSales(o: seq<Order>, o2: seq<Order>, user: nat, n: nat): int
    requires n <= |o| && n <= |o2|
  {
    SumChange(SaleOf(user), o, o2, n)
  }

  lemma SaleAdds(o: Order, o1: Order, o2: Order, user: nat)
    requires o1.SameTerms(o)
    ensures SaleValue(o, o2, user) == SaleValue(o, o1, user) + SaleValue(o1, o2, user)
  {
    Distributes(o1.filled - o.filled, o2.filled - o1.filled, o.price);
  }

  predicate SoldMore(o: Order, o2: Order, user: nat) {
    o.direction.Sell? && o.user == user && o2.filled > o.filled
  }

  lemma SalesNonNegative(o: seq<Order>, o2: seq<Order>, user: nat, n: nat)
    requires n <= |o| && n <= |o2| && forall i :: 0 <= i < n ==> o[i].price > 0 && o2[i].filled >= o[i].filled
    ensures RestingSales(o, o2, user, n) >= 0
    ensures forall i :: 0 <= i < n && SoldMore(o[i], o2[i], user) ==> RestingSales(o, o2, user, n) > 0
  {
    forall i | 0 <= i < n
      ensures SaleValue(o[i], o2[i], user) >= 0
      ensures SoldMore(o[i], o2[i], user) ==> SaleValue(o[i], o2[i], user) > 0
    {
      assert o[i].price * (o2[i].filled - o[i].filled) >= 0;
    }
    ChangesNonNegative(SaleOf(user), o, o2, n);
  }

  lemma Distributes(a: int, b: int, n: int)
    ensures a * n + b * n == (a + b) * n
  {
  }

  lemma FillOneBooks(s: State, inc: nat, rest: nat, s': State, opening: seq<int>)
    requires inc < |s.orders| && rest < |s.orders| && BooksSound(s.books, opening)
    requires Tradable(s, inc, rest, Lot(s.orders[inc], s.orders[rest])) && FillOne(s, inc, rest) == Some(s')
    ensures BooksSound(s'.books, opening)
    ensures Escrow(s') == Escrow(s) + if s.orders[inc].direction.Sell? then 0
              else (s.orders[inc].price + s.orders[rest].price) * Lot(s.orders[inc], s.orders[rest])
  {
    var i, r := s.orders[inc], s.orders[rest];
    if i.direction.Sell? {
      SellFillBooks(s, inc, rest, Lot(i, r), r.price, s', opening);
    } else {
      BuyFillBooks(s, inc, rest, Lot(i, r), s', opening);
      Distributes(i.price, r.price, Lot(i, r));
    }
  }

  lemma FillOneDeficit(s: State, inc: nat, rest: nat, s': State, opening: seq<int>)
    requires inc < |s.orders| && rest < |s.orders| && BooksSound(s.books, opening)
    requires Tradable(s, inc, rest, Lot(s.orders[inc], s.orders[rest])) && FillOne(s, inc, rest) == Some(s')
    requires MayTrade(s.orders[inc], s.orders[rest])
    ensures |s'.orders| == |s.orders|
    ensures forall u: nat :: Deficit(s', u) == Deficit(s, u) + SaleValue(s.orders[rest], s'.orders[rest], u)
  {
    var i, r := s.orders[inc], s.orders[rest];
    FillClaims(s, inc, rest, Lot(i, r), s');
    if i.direction.Sell? {
      SellFillBooks(s, inc, rest, Lot(i, r), r.price, s', opening);
    } else {
      BuyFillBooks(s, inc, rest, Lot(i, r), s', opening);
    }
  }

  /** Parity, backing and no overselling: a contract only comes into being fully paid. */
  lemma FillBacked(s: State, inc: nat, rest: nat, s': State)
    requires inc < |s.orders| && rest < |s.orders| && NoOversell(s) && Backed(s)
    requires Tradable(s, inc, rest, Lot(s.orders[inc], s.orders[rest]))
    requires MayTrade(s.orders[inc], s.orders[rest]) && Compatible(s.orders[inc], s.orders[rest])
    requires s'.orders == FillBoth(s.orders, inc, rest, Lot(s.orders[inc], s.orders[rest]))
    requires Escrow(s') == Escrow(s) + if s.orders[inc].direction.Sell? then 0
               else (s.orders[inc].price + s.orders[rest].price) * Lot(s.orders[inc], s.orders[rest])
    ensures NoOversell(s') && Backed(s')
  {
    var i, r := s.orders[inc], s.orders[rest];
    FillPositions(s, inc, rest, Lot(i, r), s');
    PaidInFull(i.price + r.price, Lot(i, r));
    assert Pairs(s', YES) == Pairs(s, YES) + Minted(i, r, YES, Lot(i, r));
    assert Pairs(s', NO) == Pairs(s, NO) + Minted(i, r, NO, Lot(i, r));
  }

  lemma PaidInFull(price: int, qty: int)
    requires price >= 0 && qty >= 0
    ensures price * qty >= 0 && (price >= 100 ==> price * qty >= 100 * qty)
  {
  }

  lemma FillOneKeeps(s: State, inc: nat, rest: nat, s': State, opening: seq<int>)
    requires Core(s, opening) && inc < |s.orders| && rest < |s.orders|
    requires Tradable(s, inc, rest, Lot(s.orders[inc], s.orders[rest]))
    requires MayTrade(s.orders[inc], s.orders[rest]) && Compatible(s.orders[inc], s.orders[rest])
    requires FillOne(s, inc, rest) == Some(s')
    ensures Core(s', opening) && s'.orders == FillBoth(s.orders, inc, rest, Lot(s.orders[inc], s.orders[rest]))
    ensures forall u: nat :: Deficit(s', u) == Deficit(s, u) + SaleValue(s.orders[rest], s'.orders[rest], u)
  {
    FillOneShape(s, inc, rest, s');
    FillOneBooks(s, inc, rest, s', opening);
    FillBacked(s, inc, rest, s');
    FillOneDeficit(s, inc, rest, s', opening);
    FillBothKeepsBook(s.orders, |s.books.wallets|, inc, rest, Lot(s.orders[inc], s.orders[rest]));
  }

  ghost predicate Willing(orders: seq<Order>, inc: nat, list: seq<nat>, k: nat)
    requires inc < |orders| && Within(list, |orders|)
  {
    forall a :: k <= a < |list| ==> MayTrade(orders[inc], orders[list[a]])
  }

  /** The matching loop can go on from position `k`. */
  ghost predicate Walkable(s: State, inc: nat, list: seq<nat>, k: nat, opening: seq<int>) {
    Core(s, opening) && Lineup(s.orders, inc, list) && Untouched(s.orders, list, k) && Willing(s.orders, inc, list, k)
  }

  /** The loop fills against position `k`. */
  ghost predicate FillsAt(orders: seq<Order>, inc: nat, list: seq<nat>, k: nat)
    requires inc < |orders| && Within(list, |orders|)
  {
    k < |list| && orders[inc].Unfilled() > 0 && Compatible(orders[inc], orders[list[k]])
  }

  /** One round of the loop: the fill and what the loop goes on with. */
  lemma MatchStep(s: State, inc: nat, list: seq<nat>, k: nat, s': State, opening: seq<int>) returns (s1: State)
    requires Walkable(s, inc, list, k, opening) && FillsAt(s.orders, inc, list, k)
    requires MatchFrom(s, inc, list, k) == Some(s')
    ensures Walkable(s1, inc, list, k + 1, opening)
    ensures FillOne(s, inc, list[k]) == Some(s1) && MatchFrom(s1, inc, list, k + 1) == Some(s')
  {
    s1 := FillOne(s, inc, list[k]).value;
    FillOneShape(s, inc, list[k], s1);
    FillOneKeeps(s, inc, list[k], s1, opening);
  }

  lemma MatchEnds(s: State, inc: nat, list: seq<nat>, k: nat, s': State)
    requires inc < |s.orders| && Within(list, |s.orders|) && !FillsAt(s.orders, inc, list, k)
    requires MatchFrom(s, inc, list, k) == Some(s')
    ensures s' == s
  {
  }

  /** The matching loop keeps the invariant. */
  lemma {:induction false} MatchKeeps(s: State, inc: nat, list: seq<nat>, k: nat, s': State, opening: seq<int>)
    requires k <= |list| && Walkable(s, inc, list, k, opening) && MatchFrom(s, inc, list, k) == Some(s')
    ensures Core(s', opening)
    decreases |list| - k
  {
    if FillsAt(s.orders, inc, list, k) {
      MatchGoesOn(s, inc, list, k, s', opening);
    } else {
      MatchEnds(s, inc, list, k, s');
    }
  }

  lemma {:induction false} MatchGoesOn(s: State, inc: nat, list: seq<nat>, k: nat, s': State, opening: seq<int>)
    requires Walkable(s, inc, list, k, opening) && FillsAt(s.orders, inc, list, k)
    requires MatchFrom(s, inc, list, k) == Some(s')
    ensures Core(s', opening)
    decreases |list| - k, 0
  {
    var s1 := MatchStep(s, inc, list, k, s', opening);
    MatchKeeps(s1, inc, list, k + 1, s', opening);
  }

  /** The same round, seen from one user's deficit. */
  lemma DeficitStep(s: State, inc: nat, list: seq<nat>, k: nat, s': State, opening: seq<int>, user: nat)
      returns (s1: State)
    requires Walkable(s, inc, list, k, opening) && FillsAt(s.orders, inc, list, k)
    requires MatchFrom(s, inc, list, k) == Some(s')
    requires inc + 1 == |s.orders|
    ensures Walkable(s1, inc, list, k + 1, opening) && MatchFrom(s1, inc, list, k + 1) == Some(s')
    ensures |s1.orders| == |s.orders| && forall i :: 0 <= i < |s.orders| ==> s1.orders[i].SameTerms(s.orders[i])
    ensures Deficit(s1, user) == Deficit(s, user) + RestingSales(s.orders, s1.orders, user, inc)
  {
    s1 := MatchStep(s, inc, list, k, s', opening);
    FillOneKeeps(s, inc, list[k], s1, opening);
    OneChange(SaleOf(user), s.orders, s1.orders, inc, list[k]);
  }

  /** The loop takes out of each reserve, over and above what stops being claimed, exactly what the
      user's resting sells were sold for. */
  lemma {:induction false} MatchDeficit(s: State, inc: nat, list: seq<nat>, k: nat, s': State, opening: seq<int>,
          user: nat)
    requires k <= |list| && Walkable(s, inc, list, k, opening) && MatchFrom(s, inc, list, k) == Some(s')
    requires inc + 1 == |s.orders|
    ensures |s'.orders| == |s.orders|
    ensures Deficit(s', user) == Deficit(s, user) + RestingSales(s.orders, s'.orders, user, inc)
    decreases |list| - k
  {
    if FillsAt(s.orders, inc, list, k) {
      DeficitGoesOn(s, inc, list, k, s', opening, user);
    } else {
      MatchEnds(s, inc, list, k, s');
      NoChange(SaleOf(user), s.orders, s.orders, inc);
    }
  }

  lemma {:induction false} DeficitGoesOn(s: State, inc: nat, list: seq<nat>, k: nat, s': State, opening: seq<int>,
          user: nat)
    requires Walkable(s, inc, list, k, opening) && FillsAt(s.orders, inc, list, k)
    requires MatchFrom(s, inc, list, k) == Some(s')
    requires inc + 1 == |s.orders|
    ensures |s'.orders| == |s.orders|
    ensures Deficit(s', user) == Deficit(s, user) + RestingSales(s.orders, s'.orders, user, inc)
    decreases |list| - k, 0
  {
    var s1 := DeficitStep(s, inc, list, k, s', opening, user);
    MatchDeficit(s1, inc, list, k + 1, s', opening, user);
    forall i | 0 <= i < inc
      ensures SaleValue(s.orders[i], s'.orders[i], user)
           == SaleValue(s.orders[i], s1.orders[i], user) + SaleValue(s1.orders[i], s'.orders[i], user)
    {
      SaleAdds(s.orders[i], s1.orders[i], s'.orders[i], user);
    }
    ChangesAdd(SaleOf(user), s.orders, s1.orders, s'.orders, inc);
  }
}
