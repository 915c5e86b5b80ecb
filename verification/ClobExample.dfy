/** Concrete runs, from any fee-free market of three users with enough money, that end where a
    property one might expect of the market fails. */
module ClobExample {
  import opened Sums
  import opened Ledgers
  import opened Orders
  import opened Clob
  import opened ClobPriority
  import opened ClobSteps
  import opened ClobFunding
  import opened ClobUndo
  import opened ClobRuns
  import opened ClobReserves

  // ----- resting lists of small books

  lemma {:induction false} QueueOfNone(orders: seq<Order>, side: Side, direction: Direction, n: nat)
    requires n <= |orders| && forall j :: 0 <= j < n ==> !Candidate(orders[j], side, direction)
    ensures Queue(orders, side, direction, n) == []
  {
    if n > 0 {
      QueueOfNone(orders, side, direction, n - 1);
    }
  }

  lemma {:induction false} QueueOfOne(orders: seq<Order>, side: Side, direction: Direction, i: nat, n: nat)
    requires n <= |orders| && forall j :: 0 <= j < n ==> (Candidate(orders[j], side, direction) <==> j == i)
    ensures Queue(orders, side, direction, n) == if i < n then [i] else []
  {
    if n > 0 {
      QueueOfOne(orders, side, direction, i, n - 1);
    }
  }

  /** A row that a buy of `side` may meet. */
  predicate InLine(side: Side, o: Order) {
    Candidate(o, side, Sell) || Candidate(o, Opposite(side), Direction.Buy)
  }

  /** A buy with one row in its line. */
  lemma LineOfOne(orders: seq<Order>, inc: nat, i: nat)
    requires inc < |orders| && i < |orders| && orders[inc].direction.Buy?
    requires forall j :: 0 <= j < |orders| ==> (InLine(orders[inc].side, orders[j]) <==> j == i)
    ensures Resting(orders, inc) == [i]
  {
    var side := orders[inc].side;
    if orders[i].direction.Sell? {
      QueueOfOne(orders, side, Direction.Sell, i, |orders|);
      QueueOfNone(orders, Opposite(side), Direction.Buy, |orders|);
    } else {
      QueueOfNone(orders, side, Direction.Sell, |orders|);
      QueueOfOne(orders, Opposite(side), Direction.Buy, i, |orders|);
    }
  }

  // ----- single placements

  /** A wallet after setting money aside. */
  function Aside(w: Wallet, amount: int): Wallet {
    Wallet(w.available - amount, w.reserved + amount)
  }

  /** Admission of a buy its owner can pay for. */
  lemma AdmitsBuy(s: State, p: Params) returns (a: State)
    requires s.status.Open? && ValidParams(s, p) && p.direction.Buy? && WalletsSound(s.books)
    requires s.books.wallets[p.user].available >= p.price * p.quantity
    ensures Admit(s, p, false) == Some(a) && WalletsSound(a.books)
    ensures a == State(s.status, s.feeBps, s.orders + [NewOrder(p)], a.books) && a.books.ledger == s.books.ledger
    ensures a.books.wallets == s.books.wallets[p.user := Aside(s.books.wallets[p.user], p.price * p.quantity)]
  {
    assert p.price * p.quantity >= 0;
    a := Admit(s, p, false).value;
  }

  /** An order that meets nobody it crosses simply rests. */
  lemma Rests(s: State, p: Params, a: State)
    requires Admit(s, p, false) == Some(a) && p.tif.GTC? && a.orders == s.orders + [NewOrder(p)]
    requires var list := Resting(a.orders, |s.orders|); list == [] || !Compatible(NewOrder(p), a.orders[list[0]])
    ensures Place(s, p, false) == Some(a)
  {
  }

  function Less(w: Wallet, amount: int): Wallet {
    w.(reserved := w.reserved - amount)
  }

  /** A buy that meets just one row, for one contract, in a market without fees. */
  lemma BuysOne(s: State, p: Params, a: State, i: nat) returns (m: State)
    requires Admit(s, p, false) == Some(a) && p.tif.GTC? && p.quantity == 1 && p.direction.Buy?
    requires a.orders == s.orders + [NewOrder(p)] && i < |s.orders| && a.feeBps == 0
    requires Resting(a.orders, |s.orders|) == [i] && Compatible(NewOrder(p), a.orders[i])
    requires a.orders[i].Unfilled() >= 1 && a.orders[i].price > 0 && p.price > 0 && p.user != a.orders[i].user
    requires a.orders[i].user < |a.books.wallets| && p.user < |a.books.wallets| && WalletsSound(a.books)
    requires a.books.wallets[a.orders[i].user].reserved >= a.orders[i].price
    requires a.books.wallets[p.user].reserved >= p.price
    ensures Place(s, p, false) == Some(m) && m.status == a.status && m.feeBps == 0 && WalletsSound(m.books)
    ensures m.orders == FillBoth(a.orders, |s.orders|, i, 1)
    ensures m.books.ledger == a.books.ledger + [Entry(p.user, OrderFillStake, Debit, p.price)]
                                             + [Entry(a.orders[i].user, OrderFillCredit, Credit, a.orders[i].price)]
    ensures var maker := a.orders[i].user;
      m.books.wallets == a.books.wallets[maker := Less(a.books.wallets[maker], a.orders[i].price)]
                                        [p.user := Less(a.books.wallets[p.user], p.price)]
  {
    m := FillOne(a, |s.orders|, i).value;
    assert MatchFrom(m, |s.orders|, [i], 1) == Some(m);
    assert MatchFrom(a, |s.orders|, [i], 0) == Some(m);
  }

  /** A sell of one contract that meets just one bid. */
  lemma SellsOne(s: State, p: Params, a: State, i: nat) returns (m: State)
    requires Admit(s, p, false) == Some(a) && p.tif.GTC? && p.quantity == 1 && p.direction.Sell?
    requires a.orders == s.orders + [NewOrder(p)] && i < |s.orders|
    requires Resting(a.orders, |s.orders|) == [i] && Compatible(NewOrder(p), a.orders[i])
    requires a.orders[i].Unfilled() >= 1 && a.orders[i].price > 0 && p.user != a.orders[i].user
    requires a.orders[i].user < |a.books.wallets| && p.user < |a.books.wallets| && WalletsSound(a.books)
    requires a.books.wallets[a.orders[i].user].reserved >= a.orders[i].price
    ensures Place(s, p, false) == Some(m) && m.status == a.status && m.feeBps == a.feeBps && WalletsSound(m.books)
    ensures m.orders == FillBoth(a.orders, |s.orders|, i, 1)
    ensures m.books.ledger == a.books.ledger + [Entry(p.user, ClobSellCredit, Credit, a.orders[i].price)]
                                             + [Entry(a.orders[i].user, OrderFillStake, Debit, a.orders[i].price)]
    ensures |m.books.wallets| == |a.books.wallets|
    ensures m.books.wallets[p.user]
         == a.books.wallets[p.user].(available := a.books.wallets[p.user].available + a.orders[i].price)
  {
    m := FillOne(a, |s.orders|, i).value;
    assert MatchFrom(m, |s.orders|, [i], 1) == Some(m);
    assert MatchFrom(a, |s.orders|, [i], 0) == Some(m);
  }

  function Row(user: nat, side: Side, direction: Direction, price: int, quantity: int, filled: int): Order {
    Order(user, side, direction, price, quantity, filled, 0, GTC,
          if filled == quantity then OrderStatus.Filled
          else if filled == 0 then OrderStatus.Open
          else OrderStatus.Partial)
  }

  ghost predicate Trio(s: State) {
    s.status.Open? && s.feeBps == 0 && |s.books.wallets| == 3 && WalletsSound(s.books)
  }

  /** A sell of one contract by a user who holds one and offers none is admitted as it stands. */
  lemma AdmitsSell(s: State, p: Params) returns (a: State)
    requires Trio(s) && ValidParams(s, p) && p.direction.Sell? && p.quantity == 1
    requires Sum(NetOf(p.user, p.side), s.orders) == 1 && Sum(CommittedOf(p.user, p.side), s.orders) == 0
    ensures a == s.(orders := s.orders + [NewOrder(p)]) && Admit(s, p, false) == Some(a)
  {
    a := s.(orders := s.orders + [NewOrder(p)]);
    SumAppend(NetOf(p.user, p.side), s.orders, NewOrder(p));
    SumAppend(CommittedOf(p.user, p.side), s.orders, NewOrder(p));
  }

  lemma SumTwo(f: Order -> int, orders: seq<Order>)
    requires |orders| == 2
    ensures Sum(f, orders) == f(orders[0]) + f(orders[1])
  {
    assert orders[..1] == [orders[0]] && [orders[0]][..0] == [];
    assert Sum(f, [orders[0]]) == f(orders[0]);
  }

  lemma FillPair(orders: seq<Order>, a: nat, b: nat, x: Order, y: Order)
    requires a < |orders| && b < |orders| && a != b && orders[a].Fill(1) == x && orders[b].Fill(1) == y
    ensures FillBoth(orders, a, b, 1) == orders[a := x][b := y]
  {
  }

  // ----- runs

  lemma RunSnoc(s: State, steps: seq<Step>, now: State, step: Step, next: State)
    requires Run(s, steps) == now && Attempt(now, step) == Some(next)
    ensures Run(s, steps + [step]) == next
  {
    assert (steps + [step])[..|steps|] == steps;
  }

  lemma RunThree(s: State, start: seq<Step>, m: State, x: Step, s1: State, y: Step, s2: State, z: Step, s3: State)
    requires Run(s, start) == m && Attempt(m, x) == Some(s1) && Attempt(s1, y) == Some(s2) && Attempt(s2, z) == Some(s3)
    ensures Run(s, start + [x] + [y] + [z]) == s3
  {
    RunSnoc(s, start, m, x, s1);
    RunSnoc(s, start + [x], s1, y, s2);
    RunSnoc(s, start + [x] + [y], s2, z, s3);
  }

  /** The market once user 0's bid for `n` YES at 50 has met user 1's for one NO at 50. */
  ghost predicate Minted(s: State, m: State, n: int) {
    && Trio(s) && Trio(m) && s.orders == [] && s.books.ledger == []
    && m.orders == [Row(0, YES, Direction.Buy, 50, n, 1)] + [Row(1, NO, Direction.Buy, 50, 1, 1)]
    && m.books.ledger == [] + [Entry(1, OrderFillStake, Debit, 50)] + [Entry(0, OrderFillCredit, Credit, 50)]
    && m.books.wallets[0] == Less(Aside(s.books.wallets[0], 50 * n), 50)
    && m.books.wallets[1] == Less(Aside(s.books.wallets[1], 50), 50)
    && m.books.wallets[2] == s.books.wallets[2]
  }

  lemma BidRests(s: State, p: Params) returns (a: State)
    requires Trio(s) && s.orders == [] && p.quantity > 0 && s.books.wallets[0].available >= 50 * p.quantity
    requires p == Params(0, YES, Direction.Buy, 50, p.quantity, GTC)
    ensures Place(s, p, false) == Some(a) && Trio(a) && a.orders == [Row(0, YES, Direction.Buy, 50, p.quantity, 0)]
    ensures a.books == s.books.(wallets := s.books.wallets[0 := Aside(s.books.wallets[0], 50 * p.quantity)])
  {
    a := AdmitsBuy(s, p);
    assert a.orders == [NewOrder(p)];
    QueueOfNone(a.orders, YES, Direction.Sell, 1);
    QueueOfNone(a.orders, NO, Direction.Buy, 1);
    Rests(s, p, a);
  }

  lemma CounterTrades(s: State, n: int, p: Params) returns (m: State)
    requires Trio(s) && n > 0 && s.orders == [Row(0, YES, Direction.Buy, 50, n, 0)]
    requires s.books.wallets[0].reserved >= 50 && s.books.wallets[1].available >= 50
    requires p == Params(1, NO, Direction.Buy, 50, 1, GTC)
    ensures Place(s, p, false) == Some(m) && Trio(m)
    ensures m.orders == [Row(0, YES, Direction.Buy, 50, n, 1)] + [Row(1, NO, Direction.Buy, 50, 1, 1)]
    ensures m.books.ledger
         == s.books.ledger + [Entry(1, OrderFillStake, Debit, 50)] + [Entry(0, OrderFillCredit, Credit, 50)]
    ensures m.books.wallets[0] == Less(s.books.wallets[0], 50) && m.books.wallets[2] == s.books.wallets[2]
    ensures m.books.wallets[1] == Less(Aside(s.books.wallets[1], 50), 50)
  {
    var a := AdmitsBuy(s, p);
    LineOfOne(a.orders, 1, 0);
    m := BuysOne(s, p, a, 0);
    FillPair(a.orders, 1, 0, Row(1, NO, Direction.Buy, 50, 1, 1), Row(0, YES, Direction.Buy, 50, n, 1));
  }

  lemma MintsPair(s: State, n: int) returns (steps: seq<Step>, m: State)
    requires Fresh(s) && s.feeBps == 0 && |s.books.wallets| == 3 && n > 0
    requires s.books.wallets[0].available >= 50 * n && s.books.wallets[1].available >= 50
    ensures Run(s, steps) == m && Minted(s, m, n) && NothingElsewhere(steps)
  {
    var bid, counter := Params(0, YES, Direction.Buy, 50, n, GTC), Params(1, NO, Direction.Buy, 50, 1, GTC);
    var s1 := BidRests(s, bid);
    m := CounterTrades(s1, n, counter);
    RunSnoc(s, [], s, PlaceOrder(bid, false), s1);
    RunSnoc(s, [] + [PlaceOrder(bid, false)], s1, PlaceOrder(counter, false), m);
    steps := [] + [PlaceOrder(bid, false)] + [PlaceOrder(counter, false)];
  }

  // ----- the direction column misleads

  /** After two bids that meet, user 0's balance is not what the direction column says. */
  lemma DirectionColumnCanMislead(s: State) returns (steps: seq<Step>)
    requires Fresh(s) && s.feeBps == 0 && |s.books.wallets| == 3
    requires s.books.wallets[0].available >= 50 && s.books.wallets[1].available >= 50
    ensures var now := Run(s, steps);
      |now.books.wallets| == 3
      && now.books.wallets[0].Total() != s.books.wallets[0].Total() + Sum(NaiveFlow(0), now.books.ledger)
  {
    var m: State;
    steps, m := MintsPair(s, 1);
    var e1, e2 := Entry(1, OrderFillStake, Debit, 50), Entry(0, OrderFillCredit, Credit, 50);
    SumAppend(NaiveFlow(0), [], e1);
    SumAppend(NaiveFlow(0), [] + [e1], e2);
  }

  // ----- opposite bids left crossed

  lemma OfferRests(s: State, n: int, p: Params) returns (a: State)
    requires Trio(s) && n > 0
    requires s.orders == [Row(0, YES, Direction.Buy, 50, n, 1)] + [Row(1, NO, Direction.Buy, 50, 1, 1)]
    requires 50 < p.price <= 99 && p == Params(0, YES, Direction.Sell, p.price, 1, GTC)
    ensures a == s.(orders := s.orders + [Row(0, YES, Direction.Sell, p.price, 1, 0)]) && Place(s, p, false) == Some(a)
  {
    SumTwo(NetOf(0, YES), s.orders);
    SumTwo(CommittedOf(0, YES), s.orders);
    a := AdmitsSell(s, p);
    if n == 1 {
      QueueOfNone(a.orders, YES, Direction.Buy, 3);
    } else {
      QueueOfOne(a.orders, YES, Direction.Buy, 0, 3);
    }
    Rests(s, p, a);
  }

  /** The pair traded and an offer of YES at 90. */
  function OfferBook(): seq<Order> {
    [Row(0, YES, Direction.Buy, 50, 1, 1)] + [Row(1, NO, Direction.Buy, 50, 1, 1)]
      + [Row(0, YES, Direction.Sell, 90, 1, 0)]
  }

  /** With no live YES bid in the book, a bid for NO at 60 rests. */
  lemma CrossBidRests(s: State, p: Params) returns (a: State)
    requires Trio(s) && p == Params(2, NO, Direction.Buy, 60, 1, GTC) && s.books.wallets[2].available >= 60
    requires s.orders == OfferBook()
    ensures Place(s, p, false) == Some(a) && Trio(a) && a.orders == OfferBook() + [Row(2, NO, Direction.Buy, 60, 1, 0)]
    ensures a.books.wallets[1] == s.books.wallets[1]
  {
    a := AdmitsBuy(s, p);
    QueueOfNone(a.orders, NO, Direction.Sell, |a.orders|);
    QueueOfNone(a.orders, YES, Direction.Buy, |a.orders|);
    Rests(s, p, a);
  }

  /** Behind the offer at 90 a bid for YES at 50 rests too. */
  lemma LateBidRests(s: State, p: Params) returns (a: State)
    requires Trio(s) && p == Params(1, YES, Direction.Buy, 50, 1, GTC) && s.books.wallets[1].available >= 50
    requires s.orders == OfferBook() + [Row(2, NO, Direction.Buy, 60, 1, 0)]
    ensures Place(s, p, false) == Some(a) && a.status == s.status && |a.orders| == 5
    ensures a.orders[3] == Row(2, NO, Direction.Buy, 60, 1, 0) && a.orders[4] == Row(1, YES, Direction.Buy, 50, 1, 0)
  {
    a := AdmitsBuy(s, p);
    QueueOfOne(a.orders, YES, Direction.Sell, 2, |a.orders|);
    assert Resting(a.orders, |s.orders|)[0] == 2;
    Rests(s, p, a);
  }

  /** Behind an offer at 90, a bid for YES at 50 and a bid for NO at 60 are left standing together. */
  lemma CrossedBidsCanStand(s: State) returns (steps: seq<Step>)
    requires Fresh(s) && s.feeBps == 0 && |s.books.wallets| == 3
    requires forall u :: 0 <= u < 3 ==> s.books.wallets[u].available >= 150
    ensures InPlay(Run(s, steps)) && !BidsApart(Run(s, steps).orders)
  {
    var offer, cross := Params(0, YES, Direction.Sell, 90, 1, GTC), Params(2, NO, Direction.Buy, 60, 1, GTC);
    var late := Params(1, YES, Direction.Buy, 50, 1, GTC);
    var start, m := MintsPair(s, 1);
    var s3, s4, s5 := ThreeRest(m, offer, cross, late);
    RunThree(s, start, m, PlaceOrder(offer, false), s3, PlaceOrder(cross, false), s4, PlaceOrder(late, false), s5);
    steps := start + [PlaceOrder(offer, false)] + [PlaceOrder(cross, false)] + [PlaceOrder(late, false)];
  }

  lemma ThreeRest(m: State, offer: Params, cross: Params, late: Params) returns (s3: State, s4: State, s5: State)
    requires Trio(m) && m.orders == [Row(0, YES, Direction.Buy, 50, 1, 1)] + [Row(1, NO, Direction.Buy, 50, 1, 1)]
    requires m.books.wallets[1].available >= 100 && m.books.wallets[2].available >= 150
    requires offer == Params(0, YES, Direction.Sell, 90, 1, GTC) && cross == Params(2, NO, Direction.Buy, 60, 1, GTC)
    requires late == Params(1, YES, Direction.Buy, 50, 1, GTC)
    ensures Place(m, offer, false) == Some(s3) && Place(s3, cross, false) == Some(s4)
    ensures Place(s4, late, false) == Some(s5)
    ensures s5.status.Open? && !BidsApart(s5.orders)
  {
    s3 := OfferRests(m, 1, offer);
    s4 := CrossBidRests(s3, cross);
    s5 := LateBidRests(s4, late);
    StandCrossed(s5.orders);
  }

  lemma StandCrossed(orders: seq<Order>)
    requires |orders| == 5 && orders[3] == Row(2, NO, Direction.Buy, 60, 1, 0)
    requires orders[4] == Row(1, YES, Direction.Buy, 50, 1, 0)
    ensures !BidsApart(orders)
  {
    assert orders[4].price + orders[3].price == 110;
  }

  // ----- cancelling can fail

  lemma BuyerRests(s: State, p: Params) returns (a: State)
    requires Trio(s) && p == Params(2, YES, Direction.Buy, 60, 1, GTC) && s.books.wallets[2].available >= 60
    requires s.orders == [Row(0, YES, Direction.Buy, 50, 1, 1)] + [Row(1, NO, Direction.Buy, 50, 1, 1)]
    ensures Place(s, p, false) == Some(a) && Trio(a) && a.orders == s.orders + [NewOrder(p)]
    ensures a.books.ledger == s.books.ledger
    ensures a.books.wallets[0] == s.books.wallets[0] && a.books.wallets[2].reserved >= 60
  {
    a := AdmitsBuy(s, p);
    QueueOfNone(a.orders, YES, Direction.Sell, 3);
    QueueOfNone(a.orders, NO, Direction.Buy, 3);
    Rests(s, p, a);
  }

  lemma HolderSells(s: State, p: Params) returns (m: State)
    requires Trio(s) && p == Params(0, YES, Direction.Sell, 60, 1, GTC) && s.books.wallets[2].reserved >= 60
    requires s.orders == [Row(0, YES, Direction.Buy, 50, 1, 1)] + [Row(1, NO, Direction.Buy, 50, 1, 1)]
                       + [Row(2, YES, Direction.Buy, 60, 1, 0)]
    ensures Place(s, p, false) == Some(m) && Trio(m) && |m.orders| == 4
    ensures forall j :: 0 <= j < 4 ==> !m.orders[j].Live()
    ensures m.books.ledger
         == s.books.ledger + [Entry(0, ClobSellCredit, Credit, 60)] + [Entry(2, OrderFillStake, Debit, 60)]
    ensures m.books.wallets[0] == s.books.wallets[0].(available := s.books.wallets[0].available + 60)
  {
    var two := s.orders[..2];
    SumTwo(NetOf(0, YES), two);
    SumTwo(CommittedOf(0, YES), two);
    assert s.orders == two + [Row(2, YES, Direction.Buy, 60, 1, 0)];
    SumAppend(NetOf(0, YES), two, s.orders[2]);
    SumAppend(CommittedOf(0, YES), two, s.orders[2]);
    var a := AdmitsSell(s, p);
    QueueOfOne(a.orders, YES, Direction.Buy, 2, 4);
    m := SellsOne(s, p, a, 2);
  }

  /** What user 0 has put in and taken out: 50 in, 60 out. */
  lemma SellerIsAhead(ledger: seq<Entry>, e: Entry)
    requires e.kind.Elsewhere?
    requires ledger == [] + [Entry(1, OrderFillStake, Debit, 50)] + [Entry(0, OrderFillCredit, Credit, 50)]
                          + [Entry(0, ClobSellCredit, Credit, 60)] + [Entry(2, OrderFillStake, Debit, 60)]
    ensures Outlay(ledger + [e], 0) == -10
  {
    var f := OutlayRows(0);
    var e1, e2 := Entry(1, OrderFillStake, Debit, 50), Entry(0, OrderFillCredit, Credit, 50);
    var e3, e4 := Entry(0, ClobSellCredit, Credit, 60), Entry(2, OrderFillStake, Debit, 60);
    SumAppend(f, [], e1);
    SumAppend(f, [] + [e1], e2);
    SumAppend(f, [] + [e1] + [e2], e3);
    SumAppend(f, [] + [e1] + [e2] + [e3], e4);
    SumAppend(f, ledger, e);
  }

  lemma NothingClaimed(s: State, user: nat)
    requires forall j :: 0 <= j < |s.orders| ==> !s.orders[j].Live()
    ensures ClobInvariant.Claimed(s, user) == 0
  {
    SumZero(ClaimsOf(user), s.orders);
  }

  /** A user who sells at a profit and spends everything elsewhere makes the market impossible to cancel. */
  lemma CancellingCanFail(s: State, reason: string) returns (steps: seq<Step>)
    requires Fresh(s) && s.feeBps == 0 && |s.books.wallets| == 3
    requires forall u :: 0 <= u < 3 ==> s.books.wallets[u].available >= 150
    ensures InPlay(Run(s, steps)) && CancelMarket(Run(s, steps), reason).None?
  {
    var bid, sale := Params(2, YES, Direction.Buy, 60, 1, GTC), Params(0, YES, Direction.Sell, 60, 1, GTC);
    var start, m := MintsPair(s, 1);
    var s3, s4 := SellsAhead(s, m, bid, sale);
    var spend := Step.Elsewhere(0, -s4.books.wallets[0].available, 0);
    var s5 := Spends(s4, spend);
    RunThree(s, start, m, PlaceOrder(bid, false), s3, PlaceOrder(sale, false), s4, spend, s5);
    steps := start + [PlaceOrder(bid, false)] + [PlaceOrder(sale, false)] + [spend];
    RunKeeps(s, steps);
    CancelsUnlessDrained(s5, reason, OpeningOf(s.books.wallets));
  }

  /** User 0 has put 50 in and taken 60 out. */
  ghost predicate Ahead60(s: State) {
    && Trio(s) && s.books.wallets[0].available > 0 && (forall j :: 0 <= j < |s.orders| ==> !s.orders[j].Live())
    && s.books.ledger == [] + [Entry(1, OrderFillStake, Debit, 50)] + [Entry(0, OrderFillCredit, Credit, 50)]
                            + [Entry(0, ClobSellCredit, Credit, 60)] + [Entry(2, OrderFillStake, Debit, 60)]
  }

  lemma SellsAhead(s: State, m: State, bid: Params, sale: Params) returns (s3: State, s4: State)
    requires Minted(s, m, 1) && m.books.wallets[2].available >= 150
    requires bid == Params(2, YES, Direction.Buy, 60, 1, GTC) && sale == Params(0, YES, Direction.Sell, 60, 1, GTC)
    ensures Place(m, bid, false) == Some(s3) && Place(s3, sale, false) == Some(s4) && Ahead60(s4)
  {
    s3 := BuyerRests(m, bid);
    s4 := HolderSells(s3, sale);
  }

  lemma Spends(s: State, spend: Step) returns (s': State)
    requires Ahead60(s) && spend == Step.Elsewhere(0, -s.books.wallets[0].available, 0)
    ensures Attempt(s, spend) == Some(s') && s'.status.Open? && Drained(s', 0)
  {
    s' := Attempt(s, spend).value;
    SellerIsAhead(s.books.ledger, ElsewhereRow(0, -s.books.wallets[0].available));
    NothingClaimed(s', 0);
  }

  // ----- a seller left short

  lemma TakeTrades(s: State, p: Params)
    requires Trio(s) && s.books.wallets[0].reserved >= 60 && s.books.wallets[2].available >= 60
    requires s.orders == [Row(0, YES, Direction.Buy, 50, 3, 1)] + [Row(1, NO, Direction.Buy, 50, 1, 1)]
                       + [Row(0, YES, Direction.Sell, 60, 1, 0)]
    requires p == Params(2, YES, Direction.Buy, 60, 1, GTC)
    ensures Place(s, p, false).Some?
  {
    var a := AdmitsBuy(s, p);
    LineOfOne(a.orders, 3, 2);
    var m := BuysOne(s, p, a, 2);
  }

  lemma FindsTheOffer(s: State, p: Params)
    requires p.tif.GTC? && p.direction.Buy? && |s.orders| == 3 && Asks(p, s.orders[2])
    ensures BuysFromRestingSell(s, p)
  {
  }

  /** User 0 bids for three contracts at 50 and gets one, offers it at 60, and user 2 takes the offer. */
  lemma OfferIsTaken(s: State) returns (steps: seq<Step>, take: Step)
    requires Fresh(s) && s.feeBps == 0 && |s.books.wallets| == 3
    requires forall u :: 0 <= u < 3 ==> s.books.wallets[u].available >= 150
    ensures NothingElsewhere(steps) && NothingElsewhere(steps + [take])
    ensures InPlay(Run(s, steps)) && LeavesShort(Run(s, steps), take) && InPlay(Run(s, steps + [take]))
  {
    var offer, p := Params(0, YES, Direction.Sell, 60, 1, GTC), Params(2, YES, Direction.Buy, 60, 1, GTC);
    var start, m := MintsPair(s, 3);
    var s3 := OfferRests(m, 3, offer);
    TakeTrades(s3, p);
    FindsTheOffer(s3, p);
    RunSnoc(s, start, m, PlaceOrder(offer, false), s3);
    steps := start + [PlaceOrder(offer, false)];
    take := PlaceOrder(p, false);
    TakenInPlay(s, steps, take);
  }

  lemma TakenInPlay(s: State, steps: seq<Step>, take: Step)
    requires Fresh(s) && take.PlaceOrder? && Attempt(Run(s, steps), take).Some? && InPlay(Run(s, steps))
    ensures InPlay(Run(s, steps + [take])) && GoesThrough(Run(s, steps), take.params, take.pastClose)
  {
    var now := Run(s, steps);
    RunSnoc(s, steps, now, take, Attempt(now, take).value);
    RunKeeps(s, steps);
    PlacementGoesThrough(now, take.params, take.pastClose);
    PlaceRows(now, take.params, take.pastClose, Attempt(now, take).value);
  }

  lemma TakenIsShort(s: State, steps: seq<Step>, take: Step)
    requires LeavesShort(Run(s, steps), take)
    ensures !NeverShort(s, steps + [take])
  {
    assert (steps + [take])[..|steps|] == steps;
  }

  /** Exact reservation can be lost, although the market is alone on its users' wallets. */
  lemma ASellerCanBeLeftShort(s: State) returns (steps: seq<Step>)
    requires Fresh(s) && s.feeBps == 0 && |s.books.wallets| == 3
    requires forall u :: 0 <= u < 3 ==> s.books.wallets[u].available >= 150 && s.books.wallets[u].reserved == 0
    ensures Alone(s, steps) && InPlay(Run(s, steps)) && !Exact(Run(s, steps))
  {
    var start, take := OfferIsTaken(s);
    steps := start + [take];
    TakenIsShort(s, start, take);
    ExactIffNeverShort(s, steps);
  }

  /** And where other markets do hold money in reserve, the sale is paid out of that money: cancelling
      the market does not put it back where it was. */
  lemma ForeignMoneyCanBeTaken(s: State, reason: string) returns (steps: seq<Step>)
    requires Fresh(s) && s.feeBps == 0 && |s.books.wallets| == 3 && |reason| >= 10
    requires forall u :: 0 <= u < 3 ==> s.books.wallets[u].available >= 150 && s.books.wallets[u].reserved > 0
    ensures NothingElsewhere(steps) && InPlay(Run(s, steps))
    ensures var r := CancelMarket(Run(s, steps), reason); r.Some? && r.value.0.books.wallets != s.books.wallets
  {
    var start, take := OfferIsTaken(s);
    steps := start + [take];
    TakenIsShort(s, start, take);
    DrawnIffShort(s, steps);
    CancelIsExactUndo(s, steps, reason);
  }
}
