/** Price-time priority and the uncrossed book. */
module ClobPriority {
  import opened Sums
  import opened Ledgers
  import opened Orders
  import opened Clob
  import opened ClobMatching
  import opened ClobPlacement

  /** A live row that an order with parameters `p` may be matched with, whatever its price. */
  predicate Meets(p: Params, o: Order) {
    && o.Live()
    && if p.direction.Sell? then o.direction.Buy? && o.side == p.side
       else (o.direction.Sell? <==> o.side == p.side)
  }

  /** Row `i` is entitled to trade with `p` before row `j`: sells come first, then the better
      price, then the older row. */
  predicate Beats(orders: seq<Order>, i: nat, j: nat)
    requires i < |orders| && j < |orders|
  {
    if orders[i].direction != orders[j].direction then orders[i].direction.Sell? else Ahead(orders, i, j)
  }

  function Book(s: State, p: Params): seq<Order> {
    s.orders + [NewOrder(p)]
  }

  function Line(s: State, p: Params): (list: seq<nat>)
    ensures Within(list, |s.orders| + 1)
  {
    Resting(Book(s, p), |s.orders|)
  }

  /** Every row that may trade stands in line, at a unique place. */
  lemma PlaceInLine(s: State, p: Params, i: nat) returns (a: nat)
    requires i < |s.orders| && Meets(p, s.orders[i])
    ensures a < |Line(s, p)| && Line(s, p)[a] == i
  {
    var o := Book(s, p);
    var n := |o|;
    if p.direction.Sell? {
      QueueSorted(o, p.side, Direction.Buy, n);
      assert i in Line(s, p);
      a :| 0 <= a < |Line(s, p)| && Line(s, p)[a] == i;
    } else {
      QueueSorted(o, p.side, Direction.Sell, n);
      QueueSorted(o, Opposite(p.side), Direction.Buy, n);
      assert o[i] == s.orders[i];
      assert i in Queue(o, p.side, Direction.Sell, n) || i in Queue(o, Opposite(p.side), Direction.Buy, n);
      assert i in Line(s, p);
      a :| 0 <= a < |Line(s, p)| && Line(s, p)[a] == i;
    }
  }

  /** The line holds only rows that may trade, each before the rows it beats. */
  lemma LineInOrder(s: State, p: Params, a: nat, b: nat)
    requires a < b < |Line(s, p)|
    ensures Line(s, p)[a] < |s.orders| && Line(s, p)[b] < |s.orders|
    ensures Meets(p, s.orders[Line(s, p)[a]]) && Meets(p, s.orders[Line(s, p)[b]])
    ensures Beats(s.orders, Line(s, p)[a], Line(s, p)[b])
  {
    var o := Book(s, p);
    LineMember(s, p, a);
    LineMember(s, p, b);
    if p.direction.Sell? {
      QueueRows(o, p.side, Direction.Buy);
    } else {
      QueueRows(o, p.side, Direction.Sell);
      QueueRows(o, Opposite(p.side), Direction.Buy);
      var sells := Queue(o, p.side, Direction.Sell, |o|);
      if b < |sells| {
        assert Ahead(o, sells[a], sells[b]);
      } else if a >= |sells| {
        var bids := Queue(o, Opposite(p.side), Direction.Buy, |o|);
        assert Ahead(o, bids[a - |sells|], bids[b - |sells|]);
      }
    }
  }

  lemma LineMember(s: State, p: Params, a: nat)
    requires a < |Line(s, p)|
    ensures Line(s, p)[a] < |s.orders| && Meets(p, s.orders[Line(s, p)[a]])
  {
    var o := Book(s, p);
    QueueRows(o, p.side, Direction.Buy);
    QueueRows(o, p.side, Direction.Sell);
    QueueRows(o, Opposite(p.side), Direction.Buy);
  }

  lemma InLineBefore(s: State, p: Params, i: nat, j: nat) returns (a: nat, b: nat)
    requires i < |s.orders| && j < |s.orders| && Meets(p, s.orders[i]) && Meets(p, s.orders[j])
    requires Beats(s.orders, i, j)
    ensures a < b < |Line(s, p)| && Line(s, p)[a] == i && Line(s, p)[b] == j
  {
    a := PlaceInLine(s, p, i);
    b := PlaceInLine(s, p, j);
    if b < a {
      LineInOrder(s, p, b, a);
    }
  }

  lemma KilledMeans(s: State, p: Params, pastClose: bool)
    requires Sound(s) && Admit(s, p, pastClose).Some?
    ensures Killed(Admit(s, p, pastClose).value, |s.orders|)
        <==> p.tif.FOK? && Crossable(Book(s, p), |s.orders|) < p.quantity
  {
    AdmitShape(s, p, pastClose, Admit(s, p, pastClose).value);
    KilledIffShort(Admit(s, p, pastClose).value, |s.orders|);
  }

  /** The share of the row at place `a` in line. */
  function ShareInLine(s: State, p: Params, a: nat): int
    requires a < |Line(s, p)|
  {
    if p.tif.FOK? && Crossable(Book(s, p), |s.orders|) < p.quantity then 0
    else Allotted(Book(s, p), |s.orders|, Line(s, p), 0, a)
  }

  lemma OutcomeShare(o: seq<Order>, o': seq<Order>, id: nat, killed: bool, a: nat)
    requires id < |o| && Outcome(o, o', id, killed) && a < |Resting(o, id)| && Resting(o, id)[a] != id
    ensures var i := Resting(o, id)[a];
      && |o'| == |o| && o'[i].SameTerms(o[i]) && o'[i].cancelled == o[i].cancelled
      && o'[i].filled - o[i].filled == if killed then 0 else Allotted(o, id, Resting(o, id), 0, a)
  {
    assert Gained(o, o', id, Resting(o, id), a, killed);
  }

  /** What one resting row got out of a placement. */
  lemma RowShare(s: State, p: Params, pastClose: bool, s': State, a: nat)
    requires Sound(s) && Place(s, p, pastClose) == Some(s') && a < |Line(s, p)|
    ensures var i := Line(s, p)[a];
      && i < |s.orders| < |s'.orders|
      && s'.orders[i].SameTerms(s.orders[i]) && s'.orders[i].cancelled == s.orders[i].cancelled
      && s'.orders[i].filled - s.orders[i].filled == ShareInLine(s, p, a)
  {
    LineMember(s, p, a);
    PlaceOutcome(s, p, pastClose, s');
    KilledMeans(s, p, pastClose);
    OutcomeShare(Book(s, p), s'.orders, |s.orders|, Killed(Admit(s, p, pastClose).value, |s.orders|), a);
  }

  lemma LineOffers(s: State, p: Params, pastClose: bool, s': State, a: nat, b: nat)
    requires Sound(s) && Place(s, p, pastClose) == Some(s') && a <= b <= |Line(s, p)|
    ensures 0 <= Offered(Book(s, p), Line(s, p), 0, a)
    ensures Offered(Book(s, p), Line(s, p), 0, a) + (b - a) <= Offered(Book(s, p), Line(s, p), 0, b)
  {
    AdmitShape(s, p, pastClose, Admit(s, p, pastClose).value);
    RestingLineup(Book(s, p), |s.books.wallets|, |s.orders|);
    OfferedGrows(Book(s, p), Line(s, p), 0, 0, a);
    OfferedGrows(Book(s, p), Line(s, p), 0, a, b);
  }

  /** A row trades only when every row entitled to go before it ends with nothing left unfilled. */
  lemma BeatenWaits(s: State, p: Params, pastClose: bool, s': State, i: nat, j: nat)
    requires Sound(s) && Place(s, p, pastClose) == Some(s')
    requires i < |s.orders| && j < |s.orders| && Meets(p, s.orders[i]) && Meets(p, s.orders[j])
    requires Beats(s.orders, i, j) && s'.orders[j].filled > s.orders[j].filled
    ensures s'.orders[i].Unfilled() == 0
  {
    var a, b := InLineBefore(s, p, i, j);
    RowShare(s, p, pastClose, s', a);
    RowShare(s, p, pastClose, s', b);
    LineOffers(s, p, pastClose, s', a + 1, b);
    LineOffers(s, p, pastClose, s', 0, a);
  }

  /** Price-time priority: once row `j` has traded, row `i` has nothing left unfilled, if it is older at
      the same price, if it bids more or asks less, or if it is a sell and `j` a cross-side bid. */
  lemma PriceTimePriority(s: State, p: Params, pastClose: bool, s': State, i: nat, j: nat)
    requires Sound(s) && Place(s, p, pastClose) == Some(s')
    requires i < |s.orders| && j < |s.orders| && Meets(p, s.orders[i]) && Meets(p, s.orders[j])
    requires s'.orders[j].filled > s.orders[j].filled
    ensures s.orders[i].direction == s.orders[j].direction && s.orders[i].price == s.orders[j].price && i < j ==>
      s'.orders[i].Unfilled() == 0
    ensures s.orders[i].direction.Buy? && s.orders[j].direction.Buy? && s.orders[i].price > s.orders[j].price ==>
      s'.orders[i].Unfilled() == 0
    ensures s.orders[i].direction.Sell? && s.orders[j].direction.Sell? && s.orders[i].price < s.orders[j].price ==>
      s'.orders[i].Unfilled() == 0
    ensures s.orders[i].direction.Sell? && s.orders[j].direction.Buy? ==> s'.orders[i].Unfilled() == 0
  {
    if Beats(s.orders, i, j) {
      BeatenWaits(s, p, pastClose, s', i, j);
    }
  }

  /** A resting order that changed was eligible and only gained fills, and both sides of the trade have
      their limit: a sell never goes below its ask, a buy never above its bid, and two bids that fund a
      contract add up to at least 100. */
  lemma OnlyCrossingOrdersTrade(s: State, p: Params, pastClose: bool, s': State, i: nat)
    requires Sound(s) && Place(s, p, pastClose) == Some(s')
    requires i < |s.orders| && s'.orders[i] != s.orders[i]
    ensures Meets(p, s.orders[i]) && Compatible(NewOrder(p), s.orders[i])
    ensures p.direction.Sell? ==> s.orders[i].price >= p.price
    ensures p.direction.Buy? && s.orders[i].direction.Sell? ==> s.orders[i].price <= p.price
    ensures p.direction.Buy? && s.orders[i].direction.Buy? ==> s.orders[i].price + p.price >= 100
    ensures s.orders[i].filled < s'.orders[i].filled <= s.orders[i].quantity - s.orders[i].cancelled
    ensures s'.orders[i].SameTerms(s.orders[i]) && s'.orders[i].cancelled == s.orders[i].cancelled
  {
    PlaceOutcome(s, p, pastClose, s');
    var a := ListedAt(Line(s, p), 0, i);
    LineMember(s, p, a);
    RowShare(s, p, pastClose, s', a);
  }

  /** Row `i`, left with something while `j` has traded, is no sell if `j` is a bid, offers no better price
      than `j`, and is not older at the same price. */
  ghost predicate MayWait(before: seq<Order>, i: nat, j: nat)
    requires i < |before| && j < |before|
  {
    && (before[i].direction.Sell? ==> before[j].direction.Sell? && before[i].price >= before[j].price)
    && (before[i].direction.Buy? && before[j].direction.Buy? ==> before[i].price <= before[j].price)
    && (before[i].direction == before[j].direction && before[i].price == before[j].price ==> i >= j)
  }

  /** Price-time priority over a whole table. */
  ghost predicate PriorityKept(p: Params, before: seq<Order>, after: seq<Order>)
    requires |before| <= |after|
  {
    forall i: nat, j: nat | i < |before| && j < |before| && Meets(p, before[i]) && Meets(p, before[j]) ::
      after[i].Unfilled() > 0 && after[j].filled > before[j].filled ==> MayWait(before, i, j)
  }

  /** The row keeps its terms, and trades only within its own limit and that of `p`. */
  ghost predicate WithinLimits(p: Params, o: Order, o2: Order) {
    && o2.SameTerms(o)
    && (o2 != o ==>
          && Meets(p, o) && o2.filled > o.filled && o2.cancelled == o.cancelled
          && (p.direction.Sell? ==> o.price >= p.price)
          && (p.direction.Buy? && o.direction.Sell? ==> o.price <= p.price)
          && (p.direction.Buy? && o.direction.Buy? ==> o.price + p.price >= 100))
  }

  ghost predicate LimitsKept(p: Params, before: seq<Order>, after: seq<Order>)
    requires |before| <= |after|
  {
    forall i :: 0 <= i < |before| ==> WithinLimits(p, before[i], after[i])
  }

  /** The whole table after a placement: priority and everybody's limit are kept. */
  lemma PlacedInOrder(s: State, p: Params, pastClose: bool, s': State)
    requires Sound(s) && Place(s, p, pastClose) == Some(s')
    ensures |s'.orders| == |s.orders| + 1
    ensures PriorityKept(p, s.orders, s'.orders) && LimitsKept(p, s.orders, s'.orders)
  {
    IncomingRow(s, p, pastClose, s');
    forall i | 0 <= i < |s.orders| ensures WithinLimits(p, s.orders[i], s'.orders[i]) {
      if s'.orders[i] != s.orders[i] {
        OnlyCrossingOrdersTrade(s, p, pastClose, s', i);
      }
    }
    forall i: nat, j: nat | i < |s.orders| && j < |s.orders| && Meets(p, s.orders[i]) && Meets(p, s.orders[j])
      ensures s'.orders[i].Unfilled() > 0 && s'.orders[j].filled > s.orders[j].filled ==> MayWait(s.orders, i, j)
    {
      if s'.orders[j].filled > s.orders[j].filled {
        PriceTimePriority(s, p, pastClose, s', i, j);
      }
    }
  }

  /** At most one resting order is left partly filled by a placement. */
  lemma AtMostOnePartial(s: State, p: Params, pastClose: bool, s': State, i: nat, j: nat)
    requires Sound(s) && Place(s, p, pastClose) == Some(s')
    requires i < |s.orders| && j < |s.orders| && i != j
    requires s'.orders[i] != s.orders[i] && s'.orders[j] != s.orders[j]
    ensures s'.orders[i].Unfilled() == 0 || s'.orders[j].Unfilled() == 0
  {
    OnlyCrossingOrdersTrade(s, p, pastClose, s', i);
    OnlyCrossingOrdersTrade(s, p, pastClose, s', j);
    if Beats(s.orders, i, j) {
      BeatenWaits(s, p, pastClose, s', i, j);
    } else {
      BeatenWaits(s, p, pastClose, s', j, i);
    }
  }

  // ----- crossed prices

  /** No live sell asks what a live buy of the same side would pay. */
  ghost predicate Uncrossed(orders: seq<Order>) {
    forall i, j :: 0 <= i < |orders| && 0 <= j < |orders| && orders[i].Live() && orders[j].Live()
      && orders[i].side == orders[j].side && orders[i].direction.Sell? && orders[j].direction.Buy?
      ==> orders[j].price < orders[i].price
  }

  /** No two live buys of opposite sides could fund a contract between them. */
  ghost predicate BidsApart(orders: seq<Order>) {
    forall i, j :: 0 <= i < |orders| && 0 <= j < |orders| && orders[i].Live() && orders[j].Live()
      && orders[i].direction.Buy? && orders[j].direction.Buy? && orders[i].side == YES && orders[j].side == NO
      ==> orders[i].price + orders[j].price < 100
  }

  /** A live sell of `p`'s side asking more than `p` bids: it stops the matching loop. */
  ghost predicate Blocks(p: Params, o: Order) {
    o.Live() && o.direction.Sell? && o.side == p.side && o.price > p.price
  }

  ghost predicate Blocked(s: State, p: Params) {
    exists h :: 0 <= h < |s.orders| && Blocks(p, s.orders[h])
  }

  /** A live buy of the other side that `p` could trade with. */
  ghost predicate CrossBid(p: Params, o: Order) {
    o.Live() && o.direction.Buy? && o.side != p.side && p.price + o.price >= 100
  }

  /** A row live after a placement was live before it, on the same terms. */
  lemma LiveBefore(s: State, p: Params, pastClose: bool, s': State, i: nat)
    requires Sound(s) && Place(s, p, pastClose) == Some(s')
    requires i < |s.orders| && s'.orders[i].Live()
    ensures s.orders[i].Live() && s'.orders[i].SameTerms(s.orders[i])
  {
    PlaceOutcome(s, p, pastClose, s');
    if s'.orders[i] != s.orders[i] {
      OnlyCrossingOrdersTrade(s, p, pastClose, s', i);
    }
  }

  /** While the incoming order still rests, a live row it crosses can only be a cross-side bid
      that stands behind a sell priced too high. */
  lemma StillCrossingIsBlocked(s: State, p: Params, pastClose: bool, s': State, i: nat)
    requires Sound(s) && Place(s, p, pastClose) == Some(s') && s'.orders[|s.orders|].Live()
    requires i < |s.orders| && Meets(p, s.orders[i]) && Compatible(NewOrder(p), s.orders[i])
    requires s'.orders[i].Live()
    ensures p.direction.Buy? && CrossBid(p, s.orders[i]) && Blocked(s, p)
  {
    RestsOnlyIfGtc(s, p, pastClose, s');
    PlaceOutcome(s, p, pastClose, s');
    var a := PlaceInLine(s, p, i);
    var e := PrefixEnd(Book(s, p), |s.orders|, Line(s, p), 0);
    RowShare(s, p, pastClose, s', a);
    if a < e {
      LineOffers(s, p, pastClose, s', a + 1, e);
      assert false;
    } else if e < a {
      StopperBlocks(s, p, e, a);
    }
  }

  /** The row the loop stops at, before one it could trade with, is a sell priced too high. */
  lemma StopperBlocks(s: State, p: Params, e: nat, a: nat)
    requires e < a < |Line(s, p)| && Compatible(NewOrder(p), Book(s, p)[Line(s, p)[a]])
    requires !Compatible(NewOrder(p), Book(s, p)[Line(s, p)[e]])
    ensures Line(s, p)[a] < |s.orders| && p.direction.Buy? && CrossBid(p, s.orders[Line(s, p)[a]]) && Blocked(s, p)
  {
    LineInOrder(s, p, e, a);
    assert Blocks(p, s.orders[Line(s, p)[e]]);
  }

  /** Placing an order never leaves a sell crossed with a buy of the same side. */
  lemma PlaceKeepsUncrossed(s: State, p: Params, pastClose: bool, s': State)
    requires Sound(s) && Uncrossed(s.orders) && Place(s, p, pastClose) == Some(s')
    ensures Uncrossed(s'.orders)
  {
    var id := |s.orders|;
    RestsOnlyIfGtc(s, p, pastClose, s');
    IncomingRow(s, p, pastClose, s');
    forall i, j | 0 <= i <= id && 0 <= j <= id && s'.orders[i].Live() && s'.orders[j].Live()
      && s'.orders[i].side == s'.orders[j].side && s'.orders[i].direction.Sell? && s'.orders[j].direction.Buy?
      ensures s'.orders[j].price < s'.orders[i].price
    {
      if i < id {
        LiveBefore(s, p, pastClose, s', i);
      }
      if j < id {
        LiveBefore(s, p, pastClose, s', j);
      }
      if i == id && s'.orders[j].price >= s'.orders[i].price {
        StillCrossingIsBlocked(s, p, pastClose, s', j);
      } else if j == id && s'.orders[j].price >= s'.orders[i].price {
        StillCrossingIsBlocked(s, p, pastClose, s', i);
      }
    }
  }

  /** A blocked buy leaves every cross-side bid alone. */
  lemma BlockedBidUntouched(s: State, p: Params, pastClose: bool, s': State, h: nat, c: nat)
    requires Sound(s) && p.direction.Buy? && Place(s, p, pastClose) == Some(s')
    requires h < |s.orders| && Blocks(p, s.orders[h])
    requires c < |s.orders| && CrossBid(p, s.orders[c])
    ensures s'.orders[c] == s.orders[c]
  {
    PlaceOutcome(s, p, pastClose, s');
    var a, b := InLineBefore(s, p, h, c);
    RowShare(s, p, pastClose, s', b);
    assert !Compatible(Book(s, p)[|s.orders|], Book(s, p)[Line(s, p)[a]]);
  }

  /** Exactly when a buy leaves opposite bids crossed: it rests, an overpriced sell of its own side
      stands in the book, and so does a bid it could have traded with. */
  lemma BidsApartUnlessBlocked(s: State, p: Params, pastClose: bool, s': State)
    requires Sound(s) && BidsApart(s.orders) && p.direction.Buy? && Place(s, p, pastClose) == Some(s')
    ensures BidsApart(s'.orders) <==>
      !(p.tif.GTC? && Crossable(Book(s, p), |s.orders|) < p.quantity && Blocked(s, p)
        && exists c :: 0 <= c < |s.orders| && CrossBid(p, s.orders[c]))
  {
    var id := |s.orders|;
    RestsOnlyIfGtc(s, p, pastClose, s');
    IncomingRow(s, p, pastClose, s');
    if s'.orders[id].Live() && Blocked(s, p) && exists c :: 0 <= c < id && CrossBid(p, s.orders[c]) {
      var h :| 0 <= h < id && Blocks(p, s.orders[h]);
      var c :| 0 <= c < id && CrossBid(p, s.orders[c]);
      BlockedBidUntouched(s, p, pastClose, s', h, c);
      if p.side == YES {
        assert s'.orders[id].price + s'.orders[c].price >= 100;
      } else {
        assert s'.orders[c].price + s'.orders[id].price >= 100;
      }
    } else {
      PlaceKeepsBidsApart(s, p, pastClose, s');
    }
  }

  lemma PlaceKeepsBidsApart(s: State, p: Params, pastClose: bool, s': State)
    requires Sound(s) && BidsApart(s.orders) && Place(s, p, pastClose) == Some(s')
    requires p.direction.Sell? || !s'.orders[|s.orders|].Live() || !Blocked(s, p)
      || forall c :: 0 <= c < |s.orders| ==> !CrossBid(p, s.orders[c])
    ensures BidsApart(s'.orders)
  {
    var id := |s.orders|;
    IncomingRow(s, p, pastClose, s');
    forall i, j | 0 <= i <= id && 0 <= j <= id && s'.orders[i].Live() && s'.orders[j].Live()
      && s'.orders[i].direction.Buy? && s'.orders[j].direction.Buy?
      && s'.orders[i].side == YES && s'.orders[j].side == NO
      ensures s'.orders[i].price + s'.orders[j].price < 100
    {
      if i < id {
        LiveBefore(s, p, pastClose, s', i);
      }
      if j < id {
        LiveBefore(s, p, pastClose, s', j);
      }
      if (i == id || j == id) && s'.orders[i].price + s'.orders[j].price >= 100 {
        StillCrossingIsBlocked(s, p, pastClose, s', if i == id then j else i);
      }
    }
  }
}
