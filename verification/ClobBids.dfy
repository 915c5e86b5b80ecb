/** Bids of opposite sides that could fund a contract: when a book keeps them apart. */
module ClobBids {
  import opened Sums
  import opened Ledgers
  import opened Orders
  import opened Clob
  import opened ClobPlacement
  import opened ClobPriority
  import opened ClobSteps
  import opened ClobFunding
  import opened ClobClosing
  import opened ClobRuns

  /** A buy that goes through and rests, although a bid it crosses stands in the book, because an
      overpriced sell stands before it. */
  ghost predicate RestsBlocked(s: State, step: Step) {
    && step.PlaceOrder? && step.params.direction.Buy? && step.params.tif.GTC?
    && GoesThrough(s, step.params, step.pastClose)
    && Crossable(Book(s, step.params), |s.orders|) < step.params.quantity
    && Blocked(s, step.params)
    && exists c :: 0 <= c < |s.orders| && CrossBid(step.params, s.orders[c])
  }

  /** One step: only such a buy brings crossing bids into a book that has none, and it always does. */
  lemma StepBids(s: State, step: Step, opening: seq<int>)
    requires Inv(s, opening) && BidsApart(s.orders)
    ensures BidsApart(Next(s, step).orders) <==> !RestsBlocked(s, step)
  {
    var r := Attempt(s, step);
    if step.PlaceOrder? {
      PlacementGoesThrough(s, step.params, step.pastClose);
    }
    if r.Some? {
      match step
      case PlaceOrder(p, pastClose) =>
        if p.direction.Buy? {
          BidsApartUnlessBlocked(s, p, pastClose, r.value);
        } else {
          PlaceKeepsBidsApart(s, p, pastClose, r.value);
        }
      case Withdraw(id) => CancelOrderKeeps(s, id, r.value, opening);
      case CloseMarket =>
      case SettleMarket(outcome) => SettlementPays(s, outcome, r.value, opening);
      case AbortMarket(reason) => AbortedBids(s, reason, r.value, opening);
      case Elsewhere(user, toAvailable, toReserved) =>
        ElsewhereKeeps(s, user, toAvailable, toReserved, r.value, opening);
    }
  }

  lemma AbortedBids(s: State, reason: string, s': State, opening: seq<int>)
    requires Inv(s, opening) && Attempt(s, AbortMarket(reason)) == Some(s')
    ensures BidsApart(s'.orders)
  {
    var released := ReleaseFrom(s, 0, true).value;
    ReleaseKeeps(s, 0, true, released, opening);
    assert s'.orders == released.orders;
  }

  ghost predicate NeverBlocked(s: State, steps: seq<Step>) {
    steps == [] || (NeverBlocked(s, steps[..|steps| - 1])
                    && !RestsBlocked(Run(s, steps[..|steps| - 1]), steps[|steps| - 1]))
  }

  /** In any run in which no buy rests blocked beside a bid it crosses, no two live bids of opposite
      sides ever cross; the first buy that does rest so leaves them crossed. */
  lemma {:induction false} BidsStayApart(s: State, steps: seq<Step>)
    requires Fresh(s) && NeverBlocked(s, steps)
    ensures BidsApart(Run(s, steps).orders)
    ensures forall step :: RestsBlocked(Run(s, steps), step) ==> !BidsApart(Next(Run(s, steps), step).orders)
  {
    var now := Run(s, steps);
    RunKeeps(s, steps);
    if steps != [] {
      var n := |steps| - 1;
      BidsStayApart(s, steps[..n]);
      RunKeeps(s, steps[..n]);
      StepBids(Run(s, steps[..n]), steps[n], OpeningOf(s.books.wallets));
    }
    forall step | RestsBlocked(now, step) ensures !BidsApart(Next(now, step).orders) {
      StepBids(now, step, OpeningOf(s.books.wallets));
    }
  }

  // ----- books of buys only

  ghost predicate BuysOnly(steps: seq<Step>) {
    forall k :: 0 <= k < |steps| && steps[k].PlaceOrder? ==> steps[k].params.direction.Buy?
  }

  ghost predicate AllBuys(orders: seq<Order>) {
    forall i :: 0 <= i < |orders| ==> orders[i].direction.Buy?
  }

  lemma BuyPlaced(s: State, p: Params, pastClose: bool, s': State)
    requires Sound(s) && p.direction.Buy? && AllBuys(s.orders) && Place(s, p, pastClose) == Some(s')
    ensures AllBuys(s'.orders)
  {
    IncomingRow(s, p, pastClose, s');
    forall i | 0 <= i < |s.orders| ensures s'.orders[i].direction.Buy? {
      if s'.orders[i] != s.orders[i] {
        OnlyCrossingOrdersTrade(s, p, pastClose, s', i);
      }
    }
  }

  lemma BuysStep(s: State, step: Step, opening: seq<int>)
    requires Inv(s, opening) && InPlay(s) && InPlay(Next(s, step)) && AllBuys(s.orders)
    requires step.PlaceOrder? ==> step.params.direction.Buy?
    ensures AllBuys(Next(s, step).orders)
  {
    var r := Attempt(s, step);
    if r.Some? {
      match step
      case PlaceOrder(p, pastClose) => BuyPlaced(s, p, pastClose, r.value);
      case Withdraw(id) => CancelOrderKeeps(s, id, r.value, opening);
      case CloseMarket =>
      case SettleMarket(_) => assert false;
      case AbortMarket(_) => assert false;
      case Elsewhere(user, toAvailable, toReserved) =>
        ElsewhereKeeps(s, user, toAvailable, toReserved, r.value, opening);
    }
  }

  /** Where only buys are placed nothing can block a bid ... */
  lemma {:induction false} BuysAreNeverBlocked(s: State, steps: seq<Step>)
    requires Fresh(s) && BuysOnly(steps)
    ensures NeverBlocked(s, steps)
    ensures InPlay(Run(s, steps)) ==> AllBuys(Run(s, steps).orders)
  {
    if steps != [] {
      var n := |steps| - 1;
      var before := Run(s, steps[..n]);
      BuysAreNeverBlocked(s, steps[..n]);
      RunKeeps(s, steps[..n]);
      if InPlay(Run(s, steps)) {
        StillInPlay(before, steps[n], OpeningOf(s.books.wallets));
        BuysStep(before, steps[n], OpeningOf(s.books.wallets));
      }
    }
  }

  /** ... so in such a market no two live bids of opposite sides ever cross. */
  lemma BuysNeverCross(s: State, steps: seq<Step>)
    requires Fresh(s) && BuysOnly(steps)
    ensures BidsApart(Run(s, steps).orders)
  {
    BuysAreNeverBlocked(s, steps);
    BidsStayApart(s, steps);
  }
}
