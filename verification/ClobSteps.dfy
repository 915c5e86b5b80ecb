/** Each service call keeps the invariant, and says what it does to deficits. */
module ClobSteps {
  import opened Sums
  import opened Ledgers
  import opened Orders
  import opened Clob
  import opened ClobPlacement
  import opened ClobPriority
  import opened ClobInvariant

  // ----- steps that touch the books only

  /** A books change that leaves fill money alone. */
  lemma BooksStep(s: State, b: Books, opening: seq<int>)
    requires Core(s, opening) && BooksSound(b, opening) && |b.wallets| == |s.books.wallets|
    requires Sum(Collected(), b.ledger) == Escrow(s)
    ensures Core(s.(books := b), opening)
    ensures forall u: nat :: Claimed(s.(books := b), u) == Claimed(s, u)
  {
    var s' := s.(books := b);
    assert forall u: nat, side :: OnOffer(s', u, side) == OnOffer(s, u, side) && Net(s', u, side) == Net(s, u, side);
    assert Pairs(s', YES) == Pairs(s, YES) && Pairs(s', NO) == Pairs(s, NO);
    assert forall u: nat :: Claimed(s', u) == Claimed(s, u);
  }

  lemma PostedStep(s: State, toAvailable: int, e: Entry, b: Books, opening: seq<int>)
    requires Core(s, opening) && MoveAndPost(s.books, toAvailable, e) == Some(b) && Signed(e) == toAvailable
    requires !e.kind.OrderFillStake? && !e.kind.OrderFillCredit? && !e.kind.ClobSellCredit?
    ensures Core(s.(books := b), opening)
  {
    PostedMoveReplays(s.books, toAvailable, e, b, opening);
    SumAppend(Collected(), s.books.ledger, e);
    BooksStep(s, b, opening);
  }

  /** The books after another market's work. */
  lemma ElsewhereBooks(b: Books, user: nat, toAvailable: int, toReserved: int, moved: Books, b': Books,
          opening: seq<int>)
    requires BooksSound(b, opening) && Move(b, user, toAvailable, toReserved) == Some(moved)
    requires var amount := toAvailable + toReserved;
      if amount == 0 then b' == moved else Post(moved, ElsewhereRow(user, amount)) == Some(b')
    ensures BooksSound(b', opening) && b'.wallets == moved.wallets
    ensures Sum(Collected(), b'.ledger) == Sum(Collected(), b.ledger)
  {
    var amount := toAvailable + toReserved;
    MoveDrifts(b, user, toAvailable, toReserved, moved, opening);
    if amount != 0 {
      PostDrifts(moved, ElsewhereRow(user, amount), b', opening);
      SumAppend(Collected(), moved.ledger, ElsewhereRow(user, amount));
    }
  }

  /** Other markets at work: this market's orders and positions stay, the reserve moves as it is told. */
  lemma ElsewhereKeeps(s: State, user: nat, toAvailable: int, toReserved: int, s': State, opening: seq<int>)
    requires Core(s, opening) && MoveElsewhere(s, user, toAvailable, toReserved) == Some(s')
    ensures Core(s', opening) && s'.orders == s.orders && s'.status == s.status && s'.feeBps == s.feeBps
    ensures user < |s.books.wallets| == |s'.books.wallets|
    ensures forall u: nat :: Deficit(s', u) == Deficit(s, u) - if u == user then toReserved else 0
  {
    var moved := Move(s.books, user, toAvailable, toReserved).value;
    ElsewhereBooks(s.books, user, toAvailable, toReserved, moved, s'.books, opening);
    BooksStep(s, s'.books, opening);
    assert s' == s.(books := s'.books);
  }

  // ----- steps that retire one row

  /** Row `o2` is row `o` with its remainder cancelled. */
  ghost predicate Retired(o: Order, o2: Order) {
    o2.SameTerms(o) && o2.filled == o.filled && o2.Sound() && !o2.Live()
  }

  lemma RetireSums(s: State, i: nat, o2: Order, s': State)
    requires i < |s.orders| && s'.orders == s.orders[i := o2] && Retired(s.orders[i], o2)
    ensures forall u: nat, side :: Net(s', u, side) == Net(s, u, side)
    ensures forall u: nat, side ::
      OnOffer(s', u, side) == OnOffer(s, u, side) - if s.orders[i].user == u then s.orders[i].Offers(side) else 0
    ensures forall u: nat :: Claimed(s', u) == Claimed(s, u) - if s.orders[i].user == u then s.orders[i].Claims() else 0
    ensures forall side :: Pairs(s', side) == Pairs(s, side)
  {
    forall u: nat, side ensures Net(s', u, side) == Net(s, u, side) {
      SumUpdate(NetOf(u, side), s.orders, i, o2);
    }
    forall u: nat, side
      ensures OnOffer(s', u, side)
           == OnOffer(s, u, side) - if s.orders[i].user == u then s.orders[i].Offers(side) else 0
    {
      SumUpdate(CommittedOf(u, side), s.orders, i, o2);
    }
    forall u: nat ensures Claimed(s', u) == Claimed(s, u) - if s.orders[i].user == u then s.orders[i].Claims() else 0 {
      SumUpdate(ClaimsOf(u), s.orders, i, o2);
    }
    forall side ensures Pairs(s', side) == Pairs(s, side) {
      SumUpdate(OpenInterest(side), s.orders, i, o2);
    }
  }

  lemma ClaimedAtLeast(s: State, i: nat)
    requires Sound(s) && i < |s.orders|
    ensures Claimed(s, s.orders[i].user) >= s.orders[i].Claims() >= 0
  {
    var f := ClaimsOf(s.orders[i].user);
    forall k | 0 <= k < |s.orders| ensures f(s.orders[k]) >= 0 {
      assert s.orders[k].price * s.orders[k].Unfilled() >= 0;
    }
    SumAtLeast(f, s.orders);
  }

  /** Retiring a live row and returning `released` of its reservation. */
  lemma RetireKeeps(s: State, i: nat, o2: Order, released: int, b: Books, s': State, opening: seq<int>)
    requires Core(s, opening) && i < |s.orders| && s.orders[i].Live() && Retired(s.orders[i], o2)
    requires Move(s.books, s.orders[i].user, released, -released) == Some(b)
    requires s' == s.(orders := s.orders[i := o2], books := b)
    ensures Core(s', opening)
    ensures forall u: nat :: Claimed(s', u) == Claimed(s, u) - if s.orders[i].user == u then s.orders[i].Claims() else 0
  {
    RetireSums(s, i, o2, s');
    MoveWithinReplays(s.books, s.orders[i].user, released, b, opening);
    OfferNonNegative(s.orders[i]);
    forall u: nat, side ensures OnOffer(s', u, side) <= Net(s', u, side) {
      assert OnOffer(s, u, side) <= Net(s, u, side);
    }
  }

  lemma OfferNonNegative(o: Order)
    requires o.Sound()
    ensures forall side :: o.Offers(side) >= 0
  {
  }

  /** A release of nothing is a release of zero. */
  lemma MoveNothing(b: Books, user: nat)
    requires WalletsSound(b) && user < |b.wallets|
    ensures Move(b, user, 0, 0) == Some(b)
  {
    assert b.wallets[user := b.wallets[user]] == b.wallets;
  }

  lemma RemainderKeeps(s: State, id: nat, s': State, opening: seq<int>)
    requires Core(s, opening) && id < |s.orders| && CancelRemainder(s, id) == Some(s')
    ensures Core(s', opening) && forall u: nat :: Deficit(s', u) == Deficit(s, u)
    ensures s'.books.ledger == s.books.ledger && s'.status == s.status
  {
    var o := s.orders[id];
    if o.Unfilled() > 0 {
      MoveNothing(s.books, o.user);
      var b := if o.direction.Sell? then s.books else s'.books;
      RetireKeeps(s, id, o.CancelRemainder(), o.Claims(), b, s', opening);
    }
  }

  /** Withdrawing an order calls off that row and no other, and gives its owner back exactly what the
      row had reserved. */
  lemma CancelOrderKeeps(s: State, id: nat, s': State, opening: seq<int>)
    requires Core(s, opening) && CancelOrder(s, id) == Some(s')
    ensures Core(s', opening) && forall u: nat :: Deficit(s', u) == Deficit(s, u)
    ensures s'.books.ledger == s.books.ledger && s'.status == s.status
    ensures |s'.orders| == |s.orders| && id < |s.orders| && Retired(s.orders[id], s'.orders[id])
    ensures CalledOff(s.orders[id], s'.orders[id])
    ensures forall i :: 0 <= i < |s.orders| && i != id ==> s'.orders[i] == s.orders[i]
    ensures var o := s.orders[id];
            var back := if o.direction.Buy? then o.price * (o.quantity - o.filled - o.cancelled) else 0;
      o.user < |s.books.wallets| && s'.books.wallets == s.books.wallets[o.user :=
        Wallet(s.books.wallets[o.user].available + back, s.books.wallets[o.user].reserved - back)]
  {
    var o := s.orders[id];
    RetireKeeps(s, id, o.Cancel(), o.Claims(), s'.books, s', opening);
  }

  lemma ReleaseOneKeeps(s: State, i: nat, capped: bool, s': State, opening: seq<int>)
    requires Core(s, opening) && i < |s.orders| && s.orders[i].Live() && ReleaseOne(s, i, capped) == Some(s')
    ensures Core(s', opening) && s'.books.ledger == s.books.ledger && s'.status == s.status && s'.feeBps == s.feeBps
    ensures |s'.orders| == |s.orders| && Retired(s.orders[i], s'.orders[i])
    ensures forall j :: 0 <= j < |s.orders| && j != i ==> s'.orders[j] == s.orders[j]
    ensures Move(s.books, s.orders[i].user, Released(s, i, capped), -Released(s, i, capped)) == Some(s'.books)
    ensures forall u: nat :: Claimed(s', u) == Claimed(s, u) - if s.orders[i].user == u then s.orders[i].Claims() else 0
  {
    MoveNothing(s.books, s.orders[i].user);
    RetireKeeps(s, i, s.orders[i].Cancel(), Released(s, i, capped), s'.books, s', opening);
  }

  /** What cancelling row `i` with the market releases. */
  function Released(s: State, i: nat, capped: bool): int
    requires i < |s.orders| && s.orders[i].user < |s.books.wallets|
  {
    var o := s.orders[i];
    if capped then Min(o.ReservedMinor(), s.books.wallets[o.user].reserved) else o.ReservedMinor()
  }

  lemma ReleaseOneSucceeds(s: State, i: nat, capped: bool)
    requires Sound(s) && WalletsSound(s.books) && i < |s.orders| && s.orders[i].Live()
    ensures ReleaseOne(s, i, capped).Some? <==>
      capped || s.orders[i].Claims() <= s.books.wallets[s.orders[i].user].reserved
  {
    var o := s.orders[i];
    assert o.price * o.Unfilled() >= 0;
  }

  // ----- admission

  lemma AdmitKeeps(s: State, p: Params, pastClose: bool, a: State, opening: seq<int>)
    requires Core(s, opening) && Admit(s, p, pastClose) == Some(a)
    ensures Core(a, opening) && forall u: nat :: Deficit(a, u) == Deficit(s, u)
  {
    var o := NewOrder(p);
    AdmitSums(s, p, a);
    if p.direction.Buy? {
      MoveWithinReplays(s.books, p.user, -(p.price * p.quantity), a.books, opening);
    } else {
      AdmittedSellFits(s, p, a);
    }
    assert forall u: nat :: Deficit(a, u) == Deficit(s, u);
    forall u: nat, side ensures OnOffer(a, u, side) <= Net(a, u, side) {
      assert OnOffer(s, u, side) <= Net(s, u, side);
    }
  }

  lemma AdmitSums(s: State, p: Params, a: State)
    requires a.orders == s.orders + [NewOrder(p)] && 1 <= p.price && p.quantity > 0
    ensures forall u: nat, side :: Net(a, u, side) == Net(s, u, side)
    ensures forall u: nat, side ::
      OnOffer(a, u, side) == OnOffer(s, u, side) + if p.user == u then NewOrder(p).Offers(side) else 0
    ensures forall u: nat :: Claimed(a, u) == Claimed(s, u) + if p.user == u then NewOrder(p).Claims() else 0
    ensures forall side :: Pairs(a, side) == Pairs(s, side)
  {
    var o := NewOrder(p);
    forall u: nat, side ensures Net(a, u, side) == Net(s, u, side) {
      SumAppend(NetOf(u, side), s.orders, o);
    }
    forall u: nat, side ensures OnOffer(a, u, side) == OnOffer(s, u, side) + if p.user == u then o.Offers(side) else 0 {
      SumAppend(CommittedOf(u, side), s.orders, o);
    }
    forall u: nat ensures Claimed(a, u) == Claimed(s, u) + if p.user == u then o.Claims() else 0 {
      SumAppend(ClaimsOf(u), s.orders, o);
    }
    forall side ensures Pairs(a, side) == Pairs(s, side) {
      SumAppend(OpenInterest(side), s.orders, o);
    }
  }

  lemma AdmittedSellFits(s: State, p: Params, a: State)
    requires a.orders == s.orders + [NewOrder(p)] && 1 <= p.price && p.quantity > 0 && p.direction.Sell?
    requires FreeToSell(a, |s.orders|) >= p.quantity
    ensures OnOffer(s, p.user, p.side) + p.quantity <= Net(s, p.user, p.side)
  {
    AdmitSums(s, p, a);
  }

  // ----- placement

  lemma LineIsWilling(s: State, p: Params)
    ensures Willing(Book(s, p), |s.orders|, Line(s, p), 0)
  {
    forall a | 0 <= a < |Line(s, p)| ensures MayTrade(NewOrder(p), Book(s, p)[Line(s, p)[a]]) {
      LineMember(s, p, a);
    }
  }

  lemma PlaceKeeps(s: State, p: Params, pastClose: bool, s': State, opening: seq<int>)
    requires Core(s, opening) && Place(s, p, pastClose) == Some(s')
    ensures Core(s', opening)
  {
    var a := Admit(s, p, pastClose).value;
    var id := |s.orders|;
    AdmitShape(s, p, pastClose, a);
    AdmitKeeps(s, p, pastClose, a, opening);
    if Killed(a, id) {
      RemainderKeeps(a, id, s', opening);
    } else {
      var m := MatchFrom(a, id, Line(s, p), 0).value;
      RestingLineup(a.orders, |a.books.wallets|, id);
      LineIsWilling(s, p);
      MatchKeeps(a, id, Line(s, p), 0, m, opening);
      TifKeeps(m, id, s', opening);
    }
  }

  lemma TifKeeps(m: State, id: nat, s': State, opening: seq<int>)
    requires Core(m, opening) && id < |m.orders| && ApplyTif(m, id) == Some(s')
    ensures Core(s', opening) && forall u: nat :: Deficit(s', u) == Deficit(m, u)
    ensures |s'.orders| == |m.orders| && forall i :: 0 <= i < |m.orders| && i != id ==> s'.orders[i] == m.orders[i]
  {
    if ApplyTif(m, id) == CancelRemainder(m, id) {
      RemainderKeeps(m, id, s', opening);
    }
  }

  /** A placement takes out of each reserve, over and above what stops being claimed, exactly what
      the user's resting sells were sold for, at their own prices. */
  lemma PlacementDeficit(s: State, p: Params, pastClose: bool, s': State, opening: seq<int>, user: nat)
    requires Core(s, opening) && Place(s, p, pastClose) == Some(s')
    ensures |s.orders| < |s'.orders|
    ensures Deficit(s', user) == Deficit(s, user) + RestingSales(s.orders, s'.orders, user, |s.orders|)
  {
    var a := Admit(s, p, pastClose).value;
    var id := |s.orders|;
    AdmitShape(s, p, pastClose, a);
    AdmitKeeps(s, p, pastClose, a, opening);
    if Killed(a, id) {
      RemainderKeeps(a, id, s', opening);
      NoChange(SaleOf(user), s.orders, s'.orders, id);
    } else {
      var m := MatchedDeficit(s, p, a, opening, user);
      TifKeeps(m, id, s', opening);
      SameChange(SaleOf(user), a.orders, m.orders, s.orders, s'.orders, id);
    }
  }

  lemma MatchedDeficit(s: State, p: Params, a: State, opening: seq<int>, user: nat) returns (m: State)
    requires a.orders == Book(s, p) && Core(a, opening) && MatchFrom(a, |s.orders|, Line(s, p), 0).Some?
    ensures MatchFrom(a, |s.orders|, Line(s, p), 0) == Some(m) && Core(m, opening) && |m.orders| == |a.orders|
    ensures Deficit(m, user) == Deficit(a, user) + RestingSales(a.orders, m.orders, user, |s.orders|)
  {
    m := MatchFrom(a, |s.orders|, Line(s, p), 0).value;
    RestingLineup(a.orders, |a.books.wallets|, |s.orders|);
    LineIsWilling(s, p);
    MatchKeeps(a, |s.orders|, Line(s, p), 0, m, opening);
    MatchDeficit(a, |s.orders|, Line(s, p), 0, m, opening, user);
  }

  /** A live sell of `p`'s side that `p` would buy from. */
  ghost predicate Asks(p: Params, o: Order) {
    o.Live() && o.direction.Sell? && o.side == p.side && o.price <= p.price
  }

  /** A buy that goes to matching while a sell it can afford is in the book. */
  ghost predicate BuysFromRestingSell(s: State, p: Params) {
    && p.direction.Buy?
    && (exists i :: 0 <= i < |s.orders| && Asks(p, s.orders[i]))
    && !(p.tif.FOK? && Crossable(Book(s, p), |s.orders|) < p.quantity)
  }

  /** Some resting sell is sold if and only if the placement is a buy that finds an affordable one. */
  lemma SalesIffBought(s: State, p: Params, pastClose: bool, s': State)
    requires Sound(s) && Place(s, p, pastClose) == Some(s')
    ensures |s.orders| < |s'.orders|
    ensures forall u: nat :: RestingSales(s.orders, s'.orders, u, |s.orders|) >= 0
    ensures BuysFromRestingSell(s, p) ==>
      exists u: nat :: u < |s.books.wallets| && RestingSales(s.orders, s'.orders, u, |s.orders|) > 0
    ensures !BuysFromRestingSell(s, p) ==> forall u: nat :: RestingSales(s.orders, s'.orders, u, |s.orders|) == 0
  {
    IncomingRow(s, p, pastClose, s');
    forall u: nat ensures RestingSales(s.orders, s'.orders, u, |s.orders|) >= 0 {
      SalesOfPlacement(s, p, pastClose, s', u);
    }
    if BuysFromRestingSell(s, p) {
      var u := SomebodySold(s, p, pastClose, s');
    } else {
      NothingSold(s, p, pastClose, s');
      NoSales(s.orders, s'.orders);
    }
  }

  lemma SalesOfPlacement(s: State, p: Params, pastClose: bool, s': State, user: nat)
    requires Sound(s) && Place(s, p, pastClose) == Some(s')
    ensures |s.orders| < |s'.orders| && RestingSales(s.orders, s'.orders, user, |s.orders|) >= 0
  {
    PlaceOutcome(s, p, pastClose, s');
    SalesNonNegative(s.orders, s'.orders, user, |s.orders|);
  }

  lemma NoSales(o: seq<Order>, o2: seq<Order>)
    requires |o| <= |o2| && forall i :: 0 <= i < |o| && o[i].direction.Sell? ==> o2[i].filled == o[i].filled
    ensures forall u: nat :: RestingSales(o, o2, u, |o|) == 0
  {
    forall u: nat ensures RestingSales(o, o2, u, |o|) == 0 {
      NoChange(SaleOf(u), o, o2, |o|);
    }
  }

  lemma SomebodySold(s: State, p: Params, pastClose: bool, s': State) returns (u: nat)
    requires Sound(s) && Place(s, p, pastClose) == Some(s') && BuysFromRestingSell(s, p)
    ensures |s.orders| < |s'.orders| && u < |s.books.wallets|
    ensures RestingSales(s.orders, s'.orders, u, |s.orders|) > 0
  {
    var i := BestAskSold(s, p, pastClose, s');
    u := s.orders[i].user;
    PlaceOutcome(s, p, pastClose, s');
    SalesNonNegative(s.orders, s'.orders, u, |s.orders|);
    assert SoldMore(s.orders[i], s'.orders[i], u);
  }

  lemma BestAskSold(s: State, p: Params, pastClose: bool, s': State) returns (i: nat)
    requires Sound(s) && Place(s, p, pastClose) == Some(s') && BuysFromRestingSell(s, p)
    ensures i < |s.orders| < |s'.orders| && s.orders[i].direction.Sell? && s'.orders[i].filled > s.orders[i].filled
    ensures s.orders[i].user < |s.books.wallets|
  {
    BestAskFirst(s, p);
    i := Line(s, p)[0];
    RowShare(s, p, pastClose, s', 0);
  }

  lemma NothingSold(s: State, p: Params, pastClose: bool, s': State)
    requires Sound(s) && Place(s, p, pastClose) == Some(s') && !BuysFromRestingSell(s, p)
    ensures |s.orders| < |s'.orders|
    ensures forall i :: 0 <= i < |s.orders| && s.orders[i].direction.Sell? ==> s'.orders[i].filled == s.orders[i].filled
  {
    PlaceOutcome(s, p, pastClose, s');
    KilledMeans(s, p, pastClose);
    forall i | 0 <= i < |s.orders| && s.orders[i].direction.Sell? ensures s'.orders[i].filled == s.orders[i].filled {
      if s'.orders[i] != s.orders[i] {
        OnlyCrossingOrdersTrade(s, p, pastClose, s', i);
        assert Asks(p, s.orders[i]);
        var a := PlaceInLine(s, p, i);
        RowShare(s, p, pastClose, s', a);
      }
    }
  }

  /** With an affordable sell in the book, the head of the line is one. */
  lemma BestAskFirst(s: State, p: Params)
    requires Sound(s) && BuysFromRestingSell(s, p)
    ensures Line(s, p) != [] && Line(s, p)[0] < |s.orders| && Asks(p, s.orders[Line(s, p)[0]])
  {
    var i :| 0 <= i < |s.orders| && Asks(p, s.orders[i]);
    var a := PlaceInLine(s, p, i);
    if a > 0 {
      LineInOrder(s, p, 0, a);
    }
  }
}
