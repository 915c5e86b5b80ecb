/** Settling and cancelling a market: what is paid, what is undone, and exactly when each succeeds. */
module ClobClosing {
  import opened Sums
  import opened Ledgers
  import opened Orders
  import opened Clob
  import opened ClobPlacement
  import opened ClobInvariant
  import opened ClobSteps

  /** Every reserve holds at least what its owner's live buys need. */
  ghost predicate Funded(s: State) {
    forall u :: 0 <= u < |s.books.wallets| ==> Claimed(s, u) <= s.books.wallets[u].reserved
  }

  ghost predicate NoneLive(orders: seq<Order>, n: nat) {
    forall j :: 0 <= j < n && j < |orders| ==> !orders[j].Live()
  }

  // ----- releasing the book

  /** Same positions: the rows differ at most in their cancelled remainder. */
  ghost predicate SamePositions(s: State, s': State) {
    && (forall u: nat, side :: Net(s', u, side) == Net(s, u, side))
    && (forall side :: Pairs(s', side) == Pairs(s, side))
  }

  lemma {:induction false} ReleaseKeeps(s: State, i: nat, capped: bool, s': State, opening: seq<int>)
    requires Core(s, opening) && NoneLive(s.orders, i) && ReleaseFrom(s, i, capped) == Some(s')
    ensures Core(s', opening) && NoneLive(s'.orders, |s'.orders|) && SamePositions(s, s')
    ensures s'.books.ledger == s.books.ledger && s'.status == s.status && s'.feeBps == s.feeBps
    decreases |s.orders| - i
  {
    if i < |s.orders| {
      if s.orders[i].Live() {
        var next := ReleaseOne(s, i, capped).value;
        ReleaseOneKeeps(s, i, capped, next, opening);
        assert next.orders == s.orders[i := next.orders[i]];
        RetireSums(s, i, next.orders[i], next);
        ReleaseKeeps(next, i + 1, capped, s', opening);
      } else {
        ReleaseKeeps(s, i + 1, capped, s', opening);
      }
    }
  }

  lemma {:induction false} ReleaseCallsOff(s: State, i: nat, capped: bool, s': State)
    requires ReleaseFrom(s, i, capped) == Some(s')
    ensures |s'.orders| == |s.orders|
    ensures forall j :: 0 <= j < |s.orders| ==>
      if j < i then s'.orders[j] == s.orders[j] else CalledOff(s.orders[j], s'.orders[j])
    decreases |s.orders| - i
  {
    if i < |s.orders| {
      ReleaseCallsOff(if s.orders[i].Live() then ReleaseOne(s, i, capped).value else s, i + 1, capped, s');
    }
  }

  /** What releasing the whole book returns to a user: everything claimed, or as much of it as the
      reserve still holds. */
  function Freed(s: State, user: nat, capped: bool): int
    requires user < |s.books.wallets|
  {
    if capped then Min(Claimed(s, user), s.books.wallets[user].reserved) else Claimed(s, user)
  }

  function Unlocked(w: Wallet, amount: int): Wallet {
    Wallet(w.available + amount, w.reserved - amount)
  }

  /** Row by row, the release adds up to exactly that. */
  lemma {:induction false} ReleaseFrees(s: State, i: nat, capped: bool, s': State, opening: seq<int>)
    requires Core(s, opening) && NoneLive(s.orders, i) && ReleaseFrom(s, i, capped) == Some(s')
    ensures |s'.books.wallets| == |s.books.wallets|
    ensures forall u :: 0 <= u < |s.books.wallets| ==>
      s'.books.wallets[u] == Unlocked(s.books.wallets[u], Freed(s, u, capped))
    decreases |s.orders| - i
  {
    if i >= |s.orders| {
      forall u | 0 <= u < |s.books.wallets| ensures Claimed(s, u) == 0 {
        SumZero(ClaimsOf(u), s.orders);
      }
    } else if s.orders[i].Live() {
      var next := ReleaseOne(s, i, capped).value;
      ReleaseOneKeeps(s, i, capped, next, opening);
      ClaimedAtLeast(s, i);
      ReleaseFrees(next, i + 1, capped, s', opening);
    } else {
      ReleaseFrees(s, i + 1, capped, s', opening);
    }
  }

  /** The uncapped release goes through exactly when every reserve covers what is claimed of it; the
      capped one always does. */
  lemma {:induction false} ReleaseSucceeds(s: State, i: nat, capped: bool, opening: seq<int>)
    requires Core(s, opening) && NoneLive(s.orders, i)
    ensures ReleaseFrom(s, i, capped).Some? <==> capped || Funded(s)
    decreases |s.orders| - i
  {
    if i >= |s.orders| {
      forall u | 0 <= u < |s.books.wallets| ensures Claimed(s, u) == 0 {
        SumZero(ClaimsOf(u), s.orders);
      }
    } else if s.orders[i].Live() {
      ReleaseOneSucceeds(s, i, capped);
      ClaimedAtLeast(s, i);
      if ReleaseOne(s, i, capped).Some? {
        var next := ReleaseOne(s, i, capped).value;
        ReleaseOneKeeps(s, i, capped, next, opening);
        ReleaseSucceeds(next, i + 1, capped, opening);
        StillFunded(s, next, s.orders[i], Released(s, i, capped));
      }
    } else {
      ReleaseSucceeds(s, i + 1, capped, opening);
    }
  }

  /** Returning a whole reservation changes nothing about who is funded. */
  lemma StillFunded(s: State, next: State, o: Order, released: int)
    requires Move(s.books, o.user, released, -released) == Some(next.books)
    requires forall u: nat :: Claimed(next, u) == Claimed(s, u) - if o.user == u then o.Claims() else 0
    ensures released == o.Claims() ==> (Funded(next) <==> Funded(s))
  {
    if released == o.Claims() {
      forall u: nat | u < |s.books.wallets|
        ensures Claimed(next, u) <= next.books.wallets[u].reserved <==> Claimed(s, u) <= s.books.wallets[u].reserved
      {
      }
    }
  }

  // ----- settlement

  /** Money paid out by settlement. */
  function PaidOut(ledger: seq<Entry>): int {
    Sum(Winnings(), ledger)
  }

  lemma NetHasFills(orders: seq<Order>, user: nat, side: Side)
    requires !HasFills(orders, user, side)
    ensures Sum(NetOf(user, side), orders) == 0
  {
    SumZero(NetOf(user, side), orders);
  }

  /** One turn of the payout loop. */
  lemma PayOneEffect(s: State, side: Side, user: nat, opening: seq<int>) returns (b: Books)
    requires Core(s, opening) && user < |s.books.wallets|
    ensures PayOne(s.books, s.orders, side, user) == Some(b) && Core(s.(books := b), opening)
    ensures Net(s, user, side) >= 0
    ensures b.wallets == s.books.wallets[user := s.books.wallets[user].(
              available := s.books.wallets[user].available + 100 * Net(s, user, side))]
    ensures PaidOut(b.ledger) == PaidOut(s.books.ledger) + 100 * Net(s, user, side)
  {
    var net := Net(s, user, side);
    OnOfferNonNegative(s, user, side);
    assert OnOffer(s, user, side) <= net;
    if net > 0 {
      if !HasFills(s.orders, user, side) {
        NetHasFills(s.orders, user, side);
      }
      var e := Entry(user, SettlementWin, Credit, net * CONTRACT_MINOR);
      b := MoveAndPost(s.books, net * CONTRACT_MINOR, e).value;
      PostedStep(s, net * CONTRACT_MINOR, e, b, opening);
      SumAppend(Winnings(), s.books.ledger, e);
    } else {
      b := s.books;
      assert s == s.(books := b);
      assert b.wallets[user := b.wallets[user]] == b.wallets;
    }
  }

  /** The payout loop goes through and pays each remaining user's net contracts. */
  lemma {:induction false} PayoutLoop(s: State, side: Side, user: nat, opening: seq<int>) returns (b: Books)
    requires Core(s, opening) && user <= |s.books.wallets|
    ensures PayFrom(s.books, s.orders, side, user) == Some(b) && Core(s.(books := b), opening)
    ensures |b.wallets| == |s.books.wallets|
    ensures forall v :: 0 <= v < |b.wallets| ==> b.wallets[v] == if v < user then s.books.wallets[v]
      else s.books.wallets[v].(available := s.books.wallets[v].available + 100 * Net(s, v, side))
    ensures PaidOut(b.ledger) - PaidOut(s.books.ledger)
         == 100 * NetFrom(s.orders, side, user, |s.books.wallets|)
    decreases |s.books.wallets| - user
  {
    if user < |s.books.wallets| {
      var next := PayOneEffect(s, side, user, opening);
      b := PayoutLoop(s.(books := next), side, user + 1, opening);
      NetsAreSame(s, next);
    } else {
      b := s.books;
      assert s == s.(books := b);
    }
  }

  /** Net contracts of users `from` .. `to`. */
  function NetFrom(orders: seq<Order>, side: Side, from: nat, to: nat): int {
    SumByUser(OpenInterest(side), OrderOwner, orders, to) - SumByUser(OpenInterest(side), OrderOwner, orders, from)
  }

  lemma NetsAreSame(s: State, b: Books)
    ensures forall u: nat, side :: Net(s.(books := b), u, side) == Net(s, u, side)
  {
  }

  lemma OnOfferNonNegative(s: State, user: nat, side: Side)
    requires Sound(s)
    ensures OnOffer(s, user, side) >= 0
  {
    SumAtLeast(CommittedOf(user, side), s.orders);
  }

  /** Settlement returns every live reservation, pays 100 per net winning contract, and in all pays
      out what the pairs are worth, which the fills have collected. */
  lemma SettlementPays(s: State, outcome: Side, s': State, opening: seq<int>)
    requires Core(s, opening) && Settle(s, outcome) == Some(s')
    ensures Core(s', opening) && s'.status.Settled? && NoneLive(s'.orders, |s'.orders|)
    ensures |s'.orders| == |s.orders| && forall i :: 0 <= i < |s.orders| ==> CalledOff(s.orders[i], s'.orders[i])
    ensures |s'.books.wallets| == |s.books.wallets|
    ensures forall u :: 0 <= u < |s.books.wallets| ==> s'.books.wallets[u] == Wallet(
      s.books.wallets[u].available + Claimed(s, u) + 100 * Net(s, u, outcome),
      s.books.wallets[u].reserved - Claimed(s, u))
    ensures PaidOut(s'.books.ledger) - PaidOut(s.books.ledger) == 100 * Pairs(s, outcome) <= Escrow(s)
  {
    var released := ReleaseFrom(s, 0, false).value;
    ReleaseKeeps(s, 0, false, released, opening);
    ReleaseCallsOff(s, 0, false, released);
    ReleaseFrees(s, 0, false, released, opening);
    var paid := PayoutLoop(released, outcome, 0, opening);
    SumByUserIsSum(OpenInterest(outcome), OrderOwner, released.orders, |released.books.wallets|);
    StatusKeeps(released.(books := s'.books), MarketStatus.Settled, opening);
  }

  lemma StatusKeeps(s: State, status: MarketStatus, opening: seq<int>)
    requires Core(s, opening)
    ensures Core(s.(status := status), opening)
    ensures forall u: nat :: Deficit(s.(status := status), u) == Deficit(s, u)
  {
    var s' := s.(status := status);
    assert forall u: nat, side :: OnOffer(s', u, side) == OnOffer(s, u, side) && Net(s', u, side) == Net(s, u, side);
    assert Pairs(s', YES) == Pairs(s, YES) && Pairs(s', NO) == Pairs(s, NO);
    assert forall u: nat :: Deficit(s', u) == Deficit(s, u);
  }

  /** A market settles if and only if it is open or closed and every reserve covers what its owner's
      live buys claim. */
  lemma SettlesIffFunded(s: State, outcome: Side, opening: seq<int>)
    requires Core(s, opening)
    ensures Settle(s, outcome).Some? <==> (s.status.Open? || s.status.Closed?) && Funded(s)
  {
    ReleaseSucceeds(s, 0, false, opening);
    if ReleaseFrom(s, 0, false).Some? {
      var released := ReleaseFrom(s, 0, false).value;
      ReleaseKeeps(s, 0, false, released, opening);
      var paid := PayoutLoop(released, outcome, 0, opening);
    }
  }
}
