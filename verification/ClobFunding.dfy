/** Exactly when a placement goes through, read off the tables before the call. */
module ClobFunding {
  import opened Sums
  import opened Ledgers
  import opened Orders
  import opened Clob
  import opened ClobMatching
  import opened ClobPlacement
  import opened ClobPriority
  import opened ClobInvariant
  import opened ClobSteps

  // ----- what matching will take

  /** What a fill of `qty` contracts takes out of a user's reserve: the resting row pays its price,
      also when it is a sell, and so does an incoming buy. */
  function FillDraw(i: Order, r: Order, user: nat, qty: int): int {
    Stake(r, user, qty) + if i.direction.Buy? then Stake(i, user, qty) else 0
  }

  function FillFee(i: Order, qty: int, feeBps: nat): int {
    if i.direction.Sell? then 0 else CeilDiv(feeBps * (i.price * qty), BPS)
  }

  /** What an incoming row with `left` contracts to trade draws from a user's reserve, from
      position `k` of its line on. */
  function DrawnFrom(orders: seq<Order>, inc: nat, list: seq<nat>, k: nat, left: int, user: nat): int
    requires inc < |orders| && Within(list, |orders|)
    decreases |list| - k
  {
    if k >= |list| || left <= 0 || !Compatible(orders[inc], orders[list[k]]) then 0
    else
      var qty := Min(left, orders[list[k]].Unfilled());
      FillDraw(orders[inc], orders[list[k]], user, qty) + DrawnFrom(orders, inc, list, k + 1, left - qty, user)
  }

  /** The fees it pays, each fill's rounded up on its own. */
  function FeesFrom(orders: seq<Order>, inc: nat, list: seq<nat>, k: nat, left: int, feeBps: nat): int
    requires inc < |orders| && Within(list, |orders|)
    decreases |list| - k
  {
    if k >= |list| || left <= 0 || !Compatible(orders[inc], orders[list[k]]) then 0
    else
      var qty := Min(left, orders[list[k]].Unfilled());
      FillFee(orders[inc], qty, feeBps) + FeesFrom(orders, inc, list, k + 1, left - qty, feeBps)
  }

  /** What a sale brings in, at the bids' own prices. */
  function FillGain(i: Order, r: Order, qty: int): int {
    if i.direction.Sell? then r.price * qty else 0
  }

  function ProceedsFrom(orders: seq<Order>, inc: nat, list: seq<nat>, k: nat, left: int): int
    requires inc < |orders| && Within(list, |orders|)
    decreases |list| - k
  {
    if k >= |list| || left <= 0 || !Compatible(orders[inc], orders[list[k]]) then 0
    else
      var qty := Min(left, orders[list[k]].Unfilled());
      FillGain(orders[inc], orders[list[k]], qty) + ProceedsFrom(orders, inc, list, k + 1, left - qty)
  }

  lemma FillAmounts(i: Order, r: Order, qty: int, feeBps: nat)
    requires i.Sound() && r.Sound() && qty > 0
    ensures i.price * qty > 0 && r.price * qty > 0 && FillFee(i, qty, feeBps) >= 0
    ensures forall u: nat :: FillDraw(i, r, u, qty) >= 0
  {
    assert i.price * qty > 0 && r.price * qty > 0;
    assert feeBps * (i.price * qty) >= 0;
    CeilDivBounds(feeBps * (i.price * qty), BPS);
  }

  lemma {:induction false} NothingNegative(orders: seq<Order>, inc: nat, list: seq<nat>, k: nat, left: int,
          feeBps: nat, users: nat)
    requires inc < |orders| && Within(list, |orders|) && OrdersSound(orders, users) && Untouched(orders, list, k)
    ensures forall u: nat :: DrawnFrom(orders, inc, list, k, left, u) >= 0
    ensures FeesFrom(orders, inc, list, k, left, feeBps) >= 0
    ensures orders[inc].direction.Sell? ==> FeesFrom(orders, inc, list, k, left, feeBps) == 0
    decreases |list| - k
  {
    if k < |list| && left > 0 && Compatible(orders[inc], orders[list[k]]) {
      var qty := Min(left, orders[list[k]].Unfilled());
      FillAmounts(orders[inc], orders[list[k]], qty, feeBps);
      NothingNegative(orders, inc, list, k + 1, left - qty, feeBps, users);
    }
  }

  /** Only the terms of the incoming row and the rows still ahead matter. */
  lemma {:induction false} DrawnFrame(o: seq<Order>, o1: seq<Order>, inc: nat, list: seq<nat>, k: nat, left: int,
          feeBps: nat)
    requires inc < |o| == |o1| && Within(list, |o|) && o1[inc].SameTerms(o[inc])
    requires forall a :: k <= a < |list| ==> o1[list[a]] == o[list[a]]
    ensures forall u: nat :: DrawnFrom(o1, inc, list, k, left, u) == DrawnFrom(o, inc, list, k, left, u)
    ensures FeesFrom(o1, inc, list, k, left, feeBps) == FeesFrom(o, inc, list, k, left, feeBps)
    ensures ProceedsFrom(o1, inc, list, k, left) == ProceedsFrom(o, inc, list, k, left)
    decreases |list| - k
  {
    if k < |list| && left > 0 && Compatible(o[inc], o[list[k]]) {
      DrawnFrame(o, o1, inc, list, k + 1, left - Min(left, o[list[k]].Unfilled()), feeBps);
    }
  }

  // ----- one fill

  ghost predicate Reserves(w: seq<Wallet>, draw: nat -> int) {
    forall u :: 0 <= u < |w| ==> draw(u) <= w[u].reserved
  }

  function DrawOf(i: Order, r: Order, qty: int): (f: nat -> int)
    ensures forall u: nat :: f(u) == FillDraw(i, r, u, qty)
  {
    (u: nat) => FillDraw(i, r, u, qty)
  }

  lemma BuyFillSucceeds(s: State, t: nat, m: nat, qty: int)
    requires Tradable(s, t, m, qty) && WalletsSound(s.books) && s.orders[t].direction.Buy?
    ensures BuyFill(s, t, m, qty).Some? <==>
      Reserves(s.books.wallets, DrawOf(s.orders[t], s.orders[m], qty))
      && FillFee(s.orders[t], qty, s.feeBps) <= s.books.wallets[s.orders[t].user].available
  {
    var i, r := s.orders[t], s.orders[m];
    FillAmounts(i, r, qty, s.feeBps);
    assert FillDraw(i, r, r.user, qty) == r.price * qty + if i.user == r.user then i.price * qty else 0;
    assert FillDraw(i, r, i.user, qty) == i.price * qty + if i.user == r.user then r.price * qty else 0;
    var f := DrawOf(i, r, qty);
    assert f(r.user) == FillDraw(i, r, r.user, qty) && f(i.user) == FillDraw(i, r, i.user, qty);
  }

  lemma SellFillSucceeds(s: State, t: nat, m: nat, qty: int)
    requires Tradable(s, t, m, qty) && WalletsSound(s.books) && s.orders[t].direction.Sell?
    ensures SellFill(s, t, m, qty, s.orders[m].price).Some? <==>
      Reserves(s.books.wallets, DrawOf(s.orders[t], s.orders[m], qty))
  {
    var i, r := s.orders[t], s.orders[m];
    FillAmounts(i, r, qty, s.feeBps);
    var f := DrawOf(i, r, qty);
    assert f(r.user) == r.price * qty;
  }

  /** The wallets after a fill. */
  lemma FillWallets(s: State, inc: nat, rest: nat, s1: State)
    requires inc < |s.orders| && rest < |s.orders|
    requires Tradable(s, inc, rest, Lot(s.orders[inc], s.orders[rest])) && FillOne(s, inc, rest) == Some(s1)
    ensures |s1.books.wallets| == |s.books.wallets|
    ensures var i, r := s.orders[inc], s.orders[rest];
      forall u: nat | u < |s.books.wallets| ::
        && s1.books.wallets[u].reserved == s.books.wallets[u].reserved - FillDraw(i, r, u, Lot(i, r))
        && s1.books.wallets[u].available == s.books.wallets[u].available
             + if u == i.user then FillGain(i, r, Lot(i, r)) - FillFee(i, Lot(i, r), s.feeBps) else 0
  {
    FillAmounts(s.orders[inc], s.orders[rest], Lot(s.orders[inc], s.orders[rest]), s.feeBps);
  }

  // ----- the matching loop

  function DrawnBy(orders: seq<Order>, inc: nat, list: seq<nat>, k: nat, left: int): (f: nat -> int)
    requires inc < |orders| && Within(list, |orders|)
    ensures forall u: nat :: f(u) == DrawnFrom(orders, inc, list, k, left, u)
  {
    (u: nat) => DrawnFrom(orders, inc, list, k, left, u)
  }

  /** The reserves and the taker's balance cover what the loop takes from position `k` on. */
  ghost predicate Covers(s: State, inc: nat, list: seq<nat>, k: nat)
    requires inc < |s.orders| && Within(list, |s.orders|) && s.orders[inc].user < |s.books.wallets|
  {
    var left := s.orders[inc].Unfilled();
    && Reserves(s.books.wallets, DrawnBy(s.orders, inc, list, k, left))
    && FeesFrom(s.orders, inc, list, k, left, s.feeBps) <= s.books.wallets[s.orders[inc].user].available
  }

  /** The matching loop goes through if and only if every reserve covers what it draws from it and the
      taker's balance covers the fees. */
  lemma {:induction false} MatchSucceeds(s: State, inc: nat, list: seq<nat>, k: nat)
    requires k <= |list| && Lineup(s.orders, inc, list) && Untouched(s.orders, list, k)
    requires Sound(s) && WalletsSound(s.books)
    ensures MatchFrom(s, inc, list, k).Some? <==> Covers(s, inc, list, k)
    decreases |list| - k
  {
    if FillsAt(s.orders, inc, list, k) {
      RoundSucceeds(s, inc, list, k);
      if FillOne(s, inc, list[k]).Some? {
        var s1 := FillOne(s, inc, list[k]).value;
        RoundShape(s, inc, list, k, s1);
        RoundGoesOn(s, inc, list, k, s1);
        MatchSucceeds(s1, inc, list, k + 1);
      }
    } else {
      NothingNegative(s.orders, inc, list, k, s.orders[inc].Unfilled(), s.feeBps, |s.books.wallets|);
    }
  }

  /** A round that fails shows that the whole is not covered. */
  lemma RoundSucceeds(s: State, inc: nat, list: seq<nat>, k: nat)
    requires Lineup(s.orders, inc, list) && Untouched(s.orders, list, k) && FillsAt(s.orders, inc, list, k)
    requires Sound(s) && WalletsSound(s.books)
    ensures Covers(s, inc, list, k) ==> FillOne(s, inc, list[k]).Some?
  {
    var i, r := s.orders[inc], s.orders[list[k]];
    var f, g := DrawOf(i, r, Lot(i, r)), DrawnBy(s.orders, inc, list, k, i.Unfilled());
    NothingNegative(s.orders, inc, list, k + 1, i.Unfilled() - Lot(i, r), s.feeBps, |s.books.wallets|);
    Unfolds(s.orders, inc, list, k, i.Unfilled(), s.feeBps);
    assert forall u: nat :: f(u) <= g(u);
    if i.direction.Buy? {
      BuyFillSucceeds(s, inc, list[k], Lot(i, r));
    } else {
      SellFillSucceeds(s, inc, list[k], Lot(i, r));
    }
  }

  lemma Unfolds(o: seq<Order>, inc: nat, list: seq<nat>, k: nat, left: int, feeBps: nat)
    requires inc < |o| && Within(list, |o|) && k < |list| && left > 0 && Compatible(o[inc], o[list[k]])
    ensures var qty := Min(left, o[list[k]].Unfilled());
      && (forall u: nat :: DrawnFrom(o, inc, list, k, left, u)
                        == FillDraw(o[inc], o[list[k]], u, qty) + DrawnFrom(o, inc, list, k + 1, left - qty, u))
      && FeesFrom(o, inc, list, k, left, feeBps)
           == FillFee(o[inc], qty, feeBps) + FeesFrom(o, inc, list, k + 1, left - qty, feeBps)
      && ProceedsFrom(o, inc, list, k, left)
           == FillGain(o[inc], o[list[k]], qty) + ProceedsFrom(o, inc, list, k + 1, left - qty)
  {
  }

  /** After a round the loop can go on ... */
  lemma RoundShape(s: State, inc: nat, list: seq<nat>, k: nat, s1: State)
    requires Lineup(s.orders, inc, list) && Untouched(s.orders, list, k) && FillsAt(s.orders, inc, list, k)
    requires Sound(s) && WalletsSound(s.books) && FillOne(s, inc, list[k]) == Some(s1)
    ensures Lineup(s1.orders, inc, list) && Untouched(s1.orders, list, k + 1) && Sound(s1) && WalletsSound(s1.books)
    ensures |s1.books.wallets| == |s.books.wallets| && s1.feeBps == s.feeBps
    ensures s1.orders[inc].SameTerms(s.orders[inc])
    ensures s1.orders[inc].Unfilled() == s.orders[inc].Unfilled() - Lot(s.orders[inc], s.orders[list[k]])
    ensures forall a :: k < a < |list| ==> s1.orders[list[a]] == s.orders[list[a]]
  {
    FillOneShape(s, inc, list[k], s1);
    FillBothKeepsBook(s.orders, |s.books.wallets|, inc, list[k], Lot(s.orders[inc], s.orders[list[k]]));
    SoundAfter(s, inc, list[k], s1);
  }

  /** ... and what it still takes is what it took less the round. */
  lemma RoundTakes(s: State, inc: nat, list: seq<nat>, k: nat, s1: State)
    requires Lineup(s.orders, inc, list) && Untouched(s.orders, list, k) && FillsAt(s.orders, inc, list, k)
    requires Sound(s) && WalletsSound(s.books) && FillOne(s, inc, list[k]) == Some(s1)
    requires Lineup(s1.orders, inc, list)
    ensures var i, r, left := s.orders[inc], s.orders[list[k]], s1.orders[inc].Unfilled();
      && (forall u: nat :: DrawnFrom(s.orders, inc, list, k, i.Unfilled(), u)
            == FillDraw(i, r, u, Lot(i, r)) + DrawnFrom(s1.orders, inc, list, k + 1, left, u))
      && FeesFrom(s.orders, inc, list, k, i.Unfilled(), s.feeBps)
           == FillFee(i, Lot(i, r), s.feeBps) + FeesFrom(s1.orders, inc, list, k + 1, left, s.feeBps)
      && ProceedsFrom(s.orders, inc, list, k, i.Unfilled())
           == FillGain(i, r, Lot(i, r)) + ProceedsFrom(s1.orders, inc, list, k + 1, left)
  {
    RoundShape(s, inc, list, k, s1);
    Unfolds(s.orders, inc, list, k, s.orders[inc].Unfilled(), s.feeBps);
    DrawnFrame(s.orders, s1.orders, inc, list, k + 1, s1.orders[inc].Unfilled(), s.feeBps);
  }

  /** The rest is covered exactly when the whole was. */
  lemma RoundGoesOn(s: State, inc: nat, list: seq<nat>, k: nat, s1: State)
    requires Lineup(s.orders, inc, list) && Untouched(s.orders, list, k) && FillsAt(s.orders, inc, list, k)
    requires Sound(s) && WalletsSound(s.books) && FillOne(s, inc, list[k]) == Some(s1)
    requires Lineup(s1.orders, inc, list) && Sound(s1) && Untouched(s1.orders, list, k + 1) && WalletsSound(s1.books)
    ensures s1.orders[inc].user < |s1.books.wallets|
    ensures Covers(s1, inc, list, k + 1) <==> Covers(s, inc, list, k)
  {
    var i, r := s.orders[inc], s.orders[list[k]];
    RoundShape(s, inc, list, k, s1);
    RoundTakes(s, inc, list, k, s1);
    FillWallets(s, inc, list[k], s1);
    var f := DrawnBy(s.orders, inc, list, k, i.Unfilled());
    var g := DrawnBy(s1.orders, inc, list, k + 1, s1.orders[inc].Unfilled());
    assert forall u: nat :: f(u) == FillDraw(i, r, u, Lot(i, r)) + g(u);
    assert forall u: nat | u < |s.books.wallets| ::
      f(u) <= s.books.wallets[u].reserved <==> g(u) <= s1.books.wallets[u].reserved;
    NothingNegative(s.orders, inc, list, k, i.Unfilled(), s.feeBps, |s.books.wallets|);
    NothingNegative(s1.orders, inc, list, k + 1, s1.orders[inc].Unfilled(), s.feeBps, |s.books.wallets|);
  }

  lemma SoundAfter(s: State, inc: nat, rest: nat, s1: State)
    requires inc < |s.orders| && rest < |s.orders| && WalletsSound(s.books) && FillOne(s, inc, rest) == Some(s1)
    ensures WalletsSound(s1.books)
  {
  }

  lemma {:induction false} MatchDraws(s: State, inc: nat, list: seq<nat>, k: nat, s': State, user: nat)
    requires k <= |list| && Lineup(s.orders, inc, list) && Untouched(s.orders, list, k)
    requires Sound(s) && WalletsSound(s.books) && MatchFrom(s, inc, list, k) == Some(s') && user < |s.books.wallets|
    ensures user < |s'.books.wallets| && WalletsSound(s'.books)
    ensures s'.books.wallets[user].reserved
         == s.books.wallets[user].reserved - DrawnFrom(s.orders, inc, list, k, s.orders[inc].Unfilled(), user)
    ensures s'.books.wallets[user].available == s.books.wallets[user].available
      + if user != s.orders[inc].user then 0
        else ProceedsFrom(s.orders, inc, list, k, s.orders[inc].Unfilled())
             - FeesFrom(s.orders, inc, list, k, s.orders[inc].Unfilled(), s.feeBps)
    decreases |list| - k
  {
    if FillsAt(s.orders, inc, list, k) {
      var s1 := FillOne(s, inc, list[k]).value;
      RoundShape(s, inc, list, k, s1);
      RoundTakes(s, inc, list, k, s1);
      FillWallets(s, inc, list[k], s1);
      MatchDraws(s1, inc, list, k + 1, s', user);
    }
  }

  // ----- placements

  /** The checks a placement makes before matching. */
  predicate Admissible(s: State, p: Params, pastClose: bool) {
    && s.status.Open? && !pastClose
    && 1 <= p.price <= 99 && p.quantity > 0 && p.user < |s.books.wallets|
    && if p.direction.Buy? then s.books.wallets[p.user].available >= p.price * p.quantity
       else Net(s, p.user, p.side) - OnOffer(s, p.user, p.side) >= p.quantity
  }

  lemma AdmittedIffAdmissible(s: State, p: Params, pastClose: bool)
    requires WalletsSound(s.books)
    ensures Admit(s, p, pastClose).Some? <==> Admissible(s, p, pastClose)
  {
    var a := s.(orders := s.orders + [NewOrder(p)]);
    if ValidParams(s, p) {
      assert p.price * p.quantity >= 0;
      AdmitSums(s, p, a);
    }
  }

  /** Money a buy sets aside on admission. */
  function Reservation(p: Params): int {
    if p.direction.Buy? then p.price * p.quantity else 0
  }

  /** Money an immediate-or-cancel buy takes back for what it cannot trade. */
  function Remainder(s: State, p: Params): int {
    if p.direction.Buy? && p.tif.IOC?
    then p.price * (p.quantity - Min(p.quantity, Crossable(Book(s, p), |s.orders|)))
    else 0
  }

  /** What matching draws from a user's reserve. */
  function LineDraws(s: State, p: Params, user: nat): int {
    DrawnFrom(Book(s, p), |s.orders|, Line(s, p), 0, p.quantity, user)
  }

  /** A reserve with the owner's new reservation in it. */
  function Prepared(s: State, p: Params, user: nat): int
    requires user < |s.books.wallets|
  {
    s.books.wallets[user].reserved + if user == p.user then Reservation(p) else 0
  }

  /** What a placement takes out of a user's reserve, and what fees it charges its owner. */
  function Needed(s: State, p: Params, user: nat): int {
    LineDraws(s, p, user) + if user == p.user then Remainder(s, p) else 0
  }

  function FeesDue(s: State, p: Params): int {
    FeesFrom(Book(s, p), |s.orders|, Line(s, p), 0, p.quantity, s.feeBps)
  }

  /** What the owner's balance gains and loses in a placement. */
  function Balance(s: State, p: Params): int {
    ProceedsFrom(Book(s, p), |s.orders|, Line(s, p), 0, p.quantity) - FeesDue(s, p) - Reservation(p) + Remainder(s, p)
  }

  predicate FokKilled(s: State, p: Params) {
    p.tif.FOK? && Crossable(Book(s, p), |s.orders|) < p.quantity
  }

  /** Every reserve, the owner's with the new reservation in it, covers what the placement takes out
      of it, and the owner's balance covers the fees beside the reservation. */
  ghost predicate CanFill(s: State, p: Params)
    requires p.user < |s.books.wallets|
  {
    || FokKilled(s, p)
    || (&& (forall u: nat :: u < |s.books.wallets| ==> Needed(s, p, u) <= Prepared(s, p, u))
        && FeesDue(s, p) <= s.books.wallets[p.user].available - Reservation(p))
  }

  ghost predicate GoesThrough(s: State, p: Params, pastClose: bool) {
    Admissible(s, p, pastClose) && CanFill(s, p)
  }

  lemma AdmittedWallets(s: State, p: Params, pastClose: bool, a: State)
    requires WalletsSound(s.books) && Admit(s, p, pastClose) == Some(a)
    ensures |a.books.wallets| == |s.books.wallets| && WalletsSound(a.books) && p.user < |s.books.wallets|
    ensures forall u: nat | u < |s.books.wallets| ::
      a.books.wallets[u].reserved == s.books.wallets[u].reserved + if u == p.user then Reservation(p) else 0
    ensures a.feeBps == s.feeBps
    ensures forall u: nat | u < |s.books.wallets| ::
      a.books.wallets[u].available == s.books.wallets[u].available - if u == p.user then Reservation(p) else 0
  {
    assert p.price * p.quantity >= 0;
  }

  lemma RemainderSucceeds(m: State, id: nat)
    requires Sound(m) && WalletsSound(m.books) && id < |m.orders|
    ensures var o := m.orders[id];
      CancelRemainder(m, id).Some? <==>
        o.direction.Sell? || o.price * o.Unfilled() <= m.books.wallets[o.user].reserved
  {
    assert m.orders[id].price * m.orders[id].Unfilled() >= 0;
  }

  /** A killed order always gets its reservation back. */
  lemma KillGoesThrough(s: State, p: Params, pastClose: bool, a: State)
    requires Sound(s) && WalletsSound(s.books) && Admit(s, p, pastClose) == Some(a)
    ensures CancelRemainder(a, |s.orders|).Some?
  {
    AdmitShape(s, p, pastClose, a);
    AdmittedWallets(s, p, pastClose, a);
    RemainderSucceeds(a, |s.orders|);
  }

  /** With the loop through, time in force succeeds exactly when the owner's reserve still holds the
      remainder. */
  lemma TifSucceeds(s: State, p: Params, pastClose: bool, a: State, m: State)
    requires Sound(s) && WalletsSound(s.books) && Admit(s, p, pastClose) == Some(a)
    requires MatchFrom(a, |s.orders|, Line(s, p), 0) == Some(m)
    ensures |m.orders| == |a.orders| && p.user < |a.books.wallets|
    ensures ApplyTif(m, |s.orders|).Some? <==>
      Remainder(s, p) <= a.books.wallets[p.user].reserved - LineDraws(s, p, p.user)
  {
    var id := |s.orders|;
    AdmitShape(s, p, pastClose, a);
    AdmittedWallets(s, p, pastClose, a);
    MatchedShape(a, id, m);
    RestingLineup(a.orders, |a.books.wallets|, id);
    MatchDraws(a, id, Line(s, p), 0, m, p.user);
    RemainderSucceeds(m, id);
    assert m.orders[id].SameTerms(NewOrder(p)) && m.orders[id].filled == Min(p.quantity, Crossable(Book(s, p), id));
  }

  /** A placement succeeds if and only if it is admissible and the wallets cover it: nothing else can
      make it fail, whatever the fee, the book or the state of the reserves. */
  lemma PlacementGoesThrough(s: State, p: Params, pastClose: bool)
    requires Sound(s) && WalletsSound(s.books)
    ensures Place(s, p, pastClose).Some? <==> GoesThrough(s, p, pastClose)
  {
    AdmittedIffAdmissible(s, p, pastClose);
    if Admit(s, p, pastClose).Some? {
      var a := Admit(s, p, pastClose).value;
      KilledMeans(s, p, pastClose);
      if FokKilled(s, p) {
        KillGoesThrough(s, p, pastClose, a);
      } else {
        MatchingGoesThrough(s, p, pastClose, a);
      }
    }
  }

  /** The loop is covered, in terms of the wallets before the call. */
  ghost predicate Coverable(s: State, p: Params)
    requires p.user < |s.books.wallets|
  {
    && (forall u: nat :: u < |s.books.wallets| ==> LineDraws(s, p, u) <= Prepared(s, p, u))
    && FeesDue(s, p) <= s.books.wallets[p.user].available - Reservation(p)
  }

  lemma AdmittedCovers(s: State, p: Params, pastClose: bool, a: State)
    requires Sound(s) && WalletsSound(s.books) && Admit(s, p, pastClose) == Some(a)
    ensures a.orders == Book(s, p) && p.user < |s.books.wallets| == |a.books.wallets|
    ensures Covers(a, |s.orders|, Line(s, p), 0) <==> Coverable(s, p)
  {
    AdmitShape(s, p, pastClose, a);
    AdmittedWallets(s, p, pastClose, a);
    assert NewOrder(p).Unfilled() == p.quantity;
    var f := DrawnBy(a.orders, |s.orders|, Line(s, p), 0, p.quantity);
    assert forall u: nat :: f(u) == LineDraws(s, p, u);
    assert forall u: nat | u < |s.books.wallets| :: a.books.wallets[u].reserved == Prepared(s, p, u);
  }

  lemma CanFillSplits(s: State, p: Params)
    requires p.user < |s.books.wallets| && !FokKilled(s, p) && Remainder(s, p) >= 0
    ensures CanFill(s, p) <==> Coverable(s, p) && Remainder(s, p) <= Prepared(s, p, p.user) - LineDraws(s, p, p.user)
  {
    assert forall u: nat :: Needed(s, p, u) == LineDraws(s, p, u) + if u == p.user then Remainder(s, p) else 0;
  }

  lemma MatchingGoesThrough(s: State, p: Params, pastClose: bool, a: State)
    requires Sound(s) && WalletsSound(s.books) && Admit(s, p, pastClose) == Some(a) && !FokKilled(s, p)
    ensures |a.orders| == |s.orders| + 1 && Within(Line(s, p), |a.orders|) && p.user < |s.books.wallets|
    ensures (var m := MatchFrom(a, |s.orders|, Line(s, p), 0); m.Some? && ApplyTif(m.value, |s.orders|).Some?) <==>
      CanFill(s, p)
  {
    AdmitShape(s, p, pastClose, a);
    AdmittedWallets(s, p, pastClose, a);
    AdmittedCovers(s, p, pastClose, a);
    RestingLineup(a.orders, |a.books.wallets|, |s.orders|);
    MatchSucceeds(a, |s.orders|, Line(s, p), 0);
    RemainderNonNegative(s, p);
    CanFillSplits(s, p);
    if MatchFrom(a, |s.orders|, Line(s, p), 0).Some? {
      TifSucceeds(s, p, pastClose, a, MatchFrom(a, |s.orders|, Line(s, p), 0).value);
    }
  }

  /** And then both columns of every wallet have moved by exactly the amounts so computed. */
  lemma PlacementDraws(s: State, p: Params, pastClose: bool, s': State, user: nat)
    requires Sound(s) && WalletsSound(s.books) && Place(s, p, pastClose) == Some(s') && user < |s.books.wallets|
    ensures user < |s'.books.wallets|
    ensures s'.books.wallets[user] == if FokKilled(s, p) then s.books.wallets[user] else Wallet(
      s.books.wallets[user].available + (if user == p.user then Balance(s, p) else 0),
      Prepared(s, p, user) - Needed(s, p, user))
  {
    var a := Admit(s, p, pastClose).value;
    var id := |s.orders|;
    AdmitShape(s, p, pastClose, a);
    AdmittedWallets(s, p, pastClose, a);
    KilledMeans(s, p, pastClose);
    if FokKilled(s, p) {
      KillRestores(s, p, pastClose, a, s');
    } else {
      var m := MatchedDraws(s, p, a, user);
      TifDraws(s, p, m, s', user);
    }
  }

  lemma MatchedDraws(s: State, p: Params, a: State, user: nat) returns (m: State)
    requires a.orders == Book(s, p) && Sound(a) && WalletsSound(a.books) && user < |a.books.wallets|
    requires MatchFrom(a, |s.orders|, Line(s, p), 0).Some?
    ensures MatchFrom(a, |s.orders|, Line(s, p), 0) == Some(m) && Sound(m)
    ensures |m.orders| == |a.orders| && user < |m.books.wallets| == |a.books.wallets|
    ensures var o := m.orders[|s.orders|];
      o.SameTerms(NewOrder(p)) && o.cancelled == 0 && o.filled == Min(p.quantity, Crossable(Book(s, p), |s.orders|))
    ensures m.books.wallets[user].reserved == a.books.wallets[user].reserved - LineDraws(s, p, user)
    ensures m.books.wallets[user].available == a.books.wallets[user].available
      + if user != p.user then 0
        else ProceedsFrom(Book(s, p), |s.orders|, Line(s, p), 0, p.quantity)
             - FeesFrom(Book(s, p), |s.orders|, Line(s, p), 0, p.quantity, a.feeBps)
  {
    m := MatchFrom(a, |s.orders|, Line(s, p), 0).value;
    RestingLineup(a.orders, |a.books.wallets|, |s.orders|);
    MatchedShape(a, |s.orders|, m);
    MatchDraws(a, |s.orders|, Line(s, p), 0, m, user);
    assert NewOrder(p).Unfilled() == p.quantity;
  }

  lemma TifDraws(s: State, p: Params, m: State, s': State, user: nat)
    requires |m.orders| == |s.orders| + 1 && ApplyTif(m, |s.orders|) == Some(s') && user < |m.books.wallets|
    requires m.orders[|s.orders|].SameTerms(NewOrder(p)) && m.orders[|s.orders|].cancelled == 0 && Sound(m)
    requires m.orders[|s.orders|].filled == Min(p.quantity, Crossable(Book(s, p), |s.orders|))
    ensures user < |s'.books.wallets|
    ensures var returned := if user == p.user then Remainder(s, p) else 0;
      && s'.books.wallets[user].reserved == m.books.wallets[user].reserved - returned
      && s'.books.wallets[user].available == m.books.wallets[user].available + returned
  {
    RemainderIs(s, p, m.orders[|s.orders|].Unfilled());
  }

  lemma RemainderIs(s: State, p: Params, rest: int)
    requires rest == p.quantity - Min(p.quantity, Crossable(Book(s, p), |s.orders|))
    ensures Remainder(s, p) == if p.direction.Buy? && p.tif.IOC? then p.price * rest else 0
    ensures rest == 0 ==> Remainder(s, p) == 0
  {
  }

  lemma RemainderNonNegative(s: State, p: Params)
    requires p.price > 0
    ensures Remainder(s, p) >= 0
  {
    var rest := p.quantity - Min(p.quantity, Crossable(Book(s, p), |s.orders|));
    assert p.price * rest >= 0;
  }
}
