/** What the matching loop does to a resting list: quantities, priority, fill-or-kill. */
module ClobMatching {
  import opened Sums
  import opened Orders
  import opened Clob

  /** A list the loop can walk: distinct live rows, none of them the incoming one. */
  ghost predicate Lineup(orders: seq<Order>, inc: nat, list: seq<nat>) {
    && inc < |orders|
    && Within(list, |orders|)
    && (forall a :: 0 <= a < |list| ==> list[a] != inc)
    && (forall a, b :: 0 <= a < b < |list| ==> list[a] != list[b])
  }

  /** Row `i` stands at position `k` or later. */
  predicate Listed(list: seq<nat>, k: nat, i: nat)
    decreases |list| - k
  {
    k < |list| && (list[k] == i || Listed(list, k + 1, i))
  }

  lemma {:induction false} ListedAt(list: seq<nat>, k: nat, i: nat) returns (a: nat)
    requires Listed(list, k, i)
    ensures k <= a < |list| && list[a] == i
    decreases |list| - k
  {
    if list[k] == i {
      a := k;
    } else {
      a := ListedAt(list, k + 1, i);
    }
  }

  /** The rows from position `k` on still offer something. */
  ghost predicate Untouched(orders: seq<Order>, list: seq<nat>, k: nat)
    requires Within(list, |orders|)
  {
    forall a :: k <= a < |list| ==> orders[list[a]].Unfilled() > 0
  }

  /** First position from `k` on that does not cross the incoming order. */
  function PrefixEnd(orders: seq<Order>, inc: nat, list: seq<nat>, k: nat): (e: nat)
    requires inc < |orders| && Within(list, |orders|)
    ensures k <= |list| ==> k <= e <= |list|
    ensures k < |list| && e < |list| ==> !Compatible(orders[inc], orders[list[e]])
    ensures forall a :: k <= a < e && a < |list| ==> Compatible(orders[inc], orders[list[a]])
    decreases |list| - k
  {
    if k >= |list| || !Compatible(orders[inc], orders[list[k]]) then k else PrefixEnd(orders, inc, list, k + 1)
  }

  /** Contracts offered at positions k .. a. */
  function Offered(orders: seq<Order>, list: seq<nat>, k: nat, a: nat): int
    requires Within(list, |orders|) && a <= |list|
  {
    if a <= k then 0 else Offered(orders, list, k, a - 1) + orders[list[a - 1]].Unfilled()
  }

  lemma {:induction false} OfferedShift(orders: seq<Order>, list: seq<nat>, k: nat, a: nat)
    requires Within(list, |orders|) && k < a <= |list|
    ensures Offered(orders, list, k, a) == orders[list[k]].Unfilled() + Offered(orders, list, k + 1, a)
  {
    if a > k + 1 {
      OfferedShift(orders, list, k, a - 1);
    }
  }

  lemma {:induction false} OfferedFrame(orders: seq<Order>, orders': seq<Order>, list: seq<nat>, k: nat, a: nat)
    requires Within(list, |orders|) && Within(list, |orders'|) && a <= |list|
    requires forall b :: k <= b < a ==> orders'[list[b]] == orders[list[b]]
    ensures Offered(orders', list, k, a) == Offered(orders, list, k, a)
  {
    if a > k {
      OfferedFrame(orders, orders', list, k, a - 1);
    }
  }

  lemma {:induction false} OfferedGrows(orders: seq<Order>, list: seq<nat>, k: nat, a: nat, b: nat)
    requires Within(list, |orders|) && Untouched(orders, list, k) && k <= a <= b <= |list|
    ensures Offered(orders, list, k, a) + (b - a) <= Offered(orders, list, k, b)
  {
    if a < b {
      OfferedGrows(orders, list, k, a, b - 1);
    }
  }

  lemma {:induction false} PrefixFrame(orders: seq<Order>, orders': seq<Order>, inc: nat, list: seq<nat>, k: nat)
    requires inc < |orders| == |orders'| && Within(list, |orders|)
    requires SameBook(orders, orders')
    ensures PrefixEnd(orders', inc, list, k) == PrefixEnd(orders, inc, list, k)
    decreases |list| - k
  {
    if k < |list| && Compatible(orders[inc], orders[list[k]]) {
      PrefixFrame(orders, orders', inc, list, k + 1);
    }
  }

  /** Same rows on the same terms; only fills may differ. */
  ghost predicate SameBook(orders: seq<Order>, orders': seq<Order>) {
    && |orders'| == |orders|
    && forall i :: 0 <= i < |orders| ==> orders'[i].SameTerms(orders[i]) && orders'[i].cancelled == orders[i].cancelled
  }

  /** The share of position `a`: what is left of the demand after everything ahead of it. */
  function Allotted(orders: seq<Order>, inc: nat, list: seq<nat>, k: nat, a: nat): int
    requires inc < |orders| && Within(list, |orders|) && a < |list|
  {
    if a >= PrefixEnd(orders, inc, list, k) then 0
    else Portion(orders[list[a]].Unfilled(), orders[inc].Unfilled(), Offered(orders, list, k, a))
  }

  /** What `offer` serves of a demand when `ahead` is served first. */
  function Portion(offer: int, demand: int, ahead: int): int {
    Max(0, Min(offer, demand - ahead))
  }

  /** Only the incoming row and rows from position `k` on may have changed, and only by a fill. */
  ghost predicate Confined(orders: seq<Order>, orders': seq<Order>, inc: nat, list: seq<nat>, k: nat) {
    && SameBook(orders, orders')
    && (forall i :: 0 <= i < |orders| && orders'[i].filled == orders[i].filled ==> orders'[i] == orders[i])
    && (forall i :: 0 <= i < |orders| && orders'[i] != orders[i] ==> i == inc || Listed(list, k, i))
  }

  ghost predicate Shares(orders: seq<Order>, orders': seq<Order>, inc: nat, list: seq<nat>, k: nat)
    requires inc < |orders| == |orders'| && Within(list, |orders|)
  {
    forall a :: k <= a < |list| ==> ShareAt(orders, orders', inc, list, k, a)
  }

  /** Position `a` received exactly its share. */
  ghost predicate ShareAt(orders: seq<Order>, orders': seq<Order>, inc: nat, list: seq<nat>, k: nat, a: nat)
    requires inc < |orders| == |orders'| && Within(list, |orders|) && a < |list|
  {
    orders'[list[a]].filled - orders[list[a]].filled == Allotted(orders, inc, list, k, a)
  }

  /** The outcome of a matching run, position by position, with no reference to the loop. */
  ghost predicate Waterfall(orders: seq<Order>, orders': seq<Order>, inc: nat, list: seq<nat>, k: nat)
    requires inc < |orders| && Within(list, |orders|) && k <= |list|
  {
    && Confined(orders, orders', inc, list, k)
    && Shares(orders, orders', inc, list, k)
    && orders'[inc].filled - orders[inc].filled
         == Min(orders[inc].Unfilled(), Offered(orders, list, k, PrefixEnd(orders, inc, list, k)))
  }

  lemma FillBothKeepsBook(orders: seq<Order>, users: nat, a: nat, b: nat, qty: int)
    requires a < |orders| && b < |orders| && a != b && OrdersSound(orders, users)
    requires 0 < qty <= orders[a].Unfilled() && qty <= orders[b].Unfilled()
    ensures OrdersSound(FillBoth(orders, a, b, qty), users) && SameBook(orders, FillBoth(orders, a, b, qty))
  {
  }

  lemma FillOneShape(s: State, inc: nat, rest: nat, s1: State)
    requires inc < |s.orders| && rest < |s.orders| && FillOne(s, inc, rest) == Some(s1)
    ensures s1.orders == FillBoth(s.orders, inc, rest, Min(s.orders[inc].Unfilled(), s.orders[rest].Unfilled()))
    ensures |s1.books.wallets| == |s.books.wallets|
    ensures s1.status == s.status && s1.feeBps == s.feeBps
  {
  }

  /** The loop is the waterfall: every resting order gets exactly its share, and nobody else anything. */
  lemma {:induction false} MatchIsWaterfall(s: State, inc: nat, list: seq<nat>, k: nat, s': State)
    requires k <= |list| && Lineup(s.orders, inc, list) && Untouched(s.orders, list, k)
    requires OrdersSound(s.orders, |s.books.wallets|)
    requires MatchFrom(s, inc, list, k) == Some(s')
    ensures Waterfall(s.orders, s'.orders, inc, list, k)
    ensures OrdersSound(s'.orders, |s.books.wallets|) && |s'.books.wallets| == |s.books.wallets|
    decreases |list| - k
  {
    if k == |list| || s.orders[inc].Unfilled() <= 0 || !Compatible(s.orders[inc], s.orders[list[k]]) {
      StoppedIsWaterfall(s.orders, inc, list, k);
    } else {
      var s1 := FillOne(s, inc, list[k]).value;
      var qty := Min(s.orders[inc].Unfilled(), s.orders[list[k]].Unfilled());
      FillOneShape(s, inc, list[k], s1);
      FillBothKeepsBook(s.orders, |s.books.wallets|, inc, list[k], qty);
      assert Untouched(s1.orders, list, k + 1);
      MatchIsWaterfall(s1, inc, list, k + 1, s');
      WaterfallStep(s.orders, s1.orders, s'.orders, inc, list, k, qty);
    }
  }

  lemma StoppedIsWaterfall(o: seq<Order>, inc: nat, list: seq<nat>, k: nat)
    requires k <= |list| && Lineup(o, inc, list) && Untouched(o, list, k) && o[inc].Unfilled() >= 0
    requires k == |list| || o[inc].Unfilled() == 0 || !Compatible(o[inc], o[list[k]])
    ensures Waterfall(o, o, inc, list, k)
  {
    var e := PrefixEnd(o, inc, list, k);
    OfferedGrows(o, list, k, k, e);
    forall a | k <= a < |list| ensures ShareAt(o, o, inc, list, k, a) {
      OfferedGrows(o, list, k, k, a);
    }
  }

  lemma WaterfallStep(o: seq<Order>, o1: seq<Order>, o': seq<Order>, inc: nat, list: seq<nat>, k: nat, qty: int)
    requires k < |list| && Lineup(o, inc, list) && Untouched(o, list, k)
    requires Compatible(o[inc], o[list[k]]) && o[inc].Unfilled() > 0
    requires qty == Min(o[inc].Unfilled(), o[list[k]].Unfilled())
    requires o1 == FillBoth(o, inc, list[k], qty) && Waterfall(o1, o', inc, list, k + 1)
    ensures Waterfall(o, o', inc, list, k)
  {
    var e := PrefixEnd(o, inc, list, k);
    PrefixFrame(o, o1, inc, list, k + 1);
    assert PrefixEnd(o1, inc, list, k + 1) == e;
    OfferedStep(o, o1, inc, list, k, e);
    ConfinedStep(o, o1, o', inc, list, k, qty);
    forall a | k <= a < |list| ensures ShareAt(o, o', inc, list, k, a) {
      if a > k {
        assert ShareAt(o1, o', inc, list, k + 1, a);
        OfferedStep(o, o1, inc, list, k, a);
        var offer, demand, first := o[list[a]].Unfilled(), o[inc].Unfilled(), o[list[k]].Unfilled();
        var between := Offered(o1, list, k + 1, a);
        var before := AllottedIs(o, inc, list, k, a, e, offer, demand, between + first);
        var after := AllottedIs(o1, inc, list, k + 1, a, e, offer, demand - qty, between);
        SameShare(before, after, a < e, offer, demand, first, between);
      }
    }
  }

  lemma OfferedStep(o: seq<Order>, o1: seq<Order>, inc: nat, list: seq<nat>, k: nat, a: nat)
    requires k < a <= |list| && Lineup(o, inc, list) && Untouched(o, list, k)
    requires |o1| == |o| && forall b :: k < b < |list| ==> o1[list[b]] == o[list[b]]
    ensures Offered(o1, list, k + 1, a) == Offered(o, list, k + 1, a) >= 0
    ensures Offered(o, list, k, a) == Offered(o, list, k + 1, a) + o[list[k]].Unfilled()
  {
    OfferedShift(o, list, k, a);
    OfferedFrame(o, o1, list, k + 1, a);
    OfferedGrows(o, list, k + 1, k + 1, a);
  }

  lemma ConfinedStep(o: seq<Order>, o1: seq<Order>, o': seq<Order>, inc: nat, list: seq<nat>, k: nat, qty: int)
    requires k < |list| && Lineup(o, inc, list) && qty > 0
    requires o1 == FillBoth(o, inc, list[k], qty) && Confined(o1, o', inc, list, k + 1)
    requires o'[inc].filled >= o1[inc].filled
    ensures Confined(o, o', inc, list, k) && o'[list[k]] == o1[list[k]]
  {
    if Listed(list, k + 1, list[k]) {
      var a := ListedAt(list, k + 1, list[k]);
      assert false;
    }
  }

  lemma AllottedIs(orders: seq<Order>, inc: nat, list: seq<nat>, k: nat, a: nat, e: nat, offer: int, demand: int,
          ahead: int)
    returns (share: int)
    requires inc < |orders| && Within(list, |orders|) && a < |list|
    requires PrefixEnd(orders, inc, list, k) == e && Offered(orders, list, k, a) == ahead
    requires orders[list[a]].Unfilled() == offer && orders[inc].Unfilled() == demand
    ensures share == Allotted(orders, inc, list, k, a) == if a >= e then 0 else Portion(offer, demand, ahead)
  {
    share := Allotted(orders, inc, list, k, a);
  }

  /** Serving the first row and then sharing the rest is sharing the whole. */
  lemma SameShare(before: int, after: int, reached: bool, offer: int, demand: int, first: int, between: int)
    requires demand > 0 && between >= 0
    requires before == if reached then Portion(offer, demand, between + first) else 0
    requires after == if reached then Portion(offer, demand - Min(demand, first), between) else 0
    ensures before == after
  {
  }
}
