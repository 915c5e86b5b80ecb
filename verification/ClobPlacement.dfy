/** What a successful placement does to the book: fill-or-kill, priority, no crossed prices. */
module ClobPlacement {
  import opened Sums
  import opened Ledgers
  import opened Orders
  import opened Clob
  import opened ClobMatching

  ghost predicate Sound(s: State) {
    OrdersSound(s.orders, |s.books.wallets|)
  }

  // ----- the shape of a placement

  lemma QueueRows(orders: seq<Order>, side: Side, direction: Direction)
    ensures var ids := Queue(orders, side, direction, |orders|);
      && InPriority(orders, ids)
      && (forall a :: 0 <= a < |ids| ==> Candidate(orders[ids[a]], side, direction))
      && (forall a, b :: 0 <= a < b < |ids| ==> ids[a] != ids[b])
  {
    QueueSorted(orders, side, direction, |orders|);
    var ids := Queue(orders, side, direction, |orders|);
    forall a | 0 <= a < |ids| ensures Candidate(orders[ids[a]], side, direction) {
      assert ids[a] in ids;
    }
    forall a, b | 0 <= a < b < |ids| ensures ids[a] != ids[b] {
      assert Ahead(orders, ids[a], ids[b]);
    }
  }

  /** The resting list of an incoming order is a proper lineup of live rows. */
  lemma RestingLineup(orders: seq<Order>, users: nat, inc: nat)
    requires OrdersSound(orders, users) && inc < |orders|
    ensures Lineup(orders, inc, Resting(orders, inc)) && Untouched(orders, Resting(orders, inc), 0)
  {
    var o := orders[inc];
    if o.direction.Sell? {
      QueueRows(orders, o.side, Direction.Buy);
    } else {
      QueueRows(orders, o.side, Direction.Sell);
      QueueRows(orders, Opposite(o.side), Direction.Buy);
    }
  }

  /** Incoming order `id` of state `a` fills nothing and is cancelled at once. */
  predicate Killed(a: State, id: nat)
    requires id < |a.orders|
  {
    a.orders[id].tif.FOK? && CountMatchable(a.orders, id) < a.orders[id].quantity
  }

  /** Contracts the resting list offers before its first order that does not cross. */
  function Crossable(orders: seq<Order>, id: nat): int
    requires id < |orders|
  {
    var list := Resting(orders, id);
    Offered(orders, list, 0, PrefixEnd(orders, id, list, 0))
  }

  lemma AdmitShape(s: State, p: Params, pastClose: bool, a: State)
    requires Sound(s) && Admit(s, p, pastClose) == Some(a)
    ensures Sound(a) && a.orders == s.orders + [NewOrder(p)]
    ensures |a.books.wallets| == |s.books.wallets| && a.books.ledger == s.books.ledger
    ensures s.status.Open? && a.status == s.status && a.feeBps == s.feeBps && ValidParams(s, p)
  {
  }

  /** The book after matching, before time in force. */
  lemma MatchedShape(a: State, id: nat, m: State)
    requires Sound(a) && id < |a.orders| && MatchFrom(a, id, Resting(a.orders, id), 0) == Some(m)
    ensures Waterfall(a.orders, m.orders, id, Resting(a.orders, id), 0)
    ensures Sound(m) && |m.books.wallets| == |a.books.wallets|
  {
    RestingLineup(a.orders, |a.books.wallets|, id);
    MatchIsWaterfall(a, id, Resting(a.orders, id), 0, m);
  }

  lemma RemainderShape(m: State, id: nat, s': State)
    requires Sound(m) && id < |m.orders| && CancelRemainder(m, id) == Some(s')
    ensures Sound(s') && |s'.books.wallets| == |m.books.wallets|
    ensures |s'.orders| == |m.orders| && !s'.orders[id].Live()
    ensures s'.orders[id].filled == m.orders[id].filled && s'.orders[id].SameTerms(m.orders[id])
    ensures m.orders[id].cancelled == 0 && s'.orders[id].status.Cancelled? ==> s'.orders[id].filled == 0
    ensures forall i :: 0 <= i < |m.orders| && i != id ==> s'.orders[i] == m.orders[i]
  {
  }

  /** Everything a placement did to the other rows is the waterfall, or nothing when killed. */
  ghost predicate Outcome(o: seq<Order>, o': seq<Order>, id: nat, killed: bool)
    requires id < |o|
  {
    var list := Resting(o, id);
    && |o'| == |o|
    && (forall i :: 0 <= i < |o| ==> o'[i].SameTerms(o[i]))
    && (forall i :: 0 <= i < |o| && i != id && o'[i].filled == o[i].filled ==> o'[i] == o[i])
    && (forall i :: 0 <= i < |o| && i != id ==> o'[i].cancelled == o[i].cancelled && o'[i].filled >= o[i].filled)
    && (forall i :: 0 <= i < |o| && i != id && o'[i] != o[i] ==> Listed(list, 0, i))
    && (forall a :: 0 <= a < |list| ==> Gained(o, o', id, list, a, killed))
    && o'[id].filled - o[id].filled == (if killed then 0 else Min(o[id].Unfilled(), Crossable(o, id)))
    && (o'[id].Live() ==> !killed && o[id].tif.GTC?)
    && (o[id].tif.GTC? ==> o'[id].cancelled == o[id].cancelled)
    && (o'[id].status.Cancelled? ==> o'[id].filled == 0)
  }

  ghost predicate Gained(o: seq<Order>, o': seq<Order>, id: nat, list: seq<nat>, a: nat, killed: bool)
    requires id < |o| == |o'| && Within(list, |o|) && a < |list|
  {
    o'[list[a]].filled - o[list[a]].filled == if killed then 0 else Allotted(o, id, list, 0, a)
  }

  lemma WaterfallOutcome(o: seq<Order>, m: seq<Order>, o': seq<Order>, id: nat, users: nat)
    requires id < |o| && OrdersSound(o, users) && OrdersSound(o', users)
    requires Waterfall(o, m, id, Resting(o, id), 0)
    requires |o'| == |o| && (forall i :: 0 <= i < |o| && i != id ==> o'[i] == m[i])
    requires o'[id].SameTerms(m[id]) && o'[id].filled == m[id].filled
    requires o'[id].Live() ==> o[id].tif.GTC?
    requires o[id].tif.GTC? ==> o'[id] == m[id]
    requires o'[id].status.Cancelled? ==> o'[id].filled == 0
    ensures Outcome(o, o', id, false)
  {
    var list := Resting(o, id);
    RestingLineup(o, users, id);
    forall a | 0 <= a < |list| ensures Gained(o, o', id, list, a, false) {
      assert ShareAt(o, m, id, list, 0, a);
    }
    forall i | 0 <= i < |o| && i != id ensures o'[i].filled >= o[i].filled {
      if o'[i] != o[i] {
        var a := ListedAt(list, 0, i);
        assert ShareAt(o, m, id, list, 0, a);
      }
    }
  }

  // ----- fill-or-kill: the counting loop and the matching loop agree

  /** The count reaches the quantity exactly when the crossing prefix offers it, and otherwise
      it is what that prefix offers. */
  lemma {:induction false} CountAgrees(orders: seq<Order>, inc: nat, list: seq<nat>, k: nat, total: int)
    requires k <= |list| && Lineup(orders, inc, list) && Untouched(orders, list, k)
    requires total < orders[inc].quantity
    ensures var all := total + Offered(orders, list, k, PrefixEnd(orders, inc, list, k));
            var count := CountFrom(orders, inc, list, k, total);
            (count >= orders[inc].quantity <==> all >= orders[inc].quantity)
            && (count < orders[inc].quantity ==> count == all)
    decreases |list| - k
  {
    var e := PrefixEnd(orders, inc, list, k);
    if k < |list| && Compatible(orders[inc], orders[list[k]]) {
      OfferedShift(orders, list, k, e);
      OfferedGrows(orders, list, k + 1, k + 1, e);
      var t := total + orders[list[k]].Unfilled();
      if t < orders[inc].quantity {
        CountAgrees(orders, inc, list, k + 1, t);
      }
    }
  }

  lemma KilledIffShort(a: State, id: nat)
    requires Sound(a) && id < |a.orders|
    ensures Killed(a, id) <==> a.orders[id].tif.FOK? && Crossable(a.orders, id) < a.orders[id].quantity
  {
    RestingLineup(a.orders, |a.books.wallets|, id);
    CountAgrees(a.orders, id, Resting(a.orders, id), 0, 0);
  }

  /** Every successful placement is an Outcome on the book that includes the new order. */
  lemma PlaceOutcome(s: State, p: Params, pastClose: bool, s': State)
    requires Sound(s) && Place(s, p, pastClose) == Some(s')
    ensures var a := Admit(s, p, pastClose).value;
      && a.orders == s.orders + [NewOrder(p)]
      && Outcome(a.orders, s'.orders, |s.orders|, Killed(a, |s.orders|))
    ensures Sound(s') && |s'.books.wallets| == |s.books.wallets|
  {
    var a := Admit(s, p, pastClose).value;
    var id := |s.orders|;
    AdmitShape(s, p, pastClose, a);
    KilledIffShort(a, id);
    if Killed(a, id) {
      RemainderShape(a, id, s');
      RestingLineup(a.orders, |a.books.wallets|, id);
    } else {
      var m := MatchFrom(a, id, Resting(a.orders, id), 0).value;
      MatchedShape(a, id, m);
      TifShape(m, id, s');
      WaterfallOutcome(a.orders, m.orders, s'.orders, id, |a.books.wallets|);
    }
  }

  lemma TifShape(m: State, id: nat, s': State)
    requires Sound(m) && id < |m.orders| && ApplyTif(m, id) == Some(s')
    ensures Sound(s') && |s'.books.wallets| == |m.books.wallets| && |s'.orders| == |m.orders|
    ensures s'.orders[id].filled == m.orders[id].filled && s'.orders[id].SameTerms(m.orders[id])
    ensures s'.orders[id].Live() ==> !m.orders[id].tif.IOC? && m.orders[id].Unfilled() > 0
    ensures m.orders[id].tif.GTC? ==> s' == m
    ensures m.orders[id].cancelled == 0 && s'.orders[id].status.Cancelled? ==> s'.orders[id].filled == 0
    ensures forall i :: 0 <= i < |m.orders| && i != id ==> s'.orders[i] == m.orders[i]
  {
    if ApplyTif(m, id) == CancelRemainder(m, id) {
      RemainderShape(m, id, s');
    }
  }

  /** The incoming row after a placement. */
  lemma IncomingRow(s: State, p: Params, pastClose: bool, s': State)
    requires Sound(s) && Place(s, p, pastClose) == Some(s')
    ensures var id := |s.orders|;
            var crossable := Crossable(s.orders + [NewOrder(p)], id);
            var killed := p.tif.FOK? && crossable < p.quantity;
      && |s'.orders| == id + 1 && Killed(Admit(s, p, pastClose).value, id) == killed
      && s'.orders[id].Sound() && s'.orders[id].SameTerms(NewOrder(p))
      && s'.orders[id].filled == (if killed then 0 else Min(p.quantity, crossable))
      && (s'.orders[id].Live() ==> !killed && p.tif.GTC?)
      && (p.tif.GTC? ==> s'.orders[id].cancelled == 0)
      && (s'.orders[id].status.Cancelled? ==> s'.orders[id].filled == 0)
  {
    AdmitShape(s, p, pastClose, Admit(s, p, pastClose).value);
    PlaceOutcome(s, p, pastClose, s');
    KilledIffShort(Admit(s, p, pastClose).value, |s.orders|);
  }

  /** The new row, column by column. It carries the terms of the call; it fills as far as the crossing
      prefix goes; only a good-till-cancelled order rests with the remainder, while of the others what is
      left is cancelled, and they end filled if anything was filled. */
  lemma RestsOnlyIfGtc(s: State, p: Params, pastClose: bool, s': State)
    requires Sound(s) && Place(s, p, pastClose) == Some(s')
    ensures var id := |s.orders|;
            var crossable := Crossable(s.orders + [NewOrder(p)], id);
      && |s'.orders| == id + 1
      && var o := s'.orders[id];
      && o.user == p.user && o.side == p.side && o.direction == p.direction
      && o.price == p.price && o.quantity == p.quantity && o.tif == p.tif
      && o.filled == (if p.tif.FOK? && crossable < p.quantity then 0 else Min(p.quantity, crossable))
      && o.cancelled == (if p.tif.GTC? then 0 else p.quantity - o.filled)
      && o.status == (if o.filled == p.quantity then OrderStatus.Filled
                      else if p.tif.GTC? && o.filled == 0 then OrderStatus.Open
                      else if p.tif.GTC? then OrderStatus.Partial
                      else if o.filled == 0 then OrderStatus.Cancelled
                      else OrderStatus.Filled)
      && (o.Live() <==> p.tif.GTC? && crossable < p.quantity)
  {
    IncomingRow(s, p, pastClose, s');
  }

  lemma KillRestores(s: State, p: Params, pastClose: bool, a: State, s': State)
    requires Sound(s) && Admit(s, p, pastClose) == Some(a) && CancelRemainder(a, |s.orders|) == Some(s')
    ensures s'.orders == s.orders + [NewOrder(p).CancelRemainder()] && s'.books == s.books
  {
    assert s'.books.wallets == s.books.wallets;
  }

  /** A fill-or-kill order that succeeds is filled whole, or the books and every other order are
      exactly as before; which of the two is decided by the crossing prefix alone. */
  lemma FillOrKill(s: State, p: Params, pastClose: bool, s': State)
    requires Sound(s) && p.tif.FOK? && Place(s, p, pastClose) == Some(s')
    ensures var id := |s.orders|;
      if Crossable(s.orders + [NewOrder(p)], id) >= p.quantity
      then s'.orders[id].filled == p.quantity && s'.orders[id].status.Filled?
      else s'.orders == s.orders + [NewOrder(p).CancelRemainder()] && s'.books == s.books
           && s'.orders[id].filled == 0 && s'.orders[id].status.Cancelled?
  {
    var a := Admit(s, p, pastClose).value;
    AdmitShape(s, p, pastClose, a);
    IncomingRow(s, p, pastClose, s');
    if Killed(a, |s.orders|) {
      KillRestores(s, p, pastClose, a, s');
    }
  }
}
