/** Order rows, the sums the services take over them, and the sorted resting lists. */
module Orders {
  import opened Sums
  import opened Ledgers

  datatype Direction = Buy | Sell

  datatype TimeInForce = GTC | IOC | FOK

  datatype OrderStatus = Open | Partial | Filled | Cancelled

  datatype Order = Order(
    user: nat,
    side: Side,
    direction: Direction,
    price: int,
    quantity: int,
    filled: int,
    cancelled: int,
    tif: TimeInForce,
    status: OrderStatus)
  {
    function Unfilled(): int {
      quantity - filled - cancelled
    }

    function ReservedMinor(): int {
      if direction.Buy? then price * Unfilled() else 0
    }

    predicate Live() {
      status.Open? || status.Partial?
    }

    /** One fill of `qty` contracts. */
    function Fill(qty: int): Order {
      this.(filled := filled + qty, status := if Unfilled() == qty then Filled else Partial)
    }

    /** Cancellation by the cancellation service, by settlement or with the market. */
    function Cancel(): Order {
      this.(cancelled := cancelled + Unfilled(), status := OrderStatus.Cancelled)
    }

    /** Time-in-force cancellation of the remainder. */
    function CancelRemainder(): Order {
      this.(cancelled := cancelled + Unfilled(), status := if filled == 0 then OrderStatus.Cancelled else Filled)
    }

    /** Filled contracts of `s`: bought count up, sold count down. */
    function Holds(s: Side): int {
      if side != s then 0 else if direction.Buy? then filled else -filled
    }

    /** Contracts of `s` this row still offers for sale. */
    function Offers(s: Side): int {
      if side == s && direction.Sell? && Live() then Unfilled() else 0
    }

    /** Money this row still needs in its owner's reserve. */
    function Claims(): int {
      if direction.Buy? && Live() then ReservedMinor() else 0
    }

    /** The validations of the row together with the lifecycle rule. */
    predicate Sound() {
      && 1 <= price <= 99
      && quantity > 0
      && filled >= 0
      && cancelled >= 0
      && filled + cancelled <= quantity
      && (Live() <==> Unfilled() > 0)
      && (status.Open? ==> filled == 0)
      && (status.Partial? || status.Filled? ==> filled > 0)
      && (status.Cancelled? ==> cancelled > 0)
    }

    /** The columns no service ever changes. */
    predicate SameTerms(o: Order) {
      && user == o.user && side == o.side && direction == o.direction
      && price == o.price && quantity == o.quantity && tif == o.tif
    }
  }

  /** A live row is cancelled with what it has left, keeping its fills; any other stays as it is. */
  ghost predicate CalledOff(o: Order, o2: Order) {
    if o.status.Open? || o.status.Partial?
    then o2.SameTerms(o) && o2.filled == o.filled && o2.cancelled == o.quantity - o.filled && o2.status.Cancelled?
    else o2 == o
  }

  // ----- sums over the orders table

  function OrderOwner(o: Order): nat {
    o.user
  }

  /** Filled buys minus filled sells of one side, over all users. */
  function OpenInterest(side: Side): (f: Order -> int)
    ensures forall o :: f(o) == o.Holds(side)
  {
    (o: Order) => o.Holds(side)
  }

  /** Clob::NetPositionService for one user. */
  function NetOf(user: nat, side: Side): (f: Order -> int)
    ensures forall o :: f(o) == if OrderOwner(o) == user then o.Holds(side) else 0
  {
    Part(OpenInterest(side), OrderOwner, user)
  }

  /** Contracts committed to the user's live sells. */
  function CommittedOf(user: nat, side: Side): (f: Order -> int)
    ensures forall o :: f(o) == if o.user == user then o.Offers(side) else 0
  {
    (o: Order) => if o.user == user then o.Offers(side) else 0
  }

  /** Money the user's live buys need in reserve. */
  function ClaimsOf(user: nat): (f: Order -> int)
    ensures forall o :: f(o) == if o.user == user then o.Claims() else 0
  {
    (o: Order) => if o.user == user then o.Claims() else 0
  }

  ghost predicate OrdersSound(orders: seq<Order>, users: nat) {
    forall i :: 0 <= i < |orders| ==> orders[i].Sound() && orders[i].user < users
  }

  // ----- price-time priority

  /** Live orders of one side and direction: the `where` of a resting query. */
  predicate Candidate(o: Order, side: Side, direction: Direction) {
    o.Live() && o.side == side && o.direction == direction
  }

  /** Better price first, then earlier: bids from high to low, asks from low to high. */
  predicate Ahead(orders: seq<Order>, i: nat, j: nat)
    requires i < |orders| && j < |orders|
  {
    var a, b := orders[i], orders[j];
    if a.price == b.price then i < j
    else if a.direction.Buy? then a.price > b.price
    else a.price < b.price
  }

  predicate Within(ids: seq<nat>, n: nat) {
    forall k :: 0 <= k < |ids| ==> ids[k] < n
  }

  function Insert(orders: seq<Order>, i: nat, ids: seq<nat>): (r: seq<nat>)
    requires i < |orders| && Within(ids, |orders|)
    ensures Within(r, |orders|)
  {
    if ids == [] || Ahead(orders, i, ids[0]) then [i] + ids
    else [ids[0]] + Insert(orders, i, ids[1..])
  }

  /** The candidates among the first `n` orders, in priority order. */
  function Queue(orders: seq<Order>, side: Side, direction: Direction, n: nat): (ids: seq<nat>)
    requires n <= |orders|
    ensures Within(ids, |orders|)
  {
    if n == 0 then []
    else
      var ids := Queue(orders, side, direction, n - 1);
      if Candidate(orders[n - 1], side, direction) then Insert(orders, n - 1, ids) else ids
  }

  ghost predicate InPriority(orders: seq<Order>, ids: seq<nat>) {
    && Within(ids, |orders|)
    && forall a, b :: 0 <= a < b < |ids| ==> Ahead(orders, ids[a], ids[b])
  }

  lemma {:induction false} InsertMembers(orders: seq<Order>, i: nat, ids: seq<nat>)
    requires i < |orders| && Within(ids, |orders|)
    ensures forall j :: j in Insert(orders, i, ids) <==> j == i || j in ids
  {
    if ids != [] && !Ahead(orders, i, ids[0]) {
      InsertMembers(orders, i, ids[1..]);
      assert ids == [ids[0]] + ids[1..];
    }
  }

  lemma {:induction false} InsertSorts(orders: seq<Order>, i: nat, ids: seq<nat>)
    requires i < |orders| && i !in ids && InPriority(orders, ids)
    requires forall k :: 0 <= k < |ids| ==> orders[ids[k]].direction == orders[i].direction
    ensures InPriority(orders, Insert(orders, i, ids))
  {
    if ids != [] && !Ahead(orders, i, ids[0]) {
      InsertMembers(orders, i, ids[1..]);
      InsertSorts(orders, i, ids[1..]);
      var t := Insert(orders, i, ids[1..]);
      forall b | 0 <= b < |t| ensures Ahead(orders, ids[0], t[b]) {
        assert t[b] in t;
        assert t[b] == i || exists k :: 1 <= k < |ids| && ids[k] == t[b];
      }
    }
  }

  lemma {:induction false} QueueSorted(orders: seq<Order>, side: Side, direction: Direction, n: nat)
    requires n <= |orders|
    ensures InPriority(orders, Queue(orders, side, direction, n))
    ensures forall j :: j in Queue(orders, side, direction, n) <==> 0 <= j < n && Candidate(orders[j], side, direction)
  {
    if n > 0 {
      QueueSorted(orders, side, direction, n - 1);
      var ids := Queue(orders, side, direction, n - 1);
      if Candidate(orders[n - 1], side, direction) {
        InsertMembers(orders, n - 1, ids);
        forall k | 0 <= k < |ids| ensures orders[ids[k]].direction == direction {
          assert ids[k] in ids;
        }
        InsertSorts(orders, n - 1, ids);
      }
    }
  }

  /** Each queue lists exactly the live orders of its side and direction: the highest bid or the lowest
      ask first, and of two at the same price the older one first. */
  lemma QueueInPriority(orders: seq<Order>, side: Side, direction: Direction, n: nat)
    requires n <= |orders|
    ensures forall j :: j in Queue(orders, side, direction, n) <==>
      0 <= j < n && (orders[j].status.Open? || orders[j].status.Partial?)
      && orders[j].side == side && orders[j].direction == direction
    ensures var ids := Queue(orders, side, direction, n);
      forall a, b :: 0 <= a < b < |ids| ==>
        && (direction.Buy? ==> orders[ids[a]].price >= orders[ids[b]].price)
        && (direction.Sell? ==> orders[ids[a]].price <= orders[ids[b]].price)
        && (orders[ids[a]].price == orders[ids[b]].price ==> ids[a] < ids[b])
  {
    QueueSorted(orders, side, direction, n);
    var ids := Queue(orders, side, direction, n);
    forall a | 0 <= a < |ids| ensures orders[ids[a]].direction == direction {
      assert ids[a] in ids;
    }
    assert forall a, b :: 0 <= a < b < |ids| ==> Ahead(orders, ids[a], ids[b]);
  }

  /** `resting_for`: a sell meets same-side bids; a buy meets same-side asks, then opposite bids. */
  function Resting(orders: seq<Order>, inc: nat): (ids: seq<nat>)
    requires inc < |orders|
    ensures Within(ids, |orders|)
  {
    var o := orders[inc];
    if o.direction.Sell? then Queue(orders, o.side, Buy, |orders|)
    else Queue(orders, o.side, Sell, |orders|) + Queue(orders, Opposite(o.side), Buy, |orders|)
  }

  /** `compatible?`: a sell crosses a bid, or two opposite buys together fund a contract. */
  predicate Compatible(incoming: Order, resting: Order) {
    if incoming.direction.Sell? then resting.price >= incoming.price
    else if resting.direction.Sell? then incoming.price >= resting.price
    else incoming.price + resting.price >= 100
  }
}
