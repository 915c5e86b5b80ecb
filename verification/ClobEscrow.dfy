/** What escrow holds: 100 for every pair of contracts, and what buyers have paid beyond that. */
module ClobEscrow {
  import opened Sums
  import opened Ledgers
  import opened Orders
  import opened Clob
  import opened ClobPlacement
  import opened ClobPriority
  import opened ClobInvariant
  import opened ClobSteps
  import opened ClobClosing
  import opened ClobUndo
  import opened ClobRuns

  /** Money in escrow that no contract will be paid from. */
  function Surplus(s: State): int {
    Escrow(s) - 100 * Pairs(s, YES)
  }

  /** What a buy at `price` and row `o` have put in together, beyond 100 for each pair this has made, when
      the row stands as `o2` later. A trade with a sell makes no pair. */
  function PremiumValue(price: int, o: Order, o2: Order): int {
    (price + o.price - if o.direction.Buy? then 100 else 0) * (o2.filled - o.filled)
  }

  function PremiumOf(price: int): (f: (Order, Order) -> int)
    ensures forall o, o2 :: f(o, o2) == PremiumValue(price, o, o2)
  {
    (o, o2) => PremiumValue(price, o, o2)
  }

  lemma PremiumAdds(price: int, o: Order, o1: Order, o2: Order)
    requires o1.SameTerms(o)
    ensures PremiumValue(price, o, o2) == PremiumValue(price, o, o1) + PremiumValue(price, o1, o2)
  {
    Distributes(o1.filled - o.filled, o2.filled - o1.filled, price + o.price - if o.direction.Buy? then 100 else 0);
  }

  // ----- one placement

  /** What an incoming order adds to the surplus by how it has changed the first `n` rows. */
  function PremiumPaid(direction: Direction, price: int, o: seq<Order>, o2: seq<Order>, n: nat): int
    requires n <= |o| && n <= |o2|
  {
    if direction.Sell? then 0 else SumChange(PremiumOf(price), o, o2, n)
  }

  lemma FillSurplus(s: State, inc: nat, rest: nat, s1: State, opening: seq<int>)
    requires Core(s, opening) && inc < |s.orders| && rest < |s.orders|
    requires Tradable(s, inc, rest, Lot(s.orders[inc], s.orders[rest]))
    requires MayTrade(s.orders[inc], s.orders[rest]) && FillOne(s, inc, rest) == Some(s1)
    requires s1.orders == FillBoth(s.orders, inc, rest, Lot(s.orders[inc], s.orders[rest]))
    ensures Surplus(s1) == Surplus(s) + if s.orders[inc].direction.Sell? then 0
              else PremiumValue(s.orders[inc].price, s.orders[rest], s1.orders[rest])
  {
    var i, r := s.orders[inc], s.orders[rest];
    FillOneBooks(s, inc, rest, s1, opening);
    FillPositions(s, inc, rest, Lot(i, r), s1);
    assert Pairs(s1, YES) == Pairs(s, YES) + Minted(i, r, YES, Lot(i, r));
    if i.direction.Buy? {
      FillPremium(i, r, s1.orders[rest], Lot(i, r));
    }
  }

  lemma FillPremium(i: Order, r: Order, r2: Order, lot: int)
    requires MayTrade(i, r) && i.direction.Buy? && r2.filled == r.filled + lot
    ensures (i.price + r.price) * lot - 100 * Minted(i, r, YES, lot) == PremiumValue(i.price, r, r2)
  {
    if r.direction.Buy? {
      Distributes(i.price + r.price - 100, 100, lot);
    }
  }

  lemma SurplusStep(s: State, inc: nat, list: seq<nat>, k: nat, s': State, opening: seq<int>) returns (s1: State)
    requires Walkable(s, inc, list, k, opening) && FillsAt(s.orders, inc, list, k)
    requires MatchFrom(s, inc, list, k) == Some(s') && inc + 1 == |s.orders|
    ensures Walkable(s1, inc, list, k + 1, opening) && MatchFrom(s1, inc, list, k + 1) == Some(s')
    ensures |s1.orders| == |s.orders| && forall i :: 0 <= i < |s.orders| ==> s1.orders[i].SameTerms(s.orders[i])
    ensures Surplus(s1)
         == Surplus(s) + PremiumPaid(s.orders[inc].direction, s.orders[inc].price, s.orders, s1.orders, inc)
  {
    s1 := MatchStep(s, inc, list, k, s', opening);
    FillOneKeeps(s, inc, list[k], s1, opening);
    FillSurplus(s, inc, list[k], s1, opening);
    OneChange(PremiumOf(s.orders[inc].price), s.orders, s1.orders, inc, list[k]);
  }

  /** The loop adds to the surplus what its fills overpay. */
  lemma {:induction false} MatchSurplus(s: State, inc: nat, list: seq<nat>, k: nat, s': State, opening: seq<int>)
    requires k <= |list| && Walkable(s, inc, list, k, opening) && MatchFrom(s, inc, list, k) == Some(s')
    requires inc + 1 == |s.orders|
    ensures |s'.orders| == |s.orders|
    ensures Surplus(s')
         == Surplus(s) + PremiumPaid(s.orders[inc].direction, s.orders[inc].price, s.orders, s'.orders, inc)
    decreases |list| - k
  {
    if FillsAt(s.orders, inc, list, k) {
      SurplusGoesOn(s, inc, list, k, s', opening);
    } else {
      MatchEnds(s, inc, list, k, s');
      NoChange(PremiumOf(s.orders[inc].price), s.orders, s.orders, inc);
    }
  }

  lemma {:induction false} SurplusGoesOn(s: State, inc: nat, list: seq<nat>, k: nat, s': State, opening: seq<int>)
    requires Walkable(s, inc, list, k, opening) && FillsAt(s.orders, inc, list, k)
    requires MatchFrom(s, inc, list, k) == Some(s') && inc + 1 == |s.orders|
    ensures |s'.orders| == |s.orders|
    ensures Surplus(s')
         == Surplus(s) + PremiumPaid(s.orders[inc].direction, s.orders[inc].price, s.orders, s'.orders, inc)
    decreases |list| - k, 0
  {
    var s1 := SurplusStep(s, inc, list, k, s', opening);
    MatchSurplus(s1, inc, list, k + 1, s', opening);
    PremiumsAdd(s.orders[inc].price, s.orders, s1.orders, s'.orders, inc);
  }

  lemma PremiumsAdd(price: int, o: seq<Order>, o1: seq<Order>, o2: seq<Order>, n: nat)
    requires n <= |o| && n <= |o1| && n <= |o2| && forall i :: 0 <= i < n ==> o1[i].SameTerms(o[i])
    ensures SumChange(PremiumOf(price), o, o2, n)
         == SumChange(PremiumOf(price), o, o1, n) + SumChange(PremiumOf(price), o1, o2, n)
  {
    forall i | 0 <= i < n
      ensures PremiumValue(price, o[i], o2[i]) == PremiumValue(price, o[i], o1[i]) + PremiumValue(price, o1[i], o2[i])
    {
      PremiumAdds(price, o[i], o1[i], o2[i]);
    }
    ChangesAdd(PremiumOf(price), o, o1, o2, n);
  }

  /** Cancelling a remainder leaves positions and escrow alone. */
  lemma RemainderSurplus(m: State, id: nat, s': State)
    requires Sound(m) && id < |m.orders| && CancelRemainder(m, id) == Some(s')
    ensures Surplus(s') == Surplus(m)
  {
    RemainderRows(m, id, s');
    if m.orders[id].Unfilled() > 0 {
      RetireSums(m, id, m.orders[id].CancelRemainder(), s');
    }
  }

  lemma PlacementSurplus(s: State, p: Params, pastClose: bool, s': State, opening: seq<int>)
    requires Core(s, opening) && Place(s, p, pastClose) == Some(s')
    ensures |s.orders| < |s'.orders|
    ensures Surplus(s') == Surplus(s) + PremiumPaid(p.direction, p.price, s.orders, s'.orders, |s.orders|)
  {
    var a := Admit(s, p, pastClose).value;
    AdmittedSurplus(s, p, pastClose, a, opening);
    if Killed(a, |s.orders|) {
      KilledSurplus(s, p, a, s');
    } else {
      var m := MatchedSurplus(s, p, a, opening);
      EndedSurplus(s, p, a, m, s');
    }
  }

  lemma AdmittedSurplus(s: State, p: Params, pastClose: bool, a: State, opening: seq<int>)
    requires Core(s, opening) && Admit(s, p, pastClose) == Some(a)
    ensures Core(a, opening) && a.orders == Book(s, p) && Surplus(a) == Surplus(s)
  {
    AdmitShape(s, p, pastClose, a);
    AdmitKeeps(s, p, pastClose, a, opening);
    AdmitSums(s, p, a);
  }

  lemma KilledSurplus(s: State, p: Params, a: State, s': State)
    requires Sound(a) && a.orders == Book(s, p) && CancelRemainder(a, |s.orders|) == Some(s')
    ensures |s.orders| < |s'.orders| && Surplus(s') == Surplus(a)
    ensures PremiumPaid(p.direction, p.price, s.orders, s'.orders, |s.orders|) == 0
  {
    RemainderSurplus(a, |s.orders|, s');
    RemainderShape(a, |s.orders|, s');
    NoChange(PremiumOf(p.price), s.orders, s'.orders, |s.orders|);
  }

  lemma EndedSurplus(s: State, p: Params, a: State, m: State, s': State)
    requires a.orders == Book(s, p) && Sound(m) && |m.orders| == |a.orders|
    requires ApplyTif(m, |s.orders|) == Some(s')
    ensures |s.orders| < |s'.orders| && Surplus(s') == Surplus(m)
    ensures PremiumPaid(p.direction, p.price, s.orders, s'.orders, |s.orders|)
         == PremiumPaid(p.direction, p.price, a.orders, m.orders, |s.orders|)
  {
    TifSurplus(m, |s.orders|, s');
    SameChange(PremiumOf(p.price), a.orders, m.orders, s.orders, s'.orders, |s.orders|);
  }

  lemma MatchedSurplus(s: State, p: Params, a: State, opening: seq<int>) returns (m: State)
    requires a.orders == Book(s, p) && Core(a, opening) && MatchFrom(a, |s.orders|, Line(s, p), 0).Some?
    ensures MatchFrom(a, |s.orders|, Line(s, p), 0) == Some(m) && Sound(m) && |m.orders| == |a.orders|
    ensures Surplus(m) == Surplus(a) + PremiumPaid(p.direction, p.price, a.orders, m.orders, |s.orders|)
  {
    m := MatchFrom(a, |s.orders|, Line(s, p), 0).value;
    RestingLineup(a.orders, |a.books.wallets|, |s.orders|);
    LineIsWilling(s, p);
    MatchSurplus(a, |s.orders|, Line(s, p), 0, m, opening);
    MatchedShape(a, |s.orders|, m);
  }

  lemma TifSurplus(m: State, id: nat, s': State)
    requires Sound(m) && id < |m.orders| && ApplyTif(m, id) == Some(s')
    ensures Surplus(s') == Surplus(m)
    ensures |s'.orders| == |m.orders| && forall i :: 0 <= i < |m.orders| && i != id ==> s'.orders[i] == m.orders[i]
  {
    TifShape(m, id, s');
    if ApplyTif(m, id) == CancelRemainder(m, id) {
      RemainderSurplus(m, id, s');
    }
  }

  // ----- whole runs

  function PremiumAt(s: State, step: Step): int {
    if step.PlaceOrder?
    then PremiumPaid(step.params.direction, step.params.price, s.orders, Next(s, step).orders, |s.orders|)
    else 0
  }

  function Premiums(s: State, steps: seq<Step>): int {
    if steps == [] then 0
    else Premiums(s, steps[..|steps| - 1]) + PremiumAt(Run(s, steps[..|steps| - 1]), steps[|steps| - 1])
  }

  lemma ClosedSurplus(s: State, released: State, s': State)
    requires SamePositions(s, released) && s'.orders == released.orders
    requires ClosedBy(s.books.ledger, s'.books.ledger)
    ensures Surplus(s') == Surplus(s)
  {
    SumWhenClosed(Collected(), s.books.ledger, s'.books.ledger);
    assert Pairs(s', YES) == Pairs(released, YES) == Pairs(s, YES);
  }

  lemma SettledSurplus(s: State, outcome: Side, s': State, opening: seq<int>)
    requires Core(s, opening) && Settle(s, outcome) == Some(s')
    ensures Surplus(s') == Surplus(s)
  {
    var released := ReleaseFrom(s, 0, false).value;
    ReleaseKeeps(s, 0, false, released, opening);
    PayoutsClose(released.books, released.orders, outcome, 0, s'.books);
    ClosedSurplus(s, released, s');
  }

  lemma AbortedSurplus(s: State, reason: string, s': State, opening: seq<int>)
    requires Core(s, opening) && Attempt(s, AbortMarket(reason)) == Some(s')
    ensures Surplus(s') == Surplus(s)
  {
    var released := ReleaseFrom(s, 0, true).value;
    var u0 := Undo(released.books, 0, 0, 0);
    ReleaseKeeps(s, 0, true, released, opening);
    RepaymentsClose(u0, Outlays(released.books.ledger), 0, CancelMarket(s, reason).value.1);
    ClosedSurplus(s, released, s');
  }

  lemma ElsewhereSurplus(s: State, user: nat, toAvailable: int, toReserved: int, s': State, opening: seq<int>)
    requires Core(s, opening) && MoveElsewhere(s, user, toAvailable, toReserved) == Some(s')
    ensures Surplus(s') == Surplus(s)
  {
    ElsewhereWrites(s, user, toAvailable, toReserved, s');
    ElsewhereKeeps(s, user, toAvailable, toReserved, s', opening);
    SumAppend(Collected(), s.books.ledger, ElsewhereRow(user, toAvailable + toReserved));
  }

  lemma StepSurplus(s: State, step: Step, opening: seq<int>)
    requires Core(s, opening)
    ensures Surplus(Next(s, step)) == Surplus(s) + PremiumAt(s, step)
  {
    var r := Attempt(s, step);
    if r.Some? {
      match step
      case PlaceOrder(p, pastClose) => PlacementSurplus(s, p, pastClose, r.value, opening);
      case Withdraw(id) => RetireSums(s, id, s.orders[id].Cancel(), r.value);
      case CloseMarket =>
      case SettleMarket(outcome) => SettledSurplus(s, outcome, r.value, opening);
      case AbortMarket(reason) => AbortedSurplus(s, reason, r.value, opening);
      case Elsewhere(user, toAvailable, toReserved) =>
        ElsewhereSurplus(s, user, toAvailable, toReserved, r.value, opening);
    } else if step.PlaceOrder? {
      NoChange(PremiumOf(step.params.price), s.orders, s.orders, |s.orders|);
    }
  }

  /** In every reachable state escrow holds exactly 100 for each pair of contracts and what the buys of
      the run have paid, together with the rows they traded with, beyond 100 for each pair. */
  lemma {:induction false} EscrowExplained(s: State, steps: seq<Step>)
    requires Fresh(s)
    ensures Escrow(Run(s, steps)) == 100 * Pairs(Run(s, steps), YES) + Premiums(s, steps)
  {
    if steps != [] {
      var n := |steps| - 1;
      RunKeeps(s, steps[..n]);
      EscrowExplained(s, steps[..n]);
      StepSurplus(Run(s, steps[..n]), steps[n], OpeningOf(s.books.wallets));
    }
  }

  // ----- trades at par

  /** Every row that has traded with `p` is an opposite bid at a price that adds up to 100 with that of `p`. */
  ghost predicate AllAtPar(p: Params, before: seq<Order>, after: seq<Order>)
    requires |before| <= |after|
  {
    forall i :: 0 <= i < |before| && after[i].filled > before[i].filled ==>
      before[i].direction.Buy? && before[i].side != p.side && before[i].price + p.price == 100
  }

  ghost predicate BuysAtPar(s: State, step: Step) {
    step.PlaceOrder? && step.params.direction.Buy? ==> AllAtPar(step.params, s.orders, Next(s, step).orders)
  }

  ghost predicate AlwaysAtPar(s: State, steps: seq<Step>) {
    steps == [] || (AlwaysAtPar(s, steps[..|steps| - 1])
                    && BuysAtPar(Run(s, steps[..|steps| - 1]), steps[|steps| - 1]))
  }

  /** A row's part in the premium is never negative, and nothing only for a trade at par. */
  lemma RowPremium(p: Params, o: Order, o2: Order)
    requires p.direction.Buy? && p.price > 0 && o.price > 0 && WithinLimits(p, o, o2)
    ensures PremiumValue(p.price, o, o2) >= 0
    ensures PremiumValue(p.price, o, o2) == 0 <==>
      (o2.filled > o.filled ==> o.direction.Buy? && o.side != p.side && o.price + p.price == 100)
  {
    if o2 != o {
      ProductIsZero(p.price + o.price - if o.direction.Buy? then 100 else 0, o2.filled - o.filled);
    }
  }

  lemma ProductIsZero(a: int, b: int)
    requires a >= 0 && b > 0
    ensures a * b >= 0 && (a * b == 0 <==> a == 0)
  {
  }

  lemma StepPremium(s: State, step: Step)
    requires Sound(s)
    ensures PremiumAt(s, step) >= 0 && (PremiumAt(s, step) == 0 <==> BuysAtPar(s, step))
  {
    if step.PlaceOrder? && step.params.direction.Buy? {
      if Attempt(s, step).Some? {
        PlacedPremium(s, step.params, step.pastClose, Attempt(s, step).value);
      } else {
        NoChange(PremiumOf(step.params.price), s.orders, s.orders, |s.orders|);
      }
    }
  }

  lemma PlacedPremium(s: State, p: Params, pastClose: bool, s': State)
    requires Sound(s) && Place(s, p, pastClose) == Some(s') && p.direction.Buy?
    ensures |s.orders| < |s'.orders|
    ensures var premium := SumChange(PremiumOf(p.price), s.orders, s'.orders, |s.orders|);
      premium >= 0 && (premium == 0 <==> AllAtPar(p, s.orders, s'.orders))
  {
    AdmitShape(s, p, pastClose, Admit(s, p, pastClose).value);
    PlacedInOrder(s, p, pastClose, s');
    TablePremium(p, s.orders, s'.orders);
  }

  lemma TablePremium(p: Params, o: seq<Order>, o2: seq<Order>)
    requires |o| < |o2| && LimitsKept(p, o, o2) && p.direction.Buy? && p.price > 0
    requires forall i :: 0 <= i < |o| ==> o[i].price > 0
    ensures var premium := SumChange(PremiumOf(p.price), o, o2, |o|);
      premium >= 0 && (premium == 0 <==> AllAtPar(p, o, o2))
  {
    var f := PremiumOf(p.price);
    forall i | 0 <= i < |o|
      ensures f(o[i], o2[i]) >= 0
      ensures f(o[i], o2[i]) == 0 <==>
        (o2[i].filled > o[i].filled ==> o[i].direction.Buy? && o[i].side != p.side && o[i].price + p.price == 100)
    {
      RowPremium(p, o[i], o2[i]);
    }
    ChangesNonNegative(f, o, o2, |o|);
    if AllAtPar(p, o, o2) {
      NoChange(f, o, o2, |o|);
    }
  }

  lemma {:induction false} PremiumsIffOffPar(s: State, steps: seq<Step>)
    requires Fresh(s)
    ensures Premiums(s, steps) >= 0 && (Premiums(s, steps) == 0 <==> AlwaysAtPar(s, steps))
  {
    if steps != [] {
      var n := |steps| - 1;
      RunKeeps(s, steps[..n]);
      PremiumsIffOffPar(s, steps[..n]);
      StepPremium(Run(s, steps[..n]), steps[n]);
    }
  }

  /** Settlement pays out all that escrow holds if and only if every contract was bought at par: each buy
      of the run traded only with opposite bids at prices adding up to exactly 100. Otherwise the rest is
      what was paid beyond that. */
  lemma SettlementExhaustsEscrow(s: State, steps: seq<Step>, outcome: Side)
    requires Fresh(s) && InPlay(Run(s, steps)) && Settle(Run(s, steps), outcome).Some?
    ensures var now := Run(s, steps);
            var paid := PaidOut(Settle(now, outcome).value.books.ledger);
      && paid == 100 * Pairs(now, outcome)
      && Escrow(now) - paid == Premiums(s, steps) >= 0
      && (paid == Escrow(now) <==> AlwaysAtPar(s, steps))
  {
    var now := Run(s, steps);
    RunKeeps(s, steps);
    SettlementPays(now, outcome, Settle(now, outcome).value, OpeningOf(s.books.wallets));
    NothingReturnedYet(now.books.ledger);
    EscrowExplained(s, steps);
    PremiumsIffOffPar(s, steps);
    assert Pairs(now, YES) == Pairs(now, NO);
  }
}
