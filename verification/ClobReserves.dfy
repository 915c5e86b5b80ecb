/** Reservations: what a reserve holds at any time, what breaks exact reservation, what that costs. */
module ClobReserves {
  import opened Sums
  import opened Ledgers
  import opened Orders
  import opened Clob
  import opened ClobMatching
  import opened ClobPlacement
  import opened ClobPriority
  import opened ClobInvariant
  import opened ClobSteps
  import opened ClobFunding
  import opened ClobClosing
  import opened ClobUndo
  import opened ClobRuns

  // ----- what a reserve holds

  /** What a step takes out of a user's reserve for resting sells, which never funded it ... */
  function DrawnAt(s: State, step: Step, user: nat): int {
    if step.PlaceOrder? then RestingSales(s.orders, Next(s, step).orders, user, |s.orders|) else 0
  }

  /** ... and what other markets add to it. */
  function ForeignAt(s: State, step: Step, user: nat): int {
    if step.Elsewhere? && step.user == user && Attempt(s, step).Some? then step.toReserved else 0
  }

  function Drawn(s: State, steps: seq<Step>, user: nat): int {
    if steps == [] then 0
    else Drawn(s, steps[..|steps| - 1], user) + DrawnAt(Run(s, steps[..|steps| - 1]), steps[|steps| - 1], user)
  }

  /** Money in a user's reserve that belongs to other markets. */
  function Foreign(s: State, steps: seq<Step>, user: nat): int {
    if steps == [] then (if user < |s.books.wallets| then s.books.wallets[user].reserved else 0)
    else Foreign(s, steps[..|steps| - 1], user) + ForeignAt(Run(s, steps[..|steps| - 1]), steps[|steps| - 1], user)
  }

  lemma StepDeficit(s: State, step: Step, opening: seq<int>, user: nat)
    requires Inv(s, opening) && InPlay(s) && InPlay(Next(s, step))
    ensures Deficit(Next(s, step), user) == Deficit(s, user) + DrawnAt(s, step, user) - ForeignAt(s, step, user)
  {
    var r := Attempt(s, step);
    if r.Some? {
      match step
      case PlaceOrder(p, pastClose) => PlacementDeficit(s, p, pastClose, r.value, opening, user);
      case Withdraw(id) => CancelOrderKeeps(s, id, r.value, opening);
      case CloseMarket => StatusKeeps(s, MarketStatus.Closed, opening);
      case SettleMarket(_) => assert false;
      case AbortMarket(_) => assert false;
      case Elsewhere(u, toAvailable, toReserved) => ElsewhereKeeps(s, u, toAvailable, toReserved, r.value, opening);
    } else if step.PlaceOrder? {
      NoChange(SaleOf(user), s.orders, s.orders, |s.orders|);
    }
  }

  lemma {:induction false} DeficitOfARun(s: State, steps: seq<Step>, user: nat)
    requires Fresh(s) && InPlay(Run(s, steps)) && user < |s.books.wallets|
    ensures Deficit(Run(s, steps), user) == Drawn(s, steps, user) - Foreign(s, steps, user)
  {
    if steps != [] {
      var n := |steps| - 1;
      var before := Run(s, steps[..n]);
      RunKeeps(s, steps[..n]);
      StillInPlay(before, steps[n], OpeningOf(s.books.wallets));
      DeficitOfARun(s, steps[..n], user);
      StepDeficit(before, steps[n], OpeningOf(s.books.wallets), user);
    }
  }

  /** In every reachable state in play a reserve holds what other markets put there and what its
      owner's live buys claim, less what the owner's resting sells of the past were sold for. */
  lemma ReservesExplained(s: State, steps: seq<Step>, user: nat)
    requires Fresh(s) && InPlay(Run(s, steps)) && user < |s.books.wallets|
    ensures var now := Run(s, steps);
      && user < |now.books.wallets|
      && now.books.wallets[user].reserved == Foreign(s, steps, user) + Claimed(now, user) - Drawn(s, steps, user)
  {
    RunKeeps(s, steps);
    DeficitOfARun(s, steps, user);
  }

  // ----- the steps that break exact reservation

  /** A placement that the wallets cover and that buys from a resting sell. */
  ghost predicate LeavesShort(s: State, step: Step) {
    step.PlaceOrder? && GoesThrough(s, step.params, step.pastClose) && BuysFromRestingSell(s, step.params)
  }

  /** No step of the run left a seller short. */
  ghost predicate NeverShort(s: State, steps: seq<Step>) {
    steps == [] || (NeverShort(s, steps[..|steps| - 1])
                    && !LeavesShort(Run(s, steps[..|steps| - 1]), steps[|steps| - 1]))
  }

  lemma DrawnIfShort(s: State, step: Step)
    requires Sound(s) && WalletsSound(s.books)
    ensures forall u: nat :: DrawnAt(s, step, u) >= 0
    ensures LeavesShort(s, step) ==> exists u: nat :: u < |s.books.wallets| && DrawnAt(s, step, u) > 0
    ensures !LeavesShort(s, step) ==> forall u: nat :: DrawnAt(s, step, u) == 0
  {
    if step.PlaceOrder? {
      PlacementGoesThrough(s, step.params, step.pastClose);
      if Place(s, step.params, step.pastClose).Some? {
        PlacedSales(s, step.params, step.pastClose);
      } else {
        forall u: nat ensures DrawnAt(s, step, u) == 0 {
          NoChange(SaleOf(u), s.orders, s.orders, |s.orders|);
        }
      }
    }
  }

  lemma PlacedSales(s: State, p: Params, pastClose: bool)
    requires Sound(s) && Place(s, p, pastClose).Some?
    ensures var step := PlaceOrder(p, pastClose);
      && (forall u: nat :: DrawnAt(s, step, u) >= 0)
      && (BuysFromRestingSell(s, p) ==> exists u: nat :: u < |s.books.wallets| && DrawnAt(s, step, u) > 0)
      && (!BuysFromRestingSell(s, p) ==> forall u: nat :: DrawnAt(s, step, u) == 0)
  {
    var s' := Place(s, p, pastClose).value;
    var step := PlaceOrder(p, pastClose);
    SalesIffBought(s, p, pastClose, s');
    assert forall u: nat :: DrawnAt(s, step, u) == RestingSales(s.orders, s'.orders, u, |s.orders|);
    if BuysFromRestingSell(s, p) {
      var u: nat :| u < |s.books.wallets| && RestingSales(s.orders, s'.orders, u, |s.orders|) > 0;
      assert DrawnAt(s, step, u) > 0;
    }
  }

  /** Nothing is ever drawn from a reserve for a resting sell exactly when no step leaves a seller short. */
  lemma {:induction false} DrawnIffShort(s: State, steps: seq<Step>)
    requires Fresh(s)
    ensures forall u: nat :: Drawn(s, steps, u) >= 0
    ensures NeverShort(s, steps) <==> forall u: nat :: u < |s.books.wallets| ==> Drawn(s, steps, u) == 0
  {
    if steps != [] {
      var n := |steps| - 1;
      var before := Run(s, steps[..n]);
      RunKeeps(s, steps[..n]);
      DrawnIffShort(s, steps[..n]);
      DrawnIfShort(before, steps[n]);
      assert forall u: nat :: Drawn(s, steps, u) == Drawn(s, steps[..n], u) + DrawnAt(before, steps[n], u);
      if NeverShort(s, steps) {
        forall u: nat | u < |s.books.wallets| ensures Drawn(s, steps, u) == 0 {
          assert DrawnAt(before, steps[n], u) <= 0 && Drawn(s, steps[..n], u) == 0;
        }
      } else if LeavesShort(before, steps[n]) {
        var u: nat :| u < |s.books.wallets| && DrawnAt(before, steps[n], u) > 0;
        assert Drawn(s, steps, u) > 0;
      } else {
        var u: nat :| u < |s.books.wallets| && Drawn(s, steps[..n], u) != 0;
        assert Drawn(s, steps, u) > 0;
      }
    }
  }

  // ----- settlement

  /** A market in play can be settled if and only if, for every user, other markets keep at least as
      much in reserve as resting sells have drawn from it. */
  lemma SettlesIffCovered(s: State, steps: seq<Step>, outcome: Side)
    requires Fresh(s) && InPlay(Run(s, steps))
    ensures Settle(Run(s, steps), outcome).Some?
      <==> forall u: nat :: u < |s.books.wallets| ==> Drawn(s, steps, u) <= Foreign(s, steps, u)
  {
    var now := Run(s, steps);
    RunKeeps(s, steps);
    SettlesIffFunded(now, outcome, OpeningOf(s.books.wallets));
    if Funded(now) {
      forall u: nat | u < |s.books.wallets| ensures Drawn(s, steps, u) <= Foreign(s, steps, u) {
        ReservesExplained(s, steps, u);
        assert Claimed(now, u) <= now.books.wallets[u].reserved;
      }
    } else {
      var u: nat :| u < |now.books.wallets| && Claimed(now, u) > now.books.wallets[u].reserved;
      ReservesExplained(s, steps, u);
      assert Drawn(s, steps, u) > Foreign(s, steps, u);
    }
  }

  /** Settlement of such a market: everybody is paid for what they hold, and what stays in reserve is
      what other markets keep there less what resting sells have drawn. */
  lemma SettlementOfARun(s: State, steps: seq<Step>, outcome: Side, user: nat)
    requires Fresh(s) && InPlay(Run(s, steps)) && user < |s.books.wallets|
    requires Settle(Run(s, steps), outcome).Some?
    ensures var now := Run(s, steps);
            var r := Settle(now, outcome).value;
            var kept := Foreign(s, steps, user) - Drawn(s, steps, user);
      && |now.books.wallets| == |s.books.wallets| == |r.books.wallets|
      && r.books.wallets[user]
           == Wallet(now.books.wallets[user].Total() + 100 * Net(now, user, outcome) - kept, kept)
      && PaidOut(r.books.ledger) == 100 * Pairs(now, outcome) <= Escrow(now)
  {
    var now := Run(s, steps);
    RunKeeps(s, steps);
    ReservesExplained(s, steps, user);
    SettlementPays(now, outcome, Settle(now, outcome).value, OpeningOf(s.books.wallets));
    NothingReturnedYet(now.books.ledger);
  }

  // ----- a market alone on its users' wallets

  /** Every reserve holds exactly what its owner's live buys need. */
  ghost predicate Exact(s: State) {
    forall u :: 0 <= u < |s.books.wallets| ==> Deficit(s, u) == 0
  }

  /** No other market has anything in reserve, at the start or later; `available` may still move. */
  ghost predicate Alone(s: State, steps: seq<Step>) {
    && (forall u :: 0 <= u < |s.books.wallets| ==> s.books.wallets[u].reserved == 0)
    && forall k :: 0 <= k < |steps| && steps[k].Elsewhere? ==> steps[k].toReserved == 0
  }

  lemma {:induction false} NothingForeign(s: State, steps: seq<Step>, user: nat)
    requires Alone(s, steps)
    ensures Foreign(s, steps, user) == 0
  {
    if steps != [] {
      NothingForeign(s, steps[..|steps| - 1], user);
    }
  }

  /** Exact reservation, over whole runs: every wallet's reserve equals what its owner's live buys
      need if and only if no buy of the run has ever traded with a resting sell. */
  lemma ExactIffNeverShort(s: State, steps: seq<Step>)
    requires Fresh(s) && Alone(s, steps) && InPlay(Run(s, steps))
    ensures Exact(Run(s, steps)) <==> NeverShort(s, steps)
  {
    var now := Run(s, steps);
    RunKeeps(s, steps);
    DrawnIffShort(s, steps);
    if NeverShort(s, steps) {
      forall u: nat | u < |s.books.wallets| ensures Deficit(now, u) == 0 {
        DeficitIsDrawn(s, steps, u);
        assert Drawn(s, steps, u) == 0;
      }
    } else {
      var u: nat :| u < |s.books.wallets| && Drawn(s, steps, u) != 0;
      DeficitIsDrawn(s, steps, u);
      assert Deficit(now, u) != 0;
    }
  }

  lemma DeficitIsDrawn(s: State, steps: seq<Step>, user: nat)
    requires Fresh(s) && Alone(s, steps) && InPlay(Run(s, steps)) && user < |s.books.wallets|
    ensures Deficit(Run(s, steps), user) == Drawn(s, steps, user)
  {
    DeficitOfARun(s, steps, user);
    NothingForeign(s, steps, user);
  }

  /** A market in play can be settled if and only if no buy has ever traded with a resting sell. */
  lemma SettlesIffNeverShort(s: State, steps: seq<Step>, outcome: Side)
    requires Fresh(s) && Alone(s, steps) && InPlay(Run(s, steps))
    ensures Settle(Run(s, steps), outcome).Some? <==> NeverShort(s, steps)
  {
    SettlesIffCovered(s, steps, outcome);
    DrawnIffShort(s, steps);
    forall u: nat ensures Foreign(s, steps, u) == 0 {
      NothingForeign(s, steps, u);
    }
  }

  /** One buy from a resting sell and the market is never settled again, whatever happens after. */
  lemma {:induction false} BuyFromRestingSellBlocksSettlement(s: State, steps: seq<Step>, k: nat)
    requires Fresh(s) && Alone(s, steps) && k < |steps| && LeavesShort(Run(s, steps[..k]), steps[k])
    ensures !NeverShort(s, steps) && !Run(s, steps).status.Settled?
  {
    var n := |steps| - 1;
    if k == n {
      ShortIsInPlay(s, steps[..n], steps[n]);
    } else {
      assert steps[..n][..k] == steps[..k];
      BuyFromRestingSellBlocksSettlement(s, steps[..n], k);
      StillUnsettled(s, steps[..n], steps[n]);
    }
  }

  lemma ShortIsInPlay(s: State, steps: seq<Step>, step: Step)
    requires Fresh(s) && LeavesShort(Run(s, steps), step)
    ensures !Next(Run(s, steps), step).status.Settled?
  {
    RunKeeps(s, steps);
    OnlySettlingSettles(Run(s, steps), step, OpeningOf(s.books.wallets));
  }

  lemma StillUnsettled(s: State, steps: seq<Step>, step: Step)
    requires Fresh(s) && Alone(s, steps) && !NeverShort(s, steps) && !Run(s, steps).status.Settled?
    ensures !Next(Run(s, steps), step).status.Settled?
  {
    var now := Run(s, steps);
    RunKeeps(s, steps);
    if !InPlay(now) {
      EndedStays(now, step, OpeningOf(s.books.wallets));
    } else if step.SettleMarket? {
      SettlesIffNeverShort(s, steps, step.outcome);
    } else {
      OnlySettlingSettles(now, step, OpeningOf(s.books.wallets));
    }
  }

  lemma OnlySettlingSettles(s: State, step: Step, opening: seq<int>)
    requires Inv(s, opening) && InPlay(s) && !step.SettleMarket?
    ensures !Next(s, step).status.Settled?
  {
    var r := Attempt(s, step);
    if r.Some? {
      match step
      case PlaceOrder(p, pastClose) => PlaceRows(s, p, pastClose, r.value);
      case Withdraw(id) => CancelOrderKeeps(s, id, r.value, opening);
      case CloseMarket =>
      case AbortMarket(reason) => CancelUndoes(s, reason, CancelMarket(s, reason).value, opening);
      case Elsewhere(user, toAvailable, toReserved) =>
        ElsewhereKeeps(s, user, toAvailable, toReserved, r.value, opening);
    }
  }

  lemma EndedStays(s: State, step: Step, opening: seq<int>)
    requires Inv(s, opening) && !InPlay(s)
    ensures Next(s, step).status == s.status
  {
    if step.Elsewhere? && Attempt(s, step).Some? {
      ElsewhereKeeps(s, step.user, step.toAvailable, step.toReserved, Next(s, step), opening);
    }
  }

  ghost predicate Short(s: State) {
    exists u: nat :: u < |s.books.wallets| && Deficit(s, u) > 0
  }

  /** No other market adds to a reserve. */
  ghost predicate NothingAdded(steps: seq<Step>) {
    forall k :: 0 <= k < |steps| && steps[k].Elsewhere? ==> steps[k].toReserved <= 0
  }

  lemma ShortStep(s: State, step: Step, opening: seq<int>)
    requires Inv(s, opening) && InPlay(s) && Short(s) && (step.Elsewhere? ==> step.toReserved <= 0)
    ensures InPlay(Next(s, step)) ==> Short(Next(s, step))
    ensures !Next(s, step).status.Settled?
  {
    var u: nat :| u < |s.books.wallets| && Deficit(s, u) > 0;
    if step.SettleMarket? {
      SettlesIffFunded(s, step.outcome, opening);
    } else {
      OnlySettlingSettles(s, step, opening);
      if InPlay(Next(s, step)) {
        NextKeeps(s, step, opening);
        StepDeficit(s, step, opening, u);
        DrawnIfShort(s, step);
        assert Deficit(Next(s, step), u) > 0;
      }
    }
  }

  /** Whatever the wallets held: a market with a reserve short of its claims never settles unless
      another market fills that reserve up. */
  lemma {:induction false} ShortNeverSettles(s: State, steps: seq<Step>, opening: seq<int>)
    requires Inv(s, opening) && InPlay(s) && Short(s) && NothingAdded(steps)
    ensures Inv(Run(s, steps), opening) && !Run(s, steps).status.Settled?
    ensures InPlay(Run(s, steps)) ==> Short(Run(s, steps))
  {
    if steps != [] {
      var n := |steps| - 1;
      var before := Run(s, steps[..n]);
      ShortNeverSettles(s, steps[..n], opening);
      NextKeeps(before, steps[n], opening);
      if InPlay(before) {
        ShortStep(before, steps[n], opening);
      } else {
        EndedStays(before, steps[n], opening);
      }
    }
  }

  // ----- exact undo

  lemma {:induction false} OnlyOpeningForeign(s: State, steps: seq<Step>, user: nat)
    requires NothingElsewhere(steps) && user < |s.books.wallets|
    ensures Foreign(s, steps, user) == s.books.wallets[user].reserved
  {
    if steps != [] {
      OnlyOpeningForeign(s, steps[..|steps| - 1], user);
    }
  }

  /** What a user keeps in reserve after the undo of a run in which this market alone was at work. */
  function Untaken(s: State, steps: seq<Step>, user: nat): int
    requires user < |s.books.wallets|
  {
    Max(0, s.books.wallets[user].reserved - Drawn(s, steps, user))
  }

  lemma UndoneAlone(s: State, steps: seq<Step>, user: nat)
    requires Fresh(s) && NothingElsewhere(steps) && InPlay(Run(s, steps)) && user < |s.books.wallets|
    ensures var now := Run(s, steps);
      && user < |now.books.wallets|
      && !Drained(now, user) && Outside(now.books.ledger, user) == 0 && Kept(now, user) == Untaken(s, steps, user)
      && 0 <= Kept(now, user) <= s.books.wallets[user].reserved
  {
    var now := Run(s, steps);
    RunKeeps(s, steps);
    NoOutsideRows(s, steps, user);
    FlowIsOutsideLessOutlay(now.books.ledger, user);
    ReservesExplained(s, steps, user);
    OnlyOpeningForeign(s, steps, user);
    DrawnIffShort(s, steps);
    assert Drift(now.books, OpeningOf(s.books.wallets), user) == 0;
  }

  /** Exact undo: in a run in which this market alone is at work, cancelling it at any point of play
      succeeds, writes nothing off and gives everybody back everything they started with. The wallets
      are restored column by column if and only if no resting sell was paid out of money that another
      market had in reserve; what was stays on the available side. */
  lemma CancelIsExactUndo(s: State, steps: seq<Step>, reason: string)
    requires Fresh(s) && NothingElsewhere(steps) && InPlay(Run(s, steps)) && |reason| >= 10
    ensures var r := CancelMarket(Run(s, steps), reason);
      && r.Some? && r.value.1.shortfall == 0 && |r.value.0.books.wallets| == |s.books.wallets|
      && (forall u: nat | u < |s.books.wallets| :: r.value.0.books.wallets[u]
            == Wallet(s.books.wallets[u].Total() - Untaken(s, steps, u), Untaken(s, steps, u)))
      && (r.value.0.books.wallets == s.books.wallets <==>
            forall u: nat | u < |s.books.wallets| :: s.books.wallets[u].reserved == 0 || Drawn(s, steps, u) == 0)
  {
    var now := Run(s, steps);
    var opening := OpeningOf(s.books.wallets);
    RunKeeps(s, steps);
    forall u: nat | u < |opening|
      ensures u < |now.books.wallets| && !Drained(now, u)
        && Outside(now.books.ledger, u) == 0 && opening[u] >= Kept(now, u) == Untaken(s, steps, u)
    {
      UndoneAlone(s, steps, u);
    }
    CancelsUnlessDrained(now, reason, opening);
    var r := CancelMarket(now, reason).value;
    CancelUndoes(now, reason, r, opening);
    forall u: nat | u < |opening|
      ensures r.0.books.wallets[u] == Wallet(s.books.wallets[u].Total() - Untaken(s, steps, u), Untaken(s, steps, u))
    {
      assert UndoneFor(now, r.0.books, u, opening);
    }
    DrawnIffShort(s, steps);
    RestoredIff(s, r.0.books.wallets, steps);
  }

  lemma RestoredIff(s: State, w: seq<Wallet>, steps: seq<Step>)
    requires WalletsSound(s.books) && |w| == |s.books.wallets|
    requires forall u: nat | u < |w| :: Drawn(s, steps, u) >= 0
    requires forall u: nat | u < |w| ::
      w[u] == Wallet(s.books.wallets[u].Total() - Untaken(s, steps, u), Untaken(s, steps, u))
    ensures w == s.books.wallets <==>
      forall u: nat | u < |w| :: s.books.wallets[u].reserved == 0 || Drawn(s, steps, u) == 0
  {
    forall u: nat | u < |w|
      ensures w[u] == s.books.wallets[u] <==> s.books.wallets[u].reserved == 0 || Drawn(s, steps, u) == 0
    {
    }
  }

  // ----- while every reserve is funded

  /** While a reserve covers what is claimed of it, its owner can withdraw any live order. */
  lemma FundedOrdersWithdraw(s: State, id: nat, opening: seq<int>)
    requires Core(s, opening) && Funded(s)
    ensures CancelOrder(s, id).Some? <==> id < |s.orders| && s.orders[id].Live()
  {
    if id < |s.orders| && s.orders[id].Live() {
      ClaimedAtLeast(s, id);
    }
  }

  ghost predicate OnlyBidsInReach(orders: seq<Order>, inc: nat, list: seq<nat>, k: nat)
    requires inc < |orders| && Within(list, |orders|)
  {
    forall a :: k <= a < |list| && Compatible(orders[inc], orders[list[a]]) ==> orders[list[a]].direction.Buy?
  }

  lemma NoAskInReach(s: State, p: Params)
    requires Sound(s) && (p.direction.Sell? || forall i :: 0 <= i < |s.orders| ==> !Asks(p, s.orders[i]))
    ensures OnlyBidsInReach(Book(s, p), |s.orders|, Line(s, p), 0)
  {
    forall a | 0 <= a < |Line(s, p)| && Compatible(NewOrder(p), Book(s, p)[Line(s, p)[a]])
      ensures Book(s, p)[Line(s, p)[a]].direction.Buy?
    {
      LineMember(s, p, a);
    }
  }

  /** What an incoming buy pays itself when it trades `n` contracts. */
  function OwnPart(i: Order, user: nat, n: int): int {
    if i.direction.Buy? && i.user == user then i.price * n else 0
  }

  lemma BidPaysItsClaim(i: Order, r: Order, user: nat, qty: int, rest: int)
    requires r.Sound() && r.direction.Buy? && 0 < qty <= r.Unfilled()
    ensures FillDraw(i, r, user, qty) <= ClaimsOf(user)(r) + OwnPart(i, user, qty)
    ensures OwnPart(i, user, qty) + OwnPart(i, user, rest) == OwnPart(i, user, qty + rest)
  {
    assert r.price * qty <= r.price * r.Unfilled();
    Distributes(qty, rest, i.price);
  }

  lemma {:induction false} ClaimsNonNegative(o: seq<Order>, list: seq<nat>, k: nat, user: nat, users: nat)
    requires Within(list, |o|) && OrdersSound(o, users)
    ensures SumAt(ClaimsOf(user), o, list, k) >= 0
    decreases |list| - k
  {
    if k < |list| {
      ClaimsNonNegative(o, list, k + 1, user, users);
      assert o[list[k]].price * o[list[k]].Unfilled() >= 0;
    }
  }

  lemma OwnPartNonNegative(i: Order, user: nat, n: int)
    requires i.price > 0 && n >= 0
    ensures OwnPart(i, user, n) >= 0
  {
    assert i.price * n >= 0;
  }

  /** What the incoming row can trade from position `k` of its line on. */
  function Reachable(o: seq<Order>, inc: nat, list: seq<nat>, k: nat, left: int): int
    requires inc < |o| && Within(list, |o|) && k <= |list|
  {
    Min(left, Offered(o, list, k, PrefixEnd(o, inc, list, k)))
  }

  lemma ReachableStep(o: seq<Order>, inc: nat, list: seq<nat>, k: nat, left: int)
    requires k < |list| && Lineup(o, inc, list) && Untouched(o, list, k) && left > 0
    requires Compatible(o[inc], o[list[k]])
    ensures var qty := Min(left, o[list[k]].Unfilled());
      Reachable(o, inc, list, k, left) == qty + Reachable(o, inc, list, k + 1, left - qty)
  {
    var e := PrefixEnd(o, inc, list, k);
    OfferedShift(o, list, k, e);
    OfferedGrows(o, list, k + 1, k + 1, e);
  }

  /** A line of bids draws no more than the bids claim, beside what an incoming buy pays itself. */
  lemma {:induction false} DrawnWithinClaims(o: seq<Order>, inc: nat, list: seq<nat>, k: nat, left: int, user: nat,
          users: nat)
    requires k <= |list| && Lineup(o, inc, list) && Untouched(o, list, k) && OrdersSound(o, users) && left >= 0
    requires OnlyBidsInReach(o, inc, list, k)
    ensures DrawnFrom(o, inc, list, k, left, user)
         <= SumAt(ClaimsOf(user), o, list, k) + OwnPart(o[inc], user, Reachable(o, inc, list, k, left))
    decreases |list| - k
  {
    if k < |list| && left > 0 && Compatible(o[inc], o[list[k]]) {
      var r := o[list[k]];
      var qty := Min(left, r.Unfilled());
      ReachableStep(o, inc, list, k, left);
      DrawnWithinClaims(o, inc, list, k + 1, left - qty, user, users);
      BidPaysItsClaim(o[inc], r, user, qty, Reachable(o, inc, list, k + 1, left - qty));
    } else {
      OfferedGrows(o, list, k, k, PrefixEnd(o, inc, list, k));
      ClaimsNonNegative(o, list, k, user, users);
      OwnPartNonNegative(o[inc], user, Reachable(o, inc, list, k, left));
    }
  }

  /** What the line claims is claimed by live orders of the book. */
  lemma LineClaims(s: State, p: Params, user: nat)
    requires Sound(s)
    ensures SumAt(ClaimsOf(user), Book(s, p), Line(s, p), 0) <= Claimed(s, user)
  {
    var f, list := ClaimsOf(user), Line(s, p);
    forall a | 0 <= a < |list| ensures list[a] < |s.orders| && Book(s, p)[list[a]] == s.orders[list[a]] {
      LineMember(s, p, a);
    }
    forall a, b | 0 <= a < b < |list| ensures list[a] != list[b] {
      LineInOrder(s, p, a, b);
    }
    forall i | 0 <= i < |s.orders| ensures f(s.orders[i]) >= 0 {
      assert s.orders[i].price * s.orders[i].Unfilled() >= 0;
    }
    SumAtFrame(f, s.orders, Book(s, p), list, 0);
    SumAtMost(f, s.orders, list, 0, NewOrder(p).(direction := Sell));
  }

  lemma {:induction false} FreeOfFees(o: seq<Order>, inc: nat, list: seq<nat>, k: nat, left: int, feeBps: nat)
    requires inc < |o| && Within(list, |o|) && (o[inc].direction.Sell? || feeBps == 0)
    ensures FeesFrom(o, inc, list, k, left, feeBps) == 0
    decreases |list| - k
  {
    if k < |list| && left > 0 && Compatible(o[inc], o[list[k]]) {
      FreeOfFees(o, inc, list, k + 1, left - Min(left, o[list[k]].Unfilled()), feeBps);
    }
  }

  /** Funded reserves cover a sell, or a fee-free buy that reaches no resting sell. */
  lemma FundedCanFill(s: State, p: Params, pastClose: bool)
    requires Sound(s) && Funded(s) && Admissible(s, p, pastClose) && WalletsSound(s.books)
    requires (p.direction.Sell? || s.feeBps == 0) && !BuysFromRestingSell(s, p)
    ensures CanFill(s, p)
  {
    if !FokKilled(s, p) {
      var id := |s.orders|;
      var traded := Min(p.quantity, Crossable(Book(s, p), id));
      FreeOfFees(Book(s, p), id, Line(s, p), 0, p.quantity, s.feeBps);
      RestingLineup(Book(s, p), |s.books.wallets|, id);
      NoAskInReach(s, p);
      OwnWithinReservation(s, p);
      forall u: nat | u < |s.books.wallets|
        ensures Needed(s, p, u) <= Prepared(s, p, u)
      {
        LineClaims(s, p, u);
        DrawnWithinClaims(Book(s, p), id, Line(s, p), 0, p.quantity, u, |s.books.wallets|);
        assert Claimed(s, u) <= s.books.wallets[u].reserved;
      }
    }
  }

  /** What a buy pays itself and what it takes back make up at most what it set aside. */
  lemma OwnWithinReservation(s: State, p: Params)
    requires p.price > 0
    ensures var traded := Min(p.quantity, Crossable(Book(s, p), |s.orders|));
      OwnPart(NewOrder(p), p.user, traded) + Remainder(s, p) <= Reservation(p)
  {
    var traded := Min(p.quantity, Crossable(Book(s, p), |s.orders|));
    RemainderIs(s, p, p.quantity - traded);
    PartsOfWhole(p.price, traded, p.quantity);
  }

  lemma PartsOfWhole(price: int, part: int, whole: int)
    requires price > 0 && part <= whole
    ensures price * part + price * (whole - part) == price * whole
    ensures price * (whole - part) >= 0
  {
    Distributes(part, whole - part, price);
  }

  /** While reserves are funded, a sell, or a fee-free buy that reaches no resting sell, needs only its
      owner's contracts or money: the wallets always cover the rest. */
  lemma FundedPlacementsNeedOnlyTheirOwner(s: State, p: Params, pastClose: bool)
    requires Sound(s) && WalletsSound(s.books) && Funded(s)
    requires (p.direction.Sell? || s.feeBps == 0) && !BuysFromRestingSell(s, p)
    ensures Place(s, p, pastClose).Some? <==> Admissible(s, p, pastClose)
  {
    PlacementGoesThrough(s, p, pastClose);
    if Admissible(s, p, pastClose) {
      FundedCanFill(s, p, pastClose);
    }
  }

  // ----- the intended dispatch

  /** Had a buy against a resting sell gone to the sell fill, with the seller as maker, the seller
      would be paid and nobody left short; but the buyer's reserve would keep the difference between
      bid and ask, so reservations would stay exact only for fills at equal prices. */
  lemma ReroutedFill(s: State, buy: nat, sell: nat, qty: int, s': State, opening: seq<int>)
    requires Core(s, opening) && Tradable(s, sell, buy, qty)
    requires s.orders[buy].direction.Buy? && s.orders[sell].direction.Sell? && s.orders[buy].side == s.orders[sell].side
    requires Compatible(s.orders[buy], s.orders[sell])
    requires SellFill(s, sell, buy, qty, s.orders[sell].price) == Some(s')
    ensures BooksSound(s'.books, opening) && NoOversell(s') && Escrow(s') == Escrow(s)
    ensures Pairs(s', YES) == Pairs(s, YES)
    ensures forall u: nat ::
      Deficit(s', u) == Deficit(s, u)
        - (if u == s.orders[buy].user then (s.orders[buy].price - s.orders[sell].price) * qty else 0)
    ensures Exact(s) ==> (Exact(s') <==> s.orders[buy].price == s.orders[sell].price)
  {
    var b, a := s.orders[buy], s.orders[sell];
    SellFillBooks(s, sell, buy, qty, a.price, s', opening);
    FillPositions(s, sell, buy, qty, s');
    FillClaims(s, sell, buy, qty, s');
    Spread(b.price, a.price, qty);
    if Exact(s) {
      assert Deficit(s, b.user) == 0;
      if Exact(s') {
        assert Deficit(s', b.user) == 0;
      }
    }
  }

  lemma Spread(bid: int, ask: int, qty: int)
    requires qty > 0
    ensures (bid - ask) * qty == bid * qty - ask * qty
    ensures (bid - ask) * qty == 0 <==> bid == ask
  {
  }
}
