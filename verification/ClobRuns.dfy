/** Whole runs of an order-book market: the theorems. */
module ClobRuns {
  import opened Sums
  import opened Ledgers
  import opened Orders
  import opened Clob
  import opened ClobMatching
  import opened ClobPlacement
  import opened ClobPriority
  import opened ClobInvariant
  import opened ClobSteps
  import opened ClobClosing
  import opened ClobUndo

  ghost predicate InPlay(s: State) {
    s.status.Open? || s.status.Closed?
  }

  // ----- fees

  /** Stakes of takers in buy fills: a sell fill's stake row is balanced by its sale proceeds. */
  function TakerStakes(): (f: Entry -> int)
    ensures forall e ::
      f(e) == if e.kind.OrderFillStake? then e.amount else if e.kind.ClobSellCredit? then -e.amount else 0
  {
    (e: Entry) => if e.kind.OrderFillStake? then e.amount else if e.kind.ClobSellCredit? then -e.amount else 0
  }

  function BuyFills(): (f: Entry -> int)
    ensures forall e :: f(e) == if e.kind.OrderFillCredit? then 1 else 0
  {
    (e: Entry) => if e.kind.OrderFillCredit? then 1 else 0
  }

  function FeeRows(): (f: Entry -> int)
    ensures forall e :: f(e) == if e.kind.ClobFee? then e.amount else 0
  {
    (e: Entry) => if e.kind.ClobFee? then e.amount else 0
  }

  /** Fees are the rate on taker stakes, rounded up at most once per buy fill. */
  ghost predicate InRate(feeBps: nat, stakes: int, fees: int, fills: int) {
    feeBps * stakes <= 10_000 * fees <= feeBps * stakes + (10_000 - 1) * fills
  }

  ghost predicate FeesInRate(ledger: seq<Entry>, feeBps: nat) {
    InRate(feeBps, Sum(TakerStakes(), ledger), Sum(FeeRows(), ledger), Sum(BuyFills(), ledger))
  }

  lemma OneMoreFee(feeBps: nat, stakes: int, fees: int, fills: int, stake: int, fee: int)
    requires InRate(feeBps, stakes, fees, fills) && fee == CeilDiv(feeBps * stake, BPS) && stake > 0
    ensures InRate(feeBps, stakes + stake, fees + fee, fills + 1) && fee >= 0
  {
    assert feeBps * stake >= 0;
    CeilDivBounds(feeBps * stake, BPS);
    assert feeBps * (stakes + stake) == feeBps * stakes + feeBps * stake;
  }

  /** The ledger after the rows of a buy fill. */
  function BuyFillRows(ledger: seq<Entry>, t: nat, ts: int, m: nat, ms: int, fee: int): seq<Entry> {
    var posted := ledger + [Entry(t, OrderFillStake, Debit, ts)] + [Entry(m, OrderFillCredit, Credit, ms)];
    if fee <= 0 then posted else posted + [Entry(t, ClobFee, Debit, fee)]
  }

  lemma BuyFillSums(ledger: seq<Entry>, t: nat, ts: int, m: nat, ms: int, fee: int)
    requires fee >= 0
    ensures Sum(TakerStakes(), BuyFillRows(ledger, t, ts, m, ms, fee)) == Sum(TakerStakes(), ledger) + ts
    ensures Sum(FeeRows(), BuyFillRows(ledger, t, ts, m, ms, fee)) == Sum(FeeRows(), ledger) + fee
    ensures Sum(BuyFills(), BuyFillRows(ledger, t, ts, m, ms, fee)) == Sum(BuyFills(), ledger) + 1
  {
    var e1, e2 := Entry(t, OrderFillStake, Debit, ts), Entry(m, OrderFillCredit, Credit, ms);
    var e3 := Entry(t, ClobFee, Debit, fee);
    RowSums(TakerStakes(), ledger, e1, e2, e3);
    RowSums(BuyFills(), ledger, e1, e2, e3);
    RowSums(FeeRows(), ledger, e1, e2, e3);
  }

  lemma BuyFillFee(ledger: seq<Entry>, t: nat, ts: int, m: nat, ms: int, feeBps: nat, fee: int)
    requires FeesInRate(ledger, feeBps) && ts > 0 && fee == CeilDiv(feeBps * ts, BPS)
    ensures FeesInRate(BuyFillRows(ledger, t, ts, m, ms, fee), feeBps)
  {
    OneMoreFee(feeBps, Sum(TakerStakes(), ledger), Sum(FeeRows(), ledger), Sum(BuyFills(), ledger), ts, fee);
    BuyFillSums(ledger, t, ts, m, ms, fee);
  }

  lemma SellFillFee(ledger: seq<Entry>, seller: nat, buyer: nat, cash: int, feeBps: nat)
    requires FeesInRate(ledger, feeBps)
    ensures var e1, e2 := Entry(seller, ClobSellCredit, Credit, cash), Entry(buyer, OrderFillStake, Debit, cash);
      FeesInRate(ledger + [e1] + [e2], feeBps)
  {
    var e1, e2 := Entry(seller, ClobSellCredit, Credit, cash), Entry(buyer, OrderFillStake, Debit, cash);
    RowSums(TakerStakes(), ledger, e1, e2, e2);
    RowSums(BuyFills(), ledger, e1, e2, e2);
    RowSums(FeeRows(), ledger, e1, e2, e2);
  }

  lemma RowSums(f: Entry -> int, ledger: seq<Entry>, e1: Entry, e2: Entry, e3: Entry)
    ensures Sum(f, ledger + [e1] + [e2]) == Sum(f, ledger) + f(e1) + f(e2)
    ensures Sum(f, ledger + [e1] + [e2] + [e3]) == Sum(f, ledger) + f(e1) + f(e2) + f(e3)
  {
    SumAppend(f, ledger, e1);
    SumAppend(f, ledger + [e1], e2);
    SumAppend(f, ledger + [e1] + [e2], e3);
  }

  /** The ledger of a market in play holds trading rows only, with fees at the market's rate. */
  ghost predicate Recorded(s: State) {
    Trading(s.books.ledger) && FeesInRate(s.books.ledger, s.feeBps)
  }

  // ----- the invariant of a run

  /** Rows of trading, of other markets and of the market's end. */
  ghost predicate Written(ledger: seq<Entry>) {
    forall k :: 0 <= k < |ledger| ==> TradingRow(ledger[k]) || ClosingRow(ledger[k])
  }

  /** Everything true of every reachable state. */
  ghost predicate Inv(s: State, opening: seq<int>) {
    && Core(s, opening)
    && Uncrossed(s.orders)
    && Written(s.books.ledger) && FeesInRate(s.books.ledger, s.feeBps)
    && if InPlay(s) then Trading(s.books.ledger)
       else (s.status.Settled? || s.status.Cancelled?) && NoneLive(s.orders, |s.orders|)
  }

  // ----- one step

  lemma FillOneRows(s: State, inc: nat, rest: nat, s': State)
    requires inc < |s.orders| && rest < |s.orders| && FillOne(s, inc, rest) == Some(s') && Trading(s.books.ledger)
    ensures Trading(s'.books.ledger)
  {
  }

  /** The rows one fill appends. */
  lemma FillOneLedger(s: State, inc: nat, rest: nat, s': State)
    requires inc < |s.orders| && rest < |s.orders| && FillOne(s, inc, rest) == Some(s')
    ensures var i, r, l := s.orders[inc], s.orders[rest], s.books.ledger;
            var ts, ms := i.price * Lot(i, r), r.price * Lot(i, r);
      if i.direction.Sell?
      then s'.books.ledger
           == l + [Entry(i.user, ClobSellCredit, Credit, ms)] + [Entry(r.user, OrderFillStake, Debit, ms)]
      else ts > 0 && s'.books.ledger == BuyFillRows(l, i.user, ts, r.user, ms, CeilDiv(s.feeBps * ts, BPS))
  {
  }

  lemma FillOneFees(s: State, inc: nat, rest: nat, s': State)
    requires inc < |s.orders| && rest < |s.orders| && FillOne(s, inc, rest) == Some(s')
    requires FeesInRate(s.books.ledger, s.feeBps)
    ensures FeesInRate(s'.books.ledger, s.feeBps)
  {
    var i, r := s.orders[inc], s.orders[rest];
    var ts, ms := i.price * Lot(i, r), r.price * Lot(i, r);
    FillOneLedger(s, inc, rest, s');
    if i.direction.Sell? {
      SellFillFee(s.books.ledger, i.user, r.user, ms, s.feeBps);
    } else {
      BuyFillFee(s.books.ledger, i.user, ts, r.user, ms, s.feeBps, CeilDiv(s.feeBps * ts, BPS));
    }
  }

  lemma {:induction false} MatchRows(s: State, inc: nat, list: seq<nat>, k: nat, s': State)
    requires inc < |s.orders| && Within(list, |s.orders|) && Recorded(s)
    requires MatchFrom(s, inc, list, k) == Some(s')
    ensures Recorded(s') && s'.status == s.status && s'.feeBps == s.feeBps
    decreases |list| - k
  {
    if k < |list| && s.orders[inc].Unfilled() > 0 && Compatible(s.orders[inc], s.orders[list[k]]) {
      var next := FillOne(s, inc, list[k]).value;
      FillOneRows(s, inc, list[k], next);
      FillOneFees(s, inc, list[k], next);
      FillOneShape(s, inc, list[k], next);
      MatchRows(next, inc, list, k + 1, s');
    }
  }

  lemma PlaceRows(s: State, p: Params, pastClose: bool, s': State)
    requires Sound(s) && Place(s, p, pastClose) == Some(s') && Recorded(s)
    ensures Recorded(s') && s'.status == s.status && s.status.Open? && s'.feeBps == s.feeBps
  {
    var a := Admit(s, p, pastClose).value;
    var id := |s.orders|;
    AdmitShape(s, p, pastClose, a);
    if Killed(a, id) {
      RemainderRows(a, id, s');
    } else {
      var m := MatchFrom(a, id, Line(s, p), 0).value;
      MatchRows(a, id, Line(s, p), 0, m);
      if ApplyTif(m, id) == CancelRemainder(m, id) {
        RemainderRows(m, id, s');
      }
    }
  }

  lemma RemainderRows(m: State, id: nat, s': State)
    requires id < |m.orders| && CancelRemainder(m, id) == Some(s')
    ensures s'.books.ledger == m.books.ledger && s'.status == m.status && s'.feeBps == m.feeBps
  {
  }

  lemma PlaceStep(s: State, p: Params, pastClose: bool, s': State, opening: seq<int>)
    requires Inv(s, opening) && Place(s, p, pastClose) == Some(s')
    ensures Inv(s', opening)
  {
    PlaceKeeps(s, p, pastClose, s', opening);
    PlaceKeepsUncrossed(s, p, pastClose, s');
    PlaceRows(s, p, pastClose, s');
  }

  lemma WithdrawStep(s: State, id: nat, s': State, opening: seq<int>)
    requires Inv(s, opening) && CancelOrder(s, id) == Some(s')
    ensures Inv(s', opening)
  {
    CancelOrderKeeps(s, id, s', opening);
    forall i | 0 <= i < |s.orders| && s'.orders[i].Live() ensures s.orders[i] == s'.orders[i] {
      assert i != id;
    }
  }

  lemma OutsideRow(ledger: seq<Entry>, e: Entry, feeBps: nat)
    requires e.kind.Elsewhere? && Written(ledger) && FeesInRate(ledger, feeBps)
    ensures Written(ledger + [e]) && FeesInRate(ledger + [e], feeBps)
    ensures Trading(ledger) ==> Trading(ledger + [e])
  {
    SumAppend(TakerStakes(), ledger, e);
    SumAppend(FeeRows(), ledger, e);
    SumAppend(BuyFills(), ledger, e);
  }

  lemma ElsewhereWrites(s: State, user: nat, toAvailable: int, toReserved: int, s': State)
    requires MoveElsewhere(s, user, toAvailable, toReserved) == Some(s')
    ensures var amount := toAvailable + toReserved;
      s'.books.ledger == if amount == 0 then s.books.ledger else s.books.ledger + [ElsewhereRow(user, amount)]
  {
  }

  lemma ElsewhereStep(s: State, user: nat, toAvailable: int, toReserved: int, s': State, opening: seq<int>)
    requires Inv(s, opening) && MoveElsewhere(s, user, toAvailable, toReserved) == Some(s')
    ensures Inv(s', opening)
  {
    ElsewhereWrites(s, user, toAvailable, toReserved, s');
    ElsewhereKeeps(s, user, toAvailable, toReserved, s', opening);
    OutsideRow(s.books.ledger, ElsewhereRow(user, toAvailable + toReserved), s.feeBps);
  }

  /** The end of a market writes no stakes and no fees. */
  lemma ClosedKeepsFees(before: seq<Entry>, after: seq<Entry>, feeBps: nat)
    requires ClosedBy(before, after) && Written(before) && FeesInRate(before, feeBps)
    ensures Written(after) && FeesInRate(after, feeBps)
  {
    SumWhenClosed(TakerStakes(), before, after);
    SumWhenClosed(FeeRows(), before, after);
    SumWhenClosed(BuyFills(), before, after);
    forall k | 0 <= k < |after| ensures TradingRow(after[k]) || ClosingRow(after[k]) {
      if k < |before| {
        assert after[..|before|][k] == before[k];
      }
    }
  }

  lemma SettleStep(s: State, outcome: Side, s': State, opening: seq<int>)
    requires Inv(s, opening) && Settle(s, outcome) == Some(s')
    ensures Inv(s', opening) && s'.feeBps == s.feeBps
  {
    SettlementPays(s, outcome, s', opening);
    var released := ReleaseFrom(s, 0, false).value;
    ReleaseKeeps(s, 0, false, released, opening);
    PayoutsClose(released.books, released.orders, outcome, 0, s'.books);
    ClosedKeepsFees(s.books.ledger, s'.books.ledger, s.feeBps);
  }

  lemma AbortStep(s: State, reason: string, r: (State, Undo), opening: seq<int>)
    requires Inv(s, opening) && CancelMarket(s, reason) == Some(r)
    ensures Inv(r.0, opening) && r.0.feeBps == s.feeBps
  {
    CancelUndoes(s, reason, r, opening);
    var released := ReleaseFrom(s, 0, true).value;
    ReleaseKeeps(s, 0, true, released, opening);
    RepaymentsClose(Undo(released.books, 0, 0, 0), Outlays(released.books.ledger), 0, r.1);
    ClosedKeepsFees(s.books.ledger, r.0.books.ledger, s.feeBps);
  }

  /** Every step of every service keeps the invariant. */
  lemma NextKeeps(s: State, step: Step, opening: seq<int>)
    requires Inv(s, opening)
    ensures Inv(Next(s, step), opening)
  {
    var r := Attempt(s, step);
    if r.Some? {
      match step
      case PlaceOrder(p, pastClose) => PlaceStep(s, p, pastClose, r.value, opening);
      case Withdraw(id) => WithdrawStep(s, id, r.value, opening);
      case CloseMarket => StatusKeeps(s, MarketStatus.Closed, opening);
      case SettleMarket(outcome) => SettleStep(s, outcome, r.value, opening);
      case AbortMarket(reason) => AbortStep(s, reason, CancelMarket(s, reason).value, opening);
      case Elsewhere(user, toAvailable, toReserved) =>
        ElsewhereStep(s, user, toAvailable, toReserved, r.value, opening);
    }
  }

  // ----- whole runs

  /** Every reachable state satisfies the invariant, for the balances the run opened with. */
  lemma {:induction false} RunKeeps(s: State, steps: seq<Step>)
    requires Fresh(s)
    ensures Inv(Run(s, steps), OpeningOf(s.books.wallets))
  {
    if steps == [] {
      FreshBooksSound(s.books);
    } else {
      RunKeeps(s, steps[..|steps| - 1]);
      NextKeeps(Run(s, steps[..|steps| - 1]), steps[|steps| - 1], OpeningOf(s.books.wallets));
    }
  }

  /** Solvency and parity: at any time, whichever side wins, settling would pay out the same amount
      in all, and never more than the fills have collected. */
  lemma AlwaysSolvent(s: State, steps: seq<Step>, outcome: Side)
    requires Fresh(s)
    ensures var now := Run(s, steps);
      && Pairs(now, YES) == Pairs(now, NO)
      && SumByUser(OpenInterest(YES), OrderOwner, now.orders, |now.books.wallets|)
           == SumByUser(OpenInterest(NO), OrderOwner, now.orders, |now.books.wallets|)
      && 100 * Pairs(now, YES) <= Escrow(now)
      && (Settle(now, outcome).Some? ==>
            PaidOut(Settle(now, outcome).value.books.ledger) - PaidOut(now.books.ledger)
                 == 100 * Pairs(now, YES))
  {
    RunKeeps(s, steps);
    var now := Run(s, steps);
    SumByUserIsSum(OpenInterest(YES), OrderOwner, now.orders, |now.books.wallets|);
    SumByUserIsSum(OpenInterest(NO), OrderOwner, now.orders, |now.books.wallets|);
    if Settle(now, outcome).Some? {
      SettlementPays(now, outcome, Settle(now, outcome).value, OpeningOf(s.books.wallets));
    }
  }

  /** Nobody ever offers, or has sold, more contracts than they hold. */
  lemma NeverOversold(s: State, steps: seq<Step>, user: nat, side: Side)
    requires Fresh(s)
    ensures 0 <= OnOffer(Run(s, steps), user, side) <= Net(Run(s, steps), user, side)
  {
    RunKeeps(s, steps);
    OnOfferNonNegative(Run(s, steps), user, side);
  }

  /** No reachable book is crossed. */
  lemma NeverCrossed(s: State, steps: seq<Step>)
    requires Fresh(s)
    ensures Uncrossed(Run(s, steps).orders)
  {
    RunKeeps(s, steps);
  }

  /** Fees over a whole run: the configured rate on the takers' stakes, rounded up per buy fill. */
  lemma FeesFollowRate(s: State, steps: seq<Step>)
    requires Fresh(s)
    ensures FeesInRate(Run(s, steps).books.ledger, s.feeBps)
  {
    RunKeeps(s, steps);
    RateIsFixed(s, steps);
  }

  lemma {:induction false} RateIsFixed(s: State, steps: seq<Step>)
    requires Fresh(s)
    ensures Run(s, steps).feeBps == s.feeBps
  {
    if steps != [] {
      var before := Run(s, steps[..|steps| - 1]);
      RunKeeps(s, steps[..|steps| - 1]);
      RateIsFixed(s, steps[..|steps| - 1]);
      NextKeepsRate(before, steps[|steps| - 1], OpeningOf(s.books.wallets));
    }
  }

  lemma NextKeepsRate(s: State, step: Step, opening: seq<int>)
    requires Inv(s, opening)
    ensures Next(s, step).feeBps == s.feeBps
  {
    var r := Attempt(s, step);
    if r.Some? {
      match step
      case PlaceOrder(p, pastClose) => PlaceRows(s, p, pastClose, r.value);
      case Withdraw(_) =>
      case CloseMarket =>
      case SettleMarket(outcome) => SettleStep(s, outcome, r.value, opening);
      case AbortMarket(reason) => AbortStep(s, reason, CancelMarket(s, reason).value, opening);
      case Elsewhere(_, _, _) =>
    }
  }

  // ----- the ledger

  /** Money flows of other markets, over all users. */
  function AllOutsideRows(): (f: Entry -> int)
    ensures forall e :: f(e) == if e.kind.Elsewhere? then Signed(e) else 0
  {
    (e: Entry) => if e.kind.Elsewhere? then Signed(e) else 0
  }

  lemma {:induction false} SignedSplits(ledger: seq<Entry>)
    requires Written(ledger)
    ensures Sum(Signed, ledger) == Sum(AllOutsideRows(), ledger) - Sum(Collected(), ledger) - Sum(FeeRows(), ledger)
                                   + Sum(Winnings(), ledger) + Sum(Refunds(), ledger) - Sum(Clawbacks(), ledger)
  {
    if ledger != [] {
      SignedSplits(ledger[..|ledger| - 1]);
      var e := ledger[|ledger| - 1];
      assert (TradingRow(e) || ClosingRow(e)) && Signed(e) == Signed(e);
    }
  }

  lemma NothingReturnedYet(ledger: seq<Entry>)
    requires Trading(ledger)
    ensures Sum(Winnings(), ledger) == 0 && Sum(Refunds(), ledger) == 0 && Sum(Clawbacks(), ledger) == 0
  {
    forall k | 0 <= k < |ledger|
      ensures Winnings()(ledger[k]) == 0 && Refunds()(ledger[k]) == 0 && Clawbacks()(ledger[k]) == 0
    {
      assert TradingRow(ledger[k]);
    }
    SumZero(Winnings(), ledger);
    SumZero(Refunds(), ledger);
    SumZero(Clawbacks(), ledger);
  }

  /** Conservation, through settlement and cancellation: wallets, escrow and fees together hold exactly
      the opening money, what came from outside and what the market's end has paid less what it took
      back; while the market is in play it has done neither. */
  lemma MoneyIsConserved(s: State, steps: seq<Step>)
    requires Fresh(s)
    ensures var now := Run(s, steps);
            var l := now.books.ledger;
      && Sum((w: Wallet) => w.Total(), now.books.wallets) + Escrow(now) + Sum(FeeRows(), l)
           == Sum((x: int) => x, OpeningOf(s.books.wallets)) + Sum(AllOutsideRows(), l)
              + Sum(Winnings(), l) + Sum(Refunds(), l) - Sum(Clawbacks(), l)
      && (InPlay(now) ==> Sum(Winnings(), l) == Sum(Refunds(), l) == Sum(Clawbacks(), l) == 0)
  {
    RunKeeps(s, steps);
    var now := Run(s, steps);
    MoneyConserved(now.books, OpeningOf(s.books.wallets));
    SignedSplits(now.books.ledger);
    if InPlay(now) {
      NothingReturnedYet(now.books.ledger);
    }
  }

  /** Replay: a user's balance is the opening balance plus their signed rows. Reading signs off the
      direction column is right exactly for users with no ORDER_FILL_CREDIT rows. */
  lemma LedgerReplays(s: State, steps: seq<Step>, user: nat)
    requires Fresh(s) && user < |s.books.wallets|
    ensures var now := Run(s, steps);
      && user < |now.books.wallets|
      && now.books.wallets[user].Total() == s.books.wallets[user].Total() + Sum(Flow(user), now.books.ledger)
      && (now.books.wallets[user].Total() == s.books.wallets[user].Total() + Sum(NaiveFlow(user), now.books.ledger)
          <==> Sum(FillCreditsOf(user), now.books.ledger) == 0)
  {
    RunKeeps(s, steps);
    DirectionColumnIsOff(Run(s, steps).books.ledger, user);
    NoCashouts(Run(s, steps).books.ledger, user);
    assert Drift(Run(s, steps).books, OpeningOf(s.books.wallets), user) == 0;
  }

  lemma NoCashouts(ledger: seq<Entry>, user: nat)
    requires Written(ledger)
    ensures Sum(CashoutFeesOf(user), ledger) == 0
  {
    forall k | 0 <= k < |ledger| ensures CashoutFeesOf(user)(ledger[k]) == 0 {
      assert TradingRow(ledger[k]) || ClosingRow(ledger[k]);
    }
    SumZero(CashoutFeesOf(user), ledger);
  }

  // ----- cancelling the market

  ghost predicate NothingElsewhere(steps: seq<Step>) {
    forall k :: 0 <= k < |steps| ==> !steps[k].Elsewhere?
  }

  lemma {:induction false} NoOutsideRows(s: State, steps: seq<Step>, user: nat)
    requires Fresh(s) && NothingElsewhere(steps) && InPlay(Run(s, steps))
    ensures Outside(Run(s, steps).books.ledger, user) == 0
  {
    if steps != [] {
      var before := Run(s, steps[..|steps| - 1]);
      var step := steps[|steps| - 1];
      RunKeeps(s, steps[..|steps| - 1]);
      assert !step.Elsewhere?;
      if Next(before, step) != before {
        StillInPlay(before, step, OpeningOf(s.books.wallets));
        OutsideUnmoved(before, step, user, OpeningOf(s.books.wallets));
      }
      NoOutsideRows(s, steps[..|steps| - 1], user);
    }
  }

  /** A market leaves play once and for all. */
  lemma StillInPlay(s: State, step: Step, opening: seq<int>)
    requires Inv(s, opening) && InPlay(Next(s, step))
    ensures InPlay(s)
  {
  }

  lemma OutsideUnmoved(s: State, step: Step, user: nat, opening: seq<int>)
    requires Inv(s, opening) && !step.Elsewhere? && InPlay(Next(s, step)) && InPlay(s)
    ensures Outside(Next(s, step).books.ledger, user) == Outside(s.books.ledger, user)
  {
    var r := Attempt(s, step);
    if r.Some? {
      match step
      case PlaceOrder(p, pastClose) => PlaceOutside(s, p, pastClose, r.value, user);
      case Withdraw(id) => CancelOrderKeeps(s, id, r.value, opening);
      case CloseMarket =>
      case SettleMarket(_) => assert false;
      case AbortMarket(_) => assert false;
    }
  }

  lemma PlaceOutside(s: State, p: Params, pastClose: bool, s': State, user: nat)
    requires Sound(s) && Place(s, p, pastClose) == Some(s')
    ensures Outside(s'.books.ledger, user) == Outside(s.books.ledger, user)
  {
    var a := Admit(s, p, pastClose).value;
    var id := |s.orders|;
    AdmitShape(s, p, pastClose, a);
    if Killed(a, id) {
      RemainderRows(a, id, s');
    } else {
      var m := MatchFrom(a, id, Line(s, p), 0).value;
      MatchOutside(a, id, Line(s, p), 0, m, user);
      if ApplyTif(m, id) == CancelRemainder(m, id) {
        RemainderRows(m, id, s');
      }
    }
  }

  lemma {:induction false} MatchOutside(s: State, inc: nat, list: seq<nat>, k: nat, s': State, user: nat)
    requires inc < |s.orders| && Within(list, |s.orders|) && MatchFrom(s, inc, list, k) == Some(s')
    ensures Outside(s'.books.ledger, user) == Outside(s.books.ledger, user)
    decreases |list| - k
  {
    if k < |list| && s.orders[inc].Unfilled() > 0 && Compatible(s.orders[inc], s.orders[list[k]]) {
      var next := FillOne(s, inc, list[k]).value;
      FillOneOutside(s, inc, list[k], next, user);
      MatchOutside(next, inc, list, k + 1, s', user);
    }
  }

  lemma FillOneOutside(s: State, inc: nat, rest: nat, s': State, user: nat)
    requires inc < |s.orders| && rest < |s.orders| && FillOne(s, inc, rest) == Some(s')
    ensures Outside(s'.books.ledger, user) == Outside(s.books.ledger, user)
  {
    var i, r := s.orders[inc], s.orders[rest];
    var ts, ms := i.price * Lot(i, r), r.price * Lot(i, r);
    var f, l := OutsideRows(user), s.books.ledger;
    FillOneLedger(s, inc, rest, s');
    var e1, e2 := Entry(i.user, ClobSellCredit, Credit, ms), Entry(r.user, OrderFillStake, Debit, ms);
    RowSums(f, l, e1, e2, e2);
    var e3, e4 := Entry(i.user, OrderFillStake, Debit, ts), Entry(r.user, OrderFillCredit, Credit, ms);
    RowSums(f, l, e3, e4, Entry(i.user, ClobFee, Debit, CeilDiv(s.feeBps * ts, BPS)));
  }

  /** Whatever other markets do to the wallets, cancelling fails exactly when some user has taken more
      out of this market than put in and owns nothing beyond what other markets hold in reserve;
      otherwise everybody ends with opening balance plus outside money, what is missing being on record. */
  lemma CancelWithOutsideMoney(s: State, steps: seq<Step>, reason: string, user: nat)
    requires Fresh(s) && InPlay(Run(s, steps)) && |reason| >= 10 && user < |s.books.wallets|
    ensures var now := Run(s, steps);
            var r := CancelMarket(now, reason);
      && (r.None? <==> exists u :: Drained(now, u))
      && (r.Some? ==> UndoneFor(now, r.value.0.books, user, OpeningOf(s.books.wallets)))
  {
    var now := Run(s, steps);
    RunKeeps(s, steps);
    CancelsUnlessDrained(now, reason, OpeningOf(s.books.wallets));
    if CancelMarket(now, reason).Some? {
      CancelUndoes(now, reason, CancelMarket(now, reason).value, OpeningOf(s.books.wallets));
    }
  }

  // ----- the end of a market

  /** Once a market is settled or cancelled nothing is live, and no later service call changes
      anything: no second payout, refund or release. */
  lemma EndedIsFinal(s: State, steps: seq<Step>, step: Step)
    requires Fresh(s) && !InPlay(Run(s, steps)) && !step.Elsewhere?
    ensures Next(Run(s, steps), step) == Run(s, steps)
    ensures NoneLive(Run(s, steps).orders, |Run(s, steps).orders|)
  {
    RunKeeps(s, steps);
  }

  /** Order lifecycle: in every reachable state an order is open or partial exactly while something
      is unfilled, and fills and cancellations never exceed the quantity. */
  lemma OrdersAlwaysSound(s: State, steps: seq<Step>, i: nat)
    requires Fresh(s) && i < |Run(s, steps).orders|
    ensures var o := Run(s, steps).orders[i];
      && (o.status.Open? || o.status.Partial? <==> o.Unfilled() > 0)
      && o.filled >= 0 && o.cancelled >= 0 && o.filled + o.cancelled <= o.quantity
  {
    RunKeeps(s, steps);
  }
}
