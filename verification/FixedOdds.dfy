/** The fixed-odds market as a state machine: placement under a liability cap, voids, settlement. */
module FixedOdds {
  import opened Sums
  import opened Ledgers

  datatype BetStatus = Open | SettledWin | SettledLoss | Voided

  datatype Bet = Bet(user: nat, leg: nat, stake: int, fee: int, net: int, odds: int, payout: int, status: BetStatus)

  datatype Leg = Leg(name: string, odds: int, active: bool)

  datatype State = State(status: MarketStatus, feeBps: int, cap: int, legs: seq<Leg>, bets: seq<Bet>, books: Books)

  // ----- HouseRiskService

  function OpenNet(): (f: Bet -> int)
    ensures forall b :: f(b) == if b.status.Open? then b.net else 0
  {
    (b: Bet) => if b.status.Open? then b.net else 0
  }

  function OpenPayout(leg: nat): (f: Bet -> int)
    ensures forall b :: f(b) == if b.status.Open? && b.leg == leg then b.payout else 0
  {
    (b: Bet) => if b.status.Open? && b.leg == leg then b.payout else 0
  }

  /** `pnl_by_outcome` for one leg. */
  function Pnl(bets: seq<Bet>, leg: nat): int {
    Sum(OpenNet(), bets) - Sum(OpenPayout(leg), bets)
  }

  function MinPnl(bets: seq<Bet>, legs: nat): int
    requires legs > 0
  {
    if legs == 1 then Pnl(bets, 0) else Min(MinPnl(bets, legs - 1), Pnl(bets, legs - 1))
  }

  /** `worst_case_liability`. */
  function WorstCase(bets: seq<Bet>, legs: nat): int {
    if legs == 0 then 0 else Max(0, -MinPnl(bets, legs))
  }

  // ----- BetPlacementService

  function Fee(stake: int, feeBps: int): int {
    stake * feeBps / BPS
  }

  function Payout(stake: int, odds: int): int {
    stake * odds / BPS
  }

  function NewBet(s: State, user: nat, leg: nat, stake: int): Bet
    requires leg < |s.legs|
  {
    var fee := Fee(stake, s.feeBps);
    Bet(user, leg, stake, fee, stake - fee, s.legs[leg].odds, Payout(stake, s.legs[leg].odds), BetStatus.Open)
  }

  function Place(s: State, user: nat, leg: nat, stake: int, pastClose: bool): Option<State> {
    if !s.status.Open? || pastClose || leg >= |s.legs| || !s.legs[leg].active || stake <= 0 then None
    else
      var bet := NewBet(s, user, leg, stake);
      if bet.net <= 0 || user >= |s.books.wallets| || s.books.wallets[user].available < stake then None
      else if WorstCase(s.bets + [bet], |s.legs|) > s.cap then None
      else
        var b :- MoveAndPost(s.books, -stake, Entry(user, BetStake, Debit, stake));
        Some(s.(books := b, bets := s.bets + [bet]))
  }

  // ----- BetVoidService

  function Void(s: State, id: nat, reason: string): Option<State> {
    if |reason| == 0 || id >= |s.bets| || !s.bets[id].status.Open? then None
    else
      var bet := s.bets[id];
      var b :- MoveAndPost(s.books, bet.stake, Entry(bet.user, BetVoidRefund, Credit, bet.stake));
      Some(s.(books := b, bets := s.bets[id := bet.(status := Voided)]))
  }

  // ----- CashoutQuoteService and CashoutExecutionService

  function CashoutFee(gross: int, feeBps: int): int {
    CeilDiv(gross * feeBps, BPS)
  }

  /** `net_payout_minor` of a quote. */
  function CashoutNet(s: State, bet: Bet): int
    requires bet.leg < |s.legs|
  {
    var gross := Payout(bet.stake, s.legs[bet.leg].odds);
    gross - CashoutFee(gross, s.feeBps)
  }

  function CashOut(s: State, id: nat): Option<State> {
    if id >= |s.bets| || !s.bets[id].status.Open? || !s.status.Open? || s.bets[id].leg >= |s.legs| then None
    else
      var bet := s.bets[id];
      var net := CashoutNet(s, bet);
      var fee := CashoutFee(Payout(bet.stake, s.legs[bet.leg].odds), s.feeBps);
      var paid :- MoveAndPost(s.books, net, Entry(bet.user, BetCashoutPayout, Credit, net));
      var b :- if fee > 0 then Post(paid, Entry(bet.user, BetCashoutFee, Debit, fee)) else Some(paid);
      Some(s.(books := b, bets := s.bets[id := bet.(status := Voided)]))
  }

  // ----- SettlementService

  function SettleOne(s: State, outcome: string, k: nat): Option<State>
    requires k < |s.bets|
  {
    var bet := s.bets[k];
    if bet.leg < |s.legs| && s.legs[bet.leg].name == outcome then
      var b :- MoveAndPost(s.books, bet.payout, Entry(bet.user, BetWinPayout, Credit, bet.payout));
      Some(s.(books := b, bets := s.bets[k := bet.(status := SettledWin)]))
    else Some(s.(bets := s.bets[k := bet.(status := SettledLoss)]))
  }

  function SettleFrom(s: State, outcome: string, k: nat): Option<State>
    decreases |s.bets| - k
  {
    if k >= |s.bets| then Some(s)
    else if !s.bets[k].status.Open? then SettleFrom(s, outcome, k + 1)
    else
      var next :- SettleOne(s, outcome, k);
      SettleFrom(next, outcome, k + 1)
  }

  predicate ValidOutcome(s: State, outcome: string) {
    exists l :: 0 <= l < |s.legs| && s.legs[l].name == outcome
  }

  function Settle(s: State, outcome: string): Option<State> {
    if !(s.status.Open? || s.status.Closed?) || !ValidOutcome(s, outcome) then None
    else SettleFrom(s.(status := MarketStatus.Settled), outcome, 0)
  }

  // ----- MarketCancellationService on a fixed-odds market

  function RefundFrom(s: State, k: nat): Option<State>
    decreases |s.bets| - k
  {
    if k >= |s.bets| then Some(s)
    else if !s.bets[k].status.Open? then RefundFrom(s, k + 1)
    else
      var bet := s.bets[k];
      var refund := Entry(bet.user, MarketCancelRefund, Credit, bet.stake);
      var b :- if bet.stake > 0 then MoveAndPost(s.books, bet.stake, refund) else Some(s.books);
      RefundFrom(s.(books := b, bets := s.bets[k := bet.(status := Voided)]), k + 1)
  }

  function CancelMarket(s: State, reason: string): Option<State> {
    if |reason| < MIN_REASON || !(s.status.Open? || s.status.Closed?) then None
    else
      var refunded :- RefundFrom(s, 0);
      Some(refunded.(status := MarketStatus.Cancelled))
  }

  // ----- runs

  datatype Step =
    | PlaceBet(user: nat, leg: nat, stake: int, pastClose: bool)
    | VoidBet(bet: nat, reason: string)
    | CashOutBet(bet: nat)
    | CloseMarket
    | SettleMarket(outcome: string)
    | AbortMarket(reason: string)

  function Attempt(s: State, step: Step): Option<State> {
    match step
    case PlaceBet(user, leg, stake, pastClose) => Place(s, user, leg, stake, pastClose)
    case VoidBet(id, reason) => Void(s, id, reason)
    case CashOutBet(id) => CashOut(s, id)
    case CloseMarket => if s.status.Open? then Some(s.(status := MarketStatus.Closed)) else None
    case SettleMarket(outcome) => Settle(s, outcome)
    case AbortMarket(reason) => CancelMarket(s, reason)
  }

  function Next(s: State, step: Step): State {
    var r := Attempt(s, step);
    if r.Some? then r.value else s
  }

  function Run(s: State, steps: seq<Step>): State {
    if steps == [] then s else Next(Run(s, steps[..|steps| - 1]), steps[|steps| - 1])
  }

  ghost predicate DistinctNames(legs: seq<Leg>) {
    forall i, j :: 0 <= i < j < |legs| ==> legs[i].name != legs[j].name
  }

  /** The validation of a leg's odds. */
  ghost predicate OddsInRange(legs: seq<Leg>) {
    forall l :: 0 <= l < |legs| ==> 0 < legs[l].odds <= 10_000
  }

  ghost predicate Fresh(s: State) {
    && s.status.Open? && s.feeBps >= 0 && s.cap > 0 && DistinctNames(s.legs)
    && OddsInRange(s.legs)
    && s.bets == [] && s.books.ledger == [] && WalletsSound(s.books)
  }

  ghost predicate InPlay(s: State) {
    s.status.Open? || s.status.Closed?
  }

  // ----- measures

  function VoidedNet(): (f: Bet -> int)
    ensures forall b :: f(b) == if b.status.Voided? then b.net else 0
  {
    (b: Bet) => if b.status.Voided? then b.net else 0
  }

  function OpenStakeOf(user: nat): (f: Bet -> int)
    ensures forall b :: f(b) == if b.user == user && b.status.Open? then b.stake else 0
  {
    (b: Bet) => if b.user == user && b.status.Open? then b.stake else 0
  }

  function OpenPayoutOf(user: nat, leg: nat): (f: Bet -> int)
    ensures forall b :: f(b) == if b.user == user && b.status.Open? && b.leg == leg then b.payout else 0
  {
    (b: Bet) => if b.user == user && b.status.Open? && b.leg == leg then b.payout else 0
  }

  /** What settlement credits to winners. */
  function WinPayouts(): (f: Entry -> int)
    ensures forall e :: f(e) == if e.kind.BetWinPayout? then e.amount else 0
  {
    (e: Entry) => if e.kind.BetWinPayout? then e.amount else 0
  }

  function Credited(wallets: seq<Wallet>, user: nat, amount: int): seq<Wallet>
    requires user < |wallets|
  {
    wallets[user := wallets[user].(available := wallets[user].available + amount)]
  }

  // ----- worst case

  /** The worst case is the least amount that covers the loss on every leg. */
  lemma {:induction false} MinPnlIsLeast(bets: seq<Bet>, legs: nat)
    requires legs > 0
    ensures forall l :: 0 <= l < legs ==> MinPnl(bets, legs) <= Pnl(bets, l)
    ensures exists l :: 0 <= l < legs && MinPnl(bets, legs) == Pnl(bets, l)
  {
    if legs == 1 {
      assert MinPnl(bets, legs) == Pnl(bets, 0);
    } else {
      MinPnlIsLeast(bets, legs - 1);
      assert MinPnl(bets, legs) == Pnl(bets, legs - 1) || MinPnl(bets, legs) == MinPnl(bets, legs - 1);
    }
  }

  lemma WorstCaseCovers(bets: seq<Bet>, legs: nat, amount: int)
    requires amount >= 0
    ensures WorstCase(bets, legs) <= amount <==> forall l :: 0 <= l < legs ==> Pnl(bets, l) >= -amount
  {
    if legs > 0 {
      MinPnlIsLeast(bets, legs);
    }
  }

  // ----- the invariant

  /** `amount` is the rate on the stake, rounded down. */
  ghost predicate Floored(amount: int, stake: int, rate: int) {
    amount * 10_000 <= stake * rate < amount * 10_000 + 10_000
  }

  ghost predicate BetSound(s: State, b: Bet) {
    && b.user < |s.books.wallets| && b.leg < |s.legs|
    && b.stake > 0 && b.net > 0 && b.fee >= 0 && b.payout >= 0 && b.stake == b.net + b.fee
    && b.odds == s.legs[b.leg].odds
    && Floored(b.fee, b.stake, s.feeBps) && Floored(b.payout, b.stake, b.odds)
  }

  ghost predicate BetsSound(s: State) {
    forall k :: 0 <= k < |s.bets| ==> BetSound(s, s.bets[k])
  }

  ghost predicate Capped(s: State) {
    WorstCase(s.bets, |s.legs|) <= s.cap + Sum(VoidedNet(), s.bets)
  }

  /** No row of an order book. */
  ghost predicate BetRows(ledger: seq<Entry>) {
    forall k :: 0 <= k < |ledger| ==> !ledger[k].kind.OrderFillCredit?
  }

  ghost predicate Inv(s: State, opening: seq<int>) {
    && BooksSound(s.books, opening) && BetRows(s.books.ledger) && DistinctNames(s.legs) && s.cap > 0 && s.feeBps >= 0
    && OddsInRange(s.legs)
    && BetsSound(s) && Capped(s)
    && (InPlay(s) || ((s.status.Settled? || s.status.Cancelled?) && NoneOpen(s.bets, |s.bets|)))
  }

  lemma VoidedNetNonNegative(s: State)
    requires BetsSound(s)
    ensures Sum(VoidedNet(), s.bets) >= 0
  {
    SumAtLeast(VoidedNet(), s.bets);
  }

  lemma NewBetSound(s: State, user: nat, leg: nat, stake: int)
    requires leg < |s.legs| && s.legs[leg].odds > 0 && s.feeBps >= 0 && stake > 0
    ensures var b := NewBet(s, user, leg, stake);
      b.fee >= 0 && b.payout >= 0 && b.stake == b.net + b.fee
      && Floored(b.fee, b.stake, s.feeBps) && Floored(b.payout, b.stake, b.odds)
  {
    assert stake * s.feeBps >= 0 && stake * s.legs[leg].odds >= 0;
  }

  /** `b` is a fresh bet of `user` on `leg`: its stake split by the fee rate, at the odds of that leg. */
  ghost predicate BetOn(s: State, b: Bet, user: nat, leg: nat, stake: int) {
    && leg < |s.legs| && b.user == user && b.leg == leg && b.stake == stake && b.status == BetStatus.Open
    && b.odds == s.legs[leg].odds && Floored(b.fee, stake, s.feeBps) && b.net == stake - b.fee
    && Floored(b.payout, stake, b.odds)
  }

  /** The stake has left the user's wallet and is recorded, and one bet has been added to the others. */
  ghost predicate BetAdded(s: State, user: nat, leg: nat, stake: int, s': State) {
    && s' == s.(books := s'.books, bets := s'.bets)
    && |s'.bets| == |s.bets| + 1 && s'.bets[..|s.bets|] == s.bets && BetOn(s, s'.bets[|s.bets|], user, leg, stake)
    && user < |s.books.wallets| && s'.books.wallets == s.books.wallets[user :=
      Wallet(s.books.wallets[user].available - stake, s.books.wallets[user].reserved)]
    && s'.books.ledger == s.books.ledger + [Entry(user, BetStake, Debit, stake)]
  }

  /** A placement keeps the invariant and the cap, and adds exactly the bet asked for. */
  lemma PlaceKeeps(s: State, user: nat, leg: nat, stake: int, pastClose: bool, s': State, opening: seq<int>)
    requires Inv(s, opening) && Place(s, user, leg, stake, pastClose) == Some(s')
    ensures Inv(s', opening) && WorstCase(s'.bets, |s'.legs|) <= s'.cap
    ensures BetAdded(s, user, leg, stake, s')
  {
    var bet := NewBet(s, user, leg, stake);
    var e := Entry(user, BetStake, Debit, stake);
    NewBetSound(s, user, leg, stake);
    PostedMoveReplays(s.books, -stake, e, s'.books, opening);
    SumAppend(VoidedNet(), s.bets, bet);
    VoidedNetNonNegative(s);
  }

  /** A placement goes through exactly when every guard lets it: then the wallet covers the stake. */
  predicate Acceptable(s: State, user: nat, leg: nat, stake: int, pastClose: bool) {
    && s.status.Open? && !pastClose && leg < |s.legs| && s.legs[leg].active
    && stake > 0 && Fee(stake, s.feeBps) < stake
    && user < |s.books.wallets| && stake <= s.books.wallets[user].available
    && WorstCase(s.bets + [NewBet(s, user, leg, stake)], |s.legs|) <= s.cap
  }

  lemma PlacementGoesThrough(s: State, user: nat, leg: nat, stake: int, pastClose: bool)
    requires WalletsSound(s.books)
    ensures Place(s, user, leg, stake, pastClose).Some? <==> Acceptable(s, user, leg, stake, pastClose)
  {
  }

  /** A void removes the bet's net stake from every leg's result and its payout from one. */
  lemma VoidPnl(bets: seq<Bet>, id: nat, leg: nat)
    requires id < |bets| && bets[id].status.Open?
    ensures var after := bets[id := bets[id].(status := Voided)];
      && Pnl(after, leg) == Pnl(bets, leg) - bets[id].net + (if bets[id].leg == leg then bets[id].payout else 0)
      && Sum(VoidedNet(), after) == Sum(VoidedNet(), bets) + bets[id].net
  {
    var bet2 := bets[id].(status := Voided);
    SumUpdate(OpenNet(), bets, id, bet2);
    SumUpdate(OpenPayout(leg), bets, id, bet2);
    SumUpdate(VoidedNet(), bets, id, bet2);
  }

  /** Voiding raises the worst case by at most the bet's net stake. */
  lemma VoidDrift(s: State, id: nat)
    requires BetsSound(s) && id < |s.bets| && s.bets[id].status.Open?
    ensures WorstCase(s.bets[id := s.bets[id].(status := Voided)], |s.legs|)
         <= WorstCase(s.bets, |s.legs|) + s.bets[id].net
  {
    var after := s.bets[id := s.bets[id].(status := Voided)];
    var worst := WorstCase(s.bets, |s.legs|);
    WorstCaseCovers(s.bets, |s.legs|, worst);
    forall l | 0 <= l < |s.legs| ensures Pnl(after, l) >= -(worst + s.bets[id].net) {
      VoidPnl(s.bets, id, l);
      assert Pnl(s.bets, l) >= -worst;
    }
    WorstCaseCovers(after, |s.legs|, worst + s.bets[id].net);
  }

  /** The stake is back in its owner's wallet, recorded as a void, and that bet alone is voided. */
  ghost predicate StakeReturned(s: State, id: nat, s': State) {
    && id < |s.bets| && s.bets[id].user < |s.books.wallets|
    && s' == s.(books := s'.books, bets := s.bets[id := s.bets[id].(status := Voided)])
    && s'.books.wallets == Credited(s.books.wallets, s.bets[id].user, s.bets[id].stake)
    && s'.books.ledger == s.books.ledger + [Entry(s.bets[id].user, BetVoidRefund, Credit, s.bets[id].stake)]
  }

  lemma VoidKeeps(s: State, id: nat, reason: string, s': State, opening: seq<int>)
    requires Inv(s, opening) && Void(s, id, reason) == Some(s')
    ensures Inv(s', opening) && StakeReturned(s, id, s')
  {
    var bet := s.bets[id];
    VoidDrift(s, id);
    VoidPnl(s.bets, id, 0);
    PostedMoveReplays(s.books, bet.stake, Entry(bet.user, BetVoidRefund, Credit, bet.stake), s'.books, opening);
  }

  lemma VoidGoesThrough(s: State, id: nat, reason: string, opening: seq<int>)
    requires Inv(s, opening)
    ensures Void(s, id, reason).Some? <==> |reason| > 0 && id < |s.bets| && s.bets[id].status.Open?
  {
    if id < |s.bets| {
      assert BetSound(s, s.bets[id]);
    }
  }

  // ----- cashing out

  /** `net` is what a payout of `gross` comes to after the fee, the rate rounded up. */
  ghost predicate NetOfFee(net: int, gross: int, feeBps: int) {
    gross * feeBps <= (gross - net) * 10_000 < gross * feeBps + 10_000
  }

  /** A cashout is worth the bet's potential payout, which is at most the stake, less the fee. */
  lemma CashoutAmounts(s: State, bet: Bet)
    requires BetSound(s, bet) && OddsInRange(s.legs) && s.feeBps >= 0
    ensures 0 <= Payout(bet.stake, s.legs[bet.leg].odds) == bet.payout <= bet.stake
    ensures NetOfFee(CashoutNet(s, bet), bet.payout, s.feeBps) && CashoutNet(s, bet) <= bet.payout
  {
    var gross := Payout(bet.stake, s.legs[bet.leg].odds);
    assert bet.stake * bet.odds >= 0;
    PayoutWithinStake(bet);
    assert gross * s.feeBps >= 0;
    CeilDivBounds(gross * s.feeBps, BPS);
  }

  /** A cashout goes through exactly for an open bet, in an open market, that is worth anything. */
  predicate Cashable(s: State, id: nat) {
    && s.status.Open? && id < |s.bets| && s.bets[id].status.Open? && s.bets[id].leg < |s.legs|
    && CashoutNet(s, s.bets[id]) > 0
  }

  lemma CashoutGoesThrough(s: State, id: nat, opening: seq<int>)
    requires Inv(s, opening)
    ensures CashOut(s, id).Some? <==> Cashable(s, id)
  {
    if id < |s.bets| {
      assert BetSound(s, s.bets[id]);
    }
  }

  /** The ledger after a cashout: the payout net of the fee, and the fee if there is one. */
  function CashoutRows(ledger: seq<Entry>, bet: Bet, net: int): seq<Entry> {
    var paid := ledger + [Entry(bet.user, BetCashoutPayout, Credit, net)];
    if bet.payout > net then paid + [Entry(bet.user, BetCashoutFee, Debit, bet.payout - net)] else paid
  }

  /** The wallet gains the net payout, the books stay replayable, and the bet is gone. */
  lemma CashoutEffect(s: State, id: nat, s': State, opening: seq<int>)
    requires Inv(s, opening) && CashOut(s, id) == Some(s')
    ensures BooksSound(s'.books, opening) && BetRows(s'.books.ledger) && s' == s.(books := s'.books, bets := s'.bets)
    ensures id < |s.bets| && s'.bets == s.bets[id := s.bets[id].(status := Voided)]
    ensures s.bets[id].user < |s.books.wallets| && s.bets[id].leg < |s.legs|
    ensures s'.books.wallets == Credited(s.books.wallets, s.bets[id].user, CashoutNet(s, s.bets[id]))
    ensures s'.books.ledger == CashoutRows(s.books.ledger, s.bets[id], CashoutNet(s, s.bets[id]))
  {
    CashoutAmounts(s, s.bets[id]);
    var bet := s.bets[id];
    var net := CashoutNet(s, bet);
    var fee := CashoutFee(Payout(bet.stake, s.legs[bet.leg].odds), s.feeBps);
    var e1, e2 := Entry(bet.user, BetCashoutPayout, Credit, net), Entry(bet.user, BetCashoutFee, Debit, fee);
    var paid := MoveAndPost(s.books, net, e1).value;
    PostedMoveReplays(s.books, net, e1, paid, opening);
    if fee > 0 {
      PostDrifts(paid, e2, s'.books, opening);
    }
  }

  lemma CashoutKeeps(s: State, id: nat, s': State, opening: seq<int>)
    requires Inv(s, opening) && CashOut(s, id) == Some(s')
    ensures Inv(s', opening)
  {
    CashoutEffect(s, id, s', opening);
    VoidDrift(s, id);
    VoidPnl(s.bets, id, 0);
  }

  // ----- settlement

  /** Every open bet on the leg can be paid: a payout of zero would make an invalid ledger row. */
  ghost predicate Payable(bets: seq<Bet>, leg: nat) {
    forall k :: 0 <= k < |bets| && bets[k].status.Open? && bets[k].leg == leg ==> bets[k].payout > 0
  }

  ghost predicate NoneOpen(bets: seq<Bet>, n: nat) {
    forall j :: 0 <= j < n && j < |bets| ==> !bets[j].status.Open?
  }

  lemma StatusKeepsSound(s: State, k: nat, status: BetStatus)
    requires BetsSound(s) && k < |s.bets|
    ensures BetSound(s, s.bets[k].(status := status))
  {
    assert BetSound(s, s.bets[k]);
  }

  lemma SettleOneEffect(s: State, outcome: string, leg: nat, k: nat, opening: seq<int>)
    requires BooksSound(s.books, opening) && DistinctNames(s.legs) && BetsSound(s)
    requires leg < |s.legs| && s.legs[leg].name == outcome && k < |s.bets| && s.bets[k].status.Open?
    ensures var r := SettleOne(s, outcome, k);
      && (r.Some? <==> (s.bets[k].leg == leg ==> s.bets[k].payout > 0))
      && (r.Some? ==>
            && BooksSound(r.value.books, opening) && BetsSound(r.value)
            && r.value == s.(books := r.value.books, bets := s.bets[k := r.value.bets[k]])
            && r.value.bets[k] == s.bets[k].(status := if s.bets[k].leg == leg then SettledWin else SettledLoss)
            && r.value.books.wallets == (if s.bets[k].leg != leg then s.books.wallets
                                         else Credited(s.books.wallets, s.bets[k].user, s.bets[k].payout))
            && Sum(WinPayouts(), r.value.books.ledger)
                 == Sum(WinPayouts(), s.books.ledger) + if s.bets[k].leg == leg then s.bets[k].payout else 0)
  {
    var bet := s.bets[k];
    StatusKeepsSound(s, k, SettledWin);
    StatusKeepsSound(s, k, SettledLoss);
    assert s.legs[bet.leg].name == outcome <==> bet.leg == leg;
    if bet.leg == leg && bet.payout > 0 {
      var e := Entry(bet.user, BetWinPayout, Credit, bet.payout);
      var b := MoveAndPost(s.books, bet.payout, e).value;
      PostedMoveReplays(s.books, bet.payout, e, b, opening);
      SumAppend(WinPayouts(), s.books.ledger, e);
    }
  }

  /** The settlement loop goes through exactly when every winner can be paid, and closes every bet ... */
  lemma {:induction false} SettleLoop(s: State, outcome: string, leg: nat, k: nat, opening: seq<int>)
    requires BooksSound(s.books, opening) && DistinctNames(s.legs) && BetsSound(s) && NoneOpen(s.bets, k)
    requires leg < |s.legs| && s.legs[leg].name == outcome
    ensures var r := SettleFrom(s, outcome, k);
      && (r.Some? <==> Payable(s.bets, leg))
      && (r.Some? ==>
            && BooksSound(r.value.books, opening) && BetsSound(r.value) && NoneOpen(r.value.bets, |r.value.bets|)
            && (BetRows(s.books.ledger) ==> BetRows(r.value.books.ledger))
            && r.value == s.(books := r.value.books, bets := r.value.bets))
    decreases |s.bets| - k
  {
    if k < |s.bets| {
      if !s.bets[k].status.Open? {
        SettleLoop(s, outcome, leg, k + 1, opening);
      } else {
        SettleOneEffect(s, outcome, leg, k, opening);
        var r := SettleOne(s, outcome, k);
        if r.Some? {
          SettleLoop(r.value, outcome, leg, k + 1, opening);
          PayableStep(s.bets, r.value.bets, leg, k);
        }
      }
    }
  }

  /** How settlement closes a bet when `leg` has won. */
  ghost predicate Graded(b: Bet, b2: Bet, leg: nat) {
    b2 == if !b.status.Open? then b else b.(status := if b.leg == leg then SettledWin else SettledLoss)
  }

  lemma {:induction false} SettleGrades(s: State, outcome: string, leg: nat, k: nat)
    requires DistinctNames(s.legs) && leg < |s.legs| && s.legs[leg].name == outcome
    requires SettleFrom(s, outcome, k).Some?
    ensures var bets := SettleFrom(s, outcome, k).value.bets;
      |bets| == |s.bets| && forall j :: 0 <= j < |s.bets| ==>
        if j < k then bets[j] == s.bets[j] else Graded(s.bets[j], bets[j], leg)
    decreases |s.bets| - k
  {
    if k < |s.bets| {
      assert s.bets[k].leg < |s.legs| && s.legs[s.bets[k].leg].name == outcome <==> s.bets[k].leg == leg;
      SettleGrades(if s.bets[k].status.Open? then SettleOne(s, outcome, k).value else s, outcome, leg, k + 1);
    }
  }

  /** ... crediting the open payouts on the winning leg and leaving voided bets alone. */
  lemma {:induction false} SettleSums(s: State, outcome: string, leg: nat, k: nat, opening: seq<int>)
    requires BooksSound(s.books, opening) && DistinctNames(s.legs) && BetsSound(s) && NoneOpen(s.bets, k)
    requires leg < |s.legs| && s.legs[leg].name == outcome && SettleFrom(s, outcome, k).Some?
    ensures var r := SettleFrom(s, outcome, k).value;
      && Sum(VoidedNet(), r.bets) == Sum(VoidedNet(), s.bets)
      && Sum(WinPayouts(), r.books.ledger) == Sum(WinPayouts(), s.books.ledger) + Sum(OpenPayout(leg), s.bets)
    decreases |s.bets| - k
  {
    if k >= |s.bets| {
      SumZero(OpenPayout(leg), s.bets);
    } else if !s.bets[k].status.Open? {
      SettleSums(s, outcome, leg, k + 1, opening);
    } else {
      SettleOneEffect(s, outcome, leg, k, opening);
      var next := SettleOne(s, outcome, k).value;
      SettleSums(next, outcome, leg, k + 1, opening);
      SumUpdate(OpenPayout(leg), s.bets, k, next.bets[k]);
      SumUpdate(VoidedNet(), s.bets, k, next.bets[k]);
    }
  }

  /** Each user is credited the payouts of their own open bets on the winning leg. */
  lemma {:induction false} WinnersCredited(s: State, outcome: string, leg: nat, k: nat, opening: seq<int>, user: nat)
    requires BooksSound(s.books, opening) && DistinctNames(s.legs) && BetsSound(s) && NoneOpen(s.bets, k)
    requires leg < |s.legs| && s.legs[leg].name == outcome && user < |s.books.wallets|
    requires SettleFrom(s, outcome, k).Some?
    ensures var r := SettleFrom(s, outcome, k).value;
      && |r.books.wallets| == |s.books.wallets|
      && r.books.wallets[user] == s.books.wallets[user].(
           available := s.books.wallets[user].available + Sum(OpenPayoutOf(user, leg), s.bets))
    decreases |s.bets| - k
  {
    if k >= |s.bets| {
      SumZero(OpenPayoutOf(user, leg), s.bets);
    } else if !s.bets[k].status.Open? {
      WinnersCredited(s, outcome, leg, k + 1, opening, user);
    } else {
      SettleOneEffect(s, outcome, leg, k, opening);
      var next := SettleOne(s, outcome, k).value;
      WinnersCredited(next, outcome, leg, k + 1, opening, user);
      SumUpdate(OpenPayoutOf(user, leg), s.bets, k, next.bets[k]);
    }
  }

  lemma PayableStep(bets: seq<Bet>, after: seq<Bet>, leg: nat, k: nat)
    requires k < |bets| && (bets[k].leg == leg ==> bets[k].payout > 0)
    requires |after| == |bets| && !after[k].status.Open? && after == bets[k := after[k]]
    ensures Payable(after, leg) <==> Payable(bets, leg)
  {
    assert forall j :: 0 <= j < |bets| && j != k ==> after[j] == bets[j];
    if Payable(after, leg) {
      forall j | 0 <= j < |bets| && bets[j].status.Open? && bets[j].leg == leg ensures bets[j].payout > 0 {
        assert j != k ==> after[j] == bets[j];
      }
    }
  }

  /** The forecast is realised: settling on a leg's name succeeds exactly when every open bet on that
      leg has something to be paid, and then the open net stakes less the credits made are exactly
      the result `pnl_by_outcome` had forecast for that leg. */
  lemma ForecastIsRealised(s: State, leg: nat, opening: seq<int>)
    requires Inv(s, opening) && InPlay(s) && leg < |s.legs|
    ensures var r := Settle(s, s.legs[leg].name);
      && (r.Some? <==> Payable(s.bets, leg))
      && (r.Some? ==>
            && Realised(s, r.value, leg)
            && Inv(r.value, opening) && r.value.status.Settled?)
  {
    var outcome := s.legs[leg].name;
    SettleLoop(s.(status := MarketStatus.Settled), outcome, leg, 0, opening);
    var r := Settle(s, outcome);
    if r.Some? {
      SettleSums(s.(status := MarketStatus.Settled), outcome, leg, 0, opening);
      SettleGrades(s.(status := MarketStatus.Settled), outcome, leg, 0);
      forall u: nat | u < |s.books.wallets|
        ensures |r.value.books.wallets| == |s.books.wallets| && Rewarded(s, r.value, leg, u)
      {
        WinnersCredited(s.(status := MarketStatus.Settled), outcome, leg, 0, opening, u);
      }
      SameUsers(s, outcome, r.value);
      ClosedBookIsCapped(r.value);
    }
  }

  lemma SameUsers(s: State, outcome: string, s': State)
    requires Settle(s, outcome) == Some(s')
    ensures |s'.books.wallets| == |s.books.wallets|
  {
    SettlementKeepsUsers(s.(status := MarketStatus.Settled), outcome, 0);
  }

  lemma {:induction false} SettlementKeepsUsers(s: State, outcome: string, k: nat)
    requires SettleFrom(s, outcome, k).Some?
    ensures |SettleFrom(s, outcome, k).value.books.wallets| == |s.books.wallets|
    decreases |s.bets| - k
  {
    if k < |s.bets| {
      SettlementKeepsUsers(if s.bets[k].status.Open? then SettleOne(s, outcome, k).value else s, outcome, k + 1);
    }
  }

  /** Some leg has the name, and its winners can be paid. */
  ghost predicate Nameable(s: State, outcome: string) {
    exists l: nat :: l < |s.legs| && s.legs[l].name == outcome && Payable(s.bets, l)
  }

  /** The user has been credited the payouts of their own open bets on the leg. */
  ghost predicate Rewarded(before: State, after: State, leg: nat, user: nat) {
    && user < |before.books.wallets| == |after.books.wallets|
    && after.books.wallets[user] == before.books.wallets[user].(
         available := before.books.wallets[user].available + Sum(OpenPayoutOf(user, leg), before.bets))
  }

  /** The leg's forecast result is what the open stakes brought in less what winners were credited; every
      bet is closed as won or lost, and every winner has been credited. */
  ghost predicate Realised(before: State, after: State, leg: nat) {
    && Sum(OpenNet(), before.bets) - (Sum(WinPayouts(), after.books.ledger) - Sum(WinPayouts(), before.books.ledger))
         == Pnl(before.bets, leg)
    && |after.bets| == |before.bets| && (forall k :: 0 <= k < |before.bets| ==>
         Graded(before.bets[k], after.bets[k], leg))
    && |after.books.wallets| == |before.books.wallets|
    && forall u: nat | u < |before.books.wallets| :: Rewarded(before, after, leg, u)
  }

  /** The same, for whatever name settlement is asked for. */
  lemma SettleRealises(s: State, outcome: string, opening: seq<int>)
    requires Inv(s, opening)
    ensures Settle(s, outcome).Some? <==> InPlay(s) && Nameable(s, outcome)
    ensures var r := Settle(s, outcome);
      r.Some? ==>
        && r.value.status.Settled? && NoneOpen(r.value.bets, |r.value.bets|)
        && forall l: nat :: l < |s.legs| && s.legs[l].name == outcome ==> Realised(s, r.value, l)
  {
    if InPlay(s) && ValidOutcome(s, outcome) {
      var leg: nat :| leg < |s.legs| && s.legs[leg].name == outcome;
      ForecastIsRealised(s, leg, opening);
      assert forall l: nat :: l < |s.legs| && s.legs[l].name == outcome ==> l == leg;
    }
  }

  /** With no bet open there is no liability. */
  lemma ClosedBookIsCapped(s: State)
    requires BetsSound(s) && s.cap > 0 && NoneOpen(s.bets, |s.bets|)
    ensures Capped(s)
  {
    VoidedNetNonNegative(s);
    SumZero(OpenNet(), s.bets);
    forall l | 0 <= l < |s.legs| ensures Pnl(s.bets, l) >= 0 {
      SumZero(OpenPayout(l), s.bets);
    }
    WorstCaseCovers(s.bets, |s.legs|, 0);
  }

  // ----- cancelling the market

  lemma RefundOne(s: State, k: nat, opening: seq<int>) returns (b: Books)
    requires BooksSound(s.books, opening) && BetsSound(s) && k < |s.bets|
    ensures var bet := s.bets[k];
      && bet.user < |s.books.wallets| && bet.stake > 0
      && MoveAndPost(s.books, bet.stake, Entry(bet.user, MarketCancelRefund, Credit, bet.stake)) == Some(b)
      && BooksSound(b, opening) && b.wallets == Credited(s.books.wallets, bet.user, bet.stake)
  {
    assert BetSound(s, s.bets[k]);
    var bet := s.bets[k];
    var e := Entry(bet.user, MarketCancelRefund, Credit, bet.stake);
    b := MoveAndPost(s.books, bet.stake, e).value;
    PostedMoveReplays(s.books, bet.stake, e, b, opening);
  }

  function OpenStakes(): (f: Bet -> int)
    ensures forall b :: f(b) == if b.status.Open? then b.stake else 0
  {
    (b: Bet) => if b.status.Open? then b.stake else 0
  }

  /** It voids the open bets, no others, and records what it returns. */
  lemma {:induction false} RefundRows(s: State, k: nat, opening: seq<int>)
    requires BooksSound(s.books, opening) && BetsSound(s) && NoneOpen(s.bets, k) && RefundFrom(s, k).Some?
    ensures var r := RefundFrom(s, k).value;
      && Sum(Refunds(), r.books.ledger) == Sum(Refunds(), s.books.ledger) + Sum(OpenStakes(), s.bets)
      && |r.bets| == |s.bets| && forall j :: 0 <= j < |s.bets| ==> r.bets[j] == VoidedIfOpen(s.bets[j])
    decreases |s.bets| - k
  {
    if k >= |s.bets| {
      SumZero(OpenStakes(), s.bets);
    } else if !s.bets[k].status.Open? {
      RefundRows(s, k + 1, opening);
    } else {
      var b := RefundOne(s, k, opening);
      var bet2 := s.bets[k].(status := Voided);
      StatusKeepsSound(s, k, Voided);
      SumUpdate(OpenStakes(), s.bets, k, bet2);
      SumAppend(Refunds(), s.books.ledger, Entry(s.bets[k].user, MarketCancelRefund, Credit, s.bets[k].stake));
      RefundRows(s.(books := b, bets := s.bets[k := bet2]), k + 1, opening);
    }
  }

  function VoidedIfOpen(b: Bet): Bet {
    if b.status.Open? then b.(status := Voided) else b
  }

  /** The refund loop goes through, closes every bet and returns every open stake. */
  lemma {:induction false} RefundLoop(s: State, k: nat, opening: seq<int>)
    requires BooksSound(s.books, opening) && BetsSound(s) && NoneOpen(s.bets, k)
    ensures var r := RefundFrom(s, k);
      && r.Some? && BooksSound(r.value.books, opening) && BetsSound(r.value)
      && (BetRows(s.books.ledger) ==> BetRows(r.value.books.ledger))
      && NoneOpen(r.value.bets, |r.value.bets|) && r.value == s.(books := r.value.books, bets := r.value.bets)
      && |r.value.books.wallets| == |s.books.wallets|
      && (forall u :: 0 <= u < |s.books.wallets| ==> r.value.books.wallets[u] == s.books.wallets[u].(
            available := s.books.wallets[u].available + Sum(OpenStakeOf(u), s.bets)))
    decreases |s.bets| - k
  {
    if k >= |s.bets| {
      forall u | 0 <= u < |s.books.wallets| ensures Sum(OpenStakeOf(u), s.bets) == 0 {
        SumZero(OpenStakeOf(u), s.bets);
      }
    } else if !s.bets[k].status.Open? {
      RefundLoop(s, k + 1, opening);
    } else {
      var b := RefundOne(s, k, opening);
      var bet2 := s.bets[k].(status := Voided);
      StatusKeepsSound(s, k, Voided);
      RefundLoop(s.(books := b, bets := s.bets[k := bet2]), k + 1, opening);
      forall u: nat ensures Sum(OpenStakeOf(u), s.bets[k := bet2])
        == Sum(OpenStakeOf(u), s.bets) - if s.bets[k].user == u then s.bets[k].stake else 0
      {
        SumUpdate(OpenStakeOf(u), s.bets, k, bet2);
      }
    }
  }

  /** Cancelling always goes through while in play and returns each user the stakes of their open bets. */
  lemma CancelKeeps(s: State, reason: string, opening: seq<int>)
    requires Inv(s, opening) && InPlay(s) && |reason| >= 10
    ensures var r := CancelMarket(s, reason);
      && r.Some? && r.value.status.Cancelled? && Inv(r.value, opening) && |r.value.books.wallets| == |s.books.wallets|
      && NoneOpen(r.value.bets, |r.value.bets|)
      && |r.value.bets| == |s.bets| && (forall j :: 0 <= j < |s.bets| ==> r.value.bets[j] == VoidedIfOpen(s.bets[j]))
      && Sum(Refunds(), r.value.books.ledger) - Sum(Refunds(), s.books.ledger) == Sum(OpenStakes(), s.bets)
      && (forall u :: 0 <= u < |s.books.wallets| ==> r.value.books.wallets[u] == s.books.wallets[u].(
            available := s.books.wallets[u].available + Sum(OpenStakeOf(u), s.bets)))
  {
    RefundLoop(s, 0, opening);
    RefundRows(s, 0, opening);
    ClosedBookIsCapped(CancelMarket(s, reason).value);
  }

  // ----- whole runs

  lemma NextKeeps(s: State, step: Step, opening: seq<int>)
    requires Inv(s, opening)
    ensures Inv(Next(s, step), opening)
  {
    var r := Attempt(s, step);
    if r.Some? {
      match step
      case PlaceBet(user, leg, stake, pastClose) => PlaceKeeps(s, user, leg, stake, pastClose, r.value, opening);
      case VoidBet(id, reason) => VoidKeeps(s, id, reason, r.value, opening);
      case CashOutBet(id) => CashoutKeeps(s, id, r.value, opening);
      case CloseMarket =>
      case SettleMarket(outcome) =>
        var leg: nat :| leg < |s.legs| && s.legs[leg].name == outcome;
        ForecastIsRealised(s, leg, opening);
      case AbortMarket(reason) => CancelKeeps(s, reason, opening);
    }
  }

  lemma {:induction false} RunKeeps(s: State, steps: seq<Step>)
    requires Fresh(s)
    ensures Inv(Run(s, steps), OpeningOf(s.books.wallets))
  {
    if steps == [] {
      FreshBooksSound(s.books);
      WorstCaseCovers(s.bets, |s.legs|, s.cap);
    } else {
      RunKeeps(s, steps[..|steps| - 1]);
      NextKeeps(Run(s, steps[..|steps| - 1]), steps[|steps| - 1], OpeningOf(s.books.wallets));
    }
  }

  /** Cap drift: over any run of placements, voids and cashouts the worst case is at most the cap plus the net
      stakes of voided bets. */
  lemma LiabilityIsCapped(s: State, steps: seq<Step>)
    requires Fresh(s)
    ensures var now := Run(s, steps); WorstCase(now.bets, |now.legs|) <= now.cap + Sum(VoidedNet(), now.bets)
  {
    RunKeeps(s, steps);
  }

  // ----- what the odds allow

  function OpenFees(): (f: Bet -> int)
    ensures forall b :: f(b) == if b.status.Open? then b.fee else 0
  {
    (b: Bet) => if b.status.Open? then b.fee else 0
  }

  function OpenFeesOn(leg: nat): (f: Bet -> int)
    ensures forall b :: f(b) == if b.status.Open? && b.leg == leg then b.fee else 0
  {
    (b: Bet) => if b.status.Open? && b.leg == leg then b.fee else 0
  }

  function OpenNetOff(leg: nat): (f: Bet -> int)
    ensures forall b :: f(b) == if b.status.Open? && b.leg != leg then b.net else 0
  {
    (b: Bet) => if b.status.Open? && b.leg != leg then b.net else 0
  }

  lemma PayoutWithinStake(b: Bet)
    requires b.stake > 0 && 0 < b.odds <= 10_000 && Floored(b.payout, b.stake, b.odds)
    ensures b.payout <= b.stake
  {
    AtMostEven(b.stake, b.odds);
  }

  lemma AtMostEven(stake: int, odds: int)
    requires stake > 0 && odds <= 10_000
    ensures stake * odds <= stake * 10_000
  {
  }

  /** A leg's result is at least the net stakes on the other legs less the fees on this one. */
  lemma {:induction false} LegResult(bets: seq<Bet>, leg: nat)
    requires forall k :: 0 <= k < |bets| ==> bets[k].payout <= bets[k].stake == bets[k].net + bets[k].fee
    ensures Pnl(bets, leg) >= Sum(OpenNetOff(leg), bets) - Sum(OpenFeesOn(leg), bets)
  {
    if bets != [] {
      LegResult(bets[..|bets| - 1], leg);
    }
  }

  lemma {:induction false} FeesOnLeg(bets: seq<Bet>, leg: nat)
    requires forall k :: 0 <= k < |bets| ==> bets[k].fee >= 0 && bets[k].net >= 0
    ensures Sum(OpenFeesOn(leg), bets) <= Sum(OpenFees(), bets) && Sum(OpenNetOff(leg), bets) >= 0
    ensures Sum(OpenFees(), bets) >= 0
  {
    if bets != [] {
      FeesOnLeg(bets[..|bets| - 1], leg);
    }
  }

  /** A book of bets that pay at most their stake can lose at most their fees. */
  lemma WithinFees(bets: seq<Bet>, legs: nat)
    requires forall k :: 0 <= k < |bets| ==> bets[k].payout <= bets[k].stake == bets[k].net + bets[k].fee
    requires forall k :: 0 <= k < |bets| ==> bets[k].fee >= 0 && bets[k].net >= 0
    ensures WorstCase(bets, legs) <= Sum(OpenFees(), bets)
  {
    FeesOnLeg(bets, 0);
    forall l | 0 <= l < legs ensures Pnl(bets, l) >= -Sum(OpenFees(), bets) {
      LegResult(bets, l);
      FeesOnLeg(bets, l);
    }
    WorstCaseCovers(bets, legs, Sum(OpenFees(), bets));
  }

  lemma BetsPayWithinStakes(s: State)
    requires BetsSound(s) && OddsInRange(s.legs)
    ensures forall k :: 0 <= k < |s.bets| ==> s.bets[k].payout <= s.bets[k].stake == s.bets[k].net + s.bets[k].fee
    ensures forall k :: 0 <= k < |s.bets| ==> s.bets[k].fee >= 0 && s.bets[k].net >= 0
  {
    forall k | 0 <= k < |s.bets|
      ensures s.bets[k].payout <= s.bets[k].stake == s.bets[k].net + s.bets[k].fee
      ensures s.bets[k].fee >= 0 && s.bets[k].net >= 0
    {
      assert BetSound(s, s.bets[k]);
      PayoutWithinStake(s.bets[k]);
    }
  }

  /** Odds never pay more than the stake, so over any run of placements, voids and cashouts the house
      can lose at most the fees of its open bets, whatever the cap. */
  lemma LiabilityWithinFees(s: State, steps: seq<Step>)
    requires Fresh(s)
    ensures var now := Run(s, steps); WorstCase(now.bets, |now.legs|) <= Sum(OpenFees(), now.bets)
  {
    RunKeeps(s, steps);
    var now := Run(s, steps);
    BetsPayWithinStakes(now);
    WithinFees(now.bets, |now.legs|);
  }

  /** So the cap refuses a bet only if, with it, the open fees would exceed the cap. */
  lemma CapRefusesOnlyBeyondFees(s: State, steps: seq<Step>, user: nat, leg: nat, stake: int)
    requires Fresh(s) && leg < |Run(s, steps).legs| && stake > 0
    ensures var now := Run(s, steps);
            var bets := now.bets + [NewBet(now, user, leg, stake)];
      NewBet(now, user, leg, stake).net > 0 && WorstCase(bets, |now.legs|) > now.cap ==> Sum(OpenFees(), bets) > now.cap
  {
    RunKeeps(s, steps);
    var now := Run(s, steps);
    var bet := NewBet(now, user, leg, stake);
    NewBetSound(now, user, leg, stake);
    PayoutWithinStake(bet);
    BetsPayWithinStakes(now);
    if bet.net > 0 {
      WithinFees(now.bets + [bet], |now.legs|);
    }
  }

  ghost predicate PlacementsOnly(steps: seq<Step>) {
    forall k :: 0 <= k < |steps| ==> steps[k].PlaceBet? || steps[k].CloseMarket?
  }

  /** In a run of placements alone no leg's result, when realised, is worse than the cap. */
  lemma {:induction false} PlacementsStayWithinCap(s: State, steps: seq<Step>, leg: nat)
    requires Fresh(s) && PlacementsOnly(steps) && leg < |s.legs|
    ensures Run(s, steps).legs == s.legs && InPlay(Run(s, steps)) && Run(s, steps).cap == s.cap
    ensures Pnl(Run(s, steps).bets, leg) >= -s.cap
    decreases |steps|
  {
    if steps != [] {
      var before := Run(s, steps[..|steps| - 1]);
      var step := steps[|steps| - 1];
      assert step.PlaceBet? || step.CloseMarket?;
      PlacementsStayWithinCap(s, steps[..|steps| - 1], leg);
      RunKeeps(s, steps[..|steps| - 1]);
      var r := Attempt(before, step);
      if step.PlaceBet? && r.Some? {
        PlaceKeeps(before, step.user, step.leg, step.stake, step.pastClose, r.value, OpeningOf(s.books.wallets));
        WorstCaseCovers(r.value.bets, |r.value.legs|, s.cap);
      }
    }
  }

  /** Settling any reachable market in play realises the forecast. */
  lemma SettlementOfARun(s: State, steps: seq<Step>, leg: nat)
    requires Fresh(s) && InPlay(Run(s, steps)) && leg < |Run(s, steps).legs|
    ensures var now := Run(s, steps);
            var r := Settle(now, now.legs[leg].name);
      && (r.Some? <==> Payable(now.bets, leg))
      && (r.Some? ==> Realised(now, r.value, leg))
  {
    RunKeeps(s, steps);
    ForecastIsRealised(Run(s, steps), leg, OpeningOf(s.books.wallets));
  }

  /** Settlement credits each user exactly the payouts of their open bets on the winning leg. */
  lemma WinnersArePaid(s: State, steps: seq<Step>, leg: nat, user: nat)
    requires Fresh(s) && InPlay(Run(s, steps)) && leg < |Run(s, steps).legs| && user < |s.books.wallets|
    requires Settle(Run(s, steps), Run(s, steps).legs[leg].name).Some?
    ensures var now := Run(s, steps);
            var r := Settle(now, now.legs[leg].name).value;
      && user < |now.books.wallets| == |r.books.wallets|
      && r.books.wallets[user] == now.books.wallets[user].(
           available := now.books.wallets[user].available + Sum(OpenPayoutOf(user, leg), now.bets))
  {
    RunKeeps(s, steps);
    var now := Run(s, steps);
    WinnersCredited(now.(status := MarketStatus.Settled), now.legs[leg].name, leg, 0, OpeningOf(s.books.wallets), user);
  }

  /** Every bet ever placed carries its stake split into fee and net stake, with the fee and the
      payout being the market's and the leg's rates rounded down. */
  lemma BetsArePriced(s: State, steps: seq<Step>, k: nat)
    requires Fresh(s) && k < |Run(s, steps).bets|
    ensures BetSound(Run(s, steps), Run(s, steps).bets[k])
  {
    RunKeeps(s, steps);
  }

  // ----- what users are left with

  /** A user's money with every open stake given back. */
  function Worth(s: State, user: nat): int
    requires user < |s.books.wallets|
  {
    s.books.wallets[user].available + Sum(OpenStakeOf(user), s.bets)
  }

  /** What a user gives up by cashing out instead of having the bet voided. */
  function ForgoneAt(s: State, step: Step, user: nat): int {
    if step.CashOutBet? && Cashable(s, step.bet) && s.bets[step.bet].user == user
    then s.bets[step.bet].stake - CashoutNet(s, s.bets[step.bet])
    else 0
  }

  function Forgone(s: State, steps: seq<Step>, user: nat): int {
    if steps == [] then 0
    else Forgone(s, steps[..|steps| - 1], user) + ForgoneAt(Run(s, steps[..|steps| - 1]), steps[|steps| - 1], user)
  }

  lemma PlaceWorth(s: State, user: nat, leg: nat, stake: int, pastClose: bool, s': State, u: nat)
    requires Place(s, user, leg, stake, pastClose) == Some(s') && u < |s.books.wallets|
    ensures |s'.books.wallets| == |s.books.wallets|
    ensures Worth(s', u) == Worth(s, u) && s'.books.wallets[u].reserved == s.books.wallets[u].reserved
  {
    SumAppend(OpenStakeOf(u), s.bets, NewBet(s, user, leg, stake));
  }

  lemma VoidWorth(s: State, id: nat, reason: string, s': State, u: nat)
    requires Void(s, id, reason) == Some(s') && u < |s.books.wallets|
    ensures |s'.books.wallets| == |s.books.wallets|
    ensures Worth(s', u) == Worth(s, u) && s'.books.wallets[u].reserved == s.books.wallets[u].reserved
  {
    SumUpdate(OpenStakeOf(u), s.bets, id, s.bets[id].(status := Voided));
  }

  lemma CashoutWorth(s: State, id: nat, s': State, opening: seq<int>, u: nat)
    requires Inv(s, opening) && CashOut(s, id) == Some(s') && u < |s.books.wallets|
    ensures |s'.books.wallets| == |s.books.wallets|
    ensures Worth(s', u) == Worth(s, u) - ForgoneAt(s, CashOutBet(id), u)
    ensures s'.books.wallets[u].reserved == s.books.wallets[u].reserved
  {
    CashoutEffect(s, id, s', opening);
    CashoutGoesThrough(s, id, opening);
    SumUpdate(OpenStakeOf(u), s.bets, id, s.bets[id].(status := Voided));
  }

  /** While in play only cashouts change what a user is worth, and never for the better. */
  lemma StepWorth(s: State, step: Step, opening: seq<int>, u: nat)
    requires Inv(s, opening) && InPlay(Next(s, step)) && u < |s.books.wallets|
    ensures InPlay(s) && |Next(s, step).books.wallets| == |s.books.wallets|
    ensures Worth(Next(s, step), u) == Worth(s, u) - ForgoneAt(s, step, u)
    ensures Next(s, step).books.wallets[u].reserved == s.books.wallets[u].reserved
    ensures ForgoneAt(s, step, u) >= 0
  {
    var r := Attempt(s, step);
    if r.Some? {
      match step
      case PlaceBet(user, leg, stake, pastClose) => PlaceWorth(s, user, leg, stake, pastClose, r.value, u);
      case VoidBet(id, reason) => VoidWorth(s, id, reason, r.value, u);
      case CashOutBet(id) =>
        CashoutWorth(s, id, r.value, opening, u);
        assert BetSound(s, s.bets[id]);
        CashoutAmounts(s, s.bets[id]);
      case CloseMarket =>
      case SettleMarket(outcome) => SettledForGood(s, outcome, opening); assert false;
      case AbortMarket(_) => assert false;
    } else if step.CashOutBet? {
      CashoutGoesThrough(s, step.bet, opening);
    }
  }

  lemma SettledForGood(s: State, outcome: string, opening: seq<int>)
    requires Inv(s, opening) && Settle(s, outcome).Some?
    ensures Settle(s, outcome).value.status.Settled?
  {
    var leg: nat :| leg < |s.legs| && s.legs[leg].name == outcome;
    ForecastIsRealised(s, leg, opening);
  }

  /** Over any run in play a user's wallet and open stakes add up to the starting wallet less what
      cashouts have cost them. */
  lemma {:induction false} OnlyCashoutsCost(s: State, steps: seq<Step>, user: nat)
    requires Fresh(s) && InPlay(Run(s, steps)) && user < |s.books.wallets|
    ensures |Run(s, steps).books.wallets| == |s.books.wallets|
    ensures Worth(Run(s, steps), user) == s.books.wallets[user].available - Forgone(s, steps, user)
    ensures Run(s, steps).books.wallets[user].reserved == s.books.wallets[user].reserved
    ensures Forgone(s, steps, user) >= 0
  {
    RunKeeps(s, steps);
    if steps != [] {
      RunKeeps(s, steps[..|steps| - 1]);
      StepWorth(Run(s, steps[..|steps| - 1]), steps[|steps| - 1], OpeningOf(s.books.wallets), user);
      OnlyCashoutsCost(s, steps[..|steps| - 1], user);
    }
  }

  /** A wallet table with some of the available money gone. */
  ghost predicate Reduced(before: seq<Wallet>, after: seq<Wallet>, lost: nat -> int) {
    && |after| == |before|
    && forall u: nat | u < |before| :: after[u] == before[u].(available := before[u].available - lost(u))
  }

  lemma UnreducedIff(before: seq<Wallet>, after: seq<Wallet>, lost: nat -> int)
    requires Reduced(before, after, lost)
    ensures after == before <==> forall u: nat | u < |before| :: lost(u) == 0
  {
    if after == before {
      forall u: nat | u < |before| ensures lost(u) == 0 {
        assert after[u] == before[u];
      }
    }
  }

  function ForgoneBy(s: State, steps: seq<Step>): (f: nat -> int)
    ensures forall u: nat :: f(u) == Forgone(s, steps, u)
  {
    (u: nat) => Forgone(s, steps, u)
  }

  /** Cancelling a market in play gives everybody back the wallet they started with, less what cashouts
      have cost them; so exactly the starting wallets if and only if no cashout has cost anything. */
  lemma CancelRestoresEverybody(s: State, steps: seq<Step>, reason: string)
    requires Fresh(s) && InPlay(Run(s, steps)) && |reason| >= 10
    ensures var r := CancelMarket(Run(s, steps), reason);
      && r.Some? && Reduced(s.books.wallets, r.value.books.wallets, ForgoneBy(s, steps))
      && (r.value.books.wallets == s.books.wallets <==> NothingForgone(s, steps))
  {
    RunKeeps(s, steps);
    CancelKeeps(Run(s, steps), reason, OpeningOf(s.books.wallets));
    var f, w := ForgoneBy(s, steps), CancelMarket(Run(s, steps), reason).value.books.wallets;
    forall u: nat | u < |s.books.wallets|
      ensures w[u] == s.books.wallets[u].(available := s.books.wallets[u].available - f(u))
    {
      OnlyCashoutsCost(s, steps, u);
    }
    UnreducedIff(s.books.wallets, w, f);
    assert NothingForgone(s, steps) <==> forall u: nat | u < |s.books.wallets| :: f(u) == 0;
  }

  ghost predicate NothingForgone(s: State, steps: seq<Step>) {
    forall u: nat | u < |s.books.wallets| :: Forgone(s, steps, u) == 0
  }

  /** Replay: in every reachable state a wallet is the opening wallet plus the signed rows; a replay by
      the direction column is short by exactly the user's cashout fees. */
  lemma LedgerReplays(s: State, steps: seq<Step>, user: nat)
    requires Fresh(s) && user < |s.books.wallets|
    ensures var now := Run(s, steps);
      && user < |now.books.wallets|
      && now.books.wallets[user].Total() == s.books.wallets[user].Total() + Sum(Flow(user), now.books.ledger)
      && now.books.wallets[user].Total() == s.books.wallets[user].Total() + Sum(NaiveFlow(user), now.books.ledger)
                                            + Sum(CashoutFeesOf(user), now.books.ledger)
  {
    RunKeeps(s, steps);
    DirectionColumnIsOff(Run(s, steps).books.ledger, user);
    SumZero(FillCreditsOf(user), Run(s, steps).books.ledger);
    assert Drift(Run(s, steps).books, OpeningOf(s.books.wallets), user) == 0;
  }

  /** Once settled or cancelled no bet is open, and no later call pays, refunds or voids again. */
  lemma EndedIsFinal(s: State, steps: seq<Step>, step: Step)
    requires Fresh(s) && !InPlay(Run(s, steps))
    ensures NoneOpen(Run(s, steps).bets, |Run(s, steps).bets|)
    ensures Next(Run(s, steps), step) == Run(s, steps)
  {
    RunKeeps(s, steps);
  }
}
