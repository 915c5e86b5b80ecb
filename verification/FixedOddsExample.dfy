/** Concrete runs of fixed-odds markets that end where one might not expect them to. */
module FixedOddsExample {
  import opened Sums
  import opened Ledgers
  import opened FixedOdds

  /** A market with legs YES and NO at the same odds and one user. */
  function Opened(feeBps: int, odds: int, available: int): State {
    State(MarketStatus.Open, feeBps, 100, [Leg("YES", odds, true), Leg("NO", odds, true)], [],
          Books([Wallet(available, 0)], []))
  }

  lemma OpenedIsFresh(feeBps: int, odds: int, available: int)
    requires feeBps >= 0 && 0 < odds <= 10_000 && available >= 0
    ensures Fresh(Opened(feeBps, odds, available))
  {
    assert "YES"[0] != "NO"[0];
  }

  lemma FirstBetFits(s: State, stake: int)
    requires Fresh(s) && |s.legs| > 0 && stake > 0 && Fee(stake, s.feeBps) < stake && Fee(stake, s.feeBps) <= s.cap
    ensures WorstCase(s.bets + [NewBet(s, 0, 0, stake)], |s.legs|) <= s.cap
  {
    var bet := NewBet(s, 0, 0, stake);
    NewBetSound(s, 0, 0, stake);
    PayoutWithinStake(bet);
    WithinFees([bet], |s.legs|);
    assert s.bets + [bet] == [bet] && [bet][..0] == [];
    assert Sum(OpenFees(), [bet]) == bet.fee;
  }

  /** The user's first bet goes through if its fee stays within the cap. */
  lemma FirstBet(s: State, stake: int) returns (s': State)
    requires Fresh(s) && |s.books.wallets| == 1 && stake <= s.books.wallets[0].available
    requires |s.legs| > 0 && s.legs[0].active && stake > 0
    requires Fee(stake, s.feeBps) < stake && Fee(stake, s.feeBps) <= s.cap
    ensures Place(s, 0, 0, stake, false) == Some(s') && s'.bets == [NewBet(s, 0, 0, stake)]
    ensures s' == s.(books := s'.books, bets := s'.bets) && s'.books.ledger == [Entry(0, BetStake, Debit, stake)]
  {
    FirstBetFits(s, stake);
    PlacementGoesThrough(s, 0, 0, stake, false);
    s' := Place(s, 0, 0, stake, false).value;
    assert s.bets + [NewBet(s, 0, 0, stake)] == [NewBet(s, 0, 0, stake)];
  }

  lemma RunOne(s: State, step: Step)
    ensures Run(s, [step]) == Next(s, step)
  {
    assert [step][..0] == [];
  }

  lemma RunTwo(s: State, first: Step, second: Step)
    ensures Run(s, [first, second]) == Next(Next(s, first), second)
  {
    assert [first, second][..1] == [first];
    RunOne(s, first);
  }

  /** A stake of one at odds of 5000 wins nothing: once its leg has won, the market cannot be settled. */
  lemma SmallBetBlocksSettlement() returns (s: State, steps: seq<Step>)
    ensures Fresh(s) && InPlay(Run(s, steps)) && Settle(Run(s, steps), "YES").None?
  {
    s := Opened(0, 5_000, 1);
    OpenedIsFresh(0, 5_000, 1);
    var placed := FirstBet(s, 1);
    steps := [PlaceBet(0, 0, 1, false)];
    RunOne(s, steps[0]);
    RunKeeps(s, steps);
    assert placed.legs[0].name == "YES" && placed.bets[0].payout == 0;
    ForecastIsRealised(placed, 0, OpeningOf(s.books.wallets));
  }

  /** At even odds and a fee of one per cent, a bet of 100 cashes out at 99. */
  lemma CashedOut(s: State, p: State) returns (c: State)
    requires s == Opened(100, 10_000, 100) && Place(s, 0, 0, 100, false) == Some(p) && p.bets == [NewBet(s, 0, 0, 100)]
    requires p == s.(books := p.books, bets := p.bets) && p.books.ledger == [Entry(0, BetStake, Debit, 100)]
    ensures CashOut(p, 0) == Some(c) && c.status.Open? && Cashable(p, 0) && ForgoneAt(p, CashOutBet(0), 0) == 1
    ensures c.books.ledger
         == p.books.ledger + [Entry(0, BetCashoutPayout, Credit, 99)] + [Entry(0, BetCashoutFee, Debit, 1)]
  {
    assert Payout(100, 10_000) == 100 && CashoutFee(100, 100) == 1;
    assert CashoutNet(p, p.bets[0]) == 99;
    c := CashOut(p, 0).value;
  }

  /** After a cashout, cancelling does not restore the wallets and the direction column is not the sign. */
  lemma CashoutsAreNotUndone(reason: string) returns (s: State, steps: seq<Step>)
    requires |reason| >= 10
    ensures Fresh(s) && InPlay(Run(s, steps)) && |s.books.wallets| == |Run(s, steps).books.wallets| == 1
    ensures var r := CancelMarket(Run(s, steps), reason); r.Some? && r.value.books.wallets != s.books.wallets
    ensures Run(s, steps).books.wallets[0].Total()
         != s.books.wallets[0].Total() + Sum(NaiveFlow(0), Run(s, steps).books.ledger)
  {
    s := Opened(100, 10_000, 100);
    OpenedIsFresh(100, 10_000, 100);
    var p := FirstBet(s, 100);
    var c := CashedOut(s, p);
    steps := [PlaceBet(0, 0, 100, false), CashOutBet(0)];
    RunTwo(s, steps[0], steps[1]);
    OneIsForgone(s, p, steps);
    CancelRestoresEverybody(s, steps, reason);
    LedgerReplays(s, steps, 0);
    OneFeeRow(p.books.ledger, c.books.ledger);
  }

  lemma OneIsForgone(s: State, p: State, steps: seq<Step>)
    requires steps == [PlaceBet(0, 0, 100, false), CashOutBet(0)] && |s.books.wallets| == 1
    requires Next(s, steps[0]) == p && ForgoneAt(p, CashOutBet(0), 0) == 1
    ensures !NothingForgone(s, steps)
  {
    var first := steps[..1];
    assert first == [steps[0]] && first[..0] == [];
    RunOne(s, steps[0]);
    assert Forgone(s, first, 0) == 0;
    assert Forgone(s, steps, 0) == 1;
  }

  lemma OneFeeRow(before: seq<Entry>, after: seq<Entry>)
    requires before == [Entry(0, BetStake, Debit, 100)]
    requires after == before + [Entry(0, BetCashoutPayout, Credit, 99)] + [Entry(0, BetCashoutFee, Debit, 1)]
    ensures Sum(CashoutFeesOf(0), after) == 1
  {
    var f := CashoutFeesOf(0);
    SumAppend(f, [], before[0]);
    assert [] + [before[0]] == before;
    SumAppend(f, before, Entry(0, BetCashoutPayout, Credit, 99));
    SumAppend(f, before + [Entry(0, BetCashoutPayout, Credit, 99)], Entry(0, BetCashoutFee, Debit, 1));
  }
}
