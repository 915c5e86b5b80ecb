/** The LMSR services as they update the tables; each service carries out its transition, and the
    invariant of all reachable states holds between calls. */
module LmsrMarkets {
  import opened Sums
  import opened Ledgers
  import opened LmsrPricing
  import opened Lmsr
  import opened Accounting

  /** One user's entry in the replayed positions. */
  datatype Holding = Holding(yes: int, no: int) {
    function On(side: Side): int {
      if side == YES then yes else no
    }

    function Add(side: Side, quantity: int): Holding {
      if side == YES then Holding(yes + quantity, no) else Holding(yes, no + quantity)
    }
  }

  function HoldingOf(m: map<nat, Holding>, user: nat): Holding {
    if user in m then m[user] else Holding(0, 0)
  }

  class LmsrMarket {
    const lse: LogSumExp
    const subsidy: int
    const feeBps: nat
    const b: real
    const accounts: Accounts
    var status: MarketStatus
    var qYes: int
    var qNo: int
    var realizedLoss: int
    var positions: seq<Position>
    var trades: seq<Trade>
    /** What each user owned when the market opened. */
    ghost const opening: seq<int>

    /** Opening the market computes its parameter from the subsidy. */
    constructor (lse: LogSumExp, subsidy: int, feeBps: nat, accounts: Accounts)
      requires IsLogSumExp(lse) && subsidy > 0
      requires accounts.ledger == [] && WalletsSound(accounts.Contents())
      ensures Fresh(View(), lse) && this.accounts == accounts && this.lse == lse
      ensures Valid() && opening == OpeningOf(accounts.wallets)
    {
      BIsPositive(lse, subsidy);
      this.lse := lse;
      this.subsidy := subsidy;
      this.feeBps := feeBps;
      this.b := BFromSubsidy(lse, subsidy);
      this.accounts := accounts;
      this.status := MarketStatus.Open;
      this.qYes, this.qNo, this.realizedLoss := 0, 0, 0;
      this.positions, this.trades := [], [];
      this.opening := OpeningOf(accounts.wallets);
      new;
      AlwaysKept(View(), lse, []);
    }

    ghost function View(): State
      reads this, accounts
    {
      State(status, subsidy, feeBps, b, qYes, qNo, realizedLoss, positions, trades, accounts.Contents())
    }

    /** What every reachable state of the market satisfies. */
    ghost predicate Valid()
      reads this, accounts
    {
      b != 0.0 && Kept(View(), lse, opening)
    }

    method PlaceTrade(user: nat, side: Side, quantity: int, pastClose: bool) returns (ok: bool)
      requires Valid()
      modifies this, accounts
      ensures Valid() && View() == Next(old(View()), lse, Step.PlaceTrade(user, side, quantity, pastClose))
      ensures ok <==> old(status.Open? && !pastClose && quantity > 0 && Affordable(View(), lse, user, side, quantity))
      ensures ok ==> Traded(old(View()), lse, user, side, quantity, View())
      ensures !ok ==> View() == old(View())
    {
      ok := TryTrade(user, side, quantity, pastClose);
      if old(InPlay(View())) {
        BuyGoesThrough(old(View()), lse, user, side, quantity, pastClose, opening);
        if ok {
          BuyKeeps(old(View()), lse, user, side, quantity, pastClose, View(), opening);
          BuyTrades(old(View()), lse, user, side, quantity, pastClose, View(), opening);
        }
      }
    }

    method TryTrade(user: nat, side: Side, quantity: int, pastClose: bool) returns (ok: bool)
      requires b != 0.0
      modifies this, accounts
      ensures ok == Buy(old(View()), lse, user, side, quantity, pastClose).Some?
      ensures View() == Next(old(View()), lse, Step.PlaceTrade(user, side, quantity, pastClose))
    {
      if !status.Open? || pastClose || quantity <= 0 || user >= |accounts.wallets| {
        return false;
      }
      var raw := Quote(side, quantity);
      var fee := CeilDiv(feeBps * Abs(raw), BPS);
      var total := raw + fee;
      var outflow := if total < 0 then -total else 0;
      if outflow > 0 && realizedLoss + outflow > subsidy {
        return false;
      }
      if total > 0 && accounts.wallets[user].available < total {
        return false;
      }
      var oldWallets, oldLedger := accounts.wallets, accounts.ledger;
      ok := Charge(user, raw, fee);
      if !ok {
        accounts.Restore(oldWallets, oldLedger);
        return;
      }
      Record(user, side, quantity, raw, fee, outflow);
    }

    method Quote(side: Side, quantity: int) returns (raw: int)
      requires b != 0.0
      ensures raw == RawCost(View(), lse, side, quantity)
    {
      var deltaYes := if side == YES then quantity else 0;
      var deltaNo := if side == NO then quantity else 0;
      raw := Round(TradeCost(lse, b, qYes, qNo, deltaYes, deltaNo) * 100.0);
    }

    /** The market's columns, the position row and the audit event. */
    method Record(user: nat, side: Side, quantity: int, raw: int, fee: int, outflow: int)
      modifies this
      ensures View() == old(View()).(
        books := accounts.Contents(),
        qYes := old(qYes) + (if side == YES then quantity else 0),
        qNo := old(qNo) + (if side == NO then quantity else 0),
        realizedLoss := old(realizedLoss) + outflow,
        positions := Upsert(old(positions), user, side, quantity),
        trades := old(trades) + [Trade(user, side, quantity, raw, fee)])
    {
      if side == YES {
        qYes := qYes + quantity;
      } else {
        qNo := qNo + quantity;
      }
      realizedLoss := realizedLoss + outflow;
      UpsertPosition(user, side, quantity);
      trades := trades + [Trade(user, side, quantity, raw, fee)];
    }

    method Charge(user: nat, raw: int, fee: int) returns (ok: bool)
      modifies accounts
      ensures ok == Pay(old(accounts.Contents()), user, raw, fee).Some?
      ensures ok ==> accounts.Contents() == Pay(old(accounts.Contents()), user, raw, fee).value
    {
      ok := accounts.Update(user, -(raw + fee), 0);
      if ok {
        ok := accounts.Create(Entry(user, LmsrTradeStake, if raw >= 0 then Debit else Credit, Abs(raw)));
      }
      if ok && fee > 0 {
        ok := accounts.Create(Entry(user, LmsrFee, Debit, fee));
      }
    }

    /** Find or create: the trader's contracts on that side rise, and nobody else's. */
    method UpsertPosition(user: nat, side: Side, quantity: int)
      modifies this`positions
      ensures positions == Upsert(old(positions), user, side, quantity)
      ensures old(OneRowEach(positions)) ==> OneRowEach(positions)
      ensures forall u: nat, sd ::
        Sum(ContractsOf(u, sd), positions)
             == Sum(ContractsOf(u, sd), old(positions)) + if u == user && sd == side then quantity else 0
    {
      if OneRowEach(positions) {
        UpsertOneRow(positions, user, side, quantity);
      }
      forall u: nat, sd ensures Sum(ContractsOf(u, sd), Upsert(positions, user, side, quantity))
        == Sum(ContractsOf(u, sd), positions) + if u == user && sd == side then quantity else 0
      {
        UpsertAdds(positions, user, side, quantity, u, sd);
      }
      var i := FindRow(positions, user, side);
      if i < |positions| {
        positions := positions[i := positions[i].(contracts := positions[i].contracts + quantity)];
      } else {
        positions := positions + [Position(user, side, quantity)];
      }
    }

    method Settle(outcome: Side) returns (ok: bool)
      requires Valid()
      modifies this, accounts
      ensures Valid() && View() == Next(old(View()), lse, SettleMarket(outcome))
      ensures ok <==> old(InPlay(View()))
      ensures ok ==> status.Settled? && Paid(old(View()), outcome)
      ensures !ok ==> View() == old(View())
    {
      if !status.Open? && !status.Closed? {
        return false;
      }
      var oldStatus, oldWallets, oldLedger := status, accounts.wallets, accounts.ledger;
      status := MarketStatus.Settled;
      ok := PayOutPositions(outcome);
      if !ok {
        status := oldStatus;
        accounts.Restore(oldWallets, oldLedger);
      }
      NextKeeps(old(View()), lse, SettleMarket(outcome), opening);
      var settled := SettlementPays(old(View()), lse, outcome, opening);
    }

    /** Every holder has been paid 100 for each winning contract they bought. */
    ghost predicate Paid(before: State, outcome: Side)
      reads this, accounts
    {
      && |accounts.wallets| == |before.books.wallets|
      && (forall u :: 0 <= u < |accounts.wallets| ==> accounts.wallets[u] == before.books.wallets[u].(
            available := before.books.wallets[u].available + 100 * Sum(BoughtOf(u, outcome), before.trades)))
      && Sum(Winnings(), accounts.ledger) - Sum(Winnings(), before.books.ledger)
           == 100 * before.Quantity(outcome)
    }

    method PayOutPositions(outcome: Side) returns (ok: bool)
      modifies accounts
      ensures ok == PayFrom(old(accounts.Contents()), positions, outcome, 0).Some?
      ensures ok ==> accounts.Contents() == PayFrom(old(accounts.Contents()), positions, outcome, 0).value
    {
      ok := true;
      var k := 0;
      while k < |positions|
        invariant 0 <= k <= |positions| && ok
        invariant PayFrom(accounts.Contents(), positions, outcome, k)
             == PayFrom(old(accounts.Contents()), positions, outcome, 0)
      {
        var p := positions[k];
        if p.side == outcome && p.contracts > 0 {
          var payout := p.contracts * CONTRACT_MINOR;
          ok := accounts.UpdateAndCreate(payout, Entry(p.user, SettlementWin, Credit, payout));
          if !ok {
            return;
          }
        }
        k := k + 1;
      }
    }

    /** The reconciliation path: positions folded from the audit events alone. */
    method PositionsFromLedger() returns (acc: map<nat, Holding>)
      ensures forall u: nat, side :: HoldingOf(acc, u).On(side) == Sum(BoughtOf(u, side), trades)
    {
      acc := map[];
      var n := 0;
      while n < |trades|
        invariant 0 <= n <= |trades|
        invariant forall u: nat, side :: HoldingOf(acc, u).On(side) == Sum(BoughtOf(u, side), trades[..n])
      {
        var t := trades[n];
        ghost var before := acc;
        acc := acc[t.user := HoldingOf(acc, t.user).Add(t.side, t.quantity)];
        assert trades[..n + 1][..n] == trades[..n];
        forall u: nat, side ensures HoldingOf(acc, u).On(side) == Sum(BoughtOf(u, side), trades[..n + 1]) {
          assert HoldingOf(before, u).On(side) == Sum(BoughtOf(u, side), trades[..n]);
        }
        n := n + 1;
      }
      assert trades[..n] == trades;
    }

    method CancelMarket(reason: string) returns (ok: bool, refunded: int)
      requires Valid()
      modifies this, accounts
      ensures Valid() && View() == Next(old(View()), lse, AbortMarket(reason))
      ensures ok <==> |reason| >= 10 && old(InPlay(View()))
      ensures ok ==> status.Cancelled? && Refunded(old(View()))
      ensures ok ==> forall k :: 0 <= k < |positions| ==> positions[k].contracts == 0
      ensures ok ==> refunded == Sum(Refunds(), accounts.ledger) - Sum(Refunds(), old(accounts.ledger))
      ensures !ok ==> View() == old(View())
    {
      if |reason| < MIN_REASON || (!status.Open? && !status.Closed?) {
        return false, 0;
      }
      var oldWallets, oldLedger := accounts.wallets, accounts.ledger;
      ok, refunded := RefundCosts();
      if ok {
        positions := Emptied(positions);
        status := MarketStatus.Cancelled;
      } else {
        accounts.Restore(oldWallets, oldLedger);
      }
      NextKeeps(old(View()), lse, AbortMarket(reason), opening);
      var cancelled := CancelRefunds(old(View()), lse, reason, opening);
    }

    /** Every trader has got their costs back. */
    ghost predicate Refunded(before: State)
      reads this, accounts
    {
      && |accounts.wallets| == |before.books.wallets|
      && forall u :: 0 <= u < |accounts.wallets| ==> accounts.wallets[u] == before.books.wallets[u].(
        available := before.books.wallets[u].available + Sum(CostsOf(u), before.trades))
    }

    method RefundCosts() returns (ok: bool, refunded: int)
      modifies accounts
      ensures ok == RefundFrom(old(accounts.Contents()), TallyCosts(trades, |trades|), 0).Some?
      ensures ok ==> accounts.Contents() == RefundFrom(old(accounts.Contents()), TallyCosts(trades, |trades|), 0).value
      ensures ok ==> refunded == Sum(Refunds(), accounts.ledger) - Sum(Refunds(), old(accounts.ledger))
    {
      var t := Tally([], map[]);
      var n := 0;
      while n < |trades|
        invariant 0 <= n <= |trades|
        invariant t == TallyCosts(trades, n)
      {
        t := t.Add(trades[n].user, trades[n].cost);
        n := n + 1;
      }
      ok, refunded := true, 0;
      var k := 0;
      while k < |t.users|
        invariant 0 <= k <= |t.users| && ok
        invariant RefundFrom(accounts.Contents(), t, k) == RefundFrom(old(accounts.Contents()), t, 0)
        invariant refunded == Sum(Refunds(), accounts.ledger) - Sum(Refunds(), old(accounts.ledger))
      {
        var cost := t.At(t.users[k]);
        if cost > 0 {
          SumAppend(Refunds(), accounts.ledger, Entry(t.users[k], MarketCancelRefund, Credit, cost));
          ok := accounts.UpdateAndCreate(cost, Entry(t.users[k], MarketCancelRefund, Credit, cost));
          if !ok {
            return;
          }
          refunded := refunded + cost;
        }
        k := k + 1;
      }
    }
  }
}
