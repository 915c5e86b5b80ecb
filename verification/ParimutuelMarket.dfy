/** The pooled-stakes services as they update the tables; each service carries out its transition,
    and the invariant of all reachable states holds between calls. */
module ParimutuelMarkets {
  import opened Sums
  import opened Ledgers
  import opened Parimutuel
  import opened Accounting

  class ParimutuelMarket {
    const takeoutBps: int
    const accounts: Accounts
    var status: MarketStatus
    var poolYes: int
    var poolNo: int

    /** What each user owned when the market opened. */
    ghost const opening: seq<int>

    constructor (takeoutBps: int, accounts: Accounts)
      requires 0 <= takeoutBps <= 10_000 && accounts.ledger == [] && WalletsSound(accounts.Contents())
      ensures View() == State(MarketStatus.Open, takeoutBps, 0, 0, accounts.Contents()) && this.accounts == accounts
      ensures Valid() && opening == OpeningOf(accounts.wallets)
    {
      this.takeoutBps := takeoutBps;
      this.accounts := accounts;
      this.status := MarketStatus.Open;
      this.poolYes, this.poolNo := 0, 0;
      this.opening := OpeningOf(accounts.wallets);
      new;
      AlwaysKept(View(), []);
    }

    ghost function View(): State
      reads this, accounts
    {
      State(status, takeoutBps, poolYes, poolNo, accounts.Contents())
    }

    /** What every reachable state of the market satisfies. */
    ghost predicate Valid()
      reads this, accounts
    {
      Kept(View(), opening)
    }

    method PlaceStake(user: nat, side: Side, stake: int, pastClose: bool) returns (ok: bool)
      requires Valid()
      modifies this, accounts
      ensures Valid() && View() == Next(old(View()), Step.PlaceStake(user, side, stake, pastClose))
      ensures ok <==> old(status.Open?) && !pastClose && user < |old(accounts.wallets)|
                      && 0 < stake <= old(accounts.wallets)[user].available
      ensures ok ==> poolYes == old(poolYes) + (if side == YES then stake else 0)
                     && poolNo == old(poolNo) + (if side == NO then stake else 0)
      ensures ok ==> var w := old(accounts.wallets);
                     accounts.wallets == w[user := Wallet(w[user].available - stake, w[user].reserved)]
      ensures ok ==> accounts.ledger == old(accounts.ledger) + [Entry(user, ParimutuelStake(side), Debit, stake)]
      ensures !ok ==> View() == old(View())
    {
      if !status.Open? || pastClose || user >= |accounts.wallets| || accounts.wallets[user].available < stake {
        return false;
      }
      var oldWallets, oldLedger := accounts.wallets, accounts.ledger;
      ok := accounts.UpdateAndCreate(-stake, Entry(user, ParimutuelStake(side), Debit, stake));
      if !ok {
        accounts.Restore(oldWallets, oldLedger);
        return;
      }
      if side == YES {
        poolYes := poolYes + stake;
      } else {
        poolNo := poolNo + stake;
      }
      StakeKeeps(old(View()), user, side, stake, pastClose, View(), opening);
    }

    method Settle(outcome: Side) returns (ok: bool)
      requires Valid()
      modifies this, accounts
      ensures Valid() && View() == Next(old(View()), SettleMarket(outcome))
      ensures ok <==> old(InPlay(View()))
      ensures ok ==> status.Settled?
      ensures ok ==> if old(View()).Pool(outcome) == 0 then Returned(old(View()), ParimutuelRefund, View())
                     else Paid(old(View()), outcome)
      ensures !ok ==> View() == old(View())
    {
      ok := TrySettle(outcome);
      NextKeeps(old(View()), SettleMarket(outcome), opening);
      if old(InPlay(View())) {
        StakesReturned(old(View()), outcome, "", opening);
        if old(View()).Pool(outcome) != 0 {
          assert old(View()).Pool(outcome) >= 0;
          var settled := SettlementPays(old(View()), outcome, opening);
        }
      }
    }

    method TrySettle(outcome: Side) returns (ok: bool)
      modifies this, accounts
      ensures ok == Parimutuel.Settle(old(View()), outcome).Some?
      ensures View() == Next(old(View()), SettleMarket(outcome))
    {
      if !status.Open? && !status.Closed? {
        return false;
      }
      var oldWallets, oldLedger := accounts.wallets, accounts.ledger;
      var totalPool := poolYes + poolNo;
      var winningPool := if outcome == YES then poolYes else poolNo;
      if winningPool == 0 {
        var returned;
        ok, returned := RefundAll(ParimutuelRefund);
      } else {
        var takeout := CeilDiv(totalPool * takeoutBps, BPS);
        ok := PayWinners(outcome, totalPool - takeout, winningPool);
      }
      if ok {
        status := MarketStatus.Settled;
      } else {
        accounts.Restore(oldWallets, oldLedger);
      }
    }

    /** The takeout is kept and each user has the floored shares of their winning entries. */
    ghost predicate Paid(before: State, outcome: Side)
      requires before.Pool(outcome) != 0
      reads this, accounts
    {
      var shared := before.TotalPool() - Takeout(before);
      && |accounts.wallets| == |before.books.wallets|
      && forall u :: 0 <= u < |accounts.wallets| ==> accounts.wallets[u] == before.books.wallets[u].(
        available := before.books.wallets[u].available
          + Sum(SharesBy(u, outcome, shared, before.Pool(outcome)), before.books.ledger))
    }

    /** Pro-rata payouts over the stake rows present when the loop starts. */
    method PayWinners(outcome: Side, afterTakeout: int, winningPool: int) returns (ok: bool)
      requires winningPool != 0
      modifies accounts
      ensures var b := old(accounts.Contents());
              var r := PayFrom(b, b.ledger, outcome, afterTakeout, winningPool, 0);
              ok == r.Some? && (ok ==> accounts.Contents() == r.value)
    {
      var rows := accounts.ledger;
      ok := true;
      var k := 0;
      while k < |rows|
        invariant 0 <= k <= |rows| && ok
        invariant PayFrom(accounts.Contents(), rows, outcome, afterTakeout, winningPool, k)
               == PayFrom(old(accounts.Contents()), rows, outcome, afterTakeout, winningPool, 0)
      {
        if StakeOn(rows[k], outcome) {
          var payout := rows[k].amount * afterTakeout / winningPool;
          if payout != 0 {
            ok := accounts.UpdateAndCreate(payout, Entry(rows[k].user, SettlementWin, Credit, payout));
            if !ok {
              return;
            }
          }
        }
        k := k + 1;
      }
    }

    method RefundAll(kind: Kind) returns (ok: bool, refunded: int)
      modifies accounts
      ensures var b := old(accounts.Contents());
              var r := RefundFrom(b, b.ledger, kind, 0);
              ok == r.Some? && (ok ==> accounts.Contents() == r.value)
      ensures ok ==> refunded == Sum(AllStakes(), old(accounts.ledger))
    {
      var rows := accounts.ledger;
      ok, refunded := true, 0;
      var k := 0;
      while k < |rows|
        invariant 0 <= k <= |rows| && ok && refunded == Sum(AllStakes(), rows[..k])
        invariant RefundFrom(accounts.Contents(), rows, kind, k) == RefundFrom(old(accounts.Contents()), rows, kind, 0)
      {
        if rows[k].kind.ParimutuelStake? {
          ok := accounts.UpdateAndCreate(rows[k].amount, Entry(rows[k].user, kind, Credit, rows[k].amount));
          if !ok {
            return;
          }
          refunded := refunded + rows[k].amount;
        }
        SumPrefix(AllStakes(), rows, k);
        k := k + 1;
      }
      assert rows[..k] == rows;
    }

    method CancelMarket(reason: string) returns (ok: bool, refunded: int)
      requires Valid()
      modifies this, accounts
      ensures Valid() && View() == Next(old(View()), AbortMarket(reason))
      ensures ok <==> |reason| >= 10 && old(InPlay(View()))
      ensures ok ==> status.Cancelled? && poolYes == poolNo == 0 && Returned(old(View()), MarketCancelRefund, View())
      ensures ok ==> refunded == old(poolYes + poolNo)
      ensures ok ==> refunded == Sum(Refunds(), accounts.ledger) - Sum(Refunds(), old(accounts.ledger))
      ensures !ok ==> View() == old(View()) && refunded == 0
    {
      if |reason| < MIN_REASON || (!status.Open? && !status.Closed?) {
        return false, 0;
      }
      var oldWallets, oldLedger := accounts.wallets, accounts.ledger;
      ok, refunded := RefundAll(MarketCancelRefund);
      if ok {
        poolYes, poolNo := 0, 0;
        status := MarketStatus.Cancelled;
      } else {
        accounts.Restore(oldWallets, oldLedger);
      }
      PoolIsStaked(old(View()), opening);
      StakesReturned(old(View()), YES, reason, opening);
      NextKeeps(old(View()), AbortMarket(reason), opening);
    }
  }
}
