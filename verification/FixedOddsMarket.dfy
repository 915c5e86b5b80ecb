/** The fixed-odds services as they update the tables; each service carries out its transition, and
    the invariant of all reachable states holds between calls. */
module FixedOddsMarkets {
  import opened Sums
  import opened Ledgers
  import opened FixedOdds
  import opened Accounting

  class FixedOddsMarket {
    const feeBps: int
    const cap: int
    const legs: seq<Leg>
    const accounts: Accounts
    var status: MarketStatus
    var bets: seq<Bet>

    /** What each user owned when the market opened. */
    ghost const opening: seq<int>

    constructor (feeBps: int, cap: int, legs: seq<Leg>, accounts: Accounts)
      requires feeBps >= 0 && cap > 0 && DistinctNames(legs) && OddsInRange(legs)
      requires accounts.ledger == [] && WalletsSound(accounts.Contents())
      ensures Valid() && opening == OpeningOf(accounts.wallets)
      ensures View() == State(MarketStatus.Open, feeBps, cap, legs, [], accounts.Contents())
      ensures this.accounts == accounts
    {
      this.feeBps, this.cap, this.legs, this.accounts := feeBps, cap, legs, accounts;
      this.status := MarketStatus.Open;
      this.bets := [];
      this.opening := OpeningOf(accounts.wallets);
      new;
      RunKeeps(View(), []);
    }

    ghost function View(): State
      reads this, accounts
    {
      State(status, feeBps, cap, legs, bets, accounts.Contents())
    }

    /** What every reachable state of the market satisfies. */
    ghost predicate Valid()
      reads this, accounts
    {
      Inv(View(), opening)
    }

    method PlaceBet(user: nat, leg: nat, stake: int, pastClose: bool) returns (ok: bool)
      requires Valid()
      modifies this`bets, accounts
      ensures Valid() && View() == Next(old(View()), Step.PlaceBet(user, leg, stake, pastClose))
      ensures ok <==> old(Acceptable(View(), user, leg, stake, pastClose))
      ensures ok ==> |bets| == |old(bets)| + 1 && bets[..|old(bets)|] == old(bets)
      ensures ok ==> var b := bets[|old(bets)|];
                     b.user == user && b.leg == leg && b.stake == stake && leg < |legs| && b.odds == legs[leg].odds
      ensures ok ==> BetAdded(old(View()), user, leg, stake, View()) && WorstCase(bets, |legs|) <= cap
      ensures !ok ==> View() == old(View())
    {
      PlacementGoesThrough(View(), user, leg, stake, pastClose);
      ok := TryPlace(user, leg, stake, pastClose);
      NextKeeps(old(View()), Step.PlaceBet(user, leg, stake, pastClose), opening);
      if ok {
        PlaceKeeps(old(View()), user, leg, stake, pastClose, View(), opening);
      }
    }

    method TryPlace(user: nat, leg: nat, stake: int, pastClose: bool) returns (ok: bool)
      modifies this`bets, accounts
      ensures ok == Place(old(View()), user, leg, stake, pastClose).Some?
      ensures View() == Next(old(View()), Step.PlaceBet(user, leg, stake, pastClose))
    {
      if !status.Open? || pastClose || leg >= |legs| || !legs[leg].active || stake <= 0 {
        return false;
      }
      var fee := stake * feeBps / BPS;
      var net := stake - fee;
      var payout := stake * legs[leg].odds / BPS;
      if net <= 0 || user >= |accounts.wallets| || accounts.wallets[user].available < stake {
        return false;
      }
      var bet := Bet(user, leg, stake, fee, net, legs[leg].odds, payout, BetStatus.Open);
      if WorstCase(bets + [bet], |legs|) > cap {
        return false;
      }
      var oldWallets, oldLedger := accounts.wallets, accounts.ledger;
      ok := accounts.UpdateAndCreate(-stake, Entry(user, BetStake, Debit, stake));
      if ok {
        bets := bets + [bet];
      } else {
        accounts.Restore(oldWallets, oldLedger);
      }
    }

    method VoidBet(id: nat, reason: string) returns (ok: bool)
      requires Valid()
      modifies this`bets, accounts
      ensures Valid() && View() == Next(old(View()), Step.VoidBet(id, reason))
      ensures ok <==> |reason| > 0 && id < |old(bets)| && old(bets)[id].status.Open?
      ensures ok ==> StakeReturned(old(View()), id, View())
      ensures ok ==> id < |old(bets)| && WorstCase(bets, |legs|) <= WorstCase(old(bets), |legs|) + old(bets)[id].net
      ensures !ok ==> View() == old(View())
    {
      VoidGoesThrough(View(), id, reason, opening);
      ok := TryVoid(id, reason);
      NextKeeps(old(View()), Step.VoidBet(id, reason), opening);
      if ok {
        VoidDrift(old(View()), id);
        VoidKeeps(old(View()), id, reason, View(), opening);
      }
    }

    method TryVoid(id: nat, reason: string) returns (ok: bool)
      modifies this`bets, accounts
      ensures ok == Void(old(View()), id, reason).Some?
      ensures View() == Next(old(View()), Step.VoidBet(id, reason))
    {
      if |reason| == 0 || id >= |bets| || !bets[id].status.Open? {
        return false;
      }
      var oldWallets, oldLedger := accounts.wallets, accounts.ledger;
      ok := accounts.UpdateAndCreate(bets[id].stake, Entry(bets[id].user, BetVoidRefund, Credit, bets[id].stake));
      if ok {
        bets := bets[id := bets[id].(status := Voided)];
      } else {
        accounts.Restore(oldWallets, oldLedger);
      }
    }

    /** The owner takes what the bet is worth now, less the fee, and the bet is voided. */
    method CashOutBet(id: nat) returns (ok: bool, net: int)
      requires Valid()
      modifies this`bets, accounts
      ensures Valid() && View() == Next(old(View()), Step.CashOutBet(id))
      ensures ok <==> old(Cashable(View(), id))
      ensures ok ==> 0 < net <= old(bets)[id].payout <= old(bets)[id].stake
                     && NetOfFee(net, old(bets)[id].payout, feeBps)
      ensures ok ==> bets == old(bets)[id := old(bets)[id].(status := Voided)]
                     && accounts.wallets == Credited(old(accounts.wallets), old(bets)[id].user, net)
                     && accounts.ledger == CashoutRows(old(accounts.ledger), old(bets)[id], net)
      ensures !ok ==> View() == old(View())
    {
      CashoutGoesThrough(View(), id, opening);
      ok, net := TryCashOut(id);
      NextKeeps(old(View()), Step.CashOutBet(id), opening);
      if ok {
        CashoutEffect(old(View()), id, View(), opening);
        CashoutAmounts(old(View()), old(bets)[id]);
      }
    }

    method TryCashOut(id: nat) returns (ok: bool, net: int)
      modifies this`bets, accounts
      ensures ok == CashOut(old(View()), id).Some?
      ensures ok ==> net == CashoutNet(old(View()), old(bets)[id])
      ensures View() == Next(old(View()), Step.CashOutBet(id))
    {
      if id >= |bets| || !bets[id].status.Open? || !status.Open? || bets[id].leg >= |legs| {
        return false, 0;
      }
      var bet := bets[id];
      var gross := bet.stake * legs[bet.leg].odds / BPS;
      var fee := CeilDiv(gross * feeBps, BPS);
      net := gross - fee;
      var oldWallets, oldLedger := accounts.wallets, accounts.ledger;
      ok := accounts.UpdateAndCreate(net, Entry(bet.user, BetCashoutPayout, Credit, net));
      if ok && fee > 0 {
        ok := accounts.Create(Entry(bet.user, BetCashoutFee, Debit, fee));
      }
      if ok {
        bets := bets[id := bet.(status := Voided)];
      } else {
        accounts.Restore(oldWallets, oldLedger);
      }
    }

    method Settle(outcome: string) returns (ok: bool)
      requires Valid()
      modifies this, accounts
      ensures Valid() && View() == Next(old(View()), SettleMarket(outcome))
      ensures ok <==> old(InPlay(View())) && Nameable(old(View()), outcome)
      ensures ok ==> status.Settled? && NoneOpen(bets, |bets|)
      ensures ok ==> forall l: nat :: l < |legs| && legs[l].name == outcome ==> Realised(old(View()), View(), l)
      ensures !ok ==> View() == old(View())
    {
      ok := TrySettle(outcome);
      NextKeeps(old(View()), SettleMarket(outcome), opening);
      SettleRealises(old(View()), outcome, opening);
    }

    method TrySettle(outcome: string) returns (ok: bool)
      modifies this, accounts
      ensures ok == FixedOdds.Settle(old(View()), outcome).Some?
      ensures View() == Next(old(View()), SettleMarket(outcome))
    {
      if (!status.Open? && !status.Closed?) || !exists l :: 0 <= l < |legs| && legs[l].name == outcome {
        return false;
      }
      var oldStatus, oldBets, oldWallets, oldLedger := status, bets, accounts.wallets, accounts.ledger;
      status := MarketStatus.Settled;
      ok := SettleBets(outcome);
      if !ok {
        status, bets := oldStatus, oldBets;
        accounts.Restore(oldWallets, oldLedger);
      }
    }

    method SettleBets(outcome: string) returns (ok: bool)
      modifies this`bets, accounts
      ensures ok == SettleFrom(old(View()), outcome, 0).Some?
      ensures ok ==> View() == SettleFrom(old(View()), outcome, 0).value
    {
      ok := true;
      var k := 0;
      while k < |bets|
        invariant 0 <= k <= |bets| && ok
        invariant SettleFrom(View(), outcome, k) == SettleFrom(old(View()), outcome, 0)
        decreases |bets| - k
      {
        if bets[k].status.Open? {
          var bet := bets[k];
          if bet.leg < |legs| && legs[bet.leg].name == outcome {
            ok := accounts.UpdateAndCreate(bet.payout, Entry(bet.user, BetWinPayout, Credit, bet.payout));
            if !ok {
              return;
            }
            bets := bets[k := bet.(status := SettledWin)];
          } else {
            bets := bets[k := bet.(status := SettledLoss)];
          }
        }
        k := k + 1;
      }
    }

    method CancelMarket(reason: string) returns (ok: bool, refunded: int)
      requires Valid()
      modifies this, accounts
      ensures Valid() && View() == Next(old(View()), AbortMarket(reason))
      ensures ok <==> |reason| >= 10 && old(InPlay(View()))
      ensures ok ==> status.Cancelled? && NoneOpen(bets, |bets|) && Refunded(old(View()))
      ensures ok ==> |bets| == |old(bets)| && forall k :: 0 <= k < |bets| ==> bets[k] == VoidedIfOpen(old(bets)[k])
      ensures ok ==> refunded == Sum(OpenStakes(), old(bets))
      ensures ok ==> refunded == Sum(Refunds(), accounts.ledger) - Sum(Refunds(), old(accounts.ledger))
      ensures !ok ==> View() == old(View())
    {
      if |reason| < MIN_REASON || (!status.Open? && !status.Closed?) {
        return false, 0;
      }
      var oldBets, oldWallets, oldLedger := bets, accounts.wallets, accounts.ledger;
      ok, refunded := RefundBets();
      if ok {
        status := MarketStatus.Cancelled;
      } else {
        bets := oldBets;
        accounts.Restore(oldWallets, oldLedger);
      }
      CancelKeeps(old(View()), reason, opening);
    }

    /** Every user has the stakes of their open bets back. */
    ghost predicate Refunded(before: State)
      reads this, accounts
    {
      && |accounts.wallets| == |before.books.wallets|
      && forall u :: 0 <= u < |accounts.wallets| ==>
        accounts.wallets[u] == before.books.wallets[u].(
          available := before.books.wallets[u].available + Sum(OpenStakeOf(u), before.bets))
    }

    method RefundBets() returns (ok: bool, refunded: int)
      modifies this`bets, accounts
      ensures ok == RefundFrom(old(View()), 0).Some?
      ensures ok ==> View() == RefundFrom(old(View()), 0).value
      ensures ok ==> refunded == Sum(Refunds(), accounts.ledger) - Sum(Refunds(), old(accounts.ledger))
    {
      ok, refunded := true, 0;
      var k := 0;
      while k < |bets|
        invariant 0 <= k <= |bets| && ok
        invariant RefundFrom(View(), k) == RefundFrom(old(View()), 0)
        invariant refunded == Sum(Refunds(), accounts.ledger) - Sum(Refunds(), old(accounts.ledger))
        decreases |bets| - k
      {
        if bets[k].status.Open? {
          var bet := bets[k];
          if bet.stake > 0 {
            SumAppend(Refunds(), accounts.ledger, Entry(bet.user, MarketCancelRefund, Credit, bet.stake));
            ok := accounts.UpdateAndCreate(bet.stake, Entry(bet.user, MarketCancelRefund, Credit, bet.stake));
            if !ok {
              return;
            }
            refunded := refunded + bet.stake;
          }
          bets := bets[k := bet.(status := Voided)];
        }
        k := k + 1;
      }
    }
  }
}
