/** The order-book services in the form they are written in: tables updated step by step. Every
    service is tied to the transition it carries out, failing calls roll back, and the invariant of
    all reachable states holds between calls. */
module ClobMarkets {
  import opened Sums
  import opened Ledgers
  import opened Orders
  import opened Clob
  import opened Accounting
  import opened ClobPlacement
  import opened ClobPriority
  import opened ClobInvariant
  import opened ClobFunding
  import opened ClobClosing
  import opened ClobUndo
  import opened ClobRuns

  class ClobMarket {
    const feeBps: nat
    const accounts: Accounts
    var status: MarketStatus
    var orders: seq<Order>

    /** What each user owned when the market opened. */
    ghost const opening: seq<int>

    constructor (feeBps: nat, accounts: Accounts)
      requires accounts.ledger == [] && WalletsSound(accounts.Contents())
      ensures this.accounts == accounts && View() == State(MarketStatus.Open, feeBps, [], accounts.Contents())
      ensures Valid() && opening == OpeningOf(accounts.wallets)
    {
      this.feeBps := feeBps;
      this.accounts := accounts;
      this.status := MarketStatus.Open;
      this.orders := [];
      this.opening := OpeningOf(accounts.wallets);
      new;
      RunKeeps(View(), []);
    }

    ghost function View(): State
      reads this, accounts
    {
      State(status, feeBps, orders, accounts.Contents())
    }

    /** What every reachable state of the market satisfies. */
    ghost predicate Valid()
      reads this, accounts
    {
      Inv(View(), opening)
    }

    /** Other markets, or the faucet, at work on the same wallets. */
    method WorkElsewhere(user: nat, toAvailable: int, toReserved: int) returns (ok: bool)
      requires Valid()
      modifies accounts
      ensures Valid() && View() == Next(old(View()), Step.Elsewhere(user, toAvailable, toReserved))
    {
      var oldWallets, oldLedger := accounts.wallets, accounts.ledger;
      ok := accounts.Update(user, toAvailable, toReserved);
      if ok && toAvailable + toReserved != 0 {
        ok := accounts.Create(ElsewhereRow(user, toAvailable + toReserved));
      }
      if !ok {
        accounts.Restore(oldWallets, oldLedger);
      }
      NextKeeps(old(View()), Step.Elsewhere(user, toAvailable, toReserved), opening);
    }

    // ----- Clob::OrderMatchingService

    method ReserveFunds(id: nat) returns (ok: bool)
      requires id < |orders|
      modifies accounts
      ensures ok == Clob.ReserveFunds(old(View()), id).Some?
      ensures ok ==> View() == Clob.ReserveFunds(old(View()), id).value
    {
      var o := orders[id];
      var reservation := o.price * o.quantity;
      ok := accounts.Update(o.user, -reservation, reservation);
    }

    method CountMatchable(id: nat) returns (total: int)
      requires id < |orders|
      ensures total == Clob.CountMatchable(orders, id)
    {
      var list := Resting(orders, id);
      total := 0;
      var k := 0;
      while k < |list| && Compatible(orders[id], orders[list[k]])
        invariant 0 <= k <= |list|
        invariant CountFrom(orders, id, list, k, total) == CountFrom(orders, id, list, 0, 0)
      {
        total := total + orders[list[k]].Unfilled();
        k := k + 1;
        if total >= orders[id].quantity {
          return;
        }
      }
    }

    method ExecuteFill(taker: nat, maker: nat, qty: int) returns (ok: bool)
      requires taker < |orders| && maker < |orders|
      modifies this`orders, accounts
      ensures ok == BuyFill(old(View()), taker, maker, qty).Some?
      ensures ok ==> View() == BuyFill(old(View()), taker, maker, qty).value
      ensures |orders| == old(|orders|)
      ensures ok && old(Tradable(View(), taker, maker, qty) && BooksSound(View().books, opening)) ==>
        BuyFilled(old(View()), taker, maker, qty)
    {
      ok := UpdateFilled(taker, maker, qty);
      if ok && old(Tradable(View(), taker, maker, qty) && BooksSound(View().books, opening)) {
        BuyFillBooks(old(View()), taker, maker, qty, View(), opening);
      }
    }

    method UpdateFilled(taker: nat, maker: nat, qty: int) returns (ok: bool)
      requires taker < |orders| && maker < |orders|
      modifies this`orders, accounts
      ensures ok == BuyFill(old(View()), taker, maker, qty).Some?
      ensures ok ==> View() == BuyFill(old(View()), taker, maker, qty).value
      ensures |orders| == old(|orders|)
    {
      var t, m := orders[taker], orders[maker];
      var takerStake, makerStake := t.price * qty, m.price * qty;
      orders := orders[taker := orders[taker].Fill(qty)];
      orders := orders[maker := orders[maker].Fill(qty)];
      ok := accounts.Update(m.user, 0, -makerStake);
      if ok {
        ok := accounts.Update(t.user, 0, -takerStake);
      }
      if ok {
        ok := accounts.Create(Entry(t.user, OrderFillStake, Debit, takerStake));
      }
      if ok {
        ok := accounts.Create(Entry(m.user, OrderFillCredit, Credit, makerStake));
      }
      if ok {
        var fee := CeilDiv(feeBps * takerStake, BPS);
        if fee > 0 {
          ok := accounts.Create(Entry(t.user, ClobFee, Debit, fee));
          if ok {
            ok := accounts.Update(t.user, -fee, 0);
          }
        }
      }
    }

    /** Both stakes have left the reserves for escrow, and the ledger still explains every balance. */
    ghost predicate BuyFilled(before: State, t: nat, m: nat, qty: int)
      requires t < |before.orders| && m < |before.orders|
      reads this, accounts
    {
      && BooksSound(accounts.Contents(), opening) && |accounts.wallets| == |before.books.wallets|
      && Escrow(View()) == Escrow(before) + before.orders[t].price * qty + before.orders[m].price * qty
      && forall u :: 0 <= u < |accounts.wallets| ==>
        accounts.wallets[u].reserved
          == before.books.wallets[u].reserved - Stake(before.orders[t], u, qty) - Stake(before.orders[m], u, qty)
    }

    method ExecuteSellFill(sell: nat, buy: nat, qty: int, price: int) returns (ok: bool)
      requires sell < |orders| && buy < |orders|
      modifies this`orders, accounts
      ensures ok == SellFill(old(View()), sell, buy, qty, price).Some?
      ensures ok ==> View() == SellFill(old(View()), sell, buy, qty, price).value
      ensures |orders| == old(|orders|)
      ensures ok && old(Tradable(View(), sell, buy, qty) && BooksSound(View().books, opening)) ==>
        SellFilled(old(View()), buy, qty, price)
    {
      var seller, buyer := orders[sell].user, orders[buy].user;
      var proceeds := price * qty;
      orders := orders[sell := orders[sell].Fill(qty)];
      orders := orders[buy := orders[buy].Fill(qty)];
      ok := accounts.Update(buyer, 0, -proceeds);
      if ok {
        ok := accounts.Update(seller, proceeds, 0);
      }
      if ok {
        ok := accounts.Create(Entry(seller, ClobSellCredit, Credit, proceeds));
      }
      if ok {
        ok := accounts.Create(Entry(buyer, OrderFillStake, Debit, proceeds));
      }
      if ok && old(Tradable(View(), sell, buy, qty) && BooksSound(View().books, opening)) {
        SellFillBooks(old(View()), sell, buy, qty, price, View(), opening);
      }
    }

    /** The buyer's reserve has paid, escrow is as it was, and the ledger still explains every balance. */
    ghost predicate SellFilled(before: State, buy: nat, qty: int, price: int)
      requires buy < |before.orders|
      reads this, accounts
    {
      && BooksSound(accounts.Contents(), opening) && |accounts.wallets| == |before.books.wallets|
      && Escrow(View()) == Escrow(before)
      && forall u :: 0 <= u < |accounts.wallets| ==>
        accounts.wallets[u].reserved
             == before.books.wallets[u].reserved - Stake(before.orders[buy].(price := price), u, qty)
    }

    /** `match!`: walk the resting list until the order is filled or the next row does not cross. */
    method Match(id: nat) returns (ok: bool)
      requires id < |orders|
      modifies this`orders, accounts
      ensures ok == MatchFrom(old(View()), id, Resting(old(orders), id), 0).Some?
      ensures ok ==> View() == MatchFrom(old(View()), id, Resting(old(orders), id), 0).value
      ensures |orders| == old(|orders|)
    {
      var list := Resting(orders, id);
      var k := 0;
      ok := true;
      while k < |list| && orders[id].Unfilled() > 0 && Compatible(orders[id], orders[list[k]])
        invariant 0 <= k <= |list| && |orders| == old(|orders|)
        invariant MatchFrom(View(), id, list, k) == MatchFrom(old(View()), id, list, 0)
      {
        var qty := Min(orders[id].Unfilled(), orders[list[k]].Unfilled());
        if orders[id].direction.Sell? {
          ok := ExecuteSellFill(id, list[k], qty, orders[list[k]].price);
        } else {
          ok := ExecuteFill(id, list[k], qty);
        }
        if !ok {
          return;
        }
        k := k + 1;
      }
    }

    method CancelRemainder(id: nat) returns (ok: bool)
      requires id < |orders|
      modifies this`orders, accounts
      ensures ok == Clob.CancelRemainder(old(View()), id).Some?
      ensures ok ==> View() == Clob.CancelRemainder(old(View()), id).value
      ensures |orders| == old(|orders|)
      ensures ok ==> orders[id].Unfilled() <= 0 && orders[id].filled == old(orders)[id].filled
      ensures ok ==> accounts.ledger == old(accounts.ledger) && |accounts.wallets| == |old(accounts.wallets)|
      ensures ok ==> forall u :: 0 <= u < |accounts.wallets| ==>
        accounts.wallets[u].Total() == old(accounts.wallets)[u].Total()
    {
      var o := orders[id];
      var unfilled := o.Unfilled();
      ok := true;
      if unfilled > 0 {
        orders := orders[id := o.CancelRemainder()];
        if o.direction.Buy? {
          ok := accounts.Update(o.user, o.price * unfilled, -(o.price * unfilled));
        }
      }
    }

    /** `call`: one transaction. */
    method PlaceOrder(p: Params, pastClose: bool) returns (ok: bool)
      requires Valid()
      modifies this`orders, accounts
      ensures Valid() && View() == Next(old(View()), Step.PlaceOrder(p, pastClose))
      ensures ok <==> old(GoesThrough(View(), p, pastClose))
      ensures ok ==> |orders| == |old(orders)| + 1
      ensures ok ==> var o := orders[|old(orders)|];
                     && o.user == p.user && o.side == p.side && o.direction == p.direction
                     && o.price == p.price && o.quantity == p.quantity && o.tif == p.tif
      ensures ok ==> PriorityKept(p, old(orders), orders) && LimitsKept(p, old(orders), orders)
      ensures !ok ==> View() == old(View())
    {
      var oldOrders, oldWallets, oldLedger := orders, accounts.wallets, accounts.ledger;
      ok := TryPlace(p, pastClose);
      if !ok {
        orders := oldOrders;
        accounts.Restore(oldWallets, oldLedger);
      }
      PlacementGoesThrough(old(View()), p, pastClose);
      NextKeeps(old(View()), Step.PlaceOrder(p, pastClose), opening);
      if ok {
        PlacedInOrder(old(View()), p, pastClose, View());
        RestsOnlyIfGtc(old(View()), p, pastClose, View());
      }
    }

    method TryPlace(p: Params, pastClose: bool) returns (ok: bool)
      modifies this`orders, accounts
      ensures ok == Place(old(View()), p, pastClose).Some?
      ensures ok ==> View() == Place(old(View()), p, pastClose).value
    {
      if !status.Open? || pastClose || !(1 <= p.price <= 99 && p.quantity > 0 && p.user < |accounts.wallets|) {
        return false;
      }
      var id := |orders|;
      orders := orders + [NewOrder(p)];
      if p.direction.Buy? {
        ok := ReserveFunds(id);
      } else {
        var net := Sum(NetOf(p.user, p.side), orders);
        var committed := Sum(CommittedOf(p.user, p.side), orders) - orders[id].Offers(p.side);
        ok := net - committed >= p.quantity;
      }
      if !ok {
        return;
      }
      ok := ExecuteOrder(id);
    }

    method ExecuteOrder(id: nat) returns (ok: bool)
      requires id < |orders|
      modifies this`orders, accounts
      ensures ok == Execute(old(View()), id).Some?
      ensures ok ==> View() == Execute(old(View()), id).value
    {
      if orders[id].tif.FOK? {
        var available := CountMatchable(id);
        if available < orders[id].quantity {
          ok := CancelRemainder(id);
          return;
        }
      }
      ok := Match(id);
      if ok && !orders[id].status.Filled? && !orders[id].status.Cancelled? && orders[id].tif.IOC? {
        ok := CancelRemainder(id);
      }
    }

    // ----- Clob::OrderCancellationService

    method CancelOrder(id: nat) returns (ok: bool, released: int)
      requires Valid()
      modifies this`orders, accounts
      ensures Valid() && View() == Next(old(View()), Withdraw(id))
      ensures ok <==> id < |old(orders)| && old(orders)[id].Live()
                      && old(orders)[id].ReservedMinor() <= old(accounts.wallets)[old(orders)[id].user].reserved
      ensures released == if ok then old(orders)[id].ReservedMinor() else 0
      ensures ok ==> |orders| == |old(orders)| && CalledOff(old(orders)[id], orders[id])
      ensures ok ==> forall i :: 0 <= i < |orders| && i != id ==> orders[i] == old(orders)[i]
      ensures ok ==> var o := old(orders)[id];
                     var w := old(accounts.wallets);
                     accounts.wallets == w[o.user := Wallet(w[o.user].available + released,
                                                            w[o.user].reserved - released)]
      ensures !ok ==> View() == old(View())
    {
      NextKeeps(View(), Withdraw(id), opening);
      if id >= |orders| || !orders[id].Live() {
        return false, 0;
      }
      var o := orders[id];
      released := o.ReservedMinor();
      assert o.price * o.Unfilled() >= 0;
      orders := orders[id := o.Cancel()];
      ok := accounts.Update(o.user, released, -released);
      if !ok {
        orders := orders[id := o];
        assert orders == old(orders);
        released := 0;
      }
    }

    method Close()
      requires Valid()
      modifies this`status
      ensures Valid() && View() == Next(old(View()), CloseMarket)
    {
      NextKeeps(View(), CloseMarket, opening);
      if status.Open? {
        status := MarketStatus.Closed;
      }
    }

    // ----- Settlement::ClobSettlementHandler

    /** One transaction: it goes through exactly when the market is in play and every reserve covers
        what live buys claim of it. */
    method Settle(outcome: Side) returns (ok: bool)
      requires Valid()
      modifies this, accounts
      ensures Valid() && View() == Next(old(View()), SettleMarket(outcome))
      ensures ok <==> old(InPlay(View()) && Funded(View()))
      ensures ok ==> status.Settled? && NoneLive(orders, |orders|) && Paid(old(View()), outcome)
      ensures ok ==> |orders| == |old(orders)| && forall i :: 0 <= i < |orders| ==> CalledOff(old(orders)[i], orders[i])
      ensures !ok ==> View() == old(View())
    {
      NextKeeps(View(), SettleMarket(outcome), opening);
      SettlesIffFunded(View(), outcome, opening);
      if !status.Open? && !status.Closed? {
        return false;
      }
      var oldOrders, oldWallets, oldLedger := orders, accounts.wallets, accounts.ledger;
      ok := ReleaseAll(false);
      if ok {
        ok := PayWinners(outcome);
      }
      if ok {
        status := MarketStatus.Settled;
        SettlementPays(old(View()), outcome, View(), opening);
      } else {
        orders := oldOrders;
        accounts.Restore(oldWallets, oldLedger);
      }
    }

    /** Reservations are returned, each net winning contract has earned 100, and escrow covers it all. */
    ghost predicate Paid(before: State, outcome: Side)
      reads this, accounts
    {
      && |accounts.wallets| == |before.books.wallets|
      && (forall u :: 0 <= u < |accounts.wallets| ==> accounts.wallets[u] == Wallet(
            before.books.wallets[u].available + Claimed(before, u) + 100 * Net(before, u, outcome),
            before.books.wallets[u].reserved - Claimed(before, u)))
      && PaidOut(accounts.ledger) - PaidOut(before.books.ledger)
           == 100 * Pairs(before, outcome) <= Escrow(before)
    }

    /** Pass 1 of settlement, and with `capped` the release in market cancellation. */
    method ReleaseAll(capped: bool) returns (ok: bool)
      modifies this`orders, accounts
      ensures ok == ReleaseFrom(old(View()), 0, capped).Some?
      ensures ok ==> View() == ReleaseFrom(old(View()), 0, capped).value
    {
      ok := true;
      var i := 0;
      while i < |orders|
        invariant 0 <= i <= |orders| && ok
        invariant ReleaseFrom(View(), i, capped) == ReleaseFrom(old(View()), 0, capped)
        decreases |orders| - i
      {
        if orders[i].Live() {
          ok := ReleaseRow(i, capped);
          if !ok {
            return;
          }
        }
        i := i + 1;
      }
    }

    method ReleaseRow(i: nat, capped: bool) returns (ok: bool)
      requires i < |orders|
      modifies this`orders, accounts
      ensures ok == ReleaseOne(old(View()), i, capped).Some?
      ensures ok ==> View() == ReleaseOne(old(View()), i, capped).value
      ensures |orders| == old(|orders|)
    {
      var o := orders[i];
      var released := o.ReservedMinor();
      if capped {
        if o.user >= |accounts.wallets| {
          return false;
        }
        released := Min(released, accounts.wallets[o.user].reserved);
      }
      orders := orders[i := o.Cancel()];
      ok := true;
      if released != 0 {
        ok := accounts.Update(o.user, released, -released);
      }
    }

    /** Pass 2 of settlement, over users in id order. */
    method PayWinners(outcome: Side) returns (ok: bool)
      modifies accounts
      ensures ok == PayFrom(old(accounts.Contents()), orders, outcome, 0).Some?
      ensures ok ==> accounts.Contents() == PayFrom(old(accounts.Contents()), orders, outcome, 0).value
    {
      ok := true;
      var user := 0;
      while user < |accounts.wallets|
        invariant 0 <= user <= |accounts.wallets| == old(|accounts.wallets|) && ok
        invariant PayFrom(accounts.Contents(), orders, outcome, user)
             == PayFrom(old(accounts.Contents()), orders, outcome, 0)
        decreases |accounts.wallets| - user
      {
        var net := Sum(NetOf(user, outcome), orders);
        if HasFills(orders, user, outcome) && net > 0 {
          var payout := net * CONTRACT_MINOR;
          ok := accounts.UpdateAndCreate(payout, Entry(user, SettlementWin, Credit, payout));
          if !ok {
            return;
          }
        }
        user := user + 1;
      }
    }

    // ----- MarketCancellationService

    method CancelMarket(reason: string) returns (ok: bool, refunded: int, clawedBack: int, shortfall: int)
      requires Valid()
      modifies this, accounts
      ensures Valid() && View() == Next(old(View()), AbortMarket(reason))
      ensures ok <==> |reason| >= 10 && old(InPlay(View())) && !exists u :: Drained(old(View()), u)
      ensures ok ==> status.Cancelled? && NoneLive(orders, |orders|) && |accounts.wallets| == |old(accounts.wallets)|
      ensures ok ==> forall u :: 0 <= u < |accounts.wallets| ==> UndoneFor(old(View()), accounts.Contents(), u, opening)
      ensures ok ==> |orders| == |old(orders)| && forall i :: 0 <= i < |orders| ==> CalledOff(old(orders)[i], orders[i])
      ensures ok ==> Reported(old(accounts.ledger), accounts.ledger, refunded, clawedBack, shortfall)
      ensures !ok ==> View() == old(View())
    {
      NextKeeps(View(), AbortMarket(reason), opening);
      CancelsUnlessDrained(View(), reason, opening);
      refunded, clawedBack, shortfall := 0, 0, 0;
      if |reason| < MIN_REASON || (!status.Open? && !status.Closed?) {
        return false, 0, 0, 0;
      }
      var oldOrders, oldWallets, oldLedger := orders, accounts.wallets, accounts.ledger;
      ok := ReleaseAll(true);
      if ok {
        var t := TallyOutlays();
        ok, refunded, clawedBack, shortfall := Repay(t);
      }
      if ok {
        status := MarketStatus.Cancelled;
        CancelUndoes(old(View()), reason, Clob.CancelMarket(old(View()), reason).value, opening);
      } else {
        orders := oldOrders;
        accounts.Restore(oldWallets, oldLedger);
      }
    }

    /** The `net` hash, built in three passes over the ledger. */
    method TallyOutlays() returns (t: Tally)
      ensures t == Outlays(accounts.ledger)
      ensures forall u: nat :: t.At(u) == Outlay(accounts.ledger, u)
    {
      t := Tally([], map[]);
      t := TallyOnePass(t, Stakes);
      t := TallyOnePass(t, Sales);
      t := TallyOnePass(t, Fees);
      OutlaysAreOutlays(accounts.ledger);
    }

    method TallyOnePass(start: Tally, pass: Pass) returns (t: Tally)
      ensures t == TallyPass(start, accounts.ledger, |accounts.ledger|, pass)
    {
      t := start;
      var n := 0;
      while n < |accounts.ledger|
        invariant 0 <= n <= |accounts.ledger|
        invariant t == TallyPass(start, accounts.ledger, n, pass)
      {
        var e := accounts.ledger[n];
        if Counted(pass, e.kind) {
          t := t.Add(e.user, if pass.Sales? then -e.amount else e.amount);
        }
        n := n + 1;
      }
    }

    /** Credit or claw back every user in the hash. */
    method Repay(t: Tally) returns (ok: bool, refunded: int, clawedBack: int, shortfall: int)
      modifies accounts
      ensures ok == UndoFrom(Undo(old(accounts.Contents()), 0, 0, 0), t, 0).Some?
      ensures ok ==> Undo(accounts.Contents(), refunded, clawedBack, shortfall)
                     == UndoFrom(Undo(old(accounts.Contents()), 0, 0, 0), t, 0).value
    {
      ok, refunded, clawedBack, shortfall := true, 0, 0, 0;
      var k := 0;
      while k < |t.users|
        invariant 0 <= k <= |t.users| && ok
        invariant UndoFrom(Undo(accounts.Contents(), refunded, clawedBack, shortfall), t, k)
               == UndoFrom(Undo(old(accounts.Contents()), 0, 0, 0), t, 0)
      {
        var user, amount := t.users[k], t.At(t.users[k]);
        if amount > 0 {
          ok := accounts.UpdateAndCreate(amount, Entry(user, MarketCancelRefund, Credit, amount));
          refunded := refunded + amount;
        } else if amount < 0 {
          ok := user < |accounts.wallets|;
          if ok {
            var taken := Min(-amount, accounts.wallets[user].available);
            ok := accounts.UpdateAndCreate(-taken, Entry(user, MarketCancelClawback(-amount), Debit, taken));
            clawedBack := clawedBack + taken;
            shortfall := shortfall + (-amount - taken);
          }
        }
        if !ok {
          return;
        }
        k := k + 1;
      }
    }
  }
}
