/** Cancelling a market undoes its whole history. */
module ClobUndo {
  import opened Sums
  import opened Ledgers
  import opened Orders
  import opened Clob
  import opened ClobInvariant
  import opened ClobSteps
  import opened ClobClosing

  // ----- the net hash

  /** What one pass counts for a user. */
  function PassRows(pass: Pass, user: nat): (f: Entry -> int)
    ensures forall e :: f(e) == if e.user != user || !Counted(pass, e.kind) then 0
                                else if pass.Sales? then -e.amount else e.amount
  {
    (e: Entry) => if e.user != user || !Counted(pass, e.kind) then 0
                  else if pass.Sales? then -e.amount else e.amount
  }

  /** Cash a user has put into the market: stakes and fees less sale proceeds. */
  function OutlayRows(user: nat): (f: Entry -> int)
    ensures forall e :: f(e) == if e.user != user then 0
                                else if e.kind.ClobSellCredit? then -e.amount
                                else if Counted(Stakes, e.kind) || Counted(Fees, e.kind) then e.amount
                                else 0
  {
    (e: Entry) => if e.user != user then 0
                  else if e.kind.ClobSellCredit? then -e.amount
                  else if Counted(Stakes, e.kind) || Counted(Fees, e.kind) then e.amount
                  else 0
  }

  function Outlay(ledger: seq<Entry>, user: nat): int {
    Sum(OutlayRows(user), ledger)
  }

  ghost predicate Proper(t: Tally) {
    && (forall u :: u in t.net <==> u in t.users)
    && forall i, j :: 0 <= i < j < |t.users| ==> t.users[i] != t.users[j]
  }

  ghost predicate Known(t: Tally, n: nat) {
    Proper(t) && forall j :: 0 <= j < |t.users| ==> t.users[j] < n
  }

  lemma {:induction false} PassIsKnown(t: Tally, ledger: seq<Entry>, n: nat, pass: Pass, users: nat)
    requires n <= |ledger| && Known(t, users) && forall k :: 0 <= k < |ledger| ==> ledger[k].user < users
    ensures Known(TallyPass(t, ledger, n, pass), users)
    decreases n
  {
    if n > 0 {
      PassIsKnown(t, ledger, n - 1, pass, users);
    }
  }

  lemma {:induction false} PassCounts(t: Tally, ledger: seq<Entry>, n: nat, pass: Pass, user: nat)
    requires n <= |ledger|
    ensures TallyPass(t, ledger, n, pass).At(user) == t.At(user) + Sum(PassRows(pass, user), ledger[..n])
    decreases n
  {
    if n > 0 {
      PassCounts(t, ledger, n - 1, pass, user);
      assert ledger[..n][..n - 1] == ledger[..n - 1];
    }
  }

  lemma {:induction false} PassesAddUp(ledger: seq<Entry>, user: nat)
    ensures Outlay(ledger, user) == Sum(PassRows(Stakes, user), ledger)
                                  + Sum(PassRows(Sales, user), ledger) + Sum(PassRows(Fees, user), ledger)
  {
    if ledger != [] {
      PassesAddUp(ledger[..|ledger| - 1], user);
    }
  }

  /** The hash the service builds in three passes holds every user's outlay. */
  lemma OutlaysAreOutlays(ledger: seq<Entry>)
    ensures forall u: nat :: Outlays(ledger).At(u) == Outlay(ledger, u)
  {
    var n := |ledger|;
    var t0 := Tally([], map[]);
    var stakes := TallyPass(t0, ledger, n, Stakes);
    var sales := TallyPass(stakes, ledger, n, Sales);
    forall u: nat ensures Outlays(ledger).At(u) == Outlay(ledger, u) {
      PassCounts(t0, ledger, n, Stakes, u);
      PassCounts(stakes, ledger, n, Sales, u);
      PassCounts(sales, ledger, n, Fees, u);
      assert ledger[..n] == ledger;
      PassesAddUp(ledger, u);
    }
  }

  lemma OutlaysAreKnown(ledger: seq<Entry>, users: nat)
    requires forall k :: 0 <= k < |ledger| ==> ledger[k].user < users
    ensures Known(Outlays(ledger), users)
  {
    var n := |ledger|;
    var t0 := Tally([], map[]);
    var stakes := TallyPass(t0, ledger, n, Stakes);
    PassIsKnown(t0, ledger, n, Stakes, users);
    PassIsKnown(stakes, ledger, n, Sales, users);
    PassIsKnown(TallyPass(stakes, ledger, n, Sales), ledger, n, Fees, users);
  }

  // ----- repaying

  /** A user's repayment that the service can book: a debtor with an empty wallet would get a
      ledger row of zero, which is invalid. */
  predicate CanRepay(wallets: seq<Wallet>, user: nat, amount: int) {
    user < |wallets| && !(amount < 0 && wallets[user].available == 0)
  }

  ghost predicate Payable(wallets: seq<Wallet>, t: Tally, k: nat) {
    forall j :: k <= j < |t.users| ==> CanRepay(wallets, t.users[j], t.At(t.users[j]))
  }

  /** The wallet after repayment: topped up, or drawn down as far as it goes. */
  function Repaid(w: Wallet, amount: int): Wallet {
    w.(available := Max(0, w.available + amount))
  }

  lemma UndoOneEffect(u: Undo, user: nat, amount: int)
    requires WalletsSound(u.books) && user < |u.books.wallets|
    ensures UndoOne(u, user, amount).Some? <==> CanRepay(u.books.wallets, user, amount)
    ensures UndoOne(u, user, amount).Some? ==>
      var u2 := UndoOne(u, user, amount).value;
      && u2.books.wallets == u.books.wallets[user := Repaid(u.books.wallets[user], amount)]
      && u2.shortfall == u.shortfall + Max(0, -amount - u.books.wallets[user].available)
      && u2.refunded == u.refunded + Max(0, amount)
      && u2.clawedBack == u.clawedBack + Max(0, Min(-amount, u.books.wallets[user].available))
  {
    var w := u.books.wallets[user];
    assert u.books.wallets[user := w] == u.books.wallets;
  }

  lemma UndoOneKeeps(s: State, u: Undo, user: nat, amount: int, opening: seq<int>)
    requires Core(s.(books := u.books), opening) && user < |u.books.wallets| && UndoOne(u, user, amount).Some?
    ensures Core(s.(books := UndoOne(u, user, amount).value.books), opening)
  {
    var b := UndoOne(u, user, amount).value.books;
    if amount > 0 {
      PostedStep(s.(books := u.books), amount, Entry(user, MarketCancelRefund, Credit, amount), b, opening);
    } else if amount < 0 {
      var taken := Min(-amount, u.books.wallets[user].available);
      PostedStep(s.(books := u.books), -taken, Entry(user, MarketCancelClawback(-amount), Debit, taken), b, opening);
    }
  }

  /** The repayment loop goes through exactly when every listed user's repayment can be booked. */
  lemma {:induction false} UndoGoesThrough(u: Undo, t: Tally, k: nat)
    requires WalletsSound(u.books) && k <= |t.users| && Known(t, |u.books.wallets|)
    ensures UndoFrom(u, t, k).Some? <==> Payable(u.books.wallets, t, k)
    decreases |t.users| - k
  {
    if k < |t.users| {
      UndoOneEffect(u, t.users[k], t.At(t.users[k]));
      if UndoOne(u, t.users[k], t.At(t.users[k])).Some? {
        var u2 := UndoOne(u, t.users[k], t.At(t.users[k])).value;
        UndoGoesThrough(u2, t, k + 1);
        assert forall j :: k < j < |t.users| ==> u2.books.wallets[t.users[j]] == u.books.wallets[t.users[j]];
      }
    }
  }

  lemma {:induction false} UndoLoopKeeps(s: State, u: Undo, t: Tally, k: nat, u2: Undo, opening: seq<int>)
    requires Core(s.(books := u.books), opening) && k <= |t.users| && Known(t, |u.books.wallets|)
    requires UndoFrom(u, t, k) == Some(u2)
    ensures Core(s.(books := u2.books), opening)
    decreases |t.users| - k
  {
    if k < |t.users| {
      UndoOneEffect(u, t.users[k], t.At(t.users[k]));
      UndoOneKeeps(s, u, t.users[k], t.At(t.users[k]), opening);
      UndoLoopKeeps(s, UndoOne(u, t.users[k], t.At(t.users[k])).value, t, k + 1, u2, opening);
    }
  }

  /** Every user in the hash has their outlay back, or has repaid as far as their balance goes. */
  lemma {:induction false} UndoLoop(u: Undo, t: Tally, k: nat, u2: Undo)
    requires WalletsSound(u.books) && k <= |t.users| && Known(t, |u.books.wallets|)
    requires UndoFrom(u, t, k) == Some(u2)
    ensures |u2.books.wallets| == |u.books.wallets|
    ensures forall v :: 0 <= v < |u.books.wallets| ==>
      u2.books.wallets[v] == if v in t.users[k..] then Repaid(u.books.wallets[v], t.At(v)) else u.books.wallets[v]
    decreases |t.users| - k
  {
    if k < |t.users| {
      var user := t.users[k];
      var next := UndoOne(u, user, t.At(user)).value;
      UndoOneEffect(u, user, t.At(user));
      UndoLoop(next, t, k + 1, u2);
      assert t.users[k..] == [user] + t.users[k + 1..];
      assert user !in t.users[k + 1..];
    }
  }

  /** Nothing is written off when every balance covers the debt. */
  lemma {:induction false} NoShortfall(u: Undo, t: Tally, k: nat, u2: Undo)
    requires WalletsSound(u.books) && k <= |t.users| && Known(t, |u.books.wallets|)
    requires UndoFrom(u, t, k) == Some(u2)
    requires forall j :: k <= j < |t.users| ==> u.books.wallets[t.users[j]].available + t.At(t.users[j]) >= 0
    ensures u2.shortfall == u.shortfall
    decreases |t.users| - k
  {
    if k < |t.users| {
      var user := t.users[k];
      var next := UndoOne(u, user, t.At(user)).value;
      UndoOneEffect(u, user, t.At(user));
      assert forall j :: k < j < |t.users| ==> next.books.wallets[t.users[j]] == u.books.wallets[t.users[j]];
      NoShortfall(next, t, k + 1, u2);
    }
  }

  /** What clawback rows say could not be recovered from a user. */
  function ShortfallRows(user: nat): (f: Entry -> int)
    ensures forall e ::
      f(e) == if e.user == user && e.kind.MarketCancelClawback? then e.kind.requested - e.amount else 0
  {
    (e: Entry) => if e.user == user && e.kind.MarketCancelClawback? then e.kind.requested - e.amount else 0
  }

  function Shortfall(ledger: seq<Entry>, user: nat): int {
    Sum(ShortfallRows(user), ledger)
  }

  lemma UndoOneRecords(u: Undo, user: nat, amount: int, v: nat)
    requires WalletsSound(u.books) && user < |u.books.wallets| && UndoOne(u, user, amount).Some?
    ensures Shortfall(UndoOne(u, user, amount).value.books.ledger, v)
         == Shortfall(u.books.ledger, v) + if v == user then Max(0, -amount - u.books.wallets[user].available) else 0
  {
    if amount > 0 {
      SumAppend(ShortfallRows(v), u.books.ledger, Entry(user, MarketCancelRefund, Credit, amount));
    } else if amount < 0 {
      var taken := Min(-amount, u.books.wallets[user].available);
      SumAppend(ShortfallRows(v), u.books.ledger, Entry(user, MarketCancelClawback(-amount), Debit, taken));
    }
  }

  /** A repayment adds to the totals what it adds to the ledger. */
  lemma UndoOneReports(u: Undo, user: nat, amount: int, u2: Undo)
    requires UndoOne(u, user, amount) == Some(u2)
    ensures u2.refunded - u.refunded == Sum(Refunds(), u2.books.ledger) - Sum(Refunds(), u.books.ledger)
    ensures u2.clawedBack - u.clawedBack == Sum(Clawbacks(), u2.books.ledger) - Sum(Clawbacks(), u.books.ledger)
    ensures u2.shortfall - u.shortfall == Sum(Shortfalls(), u2.books.ledger) - Sum(Shortfalls(), u.books.ledger)
  {
    if amount != 0 {
      var e := u2.books.ledger[|u.books.ledger|];
      SumAppend(Refunds(), u.books.ledger, e);
      SumAppend(Clawbacks(), u.books.ledger, e);
      SumAppend(Shortfalls(), u.books.ledger, e);
    }
  }

  /** The totals the service reports are those of the rows it has written. */
  lemma {:induction false} TotalsAreRows(u: Undo, t: Tally, k: nat, u2: Undo)
    requires UndoFrom(u, t, k) == Some(u2)
    ensures u2.refunded - u.refunded == Sum(Refunds(), u2.books.ledger) - Sum(Refunds(), u.books.ledger)
    ensures u2.clawedBack - u.clawedBack == Sum(Clawbacks(), u2.books.ledger) - Sum(Clawbacks(), u.books.ledger)
    ensures u2.shortfall - u.shortfall == Sum(Shortfalls(), u2.books.ledger) - Sum(Shortfalls(), u.books.ledger)
    decreases |t.users| - k
  {
    if k < |t.users| {
      var next := UndoOne(u, t.users[k], t.At(t.users[k])).value;
      UndoOneReports(u, t.users[k], t.At(t.users[k]), next);
      TotalsAreRows(next, t, k + 1, u2);
    }
  }

  /** The wallets a repayment leaves alone. */
  lemma UndoOneSpares(u: Undo, user: nat, amount: int, v: nat)
    requires WalletsSound(u.books) && user < |u.books.wallets| && UndoOne(u, user, amount).Some?
    ensures var b := UndoOne(u, user, amount).value.books;
      && WalletsSound(b) && |b.wallets| == |u.books.wallets|
      && (v < |u.books.wallets| && v != user ==> b.wallets[v] == u.books.wallets[v])
  {
    UndoOneEffect(u, user, amount);
  }

  /** What is missing of `user`'s repayment when its turn comes at position `k` or later. */
  function Missing(t: Tally, k: nat, wallets: seq<Wallet>, user: nat): int
    requires k <= |t.users| && user < |wallets|
  {
    if user in t.users[k..] then Max(0, -t.At(user) - wallets[user].available) else 0
  }

  lemma MissingStep(t: Tally, k: nat, wallets: seq<Wallet>, next: seq<Wallet>, v: nat, users: nat)
    requires k < |t.users| && Known(t, users) && v < |wallets| == |next|
    requires v != t.users[k] ==> next[v] == wallets[v]
    ensures Missing(t, k, wallets, v)
         == if v == t.users[k] then Max(0, -t.At(v) - wallets[v].available) else Missing(t, k + 1, next, v)
    ensures v == t.users[k] ==> Missing(t, k + 1, next, v) == 0
  {
    assert t.users[k..] == [t.users[k]] + t.users[k + 1..];
    assert t.users[k] !in t.users[k + 1..];
  }

  lemma {:induction false} ShortfallsRecorded(u: Undo, t: Tally, k: nat, u2: Undo, v: nat)
    requires WalletsSound(u.books) && k <= |t.users| && Known(t, |u.books.wallets|) && v < |u.books.wallets|
    requires UndoFrom(u, t, k) == Some(u2)
    ensures Shortfall(u2.books.ledger, v) == Shortfall(u.books.ledger, v) + Missing(t, k, u.books.wallets, v)
    decreases |t.users| - k
  {
    if k < |t.users| {
      var user := t.users[k];
      var next := UndoOne(u, user, t.At(user)).value;
      UndoOneSpares(u, user, t.At(user), v);
      UndoOneRecords(u, user, t.At(user), v);
      ShortfallsRecorded(next, t, k + 1, u2, v);
      MissingStep(t, k, u.books.wallets, next.books.wallets, v, |u.books.wallets|);
    }
  }

  // ----- the ledger of a market in play

  /** A row that trading, or another market, may have written. */
  predicate TradingRow(e: Entry) {
    match e.kind
    case OrderFillStake => e.posting.Debit?
    case OrderFillCredit => e.posting.Credit?
    case ClobSellCredit => e.posting.Credit?
    case ClobFee => e.posting.Debit?
    case Elsewhere => true
    case _ => false
  }

  ghost predicate Trading(ledger: seq<Entry>) {
    forall k :: 0 <= k < |ledger| ==> TradingRow(ledger[k])
  }

  /** A row that settlement or cancellation writes. */
  predicate ClosingRow(e: Entry) {
    match e.kind
    case SettlementWin => e.posting.Credit?
    case MarketCancelRefund => e.posting.Credit?
    case MarketCancelClawback(_) => e.posting.Debit?
    case _ => false
  }

  /** The ledger grew, if at all, by rows of the market's end. */
  ghost predicate ClosedBy(before: seq<Entry>, after: seq<Entry>) {
    && |before| <= |after| && after[..|before|] == before
    && forall k :: |before| <= k < |after| ==> ClosingRow(after[k])
  }

  lemma {:induction false} SumWhenClosed(f: Entry -> int, before: seq<Entry>, after: seq<Entry>)
    requires ClosedBy(before, after) && forall e :: ClosingRow(e) ==> f(e) == 0
    ensures Sum(f, after) == Sum(f, before)
  {
    if |after| == |before| {
      assert after == before;
    } else {
      var shorter := after[..|after| - 1];
      assert shorter[..|before|] == before;
      SumWhenClosed(f, before, shorter);
    }
  }

  lemma ClosedOnce(b: Books, toAvailable: int, e: Entry, b': Books)
    requires MoveAndPost(b, toAvailable, e) == Some(b') && ClosingRow(e)
    ensures ClosedBy(b.ledger, b'.ledger)
  {
  }

  lemma ClosedTwice(a: seq<Entry>, b: seq<Entry>, c: seq<Entry>)
    requires ClosedBy(a, b) && ClosedBy(b, c)
    ensures ClosedBy(a, c)
  {
    assert c[..|a|] == b[..|a|];
    forall k | |a| <= k < |c| ensures ClosingRow(c[k]) {
      if k < |b| {
        assert c[..|b|][k] == b[k];
      }
    }
  }

  lemma {:induction false} PayoutsClose(b: Books, orders: seq<Order>, side: Side, user: nat, b': Books)
    requires PayFrom(b, orders, side, user) == Some(b')
    ensures ClosedBy(b.ledger, b'.ledger)
    decreases |b.wallets| - user
  {
    if user < |b.wallets| {
      var next := PayOne(b, orders, side, user).value;
      var net := Sum(NetOf(user, side), orders);
      if next != b {
        ClosedOnce(b, net * CONTRACT_MINOR, Entry(user, SettlementWin, Credit, net * CONTRACT_MINOR), next);
      }
      PayoutsClose(next, orders, side, user + 1, b');
      ClosedTwice(b.ledger, next.ledger, b'.ledger);
    }
  }

  lemma {:induction false} RepaymentsClose(u: Undo, t: Tally, k: nat, u': Undo)
    requires UndoFrom(u, t, k) == Some(u')
    ensures ClosedBy(u.books.ledger, u'.books.ledger)
    decreases |t.users| - k
  {
    if k < |t.users| {
      var next := UndoOne(u, t.users[k], t.At(t.users[k])).value;
      RepaymentCloses(u, t.users[k], t.At(t.users[k]), next);
      RepaymentsClose(next, t, k + 1, u');
      ClosedTwice(u.books.ledger, next.books.ledger, u'.books.ledger);
    }
  }

  lemma RepaymentCloses(u: Undo, user: nat, amount: int, next: Undo)
    requires UndoOne(u, user, amount) == Some(next)
    ensures ClosedBy(u.books.ledger, next.books.ledger)
  {
    if amount > 0 {
      ClosedOnce(u.books, amount, Entry(user, MarketCancelRefund, Credit, amount), next.books);
    } else if amount < 0 {
      var taken := Min(-amount, u.books.wallets[user].available);
      ClosedOnce(u.books, -taken, Entry(user, MarketCancelClawback(-amount), Debit, taken), next.books);
    }
  }

  /** A user's money flows outside this market. */
  function OutsideRows(user: nat): (f: Entry -> int)
    ensures forall e :: f(e) == if e.user == user && e.kind.Elsewhere? then Signed(e) else 0
  {
    (e: Entry) => if e.user == user && e.kind.Elsewhere? then Signed(e) else 0
  }

  function Outside(ledger: seq<Entry>, user: nat): int {
    Sum(OutsideRows(user), ledger)
  }

  /** While a market trades, a user's flow is outside money less their outlay. */
  lemma {:induction false} FlowIsOutsideLessOutlay(ledger: seq<Entry>, user: nat)
    requires Trading(ledger)
    ensures Sum(Flow(user), ledger) == Outside(ledger, user) - Outlay(ledger, user)
    ensures Shortfall(ledger, user) == 0
  {
    if ledger != [] {
      var e := ledger[|ledger| - 1];
      FlowIsOutsideLessOutlay(ledger[..|ledger| - 1], user);
      assert TradingRow(e);
      assert Flow(user)(e) == if Owner(e) == user then Signed(e) else 0;
    }
  }

  // ----- cancelling the market

  /** What stays in a user's reserve when this market lets go of it. */
  function Kept(s: State, user: nat): int
    requires user < |s.books.wallets|
  {
    Max(0, s.books.wallets[user].reserved - Claimed(s, user))
  }

  /** A user who has taken more out than put in and has nothing left to give back. */
  ghost predicate Drained(s: State, user: nat) {
    user < |s.books.wallets| && Outlay(s.books.ledger, user) < 0 && s.books.wallets[user].Total() == Kept(s, user)
  }

  /** The wallets a cancellation starts repaying from. */
  ghost predicate LetGo(s: State, released: State) {
    && |released.books.wallets| == |s.books.wallets|
    && forall u :: 0 <= u < |s.books.wallets| ==>
      released.books.wallets[u] == Wallet(s.books.wallets[u].Total() - Kept(s, u), Kept(s, u))
  }

  lemma ReleasedForUndo(s: State, released: State, opening: seq<int>)
    requires Core(s, opening) && ReleaseFrom(s, 0, true) == Some(released)
    ensures Core(released, opening) && released.books.ledger == s.books.ledger
    ensures NoneLive(released.orders, |released.orders|)
    ensures LetGo(s, released)
    ensures Known(Outlays(s.books.ledger), |s.books.wallets|)
  {
    ReleaseKeeps(s, 0, true, released, opening);
    ReleaseFrees(s, 0, true, released, opening);
    OutlaysAreKnown(s.books.ledger, |s.books.wallets|);
  }

  lemma PayableUnlessDrained(s: State, released: State)
    requires OwnersKnown(s.books) && LetGo(s, released)
    requires Known(Outlays(s.books.ledger), |s.books.wallets|)
    ensures Payable(released.books.wallets, Outlays(s.books.ledger), 0) <==> !(exists u :: Drained(s, u))
  {
    var t := Outlays(s.books.ledger);
    OutlaysAreOutlays(s.books.ledger);
    if !Payable(released.books.wallets, t, 0) {
      var j :| 0 <= j < |t.users| && !CanRepay(released.books.wallets, t.users[j], t.At(t.users[j]));
      assert Drained(s, t.users[j]);
    }
  }

  /** An open or closed market can be cancelled, for a long enough reason, exactly when no user is drained. */
  lemma CancelsUnlessDrained(s: State, reason: string, opening: seq<int>)
    requires Core(s, opening)
    ensures CancelMarket(s, reason).Some? <==>
      |reason| >= 10 && (s.status.Open? || s.status.Closed?) && !(exists u :: Drained(s, u))
  {
    ReleaseSucceeds(s, 0, true, opening);
    var released := ReleaseFrom(s, 0, true).value;
    ReleasedForUndo(s, released, opening);
    UndoGoesThrough(Undo(released.books, 0, 0, 0), Outlays(s.books.ledger), 0);
    PayableUnlessDrained(s, released);
  }

  /** The wallet after repayment: what other markets keep in reserve, and beside it the rest of the
      opening balance and of the outside money, the ledger recording what is missing. */
  ghost predicate UndoneFor(s: State, b: Books, user: nat, opening: seq<int>) {
    user < |opening| == |s.books.wallets| == |b.wallets| ==>
      && var owned := opening[user] + Outside(s.books.ledger, user) - Kept(s, user);
      && b.wallets[user] == Wallet(Max(0, owned), Kept(s, user))
      && b.wallets[user].available == owned + Shortfall(b.ledger, user)
  }

  lemma UndoneUser(s: State, released: State, u2: Undo, user: nat, opening: seq<int>)
    requires BooksSound(s.books, opening) && Trading(s.books.ledger) && user < |opening|
    requires WalletsSound(released.books) && released.books.ledger == s.books.ledger && LetGo(s, released)
    requires Known(Outlays(s.books.ledger), |s.books.wallets|)
    requires UndoFrom(Undo(released.books, 0, 0, 0), Outlays(s.books.ledger), 0) == Some(u2)
    ensures UndoneFor(s, u2.books, user, opening)
  {
    var t := Outlays(s.books.ledger);
    var u0 := Undo(released.books, 0, 0, 0);
    OutlaysAreOutlays(s.books.ledger);
    UndoLoop(u0, t, 0, u2);
    FlowIsOutsideLessOutlay(s.books.ledger, user);
    ShortfallsRecorded(u0, t, 0, u2, user);
    assert t.users[0..] == t.users;
    assert t.At(user) == Outlay(s.books.ledger, user);
    assert Drift(s.books, opening, user) == 0;
  }

  lemma NothingWrittenOff(s: State, released: State, u2: Undo, opening: seq<int>)
    requires BooksSound(s.books, opening) && Trading(s.books.ledger)
    requires WalletsSound(released.books) && LetGo(s, released)
    requires Known(Outlays(s.books.ledger), |s.books.wallets|)
    requires UndoFrom(Undo(released.books, 0, 0, 0), Outlays(s.books.ledger), 0) == Some(u2)
    requires forall u :: 0 <= u < |s.books.wallets| ==> opening[u] + Outside(s.books.ledger, u) >= Kept(s, u)
    ensures u2.shortfall == 0
  {
    var t := Outlays(s.books.ledger);
    OutlaysAreOutlays(s.books.ledger);
    forall j | 0 <= j < |t.users| ensures released.books.wallets[t.users[j]].available + t.At(t.users[j]) >= 0 {
      FlowIsOutsideLessOutlay(s.books.ledger, t.users[j]);
      assert Drift(s.books, opening, t.users[j]) == 0;
    }
    NoShortfall(Undo(released.books, 0, 0, 0), t, 0, u2);
  }

  /** The reported totals are what the call's own ledger rows add up to. */
  ghost predicate Reported(before: seq<Entry>, after: seq<Entry>, refunded: int, clawedBack: int, shortfall: int) {
    && refunded == Sum(Refunds(), after) - Sum(Refunds(), before)
    && clawedBack == Sum(Clawbacks(), after) - Sum(Clawbacks(), before)
    && shortfall == Sum(Shortfalls(), after) - Sum(Shortfalls(), before)
  }

  /** Cancelling undoes the market's whole history: each user has their opening balance and their
      outside money, plus any shortfall the ledger records, and only other markets' money is in reserve.
      What the service reports as refunded, clawed back and short is what its rows say. */
  lemma CancelUndoes(s: State, reason: string, r: (State, Undo), opening: seq<int>)
    requires Core(s, opening) && Trading(s.books.ledger) && CancelMarket(s, reason) == Some(r)
    ensures Core(r.0, opening) && r.0.status.Cancelled? && NoneLive(r.0.orders, |r.0.orders|)
    ensures |r.0.books.wallets| == |s.books.wallets|
    ensures forall u :: 0 <= u < |s.books.wallets| ==> UndoneFor(s, r.0.books, u, opening)
    ensures Reported(s.books.ledger, r.0.books.ledger, r.1.refunded, r.1.clawedBack, r.1.shortfall)
    ensures |r.0.orders| == |s.orders| && forall i :: 0 <= i < |s.orders| ==> CalledOff(s.orders[i], r.0.orders[i])
    ensures (forall u :: 0 <= u < |s.books.wallets| ==> opening[u] + Outside(s.books.ledger, u) >= Kept(s, u)) ==>
      r.1.shortfall == 0
  {
    var released := ReleaseFrom(s, 0, true).value;
    ReleasedForUndo(s, released, opening);
    var u0 := Undo(released.books, 0, 0, 0);
    assert released == released.(books := u0.books);
    TotalsAreRows(u0, Outlays(s.books.ledger), 0, r.1);
    ReleaseCallsOff(s, 0, true, released);
    UndoLoop(u0, Outlays(s.books.ledger), 0, r.1);
    UndoLoopKeeps(released, u0, Outlays(s.books.ledger), 0, r.1, opening);
    StatusKeeps(released.(books := r.1.books), MarketStatus.Cancelled, opening);
    forall u | 0 <= u < |s.books.wallets| ensures UndoneFor(s, r.0.books, u, opening) {
      UndoneUser(s, released, r.1, u, opening);
    }
    if forall u :: 0 <= u < |s.books.wallets| ==> opening[u] + Outside(s.books.ledger, u) >= Kept(s, u) {
      NothingWrittenOff(s, released, r.1, opening);
    }
  }
}
