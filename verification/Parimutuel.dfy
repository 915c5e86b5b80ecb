/** The pooled-stakes market as a state machine. */
module Parimutuel {
  import opened Sums
  import opened Ledgers

  datatype State = State(status: MarketStatus, takeoutBps: int, poolYes: int, poolNo: int, books: Books) {
    function Pool(side: Side): int {
      if side == YES then poolYes else poolNo
    }

    function TotalPool(): int {
      poolYes + poolNo
    }
  }

  // ----- Parimutuel::ParimutuelPoolService

  function AddStake(s: State, user: nat, side: Side, stake: int, pastClose: bool): Option<State> {
    if !s.status.Open? || pastClose || user >= |s.books.wallets| then None
    else if s.books.wallets[user].available < stake then None
    else
      var b :- MoveAndPost(s.books, -stake, Entry(user, ParimutuelStake(side), Debit, stake));
      Some(s.(books := b,
              poolYes := s.poolYes + (if side == YES then stake else 0),
              poolNo := s.poolNo + (if side == NO then stake else 0)))
  }

  // ----- Parimutuel::ParimutuelSettlementService

  predicate StakeOn(e: Entry, side: Side) {
    e.kind.ParimutuelStake? && e.kind.side == side
  }

  /** A winning entry's pro-rata share, rounded down. */
  function Share(e: Entry, side: Side, afterTakeout: int, winningPool: int): int
    requires winningPool != 0
  {
    if StakeOn(e, side) then e.amount * afterTakeout / winningPool else 0
  }

  /** Pay the winning entries among `rows`, from position `k` on; zero shares are skipped. */
  function PayFrom(b: Books, rows: seq<Entry>, side: Side, afterTakeout: int, winningPool: int, k: nat): Option<Books>
    requires winningPool != 0
    decreases |rows| - k
  {
    if k >= |rows| then Some(b)
    else
      var payout := Share(rows[k], side, afterTakeout, winningPool);
      if payout == 0 then PayFrom(b, rows, side, afterTakeout, winningPool, k + 1)
      else
        var next :- MoveAndPost(b, payout, Entry(rows[k].user, SettlementWin, Credit, payout));
        PayFrom(next, rows, side, afterTakeout, winningPool, k + 1)
  }

  /** Return every stake among `rows`, from position `k` on, under the given kind of row. */
  function RefundFrom(b: Books, rows: seq<Entry>, kind: Kind, k: nat): Option<Books>
    decreases |rows| - k
  {
    if k >= |rows| then Some(b)
    else if !rows[k].kind.ParimutuelStake? then RefundFrom(b, rows, kind, k + 1)
    else
      var next :- MoveAndPost(b, rows[k].amount, Entry(rows[k].user, kind, Credit, rows[k].amount));
      RefundFrom(next, rows, kind, k + 1)
  }

  function Takeout(s: State): int {
    CeilDiv(s.TotalPool() * s.takeoutBps, BPS)
  }

  function Settle(s: State, outcome: Side): Option<State> {
    if !(s.status.Open? || s.status.Closed?) then None
    else if s.Pool(outcome) == 0 then
      var b :- RefundFrom(s.books, s.books.ledger, ParimutuelRefund, 0);
      Some(s.(books := b, status := MarketStatus.Settled))
    else
      var b :- PayFrom(s.books, s.books.ledger, outcome, s.TotalPool() - Takeout(s), s.Pool(outcome), 0);
      Some(s.(books := b, status := MarketStatus.Settled))
  }

  // ----- MarketCancellationService on a parimutuel market

  function CancelMarket(s: State, reason: string): Option<State> {
    if |reason| < MIN_REASON || !(s.status.Open? || s.status.Closed?) then None
    else
      var b :- RefundFrom(s.books, s.books.ledger, MarketCancelRefund, 0);
      Some(s.(books := b, status := MarketStatus.Cancelled, poolYes := 0, poolNo := 0))
  }

  // ----- runs

  datatype Step =
    | PlaceStake(user: nat, side: Side, stake: int, pastClose: bool)
    | CloseMarket
    | SettleMarket(outcome: Side)
    | AbortMarket(reason: string)

  function Attempt(s: State, step: Step): Option<State> {
    match step
    case PlaceStake(user, side, stake, pastClose) => AddStake(s, user, side, stake, pastClose)
    case CloseMarket => if s.status.Open? then Some(s.(status := MarketStatus.Closed)) else None
    case SettleMarket(outcome) => Settle(s, outcome)
    case AbortMarket(reason) => CancelMarket(s, reason)
  }

  function Next(s: State, step: Step): State {
    var r := Attempt(s, step);
    if r.Some? then r.value else s
  }

  function Run(s: State, steps: seq<Step>): State {
    if steps == [] then s else Next(Run(s, steps[..|steps| - 1]), steps[|steps| - 1])
  }

  ghost predicate Fresh(s: State) {
    s.status.Open? && 0 <= s.takeoutBps <= 10_000 && s.poolYes == 0 && s.poolNo == 0
    && s.books.ledger == [] && WalletsSound(s.books)
  }

  ghost predicate InPlay(s: State) {
    s.status.Open? || s.status.Closed?
  }

  // ----- measures

  function StakesOn(side: Side): (f: Entry -> int)
    ensures forall e :: f(e) == if StakeOn(e, side) then e.amount else 0
  {
    (e: Entry) => if StakeOn(e, side) then e.amount else 0
  }

  function StakesBy(user: nat): (f: Entry -> int)
    ensures forall e :: f(e) == if e.user == user && e.kind.ParimutuelStake? then e.amount else 0
  {
    (e: Entry) => if e.user == user && e.kind.ParimutuelStake? then e.amount else 0
  }

  function AllStakes(): (f: Entry -> int)
    ensures forall e :: f(e) == if e.kind.ParimutuelStake? then e.amount else 0
  {
    (e: Entry) => if e.kind.ParimutuelStake? then e.amount else 0
  }

  function WinningEntries(side: Side): (f: Entry -> int)
    ensures forall e :: f(e) == if StakeOn(e, side) then 1 else 0
  {
    (e: Entry) => if StakeOn(e, side) then 1 else 0
  }

  function SharesOf(side: Side, afterTakeout: int, winningPool: int): (f: Entry -> int)
    requires winningPool != 0
    ensures forall e :: f(e) == Share(e, side, afterTakeout, winningPool)
  {
    (e: Entry) => Share(e, side, afterTakeout, winningPool)
  }

  function SharesBy(user: nat, side: Side, afterTakeout: int, winningPool: int): (f: Entry -> int)
    requires winningPool != 0
    ensures forall e :: f(e) == if e.user == user then Share(e, side, afterTakeout, winningPool) else 0
  {
    (e: Entry) => if e.user == user then Share(e, side, afterTakeout, winningPool) else 0
  }

  /** Money paid out of the pool, by winnings or by refunds. */
  function PaidOut(): (f: Entry -> int)
    ensures forall e ::
      f(e) == if e.kind.SettlementWin? || e.kind.ParimutuelRefund? || e.kind.MarketCancelRefund? then e.amount else 0
  {
    (e: Entry) =>
      if e.kind.SettlementWin? || e.kind.ParimutuelRefund? || e.kind.MarketCancelRefund? then e.amount else 0
  }

  // ----- the pools are the ledger's stake sums

  ghost predicate StakeRows(ledger: seq<Entry>) {
    forall k :: 0 <= k < |ledger| ==>
      ledger[k].kind.ParimutuelStake? && ledger[k].posting.Debit? && ledger[k].amount > 0
  }

  ghost predicate Inv(s: State, opening: seq<int>) {
    && BooksSound(s.books, opening) && 0 <= s.takeoutBps <= 10_000
    && StakeRows(s.books.ledger)
    && forall side :: s.Pool(side) == Sum(StakesOn(side), s.books.ledger) >= 0
  }

  /** The stake goes from the user's wallet into the pool of the side asked for, and is recorded so. */
  ghost predicate Staked(s: State, user: nat, side: Side, stake: int, s': State) {
    && s'.status == s.status && s'.takeoutBps == s.takeoutBps
    && s'.poolYes == s.poolYes + (if side == YES then stake else 0)
    && s'.poolNo == s.poolNo + (if side == NO then stake else 0)
    && user < |s.books.wallets| && s'.books.wallets == s.books.wallets[user :=
      Wallet(s.books.wallets[user].available - stake, s.books.wallets[user].reserved)]
    && s'.books.ledger == s.books.ledger + [Entry(user, ParimutuelStake(side), Debit, stake)]
  }

  lemma StakeKeeps(s: State, user: nat, side: Side, stake: int, pastClose: bool, s': State, opening: seq<int>)
    requires Inv(s, opening) && AddStake(s, user, side, stake, pastClose) == Some(s')
    ensures Inv(s', opening) && Staked(s, user, side, stake, s')
  {
    var e := Entry(user, ParimutuelStake(side), Debit, stake);
    PostedMoveReplays(s.books, -stake, e, s'.books, opening);
    forall sd ensures s'.Pool(sd) == Sum(StakesOn(sd), s'.books.ledger) >= 0 {
      SumAppend(StakesOn(sd), s.books.ledger, e);
      assert s.Pool(sd) == Sum(StakesOn(sd), s.books.ledger) >= 0;
    }
  }

  /** In every reachable state in play each pool is the sum of that side's stake rows. */
  lemma PoolsAreStakes(s: State, steps: seq<Step>, side: Side)
    requires Fresh(s) && InPlay(Run(s, steps))
    ensures Run(s, steps).Pool(side) == Sum(StakesOn(side), Run(s, steps).books.ledger)
    ensures Run(s, steps).TotalPool() == Sum(AllStakes(), Run(s, steps).books.ledger)
  {
    RunKeeps(s, steps);
    SidesAddUp(Run(s, steps).books.ledger);
    assert Run(s, steps).Pool(YES) == Sum(StakesOn(YES), Run(s, steps).books.ledger);
    assert Run(s, steps).Pool(NO) == Sum(StakesOn(NO), Run(s, steps).books.ledger);
  }

  lemma {:induction false} SidesAddUp(ledger: seq<Entry>)
    ensures Sum(AllStakes(), ledger) == Sum(StakesOn(YES), ledger) + Sum(StakesOn(NO), ledger)
  {
    if ledger != [] {
      SidesAddUp(ledger[..|ledger| - 1]);
    }
  }

  // ----- flooring

  /** Floor division loses less than one per winning entry. */
  lemma {:induction false} FlooredShares(rows: seq<Entry>, side: Side, a: int, w: int)
    requires w > 0 && a >= 0 && StakeRows(rows)
    ensures w * Sum(SharesOf(side, a, w), rows) <= a * Sum(StakesOn(side), rows)
    ensures a * Sum(StakesOn(side), rows)
         <= w * Sum(SharesOf(side, a, w), rows) + (w - 1) * Sum(WinningEntries(side), rows)
  {
    if rows != [] {
      var e := rows[|rows| - 1];
      FlooredShares(rows[..|rows| - 1], side, a, w);
      FloorOnce(e.amount * a, w);
      Distribute(w, Sum(SharesOf(side, a, w), rows[..|rows| - 1]), Share(e, side, a, w));
      Distribute(a, Sum(StakesOn(side), rows[..|rows| - 1]), if StakeOn(e, side) then e.amount else 0);
      Distribute(w - 1, Sum(WinningEntries(side), rows[..|rows| - 1]), if StakeOn(e, side) then 1 else 0);
    }
  }

  lemma FloorOnce(x: int, w: int)
    requires w > 0
    ensures w * (x / w) <= x <= w * (x / w) + (w - 1)
  {
  }

  lemma Distribute(a: int, x: int, y: int)
    ensures a * (x + y) == a * x + a * y
  {
  }

  /** Shares of a pool that is the sum of its stakes never exceed what is shared, and the dust left
      over is strictly less than the number of winning entries. */
  lemma DustIsBounded(rows: seq<Entry>, side: Side, a: int, w: int)
    requires w > 0 && a >= 0 && StakeRows(rows) && w == Sum(StakesOn(side), rows)
    ensures 0 <= a - Sum(SharesOf(side, a, w), rows) < Sum(WinningEntries(side), rows)
  {
    FlooredShares(rows, side, a, w);
    EntriesWhenStaked(rows, side);
    var p, n := Sum(SharesOf(side, a, w), rows), Sum(WinningEntries(side), rows);
    Cancel(w, p, a);
    Distribute(w, p, n);
    assert a * w <= w * p + w * n - n;
    Below(w, a, p + n);
  }

  lemma Cancel(w: int, x: int, y: int)
    requires w > 0 && w * x <= y * w
    ensures x <= y
  {
  }

  lemma Below(w: int, x: int, y: int)
    requires w > 0 && x * w < w * y
    ensures x < y
  {
  }

  lemma {:induction false} EntriesWhenStaked(rows: seq<Entry>, side: Side)
    ensures Sum(WinningEntries(side), rows) >= 0
    ensures Sum(WinningEntries(side), rows) == 0 ==> Sum(StakesOn(side), rows) == 0
  {
    if rows != [] {
      EntriesWhenStaked(rows[..|rows| - 1], side);
    }
  }

  // ----- the payout and refund loops

  lemma PayOne(b: Books, user: nat, kind: Kind, amount: int, opening: seq<int>) returns (b': Books)
    requires BooksSound(b, opening) && user < |b.wallets| && amount > 0
    requires kind.SettlementWin? || kind.ParimutuelRefund? || kind.MarketCancelRefund?
    ensures MoveAndPost(b, amount, Entry(user, kind, Credit, amount)) == Some(b') && BooksSound(b', opening)
    ensures b'.wallets == b.wallets[user := b.wallets[user].(available := b.wallets[user].available + amount)]
    ensures Sum(PaidOut(), b'.ledger) == Sum(PaidOut(), b.ledger) + amount
    ensures Sum(AllStakes(), b'.ledger) == Sum(AllStakes(), b.ledger)
  {
    var e := Entry(user, kind, Credit, amount);
    b' := MoveAndPost(b, amount, e).value;
    PostedMoveReplays(b, amount, e, b', opening);
    SumAppend(PaidOut(), b.ledger, e);
    SumAppend(AllStakes(), b.ledger, e);
  }

  /** The payout loop goes through and pays every winning entry its floored share. */
  lemma {:induction false} PayoutLoop(b: Books, rows: seq<Entry>, side: Side, a: int, w: int, k: nat, opening: seq<int>)
    returns (b': Books)
    requires w > 0 && a >= 0 && k <= |rows| && BooksSound(b, opening) && StakeRows(rows)
    requires forall j :: 0 <= j < |rows| ==> rows[j].user < |b.wallets|
    ensures PayFrom(b, rows, side, a, w, k) == Some(b') && BooksSound(b', opening) && |b'.wallets| == |b.wallets|
    ensures Sum(AllStakes(), b'.ledger) == Sum(AllStakes(), b.ledger)
    ensures Sum(PaidOut(), b'.ledger) - Sum(PaidOut(), b.ledger)
         == Sum(SharesOf(side, a, w), rows) - Sum(SharesOf(side, a, w), rows[..k])
    ensures forall u :: 0 <= u < |b.wallets| ==> b'.wallets[u] == b.wallets[u].(
      available := b.wallets[u].available
        + Sum(SharesBy(u, side, a, w), rows) - Sum(SharesBy(u, side, a, w), rows[..k]))
    decreases |rows| - k
  {
    if k == |rows| {
      b' := b;
      assert rows[..k] == rows;
    } else {
      var payout := Share(rows[k], side, a, w);
      ShareNonNegative(rows[k], side, a, w);
      var next := b;
      if payout != 0 {
        next := PayOne(b, rows[k].user, SettlementWin, payout, opening);
      }
      SharePrefix(rows, side, a, w, k, payout);
      b' := PayoutLoop(next, rows, side, a, w, k + 1, opening);
    }
  }

  lemma SharePrefix(rows: seq<Entry>, side: Side, a: int, w: int, k: nat, payout: int)
    requires w > 0 && k < |rows| && payout == Share(rows[k], side, a, w)
    ensures Sum(SharesOf(side, a, w), rows[..k + 1]) == Sum(SharesOf(side, a, w), rows[..k]) + payout
    ensures forall u: nat ::
      Sum(SharesBy(u, side, a, w), rows[..k + 1])
           == Sum(SharesBy(u, side, a, w), rows[..k]) + (if rows[k].user == u then payout else 0)
  {
    SumPrefix(SharesOf(side, a, w), rows, k);
    forall u: nat ensures Sum(SharesBy(u, side, a, w), rows[..k + 1])
      == Sum(SharesBy(u, side, a, w), rows[..k]) + (if rows[k].user == u then payout else 0)
    {
      SumPrefix(SharesBy(u, side, a, w), rows, k);
    }
  }

  /** The entry's part of what is shared: its amount over the winning pool, rounded down. */
  ghost predicate ProRata(e: Entry, side: Side, a: int, w: int)
    requires w != 0
  {
    if e.kind == ParimutuelStake(side)
    then w * Share(e, side, a, w) <= e.amount * a < w * Share(e, side, a, w) + w
    else Share(e, side, a, w) == 0
  }

  lemma SharesAreProRata(rows: seq<Entry>, side: Side, a: int, w: int)
    requires w > 0
    ensures forall k :: 0 <= k < |rows| ==> ProRata(rows[k], side, a, w)
  {
    forall k | 0 <= k < |rows| ensures ProRata(rows[k], side, a, w) {
      FloorOnce(rows[k].amount * a, w);
    }
  }

  lemma ShareNonNegative(e: Entry, side: Side, a: int, w: int)
    requires w > 0 && a >= 0 && e.amount > 0
    ensures Share(e, side, a, w) >= 0
  {
    assert e.amount * a >= 0;
  }

  /** The refund loop goes through and returns every stake. */
  lemma {:induction false} RefundLoop(b: Books, rows: seq<Entry>, kind: Kind, k: nat, opening: seq<int>)
      returns (b': Books)
    requires k <= |rows| && BooksSound(b, opening) && StakeRows(rows)
    requires kind.ParimutuelRefund? || kind.MarketCancelRefund?
    requires forall j :: 0 <= j < |rows| ==> rows[j].user < |b.wallets|
    ensures RefundFrom(b, rows, kind, k) == Some(b') && BooksSound(b', opening) && |b'.wallets| == |b.wallets|
    ensures Sum(AllStakes(), b'.ledger) == Sum(AllStakes(), b.ledger)
    ensures Sum(PaidOut(), b'.ledger) - Sum(PaidOut(), b.ledger) == Sum(AllStakes(), rows) - Sum(AllStakes(), rows[..k])
    ensures forall u :: 0 <= u < |b.wallets| ==> b'.wallets[u] == b.wallets[u].(
      available := b.wallets[u].available + Sum(StakesBy(u), rows) - Sum(StakesBy(u), rows[..k]))
    decreases |rows| - k
  {
    if k == |rows| {
      b' := b;
      assert rows[..k] == rows;
    } else {
      var next := PayOne(b, rows[k].user, kind, rows[k].amount, opening);
      b' := RefundLoop(next, rows, kind, k + 1, opening);
      SumPrefix(AllStakes(), rows, k);
      forall u: nat ensures Sum(StakesBy(u), rows[..k + 1])
        == Sum(StakesBy(u), rows[..k]) + if rows[k].user == u then rows[k].amount else 0
      {
        SumPrefix(StakesBy(u), rows, k);
      }
    }
  }

  /** What the refund loop pays it records under the given kind. */
  lemma {:induction false} RefundRows(b: Books, rows: seq<Entry>, kind: Kind, k: nat, b': Books)
    requires k <= |rows| && RefundFrom(b, rows, kind, k) == Some(b')
    ensures Sum(RowsOf(kind), b'.ledger) - Sum(RowsOf(kind), b.ledger)
         == Sum(AllStakes(), rows) - Sum(AllStakes(), rows[..k])
    decreases |rows| - k
  {
    if k == |rows| {
      assert rows[..k] == rows;
    } else {
      SumPrefix(AllStakes(), rows, k);
      var next := b;
      if rows[k].kind.ParimutuelStake? {
        var e := Entry(rows[k].user, kind, Credit, rows[k].amount);
        next := MoveAndPost(b, rows[k].amount, e).value;
        SumAppend(RowsOf(kind), b.ledger, e);
      }
      RefundRows(next, rows, kind, k + 1, b');
    }
  }

  lemma {:induction false} FlowIsStake(ledger: seq<Entry>, user: nat)
    requires StakeRows(ledger)
    ensures Sum(Flow(user), ledger) == -Sum(StakesBy(user), ledger)
  {
    if ledger != [] {
      var e := ledger[|ledger| - 1];
      FlowIsStake(ledger[..|ledger| - 1], user);
      assert Flow(user)(e) == if Owner(e) == user then Signed(e) else 0;
    }
  }

  lemma TakeoutWithinPool(s: State)
    requires s.TotalPool() >= 0 && 0 <= s.takeoutBps <= 10_000
    ensures 0 <= Takeout(s) <= s.TotalPool()
    ensures s.TotalPool() * s.takeoutBps <= Takeout(s) * 10_000 < s.TotalPool() * s.takeoutBps + 10_000
  {
    assert 0 <= s.TotalPool() * s.takeoutBps <= s.TotalPool() * 10_000;
    CeilDivBounds(s.TotalPool() * s.takeoutBps, BPS);
  }

  // ----- the end of a market

  /** What an ended market has paid: after settlement at most what was staked, after cancellation all
      of it. */
  ghost predicate PaidUp(s: State) {
    || (s.status.Settled? && Sum(PaidOut(), s.books.ledger) <= s.TotalPool() == Sum(AllStakes(), s.books.ledger))
    || (s.status.Cancelled? && s.TotalPool() == 0 && Sum(PaidOut(), s.books.ledger) == Sum(AllStakes(), s.books.ledger))
  }

  /** Everything true of every reachable state. */
  ghost predicate Kept(s: State, opening: seq<int>) {
    if InPlay(s) then Inv(s, opening) else PaidUp(s)
  }

  lemma NothingPaidOut(ledger: seq<Entry>)
    requires StakeRows(ledger)
    ensures Sum(PaidOut(), ledger) == 0
  {
    SumZero(PaidOut(), ledger);
  }

  lemma PoolIsStaked(s: State, opening: seq<int>)
    requires Inv(s, opening)
    ensures s.TotalPool() == Sum(AllStakes(), s.books.ledger)
  {
    SidesAddUp(s.books.ledger);
    assert s.Pool(YES) == Sum(StakesOn(YES), s.books.ledger) && s.Pool(NO) == Sum(StakesOn(NO), s.books.ledger);
  }

  lemma SettledIsPaidUp(s: State, outcome: Side, opening: seq<int>)
    requires Inv(s, opening) && InPlay(s)
    ensures Settle(s, outcome).Some? && PaidUp(Settle(s, outcome).value)
  {
    NothingPaidOut(s.books.ledger);
    PoolIsStaked(s, opening);
    if s.Pool(outcome) == 0 {
      StakesReturned(s, outcome, "", opening);
    } else {
      assert s.Pool(outcome) == Sum(StakesOn(outcome), s.books.ledger) >= 0;
      var settled := SettlementPays(s, outcome, opening);
      DustIsBounded(s.books.ledger, outcome, s.TotalPool() - Takeout(s), s.Pool(outcome));
    }
  }

  lemma CancelledIsPaidUp(s: State, reason: string, opening: seq<int>)
    requires Inv(s, opening) && InPlay(s) && |reason| >= 10
    ensures CancelMarket(s, reason).Some? && PaidUp(CancelMarket(s, reason).value)
  {
    NothingPaidOut(s.books.ledger);
    PoolIsStaked(s, opening);
    StakesReturned(s, YES, reason, opening);
  }

  // ----- whole runs

  /** Every step of every service keeps it. */
  lemma NextKeeps(s: State, step: Step, opening: seq<int>)
    requires Kept(s, opening)
    ensures Kept(Next(s, step), opening)
  {
    if InPlay(s) {
      match step
      case PlaceStake(user, side, stake, pastClose) =>
        if Attempt(s, step).Some? {
          StakeKeeps(s, user, side, stake, pastClose, Attempt(s, step).value, opening);
        }
      case CloseMarket =>
      case SettleMarket(outcome) => SettledIsPaidUp(s, outcome, opening);
      case AbortMarket(reason) =>
        if |reason| >= 10 {
          CancelledIsPaidUp(s, reason, opening);
        }
    }
  }

  lemma {:induction false} AlwaysKept(s: State, steps: seq<Step>)
    requires Fresh(s)
    ensures Kept(Run(s, steps), OpeningOf(s.books.wallets))
  {
    if steps == [] {
      FreshBooksSound(s.books);
    } else {
      AlwaysKept(s, steps[..|steps| - 1]);
      NextKeeps(Run(s, steps[..|steps| - 1]), steps[|steps| - 1], OpeningOf(s.books.wallets));
    }
  }

  lemma RunKeeps(s: State, steps: seq<Step>)
    requires Fresh(s) && InPlay(Run(s, steps))
    ensures Inv(Run(s, steps), OpeningOf(s.books.wallets))
  {
    AlwaysKept(s, steps);
  }

  /** Settlement with a winning pool always goes through and credits each user the shares of their winning
      entries, each its pro-rata part of the pool after takeout, rounded down. */
  lemma SettlementPays(s: State, outcome: Side, opening: seq<int>) returns (s': State)
    requires Inv(s, opening) && InPlay(s) && s.Pool(outcome) > 0
    ensures Settle(s, outcome) == Some(s') && s'.status.Settled? && |s'.books.wallets| == |s.books.wallets|
    ensures 0 <= Takeout(s) <= s.TotalPool()
    ensures Sum(AllStakes(), s'.books.ledger) == Sum(AllStakes(), s.books.ledger) && s'.TotalPool() == s.TotalPool()
    ensures var a := s.TotalPool() - Takeout(s);
      && (Sum(PaidOut(), s'.books.ledger) - Sum(PaidOut(), s.books.ledger)
            == Sum(SharesOf(outcome, a, s.Pool(outcome)), s.books.ledger))
      && (forall u :: 0 <= u < |s.books.wallets| ==> s'.books.wallets[u] == s.books.wallets[u].(
            available := s.books.wallets[u].available + Sum(SharesBy(u, outcome, a, s.Pool(outcome)), s.books.ledger)))
      && (forall k :: 0 <= k < |s.books.ledger| ==> ProRata(s.books.ledger[k], outcome, a, s.Pool(outcome)))
  {
    assert s.Pool(YES) >= 0 && s.Pool(NO) >= 0;
    TakeoutWithinPool(s);
    SharesAreProRata(s.books.ledger, outcome, s.TotalPool() - Takeout(s), s.Pool(outcome));
    var paid := PayoutLoop(s.books, s.books.ledger, outcome, s.TotalPool() - Takeout(s), s.Pool(outcome), 0, opening);
    assert s.books.ledger[..0] == [];
    s' := Settle(s, outcome).value;
  }

  /** Settlement with a winning pool: what is paid, the takeout and the dust make up the total pool,
      the takeout is the rate rounded up, and the dust is less than one unit per winning entry. */
  lemma SettlementIsBounded(s: State, steps: seq<Step>, outcome: Side)
    requires Fresh(s) && InPlay(Run(s, steps)) && Run(s, steps).Pool(outcome) > 0
    ensures var now := Run(s, steps);
            var r := Settle(now, outcome);
      && r.Some? && r.value.status.Settled?
      && now.TotalPool() * now.takeoutBps <= Takeout(now) * 10_000 < now.TotalPool() * now.takeoutBps + 10_000
      && var paid := Sum(PaidOut(), r.value.books.ledger) - Sum(PaidOut(), now.books.ledger);
         var dust := now.TotalPool() - Takeout(now) - paid;
         0 <= dust < Sum(WinningEntries(outcome), now.books.ledger)
  {
    RunKeeps(s, steps);
    var now := Run(s, steps);
    var settled := SettlementPays(now, outcome, OpeningOf(s.books.wallets));
    TakeoutWithinPool(now);
    DustIsBounded(now.books.ledger, outcome, now.TotalPool() - Takeout(now), now.Pool(outcome));
  }

  /** Cancelling, or settling a side nobody backed, always goes through and returns every stake. */
  lemma StakesReturned(s: State, outcome: Side, reason: string, opening: seq<int>)
    requires Inv(s, opening) && InPlay(s)
    ensures |reason| >= 10 ==>
      var c := CancelMarket(s, reason);
      c.Some? && Returned(s, MarketCancelRefund, c.value) && c.value.TotalPool() == 0
    ensures s.Pool(outcome) == 0 ==>
      Settle(s, outcome).Some? && Returned(s, ParimutuelRefund, Settle(s, outcome).value)
  {
    var b := AllReturned(s, MarketCancelRefund, opening);
    var b2 := AllReturned(s, ParimutuelRefund, opening);
  }

  lemma AllReturned(s: State, kind: Kind, opening: seq<int>) returns (b: Books)
    requires Inv(s, opening) && (kind.ParimutuelRefund? || kind.MarketCancelRefund?)
    ensures RefundFrom(s.books, s.books.ledger, kind, 0) == Some(b) && Returned(s, kind, s.(books := b))
  {
    assert s.books.ledger[..0] == [];
    PoolIsStaked(s, opening);
    b := RefundLoop(s.books, s.books.ledger, kind, 0, opening);
    RefundRows(s.books, s.books.ledger, kind, 0, b);
  }

  /** Every user has their stakes back, and in all the total pool was paid out, as rows of the kind. */
  ghost predicate Returned(s: State, kind: Kind, end: State) {
    && |end.books.wallets| == |s.books.wallets|
    && (forall u :: 0 <= u < |s.books.wallets| ==> end.books.wallets[u] == s.books.wallets[u].(
          available := s.books.wallets[u].available + Sum(StakesBy(u), s.books.ledger)))
    && Sum(PaidOut(), end.books.ledger) - Sum(PaidOut(), s.books.ledger) == s.TotalPool()
    && Sum(RowsOf(kind), end.books.ledger) - Sum(RowsOf(kind), s.books.ledger) == s.TotalPool()
    && Sum(AllStakes(), end.books.ledger) == Sum(AllStakes(), s.books.ledger)
  }

  /** Round trip: settling on a side nobody backed, or cancelling, pays back exactly the total pool
      and leaves every user with the wallet they started with. */
  lemma RefundsRestoreEverybody(s: State, steps: seq<Step>, outcome: Side, reason: string, user: nat)
    requires Fresh(s) && InPlay(Run(s, steps)) && |reason| >= 10 && user < |s.books.wallets|
    ensures var now := Run(s, steps);
            var c := CancelMarket(now, reason);
            var r := Settle(now, outcome);
      && c.Some? && Restored(s, now, c.value, user) && c.value.TotalPool() == 0
      && (now.Pool(outcome) == 0 ==> r.Some? && Restored(s, now, r.value, user))
  {
    RunKeeps(s, steps);
    var now := Run(s, steps);
    var opening := OpeningOf(s.books.wallets);
    FlowIsStake(now.books.ledger, user);
    ReservesUntouched(s, steps, user);
    assert Drift(now.books, opening, user) == 0;
    StakesReturned(now, outcome, reason, opening);
  }

  ghost predicate Restored(s: State, now: State, end: State, user: nat) {
    && user < |s.books.wallets| == |end.books.wallets|
    && end.books.wallets[user] == s.books.wallets[user]
    && Sum(PaidOut(), end.books.ledger) - Sum(PaidOut(), now.books.ledger) == now.TotalPool()
  }

  lemma {:induction false} ReservesUntouched(s: State, steps: seq<Step>, user: nat)
    requires Fresh(s) && InPlay(Run(s, steps)) && user < |s.books.wallets|
    ensures |Run(s, steps).books.wallets| == |s.books.wallets|
    ensures Run(s, steps).books.wallets[user].reserved == s.books.wallets[user].reserved
  {
    if steps != [] {
      assert InPlay(Run(s, steps[..|steps| - 1]));
      ReservesUntouched(s, steps[..|steps| - 1], user);
    }
  }

  /** Single payout: a market that has ended has paid out at most what was staked, or after cancellation
      exactly that; and no later call changes anything. */
  lemma EndedIsFinal(s: State, steps: seq<Step>, step: Step)
    requires Fresh(s) && !InPlay(Run(s, steps))
    ensures PaidUp(Run(s, steps)) && Next(Run(s, steps), step) == Run(s, steps)
  {
    AlwaysKept(s, steps);
  }
}
