/** The wallets table and the append-only ledger, which all four mechanisms share. */
module Ledgers {
  import opened Sums

  datatype Side = YES | NO

  function Opposite(side: Side): Side {
    if side == YES then NO else YES
  }

  datatype MarketStatus = Draft | Open | Settled | Cancelled | Closed

  datatype Wallet = Wallet(available: int, reserved: int) {
    function Total(): int {
      available + reserved
    }
  }

  datatype Kind =
    | OrderFillStake
    | OrderFillCredit
    | ClobSellCredit
    | ClobFee
    | SettlementWin
    | MarketCancelRefund
    | MarketCancelClawback(requested: int)
    | LmsrTradeStake
    | LmsrFee
    | ParimutuelStake(side: Side)
    | ParimutuelRefund
    | BetStake
    | BetWinPayout
    | BetVoidRefund
    | BetCashoutPayout
    | BetCashoutFee
    | Elsewhere  // a row written by another market or by the faucet

  datatype Posting = Credit | Debit

  datatype Entry = Entry(user: nat, kind: Kind, posting: Posting, amount: int)

  /** User ids index the wallets table; the ledger is in id order. */
  datatype Books = Books(wallets: seq<Wallet>, ledger: seq<Entry>)

  /** `wallet.lock!` and `update!` by two deltas: raises for a missing wallet or a negative balance. */
  function Move(b: Books, user: nat, toAvailable: int, toReserved: int): (r: Option<Books>)
    ensures r.Some? ==> |r.value.wallets| == |b.wallets|
  {
    if user >= |b.wallets| then None
    else
      var w := Wallet(b.wallets[user].available + toAvailable, b.wallets[user].reserved + toReserved);
      if w.available < 0 || w.reserved < 0 then None else Some(b.(wallets := b.wallets[user := w]))
  }

  /** `LedgerEntry.create!`: raises unless the amount is positive. */
  function Post(b: Books, e: Entry): (r: Option<Books>)
    ensures r.Some? ==> r.value.wallets == b.wallets
  {
    if e.amount <= 0 then None else Some(b.(ledger := b.ledger + [e]))
  }

  /** A wallet update followed by its ledger row. */
  function MoveAndPost(b: Books, toAvailable: int, e: Entry): (r: Option<Books>)
    ensures r.Some? ==> |r.value.wallets| == |b.wallets|
  {
    var moved :- Move(b, e.user, toAvailable, 0);
    Post(moved, e)
  }

  // What the services compute with. What is proved of them is stated in the numbers themselves.
  const CONTRACT_MINOR := 100
  const BPS := 10_000
  const MIN_REASON := 10

  /** An insertion-ordered hash from users to amounts, as the cancellation service builds them. */
  datatype Tally = Tally(users: seq<nat>, net: map<nat, int>) {
    function At(user: nat): int {
      if user in net then net[user] else 0
    }

    function Add(user: nat, amount: int): Tally {
      Tally(if user in net then users else users + [user], net[user := At(user) + amount])
    }
  }

  // ----- reading the ledger

  /** What a row does to its user's available + reserved. ORDER_FILL_CREDIT is recorded as a credit
      although it is stake leaving the maker's reserve; BET_CASHOUT_FEE is recorded as a debit although
      the payout beside it is already net of the fee. */
  function Signed(e: Entry): int {
    if e.kind.BetCashoutFee? && e.posting.Debit? then 0
    else if e.kind.OrderFillCredit? || e.posting.Debit? then -e.amount
    else e.amount
  }

  /** What a reader would assume who trusts the direction column. */
  function ByDirection(e: Entry): int {
    if e.posting.Debit? then -e.amount else e.amount
  }

  function Owner(e: Entry): nat {
    e.user
  }

  function FillCredits(e: Entry): int {
    if e.kind.OrderFillCredit? && e.posting.Credit? then e.amount else 0
  }

  function FillCreditsOf(user: nat): (f: Entry -> int)
    ensures forall e :: f(e) == if Owner(e) == user then FillCredits(e) else 0
  {
    Part(FillCredits, Owner, user)
  }

  function CashoutFees(e: Entry): int {
    if e.kind.BetCashoutFee? && e.posting.Debit? then e.amount else 0
  }

  function CashoutFeesOf(user: nat): (f: Entry -> int)
    ensures forall e :: f(e) == if Owner(e) == user then CashoutFees(e) else 0
  {
    Part(CashoutFees, Owner, user)
  }

  /** What settlement paid to winners. */
  function Winnings(): (f: Entry -> int)
    ensures forall e :: f(e) == if e.kind.SettlementWin? then e.amount else 0
  {
    (e: Entry) => if e.kind.SettlementWin? then e.amount else 0
  }

  /** Amounts recorded under one kind. */
  function RowsOf(kind: Kind): (f: Entry -> int)
    ensures forall e :: f(e) == if e.kind == kind then e.amount else 0
  {
    (e: Entry) => if e.kind == kind then e.amount else 0
  }

  /** What cancelling a market repaid, what it took back, and what it could not take back. */
  function Refunds(): (f: Entry -> int)
    ensures forall e :: f(e) == if e.kind.MarketCancelRefund? then e.amount else 0
  {
    RowsOf(MarketCancelRefund)
  }

  function Clawbacks(): (f: Entry -> int)
    ensures forall e :: f(e) == if e.kind.MarketCancelClawback? then e.amount else 0
  {
    (e: Entry) => if e.kind.MarketCancelClawback? then e.amount else 0
  }

  function Shortfalls(): (f: Entry -> int)
    ensures forall e :: f(e) == if e.kind.MarketCancelClawback? then e.kind.requested - e.amount else 0
  {
    (e: Entry) => if e.kind.MarketCancelClawback? then e.kind.requested - e.amount else 0
  }

  /** Signed rows of one user, and the same under the direction column. */
  function Flow(user: nat): (f: Entry -> int)
    ensures forall e :: f(e) == if Owner(e) == user then Signed(e) else 0
  {
    Part(Signed, Owner, user)
  }

  function NaiveFlow(user: nat): (f: Entry -> int)
    ensures forall e :: f(e) == if Owner(e) == user then ByDirection(e) else 0
  {
    Part(ByDirection, Owner, user)
  }

  ghost predicate WalletsSound(b: Books) {
    forall u :: 0 <= u < |b.wallets| ==> b.wallets[u].available >= 0 && b.wallets[u].reserved >= 0
  }

  ghost predicate OwnersKnown(b: Books) {
    forall k :: 0 <= k < |b.ledger| ==> b.ledger[k].user < |b.wallets|
  }

  /** How far a wallet is ahead of the ledger, as it may be in the middle of a transaction. */
  ghost function Drift(b: Books, opening: seq<int>, user: nat): int
    requires |opening| == |b.wallets|
  {
    if user < |b.wallets| then b.wallets[user].Total() - opening[user] - Sum(Flow(user), b.ledger) else 0
  }

  /** Every user's balance is the opening balance plus the signed fold of their ledger rows. */
  ghost predicate Replays(b: Books, opening: seq<int>) {
    |opening| == |b.wallets| && forall u: nat :: Drift(b, opening, u) == 0
  }

  ghost predicate BooksSound(b: Books, opening: seq<int>) {
    WalletsSound(b) && OwnersKnown(b) && Replays(b, opening)
  }

  /** The opening balances a run starts from. */
  ghost function OpeningOf(wallets: seq<Wallet>): (opening: seq<int>)
    ensures |opening| == |wallets|
  {
    seq(|wallets|, u requires 0 <= u < |wallets| => wallets[u].Total())
  }

  lemma FreshBooksSound(b: Books)
    requires WalletsSound(b) && b.ledger == []
    ensures BooksSound(b, OpeningOf(b.wallets))
  {
    assert forall u: nat :: Drift(b, OpeningOf(b.wallets), u) == 0;
  }

  lemma MoveDrifts(b: Books, user: nat, toAvailable: int, toReserved: int, b': Books, opening: seq<int>)
    requires |opening| == |b.wallets| && Move(b, user, toAvailable, toReserved) == Some(b')
    ensures forall u: nat ::
      Drift(b', opening, u) == Drift(b, opening, u) + if u == user then toAvailable + toReserved else 0
  {
  }

  lemma PostDrifts(b: Books, e: Entry, b': Books, opening: seq<int>)
    requires |opening| == |b.wallets| && e.user < |b.wallets| && Post(b, e) == Some(b')
    ensures forall u: nat :: Drift(b', opening, u) == Drift(b, opening, u) - if u == e.user then Signed(e) else 0
  {
    forall u: nat ensures Drift(b', opening, u) == Drift(b, opening, u) - if u == e.user then Signed(e) else 0 {
      SumAppend(Flow(u), b.ledger, e);
    }
  }

  /** A wallet update and a row that tell the same story keep the ledger replayable. */
  lemma PostedMoveReplays(b: Books, toAvailable: int, e: Entry, b': Books, opening: seq<int>)
    requires BooksSound(b, opening) && MoveAndPost(b, toAvailable, e) == Some(b')
    requires Signed(e) == toAvailable
    ensures BooksSound(b', opening)
  {
    var moved := Move(b, e.user, toAvailable, 0).value;
    MoveDrifts(b, e.user, toAvailable, 0, moved, opening);
    PostDrifts(moved, e, b', opening);
  }

  lemma MoveWithinReplays(b: Books, user: nat, amount: int, b': Books, opening: seq<int>)
    requires BooksSound(b, opening) && Move(b, user, amount, -amount) == Some(b')
    ensures BooksSound(b', opening)
  {
    MoveDrifts(b, user, amount, -amount, b', opening);
  }

  /** Conservation: money held in wallets is the opening money plus everything the ledger recorded. */
  lemma MoneyConserved(b: Books, opening: seq<int>)
    requires BooksSound(b, opening)
    ensures Sum((w: Wallet) => w.Total(), b.wallets) == Sum((x: int) => x, opening) + Sum(Signed, b.ledger)
  {
    MoneyUpTo(b, opening, |opening|);
    SumByUserIsSum(Signed, Owner, b.ledger, |opening|);
    assert b.wallets[..|opening|] == b.wallets && opening[..|opening|] == opening;
  }

  lemma {:induction false} MoneyUpTo(b: Books, opening: seq<int>, n: nat)
    requires BooksSound(b, opening) && n <= |opening|
    ensures Sum((w: Wallet) => w.Total(), b.wallets[..n])
         == Sum((x: int) => x, opening[..n]) + SumByUser(Signed, Owner, b.ledger, n)
  {
    if n > 0 {
      MoneyUpTo(b, opening, n - 1);
      assert Drift(b, opening, n - 1) == 0;
      assert b.wallets[..n][..n - 1] == b.wallets[..n - 1];
      assert opening[..n][..n - 1] == opening[..n - 1];
    }
  }

  /** Replaying by the direction column overstates a user by exactly twice their ORDER_FILL_CREDIT
      rows and understates them by exactly their BET_CASHOUT_FEE rows. */
  lemma {:induction false} DirectionColumnIsOff(ledger: seq<Entry>, user: nat)
    ensures Sum(NaiveFlow(user), ledger)
         == Sum(Flow(user), ledger) + 2 * Sum(FillCreditsOf(user), ledger) - Sum(CashoutFeesOf(user), ledger)
  {
    if ledger != [] {
      var e := ledger[|ledger| - 1];
      DirectionColumnIsOff(ledger[..|ledger| - 1], user);
    }
  }
}
