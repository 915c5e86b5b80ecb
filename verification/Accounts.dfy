/** The wallets and ledger tables as the services update them. */
module Accounting {
  import opened Ledgers

  class Accounts {
    var wallets: seq<Wallet>
    var ledger: seq<Entry>

    constructor (wallets: seq<Wallet>)
      ensures Contents() == Books(wallets, [])
    {
      this.wallets := wallets;
      this.ledger := [];
    }

    ghost function Contents(): Books
      reads this
    {
      Books(wallets, ledger)
    }

    /** `wallet.lock!` and `update!` by two deltas. */
    method Update(user: nat, toAvailable: int, toReserved: int) returns (ok: bool)
      modifies this`wallets
      ensures ok == Move(old(Contents()), user, toAvailable, toReserved).Some?
      ensures ok ==> Contents() == Move(old(Contents()), user, toAvailable, toReserved).value
      ensures !ok ==> wallets == old(wallets)
    {
      if user >= |wallets| {
        return false;
      }
      var available := wallets[user].available + toAvailable;
      var reserved := wallets[user].reserved + toReserved;
      if available < 0 || reserved < 0 {
        return false;
      }
      wallets := wallets[user := Wallet(available, reserved)];
      return true;
    }

    /** `LedgerEntry.create!`. */
    method Create(e: Entry) returns (ok: bool)
      modifies this`ledger
      ensures ok == Post(old(Contents()), e).Some?
      ensures ok ==> Contents() == Post(old(Contents()), e).value
      ensures !ok ==> ledger == old(ledger)
    {
      if e.amount <= 0 {
        return false;
      }
      ledger := ledger + [e];
      return true;
    }

    /** A wallet update followed by its ledger row. */
    method UpdateAndCreate(toAvailable: int, e: Entry) returns (ok: bool)
      modifies this
      ensures ok == MoveAndPost(old(Contents()), toAvailable, e).Some?
      ensures ok ==> Contents() == MoveAndPost(old(Contents()), toAvailable, e).value
    {
      ok := Update(e.user, toAvailable, 0);
      if ok {
        ok := Create(e);
      }
    }

    /** What a raised error does to the transaction. */
    method Restore(wallets: seq<Wallet>, ledger: seq<Entry>)
      modifies this
      ensures Contents() == Books(wallets, ledger)
    {
      this.wallets := wallets;
      this.ledger := ledger;
    }
  }
}
