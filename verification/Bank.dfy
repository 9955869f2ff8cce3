/** The bank's account book: balances by account number, and the latest reservation per account. */
module Bank {
  import opened Sums

  /** `reservations` holds one entry per account, so a second hold overwrites the first. */
  datatype Book = Book(accounts: map<string, int>, reservations: map<string, int>)

  /** What the four bank calls (reserve, release, credit, reverse credit) do to one account. */
  datatype Operation = Hold | Release | Deposit | Withdraw

  predicate Solvent(b: Book) {
    forall a :: a in b.accounts ==> 0 <= b.accounts[a]
  }

  ghost function Total(b: Book): int {
    SumMap(b.accounts)
  }

  /** How much one successful operation adds to the account it names. */
  function Delta(op: Operation, amount: int): int {
    if op.Release? || op.Deposit? then amount else -amount
  }

  /** Only the two debits look at the balance; a hold that was overwritten is never consulted. */
  predicate Accepts(b: Book, op: Operation, account: string, amount: int) {
    account in b.accounts && (op.Hold? || op.Withdraw? ==> amount <= b.accounts[account])
  }

  function Apply(b: Book, op: Operation, account: string, amount: int): Book {
    if !Accepts(b, op, account, amount) then b
    else
      Book(b.accounts[account := b.accounts[account] + Delta(op, amount)],
           match op
           case Hold => b.reservations[account := amount]
           case Withdraw => b.reservations
           case _ => b.reservations - {account})
  }

  /** An accepted operation moves the total by exactly its delta, a refused one not at all. */
  lemma ApplyMovesTotal(b: Book, op: Operation, account: string, amount: int)
    ensures Total(Apply(b, op, account, amount))
         == Total(b) + (if Accepts(b, op, account, amount) then Delta(op, amount) else 0)
  {
    if Accepts(b, op, account, amount) {
      SumMapUpdate(b.accounts, account, b.accounts[account] + Delta(op, amount));
    }
  }

  /** Releasing undoes reserving and reversing undoes crediting, account by account. */
  lemma CompensationInverts(b: Book, op: Operation, account: string, amount: int)
    requires 0 <= amount && Solvent(b)
    requires op.Hold? || op.Deposit?
    requires Accepts(b, op, account, amount)
    ensures var undo := if op.Hold? then Release else Withdraw;
            var held := Apply(b, op, account, amount);
            Accepts(held, undo, account, amount)
            && Apply(held, undo, account, amount).accounts == b.accounts
  {
    var undo := if op.Hold? then Release else Withdraw;
    var held := Apply(b, op, account, amount);
    assert Apply(held, undo, account, amount).accounts[account] == b.accounts[account];
  }

  class BankState {
    var accounts: map<string, int>
    var reservations: map<string, int>

    function Contents(): Book
      reads this
    {
      Book(accounts, reservations)
    }

    constructor ()
      ensures Contents() == Book(map[], map[])
    {
      accounts, reservations := map[], map[];
    }

    method AddAccount(number: string, balance: int) returns (ok: bool)
      modifies this
      ensures ok <==> number !in old(accounts)
      ensures accounts == if ok then old(accounts)[number := balance] else old(accounts)
      ensures reservations == old(reservations)
    {
      if number in accounts {
        return false;
      }
      accounts := accounts[number := balance];
      return true;
    }

    method Reserve(account: string, amount: int) returns (ok: bool)
      modifies this
      ensures ok <==> old(account in accounts && amount <= accounts[account])
      ensures Contents() == Apply(old(Contents()), Hold, account, amount)
      ensures accounts == if ok then old(accounts)[account := old(accounts)[account] - amount] else old(accounts)
      ensures reservations == if ok then old(reservations)[account := amount] else old(reservations)
    {
      if account !in accounts {
        return false;
      }
      if accounts[account] < amount {
        return false;
      }
      accounts := accounts[account := accounts[account] - amount];
      reservations := reservations[account := amount];
      return true;
    }

    method ReleaseReservation(account: string, amount: int) returns (ok: bool)
      modifies this
      ensures ok <==> account in old(accounts)
      ensures Contents() == Apply(old(Contents()), Release, account, amount)
      ensures accounts == if ok then old(accounts)[account := old(accounts)[account] + amount] else old(accounts)
      ensures reservations == if ok then old(reservations) - {account} else old(reservations)
    {
      if account !in accounts {
        return false;
      }
      reservations := reservations - {account};
      accounts := accounts[account := accounts[account] + amount];
      return true;
    }

    method Credit(account: string, amount: int) returns (ok: bool)
      modifies this
      ensures ok <==> account in old(accounts)
      ensures Contents() == Apply(old(Contents()), Deposit, account, amount)
      ensures accounts == if ok then old(accounts)[account := old(accounts)[account] + amount] else old(accounts)
      ensures reservations == if ok then old(reservations) - {account} else old(reservations)
    {
      if account !in accounts {
        return false;
      }
      accounts := accounts[account := accounts[account] + amount];
      reservations := reservations - {account};
      return true;
    }

    method ReverseCredit(account: string, amount: int) returns (ok: bool)
      modifies this
      ensures ok <==> old(account in accounts && amount <= accounts[account])
      ensures Contents() == Apply(old(Contents()), Withdraw, account, amount)
      ensures accounts == if ok then old(accounts)[account := old(accounts)[account] - amount] else old(accounts)
      ensures reservations == old(reservations)
    {
      if account !in accounts {
        return false;
      }
      if accounts[account] < amount {
        return false;
      }
      accounts := accounts[account := accounts[account] - amount];
      return true;
    }
  }
}
