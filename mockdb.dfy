/** The ledger store: one object holding the four collections that the source
    keeps as a single persisted blob. Each operation reads the blob, checks its
    guards in a fixed order, updates the collections in place and writes the
    blob back; here reading and writing the blob is reading and writing the
    fields. A failing operation returns `Err` before anything is changed. */
module MockDb {
  import opened Ledger

  class Db {
    var accounts: seq<Account>
    var transactions: seq<Transaction>   // newest first
    var payees: seq<Payee>
    var recipients: seq<Recipient>

    /** The store invariant: every balance is what the history makes of the
        seed balances, no balance is negative, and no collection repeats an id. */
    ghost predicate Valid()
      reads this
    {
      && accounts == Replay(SeedAccounts, transactions)
      && NonNegative(accounts)
      && Distinct(TxIds(transactions))
      && Distinct(PayeeIds(payees))
      && Distinct(RecipientIds(recipients))
    }

    /** The first load, when nothing is stored yet: the seed fixture. */
    constructor ()
      ensures Valid()
      ensures accounts == SeedAccounts && transactions == []
      ensures payees == SeedPayees && recipients == SeedRecipients
    {
      accounts, transactions := SeedAccounts, [];
      payees, recipients := SeedPayees, SeedRecipients;
      ReplayEmpty(SeedAccounts);
      SeedIdsDistinct();
    }

    /** Discards everything and stores the seed fixture again. */
    method Reset()
      modifies this
      ensures Valid()
      ensures accounts == SeedAccounts && transactions == []
      ensures payees == SeedPayees && recipients == SeedRecipients
    {
      accounts, transactions := SeedAccounts, [];
      payees, recipients := SeedPayees, SeedRecipients;
      ReplayEmpty(SeedAccounts);
      SeedIdsDistinct();
    }

    /** The stored accounts: the seed accounts, in seed order, each with the
        balance its history gives it, none negative. */
    method GetAccounts() returns (r: seq<Account>)
      requires Valid()
      ensures r == accounts
      ensures AccountIds(r) == AccountIds(SeedAccounts)
      ensures forall k :: 0 <= k < |r| ==> r[k].balance == SeedAccounts[k].balance + Net(transactions, r[k].id)
      ensures NonNegative(r)
    {
      r := accounts;
      ReplayKeepsIds(SeedAccounts, transactions);
    }

    /** The stored history, newest first, with no id repeated. */
    method GetTransactions() returns (r: seq<Transaction>)
      requires Valid()
      ensures r == transactions && Distinct(TxIds(r))
    {
      r := transactions;
    }

    method GetPayees() returns (r: seq<Payee>)
      requires Valid()
      ensures r == payees && Distinct(PayeeIds(r))
    {
      r := payees;
    }

    method GetRecipients() returns (r: seq<Recipient>)
      requires Valid()
      ensures r == recipients && Distinct(RecipientIds(r))
    {
      r := recipients;
    }

    /** Debits `fromAccountId` by `amount` and records a `send`; a recipient
        given as a bare contact is also added to the directory. `txId` and
        `newRecipientId` stand for the fresh ids the source generates, `now`
        for the current time. */
    method SendMoney(fromAccountId: string, recipient: RecipientArg, amount: Cents,
                     note: Option<string>, txId: string, newRecipientId: string, now: string)
      returns (r: Result<Transaction>)
      requires Valid()
      requires txId !in TxIds(transactions)
      requires newRecipientId !in RecipientIds(recipients)
      modifies this
      ensures Valid()
      ensures r.Err? ==> unchanged(this)
      ensures r.Refusal() == SendRefusal(old(accounts), fromAccountId, amount)
      ensures r.Ok? ==>
        var i := IndexOf(AccountIds(old(accounts)), fromAccountId).value;
        && accounts == Credit(old(accounts), i, -amount)
        && 0 <= accounts[i].balance == old(accounts)[i].balance - amount
        && Total(accounts) == Total(old(accounts)) - amount
        && r.value == Transaction(txId, TxType.Send, -amount, Some(fromAccountId), None,
                                  Some(recipient.Contact()),
                                  Some(NoteOr(note, "Send to " + recipient.Contact())), now)
        && transactions == [r.value] + old(transactions)
        && payees == old(payees)
        && recipients == match recipient
                         case Listed(_) => old(recipients)
                         case NewContact(name, contact) =>
                           [Recipient(newRecipientId, OrElse(name, contact), contact)] + old(recipients)
    {
      var accs, history := accounts, transactions;    // load
      var refusal := SendRefusal(accs, fromAccountId, amount);
      if refusal.Some? { return Err(refusal.value); }     // throw
      var i := IndexOf(AccountIds(accs), fromAccountId).value;

      accs := Credit(accs, i, -amount);   // from.balance -= amount

      var contact := recipient.Contact();
      var tx := Transaction(txId, TxType.Send, -amount, Some(fromAccountId), None,
                            Some(contact), Some(NoteOr(note, "Send to " + contact)), now);
      var txs := [tx] + history;

      var dir := recipients;
      if recipient.NewContact? {
        var entry := Recipient(newRecipientId, OrElse(recipient.name, contact), contact);
        RecipientIdsPrepend(entry, dir);
        dir := [entry] + dir;
      }

      DebitKeepsInvariant(history, accounts, tx, i, amount);
      TxIdsPrepend(tx, history);
      TotalCredit(accounts, i, -amount);
      accounts, transactions, recipients := accs, txs, dir;   // save
      r := Ok(tx);
    }

    /** Moves `amount` from one account to another and records the pair
        txOut, txIn; txIn ends up newest. */
    method Transfer(fromAccountId: string, toAccountId: string, amount: Cents,
                    note: Option<string>, outId: string, inId: string, outAt: string, inAt: string)
      returns (r: Result<TransferRecords>)
      requires Valid()
      requires outId !in TxIds(transactions) && inId !in TxIds(transactions) && outId != inId
      modifies this
      ensures Valid()
      ensures r.Err? ==> unchanged(this)
      ensures r.Refusal() == TransferRefusal(old(accounts), fromAccountId, toAccountId, amount)
      ensures r.Ok? ==>
        var f := IndexOf(AccountIds(old(accounts)), fromAccountId).value;
        var t := IndexOf(AccountIds(old(accounts)), toAccountId).value;
        && f != t
        && accounts == Credit(Credit(old(accounts), f, -amount), t, amount)
        && 0 <= accounts[f].balance == old(accounts)[f].balance - amount
        && accounts[t].balance == old(accounts)[t].balance + amount
        && accounts[f].balance + accounts[t].balance == old(accounts)[f].balance + old(accounts)[t].balance
        && Total(accounts) == Total(old(accounts))
        && r.value.txOut == Transaction(outId, TxType.Transfer, -amount, Some(fromAccountId), Some(toAccountId),
                                        None, Some(NoteOr(note, "Transfer to " + old(accounts)[t].name)), outAt)
        && r.value.txIn == Transaction(inId, TxType.Transfer, amount, Some(fromAccountId), Some(toAccountId),
                                       None, Some(NoteOr(note, "Transfer from " + old(accounts)[f].name)), inAt)
        && transactions == [r.value.txIn, r.value.txOut] + old(transactions)
        && payees == old(payees) && recipients == old(recipients)
    {
      var accs, history := accounts, transactions;    // load
      var refusal := TransferRefusal(accs, fromAccountId, toAccountId, amount);
      if refusal.Some? { return Err(refusal.value); }     // throw
      var f, t := IndexOf(AccountIds(accs), fromAccountId).value, IndexOf(AccountIds(accs), toAccountId).value;
      var fromName, toName := accs[f].name, accs[t].name;

      accs := Credit(accs, f, -amount);   // from.balance -= amount
      accs := Credit(accs, t, amount);    // to.balance += amount

      var txOut := Transaction(outId, TxType.Transfer, -amount, Some(fromAccountId), Some(toAccountId),
                               None, Some(NoteOr(note, "Transfer to " + toName)), outAt);
      var txIn := Transaction(inId, TxType.Transfer, amount, Some(fromAccountId), Some(toAccountId),
                              None, Some(NoteOr(note, "Transfer from " + fromName)), inAt);
      var txs := [txOut] + history;
      txs := [txIn] + txs;

      TransferKeepsInvariant(history, accounts, txOut, txIn, f, t, amount);
      PrependTwice(txIn, txOut, history);
      accounts, transactions := accs, txs;            // save
      r := Ok(TransferRecords(txOut, txIn));
    }

    /** Debits `fromAccountId` by `amount` to pay payee `payeeId` and records a `bill`. */
    method PayBill(fromAccountId: string, payeeId: string, amount: Cents,
                   note: Option<string>, txId: string, now: string)
      returns (r: Result<Transaction>)
      requires Valid()
      requires txId !in TxIds(transactions)
      modifies this
      ensures Valid()
      ensures r.Err? ==> unchanged(this)
      ensures r.Refusal() == BillRefusal(old(accounts), old(payees), fromAccountId, payeeId, amount)
      ensures r.Ok? ==>
        var i := IndexOf(AccountIds(old(accounts)), fromAccountId).value;
        var p := old(payees)[IndexOf(PayeeIds(old(payees)), payeeId).value];
        && accounts == Credit(old(accounts), i, -amount)
        && 0 <= accounts[i].balance == old(accounts)[i].balance - amount
        && Total(accounts) == Total(old(accounts)) - amount
        && r.value == Transaction(txId, TxType.Bill, -amount, Some(fromAccountId), None, Some(p.name),
                                  Some(NoteOr(note, "Bill payment to " + p.name)), now)
        && transactions == [r.value] + old(transactions)
        && payees == old(payees) && recipients == old(recipients)
    {
      var accs, history := accounts, transactions;    // load
      var refusal := BillRefusal(accs, payees, fromAccountId, payeeId, amount);
      if refusal.Some? { return Err(refusal.value); }     // throw
      var i := IndexOf(AccountIds(accs), fromAccountId).value;
      var payee := payees[IndexOf(PayeeIds(payees), payeeId).value];

      accs := Credit(accs, i, -amount);   // from.balance -= amount

      var tx := Transaction(txId, TxType.Bill, -amount, Some(fromAccountId), None, Some(payee.name),
                            Some(NoteOr(note, "Bill payment to " + payee.name)), now);
      var txs := [tx] + history;

      DebitKeepsInvariant(history, accounts, tx, i, amount);
      TxIdsPrepend(tx, history);
      TotalCredit(accounts, i, -amount);
      accounts, transactions := accs, txs;            // save
      r := Ok(tx);
    }

    /** Credits `toAccountId` by `amount` and records a `deposit`; there is no
        funds check, so any existing account and positive amount succeeds. */
    method Deposit(toAccountId: string, amount: Cents, note: Option<string>, txId: string, now: string)
      returns (r: Result<Transaction>)
      requires Valid()
      requires txId !in TxIds(transactions)
      modifies this
      ensures Valid()
      ensures r.Err? ==> unchanged(this)
      ensures r.Refusal() == DepositRefusal(old(accounts), toAccountId, amount)
      ensures r.Ok? ==>
        var i := IndexOf(AccountIds(old(accounts)), toAccountId).value;
        && accounts == Credit(old(accounts), i, amount)
        && accounts[i].balance == old(accounts)[i].balance + amount
        && Total(accounts) == Total(old(accounts)) + amount
        && r.value == Transaction(txId, TxType.Deposit, amount, None, Some(toAccountId), None,
                                  Some(NoteOr(note, "Mobile deposit")), now)
        && transactions == [r.value] + old(transactions)
        && payees == old(payees) && recipients == old(recipients)
    {
      var accs, history := accounts, transactions;    // load
      var refusal := DepositRefusal(accs, toAccountId, amount);
      if refusal.Some? { return Err(refusal.value); }     // throw
      var i := IndexOf(AccountIds(accs), toAccountId).value;

      accs := Credit(accs, i, amount);    // to.balance += amount

      var tx := Transaction(txId, TxType.Deposit, amount, None, Some(toAccountId), None,
                            Some(NoteOr(note, "Mobile deposit")), now);
      var txs := [tx] + history;

      CreditKeepsInvariant(accounts, history, tx, i, amount);
      TxIdsPrepend(tx, history);
      TotalCredit(accounts, i, amount);
      accounts, transactions := accs, txs;            // save
      r := Ok(tx);
    }

    /** Adds a payee, under the fresh id `id`, to the front of the directory. */
    method AddPayee(name: string, accountNumber: string, id: string) returns (p: Payee)
      requires Valid()
      requires id !in PayeeIds(payees)
      modifies this
      ensures Valid()
      ensures p == Payee(id, name, accountNumber)
      ensures payees == [p] + old(payees)
      ensures accounts == old(accounts) && transactions == old(transactions)
      ensures recipients == old(recipients)
    {
      p := Payee(id, name, accountNumber);
      PayeeIdsPrepend(p, payees);
      payees := [p] + payees;
    }
  }

  // Proof helpers shared by the operations.

  /** A debit record for account `i`, prepended to the history, keeps the
      accounts equal to the replay of the history. */
  lemma DebitKeepsInvariant(history: seq<Transaction>, before: seq<Account>,
                            tx: Transaction, i: nat, amount: Cents)
    requires before == Replay(SeedAccounts, history) && i < |before|
    requires amount > 0 && tx.amount == -amount
    requires tx.kind in {TxType.Send, TxType.Bill, TxType.Transfer} && tx.fromAccountId == Some(before[i].id)
    ensures Replay(SeedAccounts, [tx] + history) == Credit(before, i, -amount)
  {
    SeedIdsDistinct();
    ReplayPrepend(SeedAccounts, history, tx, i, -amount);
  }

  /** The same for a credit record for account `i`. */
  lemma CreditKeepsInvariant(before: seq<Account>, history: seq<Transaction>,
                             tx: Transaction, i: nat, amount: Cents)
    requires before == Replay(SeedAccounts, history) && i < |before|
    requires amount > 0 && tx.amount == amount
    requires tx.kind in {TxType.Deposit, TxType.Transfer} && tx.toAccountId == Some(before[i].id)
    ensures Replay(SeedAccounts, [tx] + history) == Credit(before, i, amount)
  {
    SeedIdsDistinct();
    ReplayPrepend(SeedAccounts, history, tx, i, amount);
  }

  /** The pair txOut, txIn prepended to the history keeps the accounts equal
      to the replay of the history and the record ids distinct. */
  lemma TransferKeepsInvariant(history: seq<Transaction>, before: seq<Account>,
                               txOut: Transaction, txIn: Transaction, f: nat, t: nat, amount: Cents)
    requires before == Replay(SeedAccounts, history) && f < |before| && t < |before| && f != t
    requires amount > 0 && txOut.kind == txIn.kind == TxType.Transfer
    requires txOut.amount == -amount && txIn.amount == amount
    requires txOut.fromAccountId == Some(before[f].id) && txIn.toAccountId == Some(before[t].id)
    requires Distinct(TxIds(history)) && txOut.id !in TxIds(history) && txIn.id !in TxIds(history)
    requires txOut.id != txIn.id
    ensures Replay(SeedAccounts, [txIn, txOut] + history) == Credit(Credit(before, f, -amount), t, amount)
    ensures Distinct(TxIds([txIn, txOut] + history))
    ensures Total(Credit(Credit(before, f, -amount), t, amount)) == Total(before)
  {
    TransferConservesTotal(before, f, t, amount);
    DebitKeepsInvariant(history, before, txOut, f, amount);
    TxIdsPrepend(txOut, history);
    CreditKeepsInvariant(Credit(before, f, -amount), [txOut] + history, txIn, t, amount);
    TxIdsPrepend(txIn, [txOut] + history);
    PrependTwice(txIn, txOut, history);
  }

  /** Two `unshift`s, `b` then `a`, put `a` first and `b` second. */
  lemma PrependTwice<T>(a: T, b: T, s: seq<T>)
    ensures [a] + ([b] + s) == [a, b] + s
  {
  }

  lemma TxIdsPrepend(tx: Transaction, history: seq<Transaction>)
    requires Distinct(TxIds(history)) && tx.id !in TxIds(history)
    ensures TxIds([tx] + history) == [tx.id] + TxIds(history)
    ensures Distinct(TxIds([tx] + history))
  {
    assert TxIds([tx] + history) == [tx.id] + TxIds(history);
    DistinctPrepend(tx.id, TxIds(history));
  }

  lemma PayeeIdsPrepend(p: Payee, payees: seq<Payee>)
    requires Distinct(PayeeIds(payees)) && p.id !in PayeeIds(payees)
    ensures Distinct(PayeeIds([p] + payees))
  {
    assert PayeeIds([p] + payees) == [p.id] + PayeeIds(payees);
    DistinctPrepend(p.id, PayeeIds(payees));
  }

  lemma RecipientIdsPrepend(e: Recipient, recipients: seq<Recipient>)
    requires Distinct(RecipientIds(recipients)) && e.id !in RecipientIds(recipients)
    ensures Distinct(RecipientIds([e] + recipients))
  {
    assert RecipientIds([e] + recipients) == [e.id] + RecipientIds(recipients);
    DistinctPrepend(e.id, RecipientIds(recipients));
  }
}
