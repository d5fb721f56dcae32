/** The values held by the demo bank's local ledger, and the pure functions
    the store's operations are specified with.

    Money is kept in integer cents, so rounding a balance to two decimals
    after every step is exact and disappears. */
module Ledger {

  datatype Option<+T> = None | Some(value: T)

  /** Why an operation throws; Message is the text of the thrown Error. */
  datatype Error =
    | FromAccountNotFound
    | AccountNotFound
    | AccountOrPayeeNotFound
    | AmountNotPositive
    | InsufficientFunds
    | AccountsNotDifferent
  {
    function Message(): (m: string)
      ensures m != ""
    {
      match this
      case FromAccountNotFound => "From account not found"
      case AccountNotFound => "Account not found"
      case AccountOrPayeeNotFound => "Account or payee not found"
      case AmountNotPositive => "Amount must be positive"
      case InsufficientFunds => "Insufficient funds"
      case AccountsNotDifferent => "Accounts must be different"
    }
  }

  /** A caller sees only the thrown text, and no two errors share one. */
  lemma MessageIdentifiesError(e: Error, e': Error)
    ensures e.Message() == e'.Message() ==> e == e'
  {
  }

  /** What an operation either returns or throws. */
  datatype Result<+T> = Ok(value: T) | Err(error: Error)
  {
    /** The error thrown, if any. */
    function Refusal(): Option<Error> {
      match this
      case Ok(_) => None
      case Err(e) => Some(e)
    }
  }

  /** An amount of money in cents (the source keeps dollars as a number). */
  type Cents = int

  datatype Account = Account(id: string, name: string, balance: Cents)

  datatype TxType = Send | Transfer | Bill | Deposit

  /** A history record: `amount` is negative for a debit, positive for a credit. */
  datatype Transaction = Transaction(
    id: string,
    kind: TxType,
    amount: Cents,
    fromAccountId: Option<string>,
    toAccountId: Option<string>,
    counterparty: Option<string>,
    note: Option<string>,
    createdAt: string)

  datatype Payee = Payee(id: string, name: string, accountNumber: string)

  datatype Recipient = Recipient(id: string, name: string, contact: string)

  /** The recipient argument of sendMoney: an entry of the directory, which has
      an id, or a free-form contact, which has none. */
  datatype RecipientArg =
    | Listed(entry: Recipient)
    | NewContact(name: string, contact: string)
  {
    function Contact(): string {
      match this
      case Listed(e) => e.contact
      case NewContact(_, c) => c
    }
  }

  /** The two records transfer returns. */
  datatype TransferRecords = TransferRecords(txOut: Transaction, txIn: Transaction)

  // The fixture a fresh or reset store starts from.

  const SeedAccounts: seq<Account> := [
    Account("chq", "Unlimited Chequing", 149012),
    Account("svg", "Every Day Savings", 16782)
  ]

  const SeedPayees: seq<Payee> := [
    Payee("hydro", "City Hydro", "00012345"),
    Payee("visa", "Visa Card", "4111 1111")
  ]

  const SeedRecipients: seq<Recipient> := [
    Recipient("jay", "Jayden", "jayden@example.com"),
    Recipient("amy", "Amy", "+1 (555) 123-9876")
  ]

  /** JavaScript's `s || fallback` on strings: the empty string is falsy. */
  function OrElse(s: string, fallback: string): (r: string)
    ensures r == s || r == fallback
    ensures s != "" ==> r == s
    ensures r == "" <==> s == "" && fallback == ""
  {
    if s != "" then s else fallback
  }

  /** `note || fallback` for an optional note: absent or empty gives the fallback. */
  function NoteOr(note: Option<string>, fallback: string): (r: string)
    ensures note.Some? && note.value != "" ==> r == note.value
    ensures note == None || note == Some("") ==> r == fallback
  {
    match note
    case None => fallback
    case Some(n) => OrElse(n, fallback)
  }

  // Ids of each collection, in list order.

  function AccountIds(accounts: seq<Account>): seq<string> {
    seq(|accounts|, k requires 0 <= k < |accounts| => accounts[k].id)
  }

  function TxIds(history: seq<Transaction>): seq<string> {
    seq(|history|, k requires 0 <= k < |history| => history[k].id)
  }

  function PayeeIds(payees: seq<Payee>): seq<string> {
    seq(|payees|, k requires 0 <= k < |payees| => payees[k].id)
  }

  function RecipientIds(recipients: seq<Recipient>): seq<string> {
    seq(|recipients|, k requires 0 <= k < |recipients| => recipients[k].id)
  }

  ghost predicate Distinct(ids: seq<string>) {
    forall i, j :: 0 <= i < j < |ids| ==> ids[i] != ids[j]
  }

  /** Array `find` by id: the index of the FIRST entry carrying `id`, if any. */
  function IndexOf(ids: seq<string>, id: string): (r: Option<nat>)
    ensures r.None? <==> id !in ids
    ensures r.Some? ==> r.value < |ids| && ids[r.value] == id
    ensures r.Some? ==> forall m :: 0 <= m < r.value ==> ids[m] != id
  {
    if |ids| == 0 then None
    else if ids[0] == id then Some(0)
    else
      match IndexOf(ids[1..], id)
      case None => None
      case Some(j) => Some(j + 1)
  }

  /** Adds `delta` to the balance of the account at index `i`; every other
      account and every id and name stay as they were. */
  function Credit(accounts: seq<Account>, i: nat, delta: Cents): (r: seq<Account>)
    requires i < |accounts|
    ensures |r| == |accounts| && AccountIds(r) == AccountIds(accounts)
    ensures r[i].id == accounts[i].id && r[i].name == accounts[i].name
    ensures r[i].balance == accounts[i].balance + delta
    ensures forall k :: 0 <= k < |r| && k != i ==> r[k] == accounts[k]
  {
    accounts[i := accounts[i].(balance := accounts[i].balance + delta)]
  }

  // The guards of each operation, in the order the source checks them: the
  // first that fails is the error thrown, and None means the operation goes ahead.

  function SendRefusal(accounts: seq<Account>, fromId: string, amount: Cents): (r: Option<Error>)
    ensures r in {None, Some(FromAccountNotFound), Some(AmountNotPositive), Some(InsufficientFunds)}
    ensures r == Some(FromAccountNotFound) <==> fromId !in AccountIds(accounts)
    ensures r == Some(AmountNotPositive) <==> fromId in AccountIds(accounts) && amount <= 0
  {
    var from := IndexOf(AccountIds(accounts), fromId);
    if from.None? then Some(FromAccountNotFound)
    else if amount <= 0 then Some(AmountNotPositive)
    else if accounts[from.value].balance < amount then Some(InsufficientFunds)
    else None
  }

  function TransferRefusal(accounts: seq<Account>, fromId: string, toId: string, amount: Cents): (r: Option<Error>)
    ensures r in {None, Some(AccountsNotDifferent), Some(AccountNotFound), Some(AmountNotPositive),
                  Some(InsufficientFunds)}
    ensures r == Some(AccountsNotDifferent) <==> fromId == toId
    ensures r == Some(AccountNotFound) <==>
              fromId != toId && (fromId !in AccountIds(accounts) || toId !in AccountIds(accounts))
    ensures r == Some(AmountNotPositive) <==>
              fromId != toId && fromId in AccountIds(accounts) && toId in AccountIds(accounts) && amount <= 0
  {
    var from, to := IndexOf(AccountIds(accounts), fromId), IndexOf(AccountIds(accounts), toId);
    if fromId == toId then Some(AccountsNotDifferent)
    else if from.None? || to.None? then Some(AccountNotFound)
    else if amount <= 0 then Some(AmountNotPositive)
    else if accounts[from.value].balance < amount then Some(InsufficientFunds)
    else None
  }

  function BillRefusal(accounts: seq<Account>, payees: seq<Payee>, fromId: string, payeeId: string,
                       amount: Cents): (r: Option<Error>)
    ensures r in {None, Some(AccountOrPayeeNotFound), Some(AmountNotPositive), Some(InsufficientFunds)}
    ensures r == Some(AccountOrPayeeNotFound) <==>
              fromId !in AccountIds(accounts) || payeeId !in PayeeIds(payees)
    ensures r == Some(AmountNotPositive) <==>
              fromId in AccountIds(accounts) && payeeId in PayeeIds(payees) && amount <= 0
  {
    var from, payee := IndexOf(AccountIds(accounts), fromId), IndexOf(PayeeIds(payees), payeeId);
    if from.None? || payee.None? then Some(AccountOrPayeeNotFound)
    else if amount <= 0 then Some(AmountNotPositive)
    else if accounts[from.value].balance < amount then Some(InsufficientFunds)
    else None
  }

  function DepositRefusal(accounts: seq<Account>, toId: string, amount: Cents): (r: Option<Error>)
    ensures r in {None, Some(AccountNotFound), Some(AmountNotPositive)}
  {
    if toId !in AccountIds(accounts) then Some(AccountNotFound)
    else if amount <= 0 then Some(AmountNotPositive)
    else None
  }

  /** With no id repeated, `find` returns the one entry carrying the id. */
  lemma IndexOfDistinct(ids: seq<string>, k: nat)
    requires Distinct(ids) && k < |ids|
    ensures IndexOf(ids, ids[k]) == Some(k)
  {
  }

  /** A send goes ahead exactly when the amount is positive and covered by
      the balance of the account `from`, at index `f`. */
  lemma SendAllowed(accounts: seq<Account>, f: nat, amount: Cents)
    requires Distinct(AccountIds(accounts)) && f < |accounts|
    ensures SendRefusal(accounts, accounts[f].id, amount) == None <==> 0 < amount <= accounts[f].balance
  {
    IndexOfDistinct(AccountIds(accounts), f);
  }

  /** A transfer between the accounts at indices `f` and `t` goes ahead
      exactly when they are different accounts and the amount is positive
      and covered by the balance of `from`. */
  lemma TransferAllowed(accounts: seq<Account>, f: nat, t: nat, amount: Cents)
    requires Distinct(AccountIds(accounts)) && f < |accounts| && t < |accounts|
    ensures TransferRefusal(accounts, accounts[f].id, accounts[t].id, amount) == None
            <==> f != t && 0 < amount <= accounts[f].balance
  {
    IndexOfDistinct(AccountIds(accounts), f);
    IndexOfDistinct(AccountIds(accounts), t);
    assert AccountIds(accounts)[f] == accounts[f].id && AccountIds(accounts)[t] == accounts[t].id;
  }

  /** A bill payment from the account at index `f` to the payee at index `p`
      goes ahead exactly when the amount is positive and covered. */
  lemma BillAllowed(accounts: seq<Account>, payees: seq<Payee>, f: nat, p: nat, amount: Cents)
    requires Distinct(AccountIds(accounts)) && f < |accounts| && p < |payees|
    ensures BillRefusal(accounts, payees, accounts[f].id, payees[p].id, amount) == None
            <==> 0 < amount <= accounts[f].balance
  {
    IndexOfDistinct(AccountIds(accounts), f);
    assert PayeeIds(payees)[p] == payees[p].id;
  }

  /** A deposit into an existing account goes ahead exactly when the amount
      is positive, whatever the balance; one into a missing account never does. */
  lemma DepositAllowed(accounts: seq<Account>, toId: string, amount: Cents)
    ensures DepositRefusal(accounts, toId, amount) == None
            <==> (exists k :: 0 <= k < |accounts| && accounts[k].id == toId) && 0 < amount
  {
    if toId in AccountIds(accounts) {
      var k :| 0 <= k < |accounts| && AccountIds(accounts)[k] == toId;
      assert accounts[k].id == toId;
    } else {
      forall k | 0 <= k < |accounts|
        ensures accounts[k].id != toId
      {
        assert AccountIds(accounts)[k] == accounts[k].id;
      }
    }
  }

  /** The sum of all balances. */
  function Total(accounts: seq<Account>): Cents {
    if |accounts| == 0 then 0 else accounts[0].balance + Total(accounts[1..])
  }

  ghost predicate NonNegative(accounts: seq<Account>) {
    forall k :: 0 <= k < |accounts| ==> accounts[k].balance >= 0
  }

  lemma {:induction false} TotalCredit(accounts: seq<Account>, i: nat, delta: Cents)
    requires i < |accounts|
    ensures Total(Credit(accounts, i, delta)) == Total(accounts) + delta
  {
    if i == 0 {
      assert Credit(accounts, i, delta)[1..] == accounts[1..];
    } else {
      TotalCredit(accounts[1..], i - 1, delta);
      assert Credit(accounts, i, delta)[1..] == Credit(accounts[1..], i - 1, delta);
    }
  }

  /** A debit of one account and a credit of another by the same amount
      leaves the sum of all balances unchanged. */
  lemma TransferConservesTotal(accounts: seq<Account>, from: nat, to: nat, amount: Cents)
    requires from < |accounts| && to < |accounts| && from != to
    ensures Total(Credit(Credit(accounts, from, -amount), to, amount)) == Total(accounts)
  {
    TotalCredit(accounts, from, -amount);
    TotalCredit(Credit(accounts, from, -amount), to, amount);
  }

  /** What one history record does to the balance of account `id`. A send or
      bill debits its `from` account and a deposit credits its `to` account. The
      two records of a transfer both carry both account ids; the sign of the
      amount tells the outbound one (which debits `from`) from the inbound one
      (which credits `to`). */
  function Effect(tx: Transaction, id: string): Cents {
    match tx.kind
    case Send => if tx.fromAccountId == Some(id) then tx.amount else 0
    case Bill => if tx.fromAccountId == Some(id) then tx.amount else 0
    case Deposit => if tx.toAccountId == Some(id) then tx.amount else 0
    case Transfer =>
      if tx.amount < 0 then (if tx.fromAccountId == Some(id) then tx.amount else 0)
      else (if tx.toAccountId == Some(id) then tx.amount else 0)
  }

  /** The net change a history (newest first) makes to account `id`. */
  function Net(history: seq<Transaction>, id: string): Cents {
    if |history| == 0 then 0 else Effect(history[0], id) + Net(history[1..], id)
  }

  /** The accounts `opening` becomes once every record of `history` is applied. */
  function Replay(opening: seq<Account>, history: seq<Transaction>): seq<Account> {
    seq(|opening|, k requires 0 <= k < |opening| =>
      opening[k].(balance := opening[k].balance + Net(history, opening[k].id)))
  }

  /** Replay starts from the opening accounts themselves. */
  lemma ReplayEmpty(opening: seq<Account>)
    ensures Replay(opening, []) == opening
  {
    assert forall k :: 0 <= k < |opening| ==> Replay(opening, [])[k] == opening[k];
  }

  /** Prepending a record that changes one account by `delta` and no other
      account is the same as crediting that account by `delta`. */
  lemma {:induction false} ReplayPrepend(opening: seq<Account>, history: seq<Transaction>,
                                         tx: Transaction, i: nat, delta: Cents)
    requires i < |opening| && Distinct(AccountIds(opening))
    requires Effect(tx, opening[i].id) == delta
    requires forall id :: id != opening[i].id ==> Effect(tx, id) == 0
    ensures Replay(opening, [tx] + history) == Credit(Replay(opening, history), i, delta)
  {
    var before, after := Replay(opening, history), Replay(opening, [tx] + history);
    forall k | 0 <= k < |opening|
      ensures after[k] == Credit(before, i, delta)[k]
    {
      assert ([tx] + history)[1..] == history;
      if k != i {
        assert AccountIds(opening)[k] != AccountIds(opening)[i];
      }
    }
  }

  /** Replaying never changes which accounts exist or what they are called. */
  lemma ReplayKeepsIds(opening: seq<Account>, history: seq<Transaction>)
    ensures AccountIds(Replay(opening, history)) == AccountIds(opening)
    ensures forall k :: 0 <= k < |opening| ==> Replay(opening, history)[k].name == opening[k].name
  {
    assert forall k :: 0 <= k < |opening| ==>
      AccountIds(Replay(opening, history))[k] == AccountIds(opening)[k];
  }

  lemma SeedIdsDistinct()
    ensures AccountIds(SeedAccounts) == ["chq", "svg"]
    ensures PayeeIds(SeedPayees) == ["hydro", "visa"]
    ensures RecipientIds(SeedRecipients) == ["jay", "amy"]
    ensures Distinct(AccountIds(SeedAccounts))
    ensures Distinct(PayeeIds(SeedPayees))
    ensures Distinct(RecipientIds(SeedRecipients))
  {
    assert AccountIds(SeedAccounts) == ["chq", "svg"];
    assert PayeeIds(SeedPayees) == ["hydro", "visa"];
    assert RecipientIds(SeedRecipients) == ["jay", "amy"];
  }

  /** Prepending a fresh id keeps a list of ids free of duplicates. */
  lemma DistinctPrepend(x: string, ids: seq<string>)
    requires Distinct(ids) && x !in ids
    ensures Distinct([x] + ids)
  {
    forall i, j | 0 <= i < j < |[x] + ids|
      ensures ([x] + ids)[i] != ([x] + ids)[j]
    {
      if i == 0 { assert ([x] + ids)[j] == ids[j - 1]; }
    }
  }
}
