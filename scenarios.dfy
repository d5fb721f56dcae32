/** Scenario methods on a freshly seeded store. Their postconditions are what
    a caller can conclude from the operations' contracts alone. */
module Scenarios {
  import opened Ledger
  import opened MockDb

  const Now := "2026-01-01T00:00:00.000Z"

  /** The default notes of the scenarios below, spelled out. The facts are
      only string-literal arithmetic, proved here once so that the scenario
      methods do not each pay for them in their larger proof contexts. */
  lemma DefaultNotes()
    ensures "Bill payment to " + "City Hydro" == "Bill payment to City Hydro"
    ensures "Transfer from " + "Unlimited Chequing" == "Transfer from Unlimited Chequing"
    ensures "Transfer to " + "Every Day Savings" == "Transfer to Every Day Savings"
    ensures "Send to " + "new@x.com" == "Send to new@x.com"
  {
  }

  /** Paying City Hydro 50.00 from the seeded chequing account (1490.12). */
  method PayHydroFromSeed() returns (chq: Cents, tx: Transaction, history: seq<Transaction>)
    ensures chq == 144012
    ensures tx.kind == TxType.Bill && tx.amount == -5000
    ensures tx.counterparty == Some("City Hydro") && tx.note == Some("Bill payment to City Hydro")
    ensures history == [tx]
  {
    DefaultNotes();
    var db := new Db();
    SeedIdsDistinct();
    var r := db.PayBill("chq", "hydro", 5000, None, "t1", Now);
    tx := r.value;
    var accounts := db.GetAccounts();
    chq := accounts[0].balance;
    history := db.GetTransactions();
  }

  /** Moving 100.00 from chequing (1490.12) to savings (167.82). */
  method TransferFromSeed() returns (chq: Cents, svg: Cents, history: seq<Transaction>)
    ensures chq == 139012 && svg == 26782
    ensures |history| == 2 && history[0].amount == 10000 && history[1].amount == -10000
    ensures history[0].note == Some("Transfer from Unlimited Chequing")
    ensures history[1].note == Some("Transfer to Every Day Savings")
  {
    DefaultNotes();
    var db := new Db();
    SeedIdsDistinct();
    assert IndexOf(AccountIds(SeedAccounts), "chq") == Some(0);
    assert IndexOf(AccountIds(SeedAccounts), "svg") == Some(1);
    assert TransferRefusal(SeedAccounts, "chq", "svg", 10000) == None;
    var r := db.Transfer("chq", "svg", 10000, Some(""), "out", "in", Now, Now);
    assert r.Ok?;
    var accounts := db.GetAccounts();
    chq, svg := accounts[0].balance, accounts[1].balance;
    history := db.GetTransactions();
  }

  /** Sending 25.00 to a contact not in the directory adds it, named by its contact. */
  method SendToNewContact() returns (chq: Cents, tx: Transaction, recipients: seq<Recipient>)
    ensures chq == 146512
    ensures tx.kind == TxType.Send && tx.amount == -2500 && tx.counterparty == Some("new@x.com")
    ensures tx.note == Some("Send to new@x.com")
    ensures |recipients| == 3 && recipients[0] == Recipient("r1", "new@x.com", "new@x.com")
  {
    DefaultNotes();
    var db := new Db();
    SeedIdsDistinct();
    var r := db.SendMoney("chq", NewContact("", "new@x.com"), 2500, None, "t1", "r1", Now);
    tx := r.value;
    var accounts := db.GetAccounts();
    chq := accounts[0].balance;
    recipients := db.GetRecipients();
  }

  /** A bare contact is added even when the directory already holds it: two
      sends to Jayden's address leave it there three times. */
  method SendTwiceToKnownContact() returns (recipients: seq<Recipient>)
    ensures |recipients| == 4
    ensures recipients[0].contact == recipients[1].contact == recipients[2].contact == "jayden@example.com"
    ensures recipients[2] == SeedRecipients[0]
  {
    var db := new Db();
    SeedIdsDistinct();
    var r1 := db.SendMoney("chq", NewContact("Jayden", "jayden@example.com"), 100, None, "t1", "r1", Now);
    assert db.recipients == [Recipient("r1", "Jayden", "jayden@example.com")] + SeedRecipients;
    assert db.transactions == [r1.value];
    var r2 := db.SendMoney("chq", NewContact("Jayden", "jayden@example.com"), 100, None, "t2", "r2", Now);
    recipients := db.GetRecipients();
  }

  /** A negative deposit is refused and a later read sees the same accounts. */
  method NegativeDeposit() returns (r: Result<Transaction>, before: seq<Account>, after: seq<Account>)
    ensures r == Err(AmountNotPositive) && r.error.Message() == "Amount must be positive"
    ensures before == after
  {
    var db := new Db();
    SeedIdsDistinct();
    before := db.GetAccounts();
    r := db.Deposit("chq", -500, None, "t1", Now);
    after := db.GetAccounts();
  }

  /** A transfer within one account is refused and records nothing. */
  method TransferToSameAccount() returns (r: Result<TransferRecords>, history: seq<Transaction>)
    ensures r == Err(AccountsNotDifferent) && history == []
  {
    var db := new Db();
    r := db.Transfer("chq", "chq", 1000, None, "out", "in", Now, Now);
    history := db.GetTransactions();
  }

  /** Savings (167.82) cannot pay a 200.00 bill, and an unknown payee is not found. */
  method RefusedBills() returns (overdraft: Result<Transaction>, unknown: Result<Transaction>)
    ensures overdraft == Err(InsufficientFunds)
    ensures unknown == Err(AccountOrPayeeNotFound)
  {
    var db := new Db();
    SeedIdsDistinct();
    overdraft := db.PayBill("svg", "visa", 20000, None, "t1", Now);
    unknown := db.PayBill("chq", "gas", 100, None, "t1", Now);
  }
}
