# GreenBank mock ledger, in Dafny

This project models the demo bank's in-browser ledger (`src/lib/mock-db.ts`). The ledger is a single
store with four collections:

- accounts, each with an id, a name and a balance
- transactions, newest first
- payees
- recipients

The store offers four money-movement operations: `sendMoney`, `transfer`, `payBill` and `deposit`.
It also offers `addPayee`, `reset` and four read accessors. Each operation loads the store and runs
its guards in a fixed order. If a guard fails, it throws before changing anything. Otherwise it
updates balances in place, prepends its records with `unshift`, and saves.

## Files

- `ledger.dfy`, module `Ledger`. It holds the records and the seed fixture, and the error kinds
  with the exact messages the source throws. It also holds the pure functions the operations are
  specified with:
  - `IndexOf` is the array `find` by id.
  - `Credit` changes one balance.
  - `Total` is the sum of all balances.
  - `Effect` and `Net` give what a record, or a whole history, does to one account.
  - `Replay` gives the accounts a history makes of the opening accounts.
  - `SendRefusal`, `TransferRefusal`, `BillRefusal` and `DepositRefusal` run each operation's
    guards in the source's order and give the first error thrown, or nothing when the operation
    goes ahead. Each is a direct transcription of one guard chain. The `...Allowed` lemmas (see the table) say
    independently, in terms of account positions, when each operation goes ahead.

  The lemmas about these functions are in the same file.
- `mockdb.dfy`, module `MockDb`. It holds class `Db`, whose four fields are the persisted
  collections. Each method follows the source's load, mutate, save order: it copies the fields into
  locals, checks its guards, builds the new values, and writes the fields back at the end. The class
  invariant `Valid()` has three parts:
  - The accounts are exactly the seed accounts replayed through the transaction history, so every
    balance is explained by the records.
  - No balance is negative.
  - No collection repeats an id.
- `scenarios.dfy`, module `Scenarios`. It holds scenario methods on a freshly seeded store, whose
  postconditions the verifier proves from the operations' contracts alone: a bill payment, a
  transfer, a send to a new contact, two sends to a listed contact, a refused negative deposit, a
  refused same-account transfer and refused bills.

Money is integer cents, so the seed balances 1490.12 and 167.82 become 149012 and 16782. The
source rounds with `+(x).toFixed(2)` after every step; on cents that rounding is exact, so it
disappears.

The caller supplies fresh ids and timestamps as parameters. These stand for `crypto.randomUUID()`
and `new Date().toISOString()`. A sent or transferred amount is checked `> 0`, so the `Transfer`
records can be told apart by sign. The outbound record (txOut) is negative and debits
`fromAccountId`. The inbound record (txIn) is positive and credits `toAccountId`. Both records
carry both account ids, as in the source.

Each operation re-parses the stored blob, so no `Account` object is ever shared between two calls.
Changing the `balance` of the account that `find` returned therefore has the same observable effect
as replacing the record at its index. That is how the model writes it.

`sendMoney` adds a recipient whenever the argument has no `id` key (src/lib/mock-db.ts:95), even
when the directory already lists that contact. Its only caller, src/pages/payments/Send.tsx:30,
never passes an id, so repeated sends to one contact add duplicate entries
(`Scenarios.SendTwiceToKnownContact`).

## Model

| member | source | states |
|---|---|---|
| `Ledger.Error.Message` | src/lib/mock-db.ts:77-79 | the text each error kind is thrown with; none is empty |
| `Ledger.MessageIdentifiesError` | src/lib/mock-db.ts:104-110 | no two error kinds are thrown with the same text, so a caller can tell every refusal apart by its message |
| `Ledger.OrElse` | src/lib/mock-db.ts:96 | JavaScript's `s \|\| fallback` on strings: a non-empty `s` is kept, otherwise the fallback; the result is empty only when both are |
| `Ledger.NoteOr` | src/lib/mock-db.ts:89 | `note \|\| fallback` for an optional note: a non-empty note is kept; an absent or empty note gives the fallback |
| `Ledger.SendRefusal` | src/lib/mock-db.ts:76-79 | the guard chain of `sendMoney`: it can only throw "From account not found", "Amount must be positive" or "Insufficient funds"; not found exactly when no account has the id; not positive exactly when the account exists and `amount <= 0` |
| `Ledger.TransferRefusal` | src/lib/mock-db.ts:104-110 | the guard chain of `transfer`: same id exactly when the ids are equal, checked before any lookup; not found exactly when the ids differ and one is missing; not positive exactly when both exist, they differ and `amount <= 0`; otherwise only insufficient funds |
| `Ledger.BillRefusal` | src/lib/mock-db.ts:142-146 | the guard chain of `payBill`: one shared not-found error exactly when the account or the payee is missing; not positive exactly when both exist and `amount <= 0`; otherwise only insufficient funds |
| `Ledger.DepositRefusal` | src/lib/mock-db.ts:167-169 | the guard chain of `deposit`: it can only throw "Account not found" or "Amount must be positive", never insufficient funds |
| `Ledger.IndexOf` | src/lib/mock-db.ts:106-107 | `find` by id: `None` exactly when no entry has the id; otherwise the index of the first entry that has it |
| `Ledger.Credit` | src/lib/mock-db.ts:112-113 | one balance changes by `delta`; every other account, and every id and name, stays the same |
| `Ledger.IndexOfDistinct` | src/lib/mock-db.ts:106-107 | when no id repeats, `find` by the id of the entry at index `k` yields exactly `k`, so the account found is the one account with that id |
| `Ledger.SendAllowed` | src/lib/mock-db.ts:76-79 | a send from an existing account goes ahead exactly when `0 < amount <= balance`; both directions |
| `Ledger.TransferAllowed` | src/lib/mock-db.ts:104-110 | a transfer between two existing accounts goes ahead exactly when they are different accounts and `0 < amount <= from.balance`; both directions |
| `Ledger.BillAllowed` | src/lib/mock-db.ts:142-146 | a bill from an existing account to an existing payee goes ahead exactly when `0 < amount <= balance`; both directions |
| `Ledger.DepositAllowed` | src/lib/mock-db.ts:167-169 | a deposit goes ahead exactly when some account has the id and `amount > 0`; no balance is consulted |
| `Ledger.TotalCredit` | src/lib/mock-db.ts:81 | changing one balance by `delta` changes the sum of all balances by exactly `delta` |
| `Ledger.TransferConservesTotal` | src/lib/mock-db.ts:112-113 | a debit of `from` and a credit of a different `to` by the same amount leave the total of all balances unchanged |
| `Ledger.ReplayEmpty` | src/lib/mock-db.ts:33-48 | an empty history leaves the seed accounts as they are, so a fresh or reset store meets the history invariant |
| `Ledger.ReplayPrepend` | src/lib/mock-db.ts:10-19 | prepending a record that changes one account by `delta`, and no other account, equals replaying the old history and then crediting that account by `delta` |
| `Ledger.ReplayKeepsIds` | src/lib/mock-db.ts:4-8 | replaying a history never adds, removes, reorders or renames accounts |
| `Ledger.SeedIdsDistinct` | src/lib/mock-db.ts:33-48 | the seed ids are `chq`/`svg`, `hydro`/`visa` and `jay`/`amy`, with no id repeated in any collection |
| `Ledger.DistinctPrepend` | src/lib/mock-db.ts:84 | prepending a fresh id to a list with no repeats still has no repeats, which is what a random UUID is relied on for |
| `MockDb.Db.constructor` | src/lib/mock-db.ts:53-57 | the first load, with nothing stored, yields the seed fixture: two accounts, no transactions, two payees and two recipients, with the invariant holding |
| `MockDb.Db.Reset` | src/lib/mock-db.ts:68 | discards all state and restores exactly the seed fixture |
| `MockDb.Db.GetAccounts` | src/lib/mock-db.ts:69 | returns the stored accounts and changes nothing; they are the seed accounts in seed order, each with the seed balance plus its history's net effect, and none is negative |
| `MockDb.Db.GetTransactions` | src/lib/mock-db.ts:70 | returns the stored history and changes nothing; no record id repeats |
| `MockDb.Db.GetPayees` | src/lib/mock-db.ts:71 | returns the payee directory and changes nothing; no id repeats |
| `MockDb.Db.GetRecipients` | src/lib/mock-db.ts:72 | returns the recipient directory and changes nothing; no id repeats |
| `MockDb.Db.SendMoney` | src/lib/mock-db.ts:74-101 | see the list under the table |
| `MockDb.Db.Transfer` | src/lib/mock-db.ts:103-138 | see the list under the table |
| `MockDb.Db.PayBill` | src/lib/mock-db.ts:140-163 | see the list under the table |
| `MockDb.Db.Deposit` | src/lib/mock-db.ts:165-185 | see the list under the table |
| `MockDb.Db.AddPayee` | src/lib/mock-db.ts:187-193 | only prepends `Payee(id, name, accountNumber)` to the payees and returns it, with no validation |
| `MockDb.DebitKeepsInvariant` | src/lib/mock-db.ts:79-92 | a debit record for one account, prepended to the history, keeps the accounts equal to the replayed history |
| `MockDb.CreditKeepsInvariant` | src/lib/mock-db.ts:171-181 | a credit record for one account, prepended to the history, keeps the accounts equal to the replayed history |
| `MockDb.TransferKeepsInvariant` | src/lib/mock-db.ts:112-134 | the pair txIn, txOut prepended to the history keeps the replay invariant and distinct record ids, and conserves the total of all balances |
| `Scenarios.PayHydroFromSeed` | src/lib/mock-db.ts:140-163 | paying City Hydro 50.00 from the seeded chequing account leaves 1440.12 and a single `bill` record of -50.00 with the default note |
| `Scenarios.TransferFromSeed` | src/lib/mock-db.ts:103-138 | 100.00 from chequing to savings leaves 1390.12 and 267.82; the history is `[+100.00, -100.00]` with both default notes, because an empty note is falsy |
| `Scenarios.SendToNewContact` | src/lib/mock-db.ts:95-97 | sending 25.00 to `new@x.com` leaves 1465.12 and prepends a third recipient, named by its contact |
| `Scenarios.SendTwiceToKnownContact` | src/lib/mock-db.ts:95-97 | two sends to Jayden's address, which is already listed, given without an id, leave four entries; the first three carry `jayden@example.com`, and the third is the seeded entry itself |
| `Scenarios.NegativeDeposit` | src/lib/mock-db.ts:169 | a deposit of -5.00 fails with "Amount must be positive", and reading the accounts before and after gives equal snapshots |
| `Scenarios.TransferToSameAccount` | src/lib/mock-db.ts:104 | a transfer from `chq` to `chq` fails as "Accounts must be different" and records nothing |
| `Scenarios.RefusedBills` | src/lib/mock-db.ts:144-146 | a 200.00 bill from savings (167.82) fails for insufficient funds, and an unknown payee id fails as not found |

The four money operations state their outcome as `r.Refusal() == XRefusal(old state, arguments)`.
So the error a method returns is exactly the first failing guard in the source's order, and a
method succeeds exactly when no guard fails. When a guard fails the method returns that error and
leaves every field unchanged. On success, each states its whole new state.

- `MockDb.Db.SendMoney`:
  - Guards: the account is not found, then `amount <= 0`, then the balance is less than `amount`.
  - The sender's balance drops by exactly `amount` and stays non-negative. No other balance
    changes, and the total of all balances drops by `amount`.
  - One `send` record with `-amount` is prepended; the older history is unchanged.
  - The counterparty is the contact, and the note is `note || "Send to <contact>"`.
  - A recipient is prepended only for a bare contact, named `name || contact`. Otherwise the
    recipients are unchanged.
  - The payees are unchanged.
- `MockDb.Db.Transfer`:
  - Guards: same id, checked before any lookup; then either account is not found; then
    `amount <= 0`; then insufficient funds in `from`.
  - `from` drops by `amount` and stays non-negative, and `to` rises by `amount`. Their sum and the
    total of all balances are unchanged.
  - The history becomes `[txIn, txOut] + old`:
    - txIn has `+amount` and the note `note || "Transfer from <from.name>"`.
    - txOut has `-amount` and the note `note || "Transfer to <to.name>"`.
    - Both carry both account ids.
  - The payees and recipients are unchanged.
- `MockDb.Db.PayBill`:
  - Guards: the account or the payee is not found (one shared error), then `amount <= 0`, then
    insufficient funds.
  - The debit is exactly `amount`, and the balance stays non-negative.
  - One `bill` record with `-amount` is prepended. Its counterparty is the payee's name, and its
    note is `note || "Bill payment to <payee>"`.
  - The payees and recipients are unchanged.
- `MockDb.Db.Deposit`:
  - It succeeds exactly when the account exists and `amount > 0`; there is no funds check.
  - The account rises by exactly `amount`, and so does the total of all balances.
  - One `deposit` record with `+amount` and the note `note || "Mobile deposit"` is prepended.
  - The payees and recipients are unchanged.

## Left out

- `localStorage`, `JSON.stringify` and `JSON.parse` are browser I/O. Loading and saving are reads
  and writes of the class fields.
- The reseed when the stored blob fails to parse (src/lib/mock-db.ts:53-60) is left out. The object
  invariant is stated for the states the operations can reach from the seed fixture. A blob edited
  outside the application is not modelled.
- The getters' side effect of seeding storage on the first ever read is modelled only as the
  constructor.
- `crypto.randomUUID()` and `new Date().toISOString()` are foreign, nondeterministic calls. They are
  parameters: fresh ids that the caller guarantees are not already in use, and timestamp strings. A
  UUID collision is not modelled.
- Floating-point dollars and `toFixed(2)` rounding are not modelled. Money is integer cents.
  Amounts that are not whole cents, `NaN` (which passes JavaScript's `amount <= 0` and `balance <
  amount` guards) and `Infinity` cannot be expressed.
- MockDb.Db.Reset: it returns nothing, while the source's `reset` also hands back the seeded store,
  which no caller uses.
- MockDb.Db.SendMoney: the duck-typed recipient argument, where the presence of an `id` key means
  "from the directory", becomes the tagged variant `RecipientArg`.
- The React pages and components, the push-notification and PWA hooks and `public/sw-push.js` are
  not part of this model. They are presentation and browser plumbing that call one ledger operation
  each.
