# Banking demo ledger and user directory, in Dafny

This project models the core of a small command-line banking demo written in C++ (`Bankingsystem.c++`):

- **Ledger** (`ledger.dfy`, module `Ledger`). It covers the `Transaction` record and the `Account` class. An account has an account number, a holder name, a balance, a static loan limit and an append-only history of transactions.
  - `deposit` always credits the amount.
  - `withdraw` is accepted only when `balance - amount >= 0`.
  - `requestLoan` is accepted only when `amount <= loanLimit`. The limit is checked on each request separately and never reduced, so it does not cap total borrowing.
  - A refused operation returns `false` and leaves the account exactly as it was.
- **Directory** (`directory.dfy`, module `Directory`). It covers the `User` class and the `Bank` class.
  - `createUser` appends a user that owns a fresh zero-balance account. It does not check for duplicates.
  - `login` scans the users in insertion order and returns the first one whose username and password both match exactly.
  - The `User*` that login returns is modelled as an index into the user sequence.
  - The session in `main` applies deposit, withdraw and loan requests through that pointer. This is modelled as `Perform`, `PerformAll` and `Session` acting on the logged-in user's index.
- `wrappers.dfy` defines `Option`, which stands in for the nullable pointer.

Everything is an immutable datatype with pure functions. Operations that can be refused return `Reply(ok, account)`, mirroring the source's `bool` result and its in-place update.

Amounts are unbounded integers (cents). Like the source, the model never checks an amount's sign.

The account operations are tied together by an independent reference definition, `Net(history)`, which is the signed sum of the ledger entries. Any sequence of requests moves the balance by exactly the net of the entries it appends. So every account reachable from a fresh one satisfies `balance == Net(history)`.

## Model

| member | source | states |
|---|---|---|
| `Ledger.NewAccount` | Bankingsystem.c++:31-32 | a new account has balance 0 and an empty history, keeps the given number, holder and loan limit, and satisfies the ledger invariant |
| `Ledger.Deposit` | Bankingsystem.c++:34-38 | deposit is unconditional: balance grows by the amount, exactly one `Deposit(amount)` is appended, identity and limit unchanged, ledger invariant preserved |
| `Ledger.Withdraw` | Bankingsystem.c++:40-48 | accepted iff `balance - amount >= 0`; on success the balance becomes `old - amount` (hence non-negative) and exactly one `Withdrawal(amount)` is appended; on refusal the account is identical |
| `Ledger.RequestLoan` | Bankingsystem.c++:50-58 | accepted iff `amount <= loanLimit`; on success the balance grows by the amount and one `Loan(amount)` is appended; on refusal nothing changes; the limit itself is never altered |
| `Ledger.Apply` | Bankingsystem.c++:34-58 | every account operation keeps number, holder and limit, appends exactly the recorded transaction when accepted, and leaves the account untouched when refused; deposits are never refused |
| `Ledger.Run` | Bankingsystem.c++:25-58 | after any sequence of operations the identity fields and loan limit are unchanged, and the old history is a prefix of the new one (append-only), growing by at most one entry per request |
| `Ledger.RunMovesBalanceByNet` | Bankingsystem.c++:34-58 | after any sequence of operations the balance has moved by exactly the signed sum of the entries appended to the history |
| `Ledger.RunKeepsConsistent` | Bankingsystem.c++:29-58 | if the balance equals the signed sum of the history before a sequence of operations, it still does afterwards |
| `Ledger.RepeatedLoans` | Bankingsystem.c++:50-58 | any number `n` of loan requests, each within the limit, all succeed; the balance grows by `n * amount` and `n` Loan entries are appended, so the limit caps each request and not the total |
| `Ledger.TwoLoansBothSucceed` | Bankingsystem.c++:50-58 | two consecutive loan requests within the limit both succeed and together raise the balance by twice the amount |
| `Ledger.WithdrawThenDepositRestores` | Bankingsystem.c++:34-48 | an accepted withdrawal followed by a deposit of the same amount restores the balance, and both entries are recorded in order |
| `Ledger.DemoScenario` | Bankingsystem.c++:31-58 | an example session deposit 500, withdraw 200, loan 1000 twice, withdraw 5000 ends at 2300, with the last withdrawal refused |
| `Directory.CreateUser` | Bankingsystem.c++:77-82 | appends exactly one user at the end with the given credentials and a fresh zero-balance, empty-history account; earlier users are unchanged; no uniqueness check |
| `Directory.Scan` | Bankingsystem.c++:86-91 | the scan from position `k` returns the first matching position at or after `k`, or none when nothing from `k` on matches |
| `Directory.Login` | Bankingsystem.c++:85-92 | login succeeds iff some user matches both username and password exactly, and then returns the earliest such position, which is the only position with that property |
| `Directory.LoginAfterCreateUser` | Bankingsystem.c++:77-92 | creating a user never changes an existing successful login, so a duplicate is shadowed by the earlier entry; otherwise the new user is found exactly when its credentials are presented |
| `Directory.Perform` | Bankingsystem.c++:178-205 | a request made through the logged-in user changes only that user's account, exactly as the account operation does; that user's credentials and all other users are unchanged |
| `Directory.LoginUnaffectedByPerform` | Bankingsystem.c++:85-92 | account activity never changes which user a login resolves to |
| `Directory.PerformAll` | Bankingsystem.c++:166-216 | a sequence of requests through one user runs them on that user's account, keeps that user's credentials and touches no other user |
| `Directory.Session` | Bankingsystem.c++:161-216 | a session proceeds iff login succeeds; a failed login changes nothing; a successful one applies the requests to the first matching user's account only, keeping that user's username and password and every other user unchanged |
| `Directory.SeededLogin` | Bankingsystem.c++:85-92 | in the directory `Seeded` provisions at start-up (line 150: `user1`/`password1`, loan limit 1000.00), the right credentials log in as user 0, while a wrong password and an unknown user both fail |

## Left out

- `getHiddenPassword` (Bankingsystem.c++:105-145) is left out. It is terminal I/O with echo suppression and has no logic to specify.
- The console side of `main` is left out (Bankingsystem.c++:147-227): prompts, messages, reading the menu choice and amounts, the invalid-choice branch and the exit code. Only its effect on the directory is modelled, by `Directory.Session`.
- The dump of every stored username and password after a failed login (Bankingsystem.c++:217-223) is left out. It is console output only.
- `Bank::displayAccountInfo` (Bankingsystem.c++:94-98) only writes to standard output. It is modelled as the pure projection `Ledger.Info` with no contract. Because it is a function, calling it twice gives the same answer and changes nothing.
- `Bank::getUsers` (Bankingsystem.c++:100-102) is not a separate member. It is the field `Bank.users`.
- `Transaction.timestamp` (Bankingsystem.c++:17,20) is dropped. It comes from the wall clock.
- IEEE `double` arithmetic is left out (Bankingsystem.c++:16,27-28). Amounts and balances are exact integers, so rounding in `balance - amount >= 0` and in `balance += amount` is not modelled.
- Pointer identity of the `User*` returned by `login` is left out. It is modelled as an index, and the in-place mutation through that pointer becomes `Directory.Perform`.
- `Ledger.Apply` does not restate when a withdrawal or loan is accepted. Those conditions are stated in `Ledger.Withdraw` and `Ledger.RequestLoan`, which `Apply` dispatches to.
- Amounts are not constrained to be positive. The code accepts whatever amount is typed in (Bankingsystem.c++:179-181,187-189,197-199), so zero and negative amounts are modelled as the code treats them.
