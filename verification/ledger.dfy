/**
 The account ledger of the banking demo: one account record with a balance, a
 static per-request loan limit and an append-only history of transactions.
 Amounts are exact integers (think cents); the source's `double` rounding is
 not modelled, and, as in the source, the sign of an amount is never checked.
 */
module Ledger {

  /** The three kinds of ledger event (strings "Deposit", "Withdrawal", "Loan" in the source). */
  datatype TxKind = Deposit | Withdrawal | Loan

  /** One ledger event. The wall-clock timestamp the source attaches is not modelled. */
  datatype Transaction = Transaction(kind: TxKind, amount: int)

  datatype Account = Account(
    number: string,
    holder: string,
    balance: int,
    loanLimit: int,
    history: seq<Transaction>)

  /** What an operation that may be refused hands back: the verdict and the account afterwards. */
  datatype Reply = Reply(ok: bool, account: Account)

  /** A request a session can make against an account. */
  datatype Op = DepositOp(amount: int) | WithdrawOp(amount: int) | LoanOp(amount: int)

  /** Signed effect of one transaction on the balance. */
  function Effect(t: Transaction): int {
    match t.kind
    case Deposit => t.amount
    case Loan => t.amount
    case Withdrawal => -t.amount
  }

  /** Net effect of a history on the balance, summed from the oldest entry. */
  function Net(h: seq<Transaction>): int {
    if h == [] then 0 else Effect(h[0]) + Net(h[1..])
  }

  /** The ledger invariant: the balance is exactly what the history adds up to. */
  predicate Consistent(a: Account) {
    a.balance == Net(a.history)
  }

  /** The fields no operation may touch. */
  predicate SameIdentity(a: Account, b: Account) {
    a.number == b.number && a.holder == b.holder && a.loanLimit == b.loanLimit
  }

  /** Summing a history is additive over concatenation. */
  lemma {:induction false} NetConcat(x: seq<Transaction>, y: seq<Transaction>)
    ensures Net(x + y) == Net(x) + Net(y)
    decreases |x|
  {
    if x == [] {
      assert x + y == y;
    } else {
      assert (x + y)[0] == x[0];
      assert (x + y)[1..] == x[1..] + y;
      NetConcat(x[1..], y);
    }
  }

  /** A fresh account: zero balance, empty history, the given identity and limit. */
  function NewAccount(number: string, holder: string, loanLimit: int): (a: Account)
    ensures a.number == number && a.holder == holder && a.loanLimit == loanLimit
    ensures a.balance == 0 && a.history == []
    ensures Consistent(a)
  {
    Account(number, holder, 0, loanLimit, [])
  }

  /** Appends `t` and moves the balance by its effect; the shared step of every accepted operation. */
  function Post(a: Account, t: Transaction): (r: Account)
    ensures SameIdentity(a, r)
    ensures r.history == a.history + [t]
    ensures r.balance == a.balance + Effect(t)
    ensures Consistent(a) ==> Consistent(r)
  {
    NetConcat(a.history, [t]);
    assert Net([t]) == Effect(t) by {
      assert [t][1..] == [];
    }
    a.(balance := a.balance + Effect(t), history := a.history + [t])
  }

  /** Deposit is unconditional: the amount is credited and recorded. */
  function Deposit(a: Account, amount: int): (r: Account)
    ensures r.balance == a.balance + amount
    ensures r.history == a.history + [Transaction(TxKind.Deposit, amount)]
    ensures SameIdentity(a, r)
    ensures Consistent(a) ==> Consistent(r)
  {
    Post(a, Transaction(TxKind.Deposit, amount))
  }

  /** Withdrawal is accepted exactly when it leaves the balance non-negative. */
  function Withdraw(a: Account, amount: int): (r: Reply)
    ensures r.ok <==> a.balance - amount >= 0
    ensures r.ok ==> r.account.balance == a.balance - amount && r.account.balance >= 0
    ensures r.ok ==> r.account.history == a.history + [Transaction(Withdrawal, amount)]
    ensures !r.ok ==> r.account == a
    ensures SameIdentity(a, r.account)
    ensures Consistent(a) ==> Consistent(r.account)
  {
    if a.balance - amount >= 0 then Reply(true, Post(a, Transaction(Withdrawal, amount)))
    else Reply(false, a)
  }

  /** A loan is accepted exactly when this one request is within the static limit. */
  function RequestLoan(a: Account, amount: int): (r: Reply)
    ensures r.ok <==> amount <= a.loanLimit
    ensures r.ok ==> r.account.balance == a.balance + amount
    ensures r.ok ==> r.account.history == a.history + [Transaction(Loan, amount)]
    ensures !r.ok ==> r.account == a
    ensures SameIdentity(a, r.account)
    ensures Consistent(a) ==> Consistent(r.account)
  {
    if amount <= a.loanLimit then Reply(true, Post(a, Transaction(Loan, amount)))
    else Reply(false, a)
  }

  /** The transaction an accepted request records. */
  function Record(op: Op): Transaction {
    match op
    case DepositOp(x) => Transaction(TxKind.Deposit, x)
    case WithdrawOp(x) => Transaction(Withdrawal, x)
    case LoanOp(x) => Transaction(Loan, x)
  }

  /** Dispatches one request to the matching account operation. */
  function Apply(a: Account, op: Op): (r: Reply)
    ensures SameIdentity(a, r.account)
    ensures r.ok ==> r.account.history == a.history + [Record(op)]
    ensures r.ok ==> r.account.balance == a.balance + Effect(Record(op))
    ensures !r.ok ==> r.account == a
    ensures op.DepositOp? ==> r.ok
  {
    match op
    case DepositOp(x) => Reply(true, Deposit(a, x))
    case WithdrawOp(x) => Withdraw(a, x)
    case LoanOp(x) => RequestLoan(a, x)
  }

  /**
   Applies a sequence of requests in order. Whatever is accepted or refused,
   the identity and limit stay fixed and the old history survives as a
   prefix: the ledger is append-only.
   */
  function Run(a: Account, ops: seq<Op>): (r: Account)
    ensures SameIdentity(a, r)
    ensures |a.history| <= |r.history| <= |a.history| + |ops|
    ensures r.history[..|a.history|] == a.history
    decreases |ops|
  {
    if ops == [] then a
    else
      var step := Apply(a, ops[0]).account;
      var r := Run(step, ops[1..]);
      assert r.history[..|a.history|] == r.history[..|step.history|][..|a.history|];
      r
  }

  /** Across any sequence of requests the balance moves by exactly the net of the entries appended. */
  lemma {:induction false} RunMovesBalanceByNet(a: Account, ops: seq<Op>)
    ensures Run(a, ops).balance == a.balance + Net(Run(a, ops).history[|a.history|..])
    decreases |ops|
  {
    var r := Run(a, ops);
    var n := |a.history|;
    if ops == [] {
      assert r.history[n..] == [];
    } else {
      var step := Apply(a, ops[0]).account;
      assert r == Run(step, ops[1..]);
      RunMovesBalanceByNet(step, ops[1..]);
      var m := |step.history|;
      assert r.history[n..] == step.history[n..] + r.history[m..] by {
        assert r.history == step.history + r.history[m..];
      }
      NetConcat(step.history[n..], r.history[m..]);
      assert Net(step.history[n..]) == step.balance - a.balance by {
        if m == n {
          assert step.history[n..] == [];
        } else {
          assert step.history[n..] == [Record(ops[0])];
          assert [Record(ops[0])][1..] == [];
        }
      }
    }
  }

  /** Every account reachable from a fresh one keeps its balance equal to the sum of its history. */
  lemma {:induction false} RunKeepsConsistent(a: Account, ops: seq<Op>)
    requires Consistent(a)
    ensures Consistent(Run(a, ops))
  {
    var r := Run(a, ops);
    var n := |a.history|;
    RunMovesBalanceByNet(a, ops);
    assert r.history == a.history + r.history[n..];
    NetConcat(a.history, r.history[n..]);
  }

  /** `n` copies of `x`. */
  function Copies<T>(x: T, n: nat): seq<T> {
    if n == 0 then [] else [x] + Copies(x, n - 1)
  }

  /** Running a non-empty sequence is running its first request, then the rest. */
  lemma RunStep(a: Account, op: Op, ops: seq<Op>)
    ensures Run(a, [op] + ops) == Run(Apply(a, op).account, ops)
  {
  }

  /** Distributivity step used to total `n` equal amounts. */
  lemma OneMoreTimes(m: nat, x: int)
    ensures m * x + x == (m + 1) * x
  {
  }

  /** `n` equal loan requests, each within the limit, all succeed: the limit never caps total borrowing. */
  lemma {:induction false} RepeatedLoans(a: Account, amount: int, n: nat)
    requires amount <= a.loanLimit
    ensures Run(a, Copies(LoanOp(amount), n)).balance == a.balance + n * amount
    ensures Run(a, Copies(LoanOp(amount), n)).history == a.history + Copies(Transaction(Loan, amount), n)
    decreases n
  {
    var t := Transaction(Loan, amount);
    if n == 0 {
      assert a.history + [] == a.history;
    } else {
      var step := Apply(a, LoanOp(amount)).account;
      RunStep(a, LoanOp(amount), Copies(LoanOp(amount), n - 1));
      RepeatedLoans(step, amount, n - 1);
      assert step.history + Copies(t, n - 1) == a.history + Copies(t, n) by {
        assert step.history == a.history + [t];
      }
      OneMoreTimes(n - 1, amount);
    }
  }

  /** Two consecutive loan requests within the limit both succeed. */
  lemma TwoLoansBothSucceed(a: Account, amount: int)
    requires amount <= a.loanLimit
    ensures RequestLoan(a, amount).ok
    ensures RequestLoan(RequestLoan(a, amount).account, amount).ok
    ensures RequestLoan(RequestLoan(a, amount).account, amount).account.balance == a.balance + 2 * amount
  {
  }

  /** A withdrawal followed by a deposit of the same amount restores the balance, and the ledger records both. */
  lemma WithdrawThenDepositRestores(a: Account, amount: int)
    requires Withdraw(a, amount).ok
    ensures Deposit(Withdraw(a, amount).account, amount).balance == a.balance
    ensures Deposit(Withdraw(a, amount).account, amount).history
         == a.history + [Transaction(Withdrawal, amount), Transaction(TxKind.Deposit, amount)]
  {
  }

  /**
   An example session, in cents: deposit 500.00, withdraw 200.00, borrow
   1000.00 twice against a 1000.00 limit, then try to withdraw 5000.00.
   */
  lemma DemoScenario()
    ensures var a0 := NewAccount("1234", "Brian", 100000);
            var a1 := Deposit(a0, 50000);
            var w := Withdraw(a1, 20000);
            var l1 := RequestLoan(w.account, 100000);
            var l2 := RequestLoan(l1.account, 100000);
            var w2 := Withdraw(l2.account, 500000);
            && a1.balance == 50000 && a1.history == [Transaction(TxKind.Deposit, 50000)]
            && w.ok && w.account.balance == 30000
            && l1.ok && l1.account.balance == 130000
            && l2.ok && l2.account.balance == 230000
            && !w2.ok && w2.account.balance == 230000
  {
  }

  /** Account number, holder name and balance, as shown to the user (a pure projection). */
  function Info(a: Account): (string, string, int) {
    (a.number, a.holder, a.balance)
  }
}
