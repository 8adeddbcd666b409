/** The dashboard figures of the home screen (HomeScreen.tsx): total owed,
    income, expenses and the net balance with its sign, and how the finance
    operations move them. Sums are exact over `real`. */
module Dashboard {
  import opened Wrappers
  import opened Types
  import opened Seqs
  import opened Finance

  /** Sum of every transaction amount, whatever its kind. */
  function TotalAmount(ts: seq<Transaction>): real {
    if |ts| == 0 then 0.0 else ts[0].amount + TotalAmount(ts[1..])
  }

  /** Sum of all debt amounts (`debts.reduce((sum, d) => sum + d.amount, 0)`):
      zero for no debts, and never negative while no debt is. */
  function TotalDebts(debts: seq<Debt>): (r: real)
    ensures |debts| == 0 ==> r == 0.0
    ensures (forall i :: 0 <= i < |debts| ==> debts[i].amount >= 0.0) ==> r >= 0.0
  {
    if |debts| == 0 then 0.0
    else
      assert forall i :: 0 <= i < |debts[1..]| ==> debts[1..][i] == debts[i + 1];
      debts[0].amount + TotalDebts(debts[1..])
  }

  /** Sum of the amounts of the transactions of one kind (`filter` then
      `reduce`): nothing when no transaction has that kind, everything when
      all do, and a part of the whole while amounts are non-negative. */
  function KindTotal(ts: seq<Transaction>, kind: TransactionKind): (r: real)
    ensures (forall i :: 0 <= i < |ts| ==> ts[i].kind != kind) ==> r == 0.0
    ensures (forall i :: 0 <= i < |ts| ==> ts[i].kind == kind) ==> r == TotalAmount(ts)
    ensures (forall i :: 0 <= i < |ts| ==> ts[i].amount >= 0.0) ==> 0.0 <= r <= TotalAmount(ts)
  {
    if |ts| == 0 then 0.0
    else
      assert forall i :: 0 <= i < |ts[1..]| ==> ts[1..][i] == ts[i + 1];
      (if ts[0].kind == kind then ts[0].amount else 0.0) + KindTotal(ts[1..], kind)
  }

  /** Total income; together with the total expenses it accounts for every
      transaction amount. */
  function TotalIncome(ts: seq<Transaction>): (r: real)
    ensures r + TotalExpenses(ts) == TotalAmount(ts)
    ensures (forall i :: 0 <= i < |ts| ==> ts[i].kind == Expense) ==> r == 0.0
  {
    IncomePlusExpensesIsTotal(ts);
    KindTotal(ts, Income)
  }

  /** Total expenses: zero for a list of incomes only. */
  function TotalExpenses(ts: seq<Transaction>): (r: real)
    ensures (forall i :: 0 <= i < |ts| ==> ts[i].kind == Income) ==> r == 0.0
    ensures (forall i :: 0 <= i < |ts| ==> ts[i].amount >= 0.0) ==> 0.0 <= r <= TotalAmount(ts)
  {
    KindTotal(ts, Expense)
  }

  /** Income minus expenses, which is the signed sum of all transactions. */
  function NetBalance(ts: seq<Transaction>): (r: real)
    ensures r == SignedTotal(ts)
  {
    NetBalanceIsSignedTotal(ts);
    TotalIncome(ts) - TotalExpenses(ts)
  }

  /** A transaction's effect on the balance: income adds, expense subtracts. */
  function SignedAmount(t: Transaction): real {
    match t.kind
    case Income => t.amount
    case Expense => -t.amount
  }

  /** Reference definition of the balance: one pass of signed amounts. */
  function SignedTotal(ts: seq<Transaction>): real {
    if |ts| == 0 then 0.0 else SignedAmount(ts[0]) + SignedTotal(ts[1..])
  }

  /** How the balance is styled. */
  datatype Tone = Positive | Negative

  /** The balance is shown as positive exactly when it is not below zero. */
  function BalanceTone(ts: seq<Transaction>): (r: Tone)
    ensures r == Positive <==> SignedTotal(ts) >= 0.0
  {
    if NetBalance(ts) >= 0.0 then Positive else Negative
  }

  /** Every transaction is income or expense, so the two totals add up to
      the total of all amounts. */
  lemma {:induction false} IncomePlusExpensesIsTotal(ts: seq<Transaction>)
    ensures KindTotal(ts, Income) + KindTotal(ts, Expense) == TotalAmount(ts)
  {
    if |ts| > 0 {
      IncomePlusExpensesIsTotal(ts[1..]);
    }
  }

  /** Income minus expenses is the signed sum of all transactions. */
  lemma {:induction false} NetBalanceIsSignedTotal(ts: seq<Transaction>)
    ensures KindTotal(ts, Income) - KindTotal(ts, Expense) == SignedTotal(ts)
  {
    if |ts| > 0 {
      NetBalanceIsSignedTotal(ts[1..]);
    }
  }

  function Min(a: real, b: real): real {
    if a <= b then a else b
  }

  /** A payment to a debt id that no debt carries changes no total. */
  lemma {:induction false} PaymentToUnknownDebt(debts: seq<Debt>, debtId: string, paid: real)
    requires !HasKey(debts, DebtKey, debtId)
    ensures TotalDebts(ApplyPayment(debts, debtId, paid)) == TotalDebts(debts)
  {
    if |debts| > 0 {
      assert !HasKey(debts[1..], DebtKey, debtId) by {
        forall m | 0 <= m < |debts[1..]| ensures DebtKey(debts[1..][m]) != debtId {
          assert debts[1..][m] == debts[m + 1];
        }
      }
      PaymentToUnknownDebt(debts[1..], debtId, paid);
    }
  }

  /** With unique ids, a payment of `paid` to the debt at `k` lowers the
      total owed by `min(paid, amount of that debt)`: the clamp at zero never
      lets a payment count for more than what was owed. */
  lemma {:induction false} PaymentLowersTotalDebts(debts: seq<Debt>, k: int, paid: real)
    requires KeysUnique(debts, DebtKey)
    requires 0 <= k < |debts|
    ensures TotalDebts(ApplyPayment(debts, debts[k].id, paid)) == TotalDebts(debts) - Min(paid, debts[k].amount)
  {
    var id := debts[k].id;
    var tail := debts[1..];
    if k == 0 {
      assert !HasKey(tail, DebtKey, id) by {
        forall m | 0 <= m < |tail| ensures DebtKey(tail[m]) != id {
          assert tail[m] == debts[m + 1];
        }
      }
      PaymentToUnknownDebt(tail, id, paid);
    } else {
      assert KeysUnique(tail, DebtKey) by {
        forall i, j | 0 <= i < j < |tail| ensures DebtKey(tail[i]) != DebtKey(tail[j]) {
          assert tail[i] == debts[i + 1] && tail[j] == debts[j + 1];
        }
      }
      assert tail[k - 1] == debts[k];
      assert debts[0].id != id;
      PaymentLowersTotalDebts(tail, k - 1, paid);
    }
  }

  /** A non-negative payment never raises the total owed while all debts
      are non-negative. */
  lemma {:induction false} PaymentNeverRaisesTotal(debts: seq<Debt>, debtId: string, paid: real)
    requires paid >= 0.0
    requires forall i :: 0 <= i < |debts| ==> debts[i].amount >= 0.0
    ensures TotalDebts(ApplyPayment(debts, debtId, paid)) <= TotalDebts(debts)
  {
    if |debts| > 0 {
      assert forall i :: 0 <= i < |debts[1..]| ==> debts[1..][i].amount >= 0.0 by {
        forall i | 0 <= i < |debts[1..]| ensures debts[1..][i].amount >= 0.0 {
          assert debts[1..][i] == debts[i + 1];
        }
      }
      PaymentNeverRaisesTotal(debts[1..], debtId, paid);
    }
  }

  /** Adding a transaction moves the balance by its signed amount and the
      total of its kind by its amount. */
  lemma AddTransactionMovesBalance(
    s: FinanceState, id: string, kind: TransactionKind, amount: real,
    date: string, description: string, linkedDebtId: Option<string>)
    ensures var r := AddTransaction(s, id, kind, amount, date, description, linkedDebtId);
            && SignedTotal(r.transactions) == SignedTotal(s.transactions)
                 + (if kind == Income then amount else -amount)
            && KindTotal(r.transactions, kind) == KindTotal(s.transactions, kind) + amount
  {
    var r := AddTransaction(s, id, kind, amount, date, description, linkedDebtId);
    assert r.transactions[1..] == s.transactions;
  }

  /** A linked expense lowers the total owed by what it actually pays off,
      given unique debt ids and a link naming the debt at `k`. */
  lemma LinkedExpenseLowersTotalDebts(
    s: FinanceState, id: string, amount: real, date: string, description: string, k: int)
    requires KeysUnique(s.debts, DebtKey)
    requires 0 <= k < |s.debts| && s.debts[k].id != ""
    ensures var r := AddTransaction(s, id, Expense, amount, date, description, Some(s.debts[k].id));
            TotalDebts(r.debts) == TotalDebts(s.debts) - Min(amount, s.debts[k].amount)
  {
    var r := AddTransaction(s, id, Expense, amount, date, description, Some(s.debts[k].id));
    assert r.debts == ApplyPayment(s.debts, s.debts[k].id, amount);
    PaymentLowersTotalDebts(s.debts, k, amount);
  }
}
