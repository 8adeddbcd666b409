/** The add-transaction screen's validation (`handleAddTransaction`,
    AddTransactionScreen.tsx): required fields, then a positive amount; the
    debt link is passed only for expenses with a selection, and the picker
    offers only "none" or the ids of debts currently held. */
module TransactionForm {
  import opened Wrappers
  import opened Types
  import opened Seqs
  import opened Finance
  import opened FormCommon
  import opened Dashboard

  /** What `handleAddTransaction` passes to `addTransaction`. */
  datatype TransactionDraft = TransactionDraft(
    kind: TransactionKind,
    amount: real,
    description: string,
    date: string,
    linkedDebtId: Option<string>)

  /** `type === 'expense' && linkedDebtId ? linkedDebtId : undefined`. */
  function LinkFor(kind: TransactionKind, selected: string): (r: Option<string>)
    ensures r.Some? <==> kind == Expense && selected != ""
    ensures r.Some? ==> r.value == selected
  {
    if kind == Expense && selected != "" then Some(selected) else None
  }

  /** The validation chain of `handleAddTransaction`. `parsedAmount` is what
      `parseFloat` made of `amountText` (`None` for NaN); `today` is the
      `YYYY-MM-DD` part of the current instant. */
  function ValidateTransaction(
    kind: TransactionKind, amountText: string, parsedAmount: Option<real>,
    description: string, selectedLink: string, today: string): (r: Result<TransactionDraft, FormError>)
    ensures (amountText == "" || description == "") ==> r == Failure(MissingFields)
    ensures amountText != "" && description != "" && !AmountAccepted(parsedAmount) ==> r == Failure(InvalidAmount)
    ensures r.Success? <==> amountText != "" && description != "" && AmountAccepted(parsedAmount)
    ensures r.Success? ==>
      && r.value.kind == kind
      && r.value.amount == parsedAmount.value && r.value.amount > 0.0
      && r.value.description == description
      && r.value.date == today
      && (r.value.linkedDebtId.Some? <==> kind == Expense && selectedLink != "")
      && (r.value.linkedDebtId.Some? ==> r.value.linkedDebtId.value == selectedLink)
  {
    if amountText == "" || description == "" then Failure(MissingFields)
    else if !AmountAccepted(parsedAmount) then Failure(InvalidAmount)
    else Success(TransactionDraft(kind, parsedAmount.value, description, today, LinkFor(kind, selectedLink)))
  }

  /** The values the debt picker can hold: "none" or the id of a debt in state. */
  predicate Selectable(debts: seq<Debt>, link: string) {
    link == "" || HasKey(debts, DebtKey, link)
  }

  /** Pressing the add button: accepted input becomes a new transaction
      (paying down the linked debt), rejected input changes nothing. */
  function SubmitTransaction(
    s: FinanceState, id: string, kind: TransactionKind, amountText: string, parsedAmount: Option<real>,
    description: string, selectedLink: string, today: string): (r: FinanceState)
    ensures ValidateTransaction(kind, amountText, parsedAmount, description, selectedLink, today).Failure? ==> r == s
    ensures ValidateTransaction(kind, amountText, parsedAmount, description, selectedLink, today).Success? ==>
      r == AddTransaction(s, id, kind, parsedAmount.value, today, description, LinkFor(kind, selectedLink))
  {
    match ValidateTransaction(kind, amountText, parsedAmount, description, selectedLink, today)
    case Success(t) => AddTransaction(s, id, t.kind, t.amount, t.date, t.description, t.linkedDebtId)
    case Failure(_) => s
  }

  /** Any link the screen passes names a debt that exists at that moment. */
  lemma PassedLinkNamesExistingDebt(
    debts: seq<Debt>, kind: TransactionKind, amountText: string, parsedAmount: Option<real>,
    description: string, selectedLink: string, today: string)
    requires Selectable(debts, selectedLink)
    requires ValidateTransaction(kind, amountText, parsedAmount, description, selectedLink, today).Success?
    ensures var t := ValidateTransaction(kind, amountText, parsedAmount, description, selectedLink, today).value;
            t.linkedDebtId.Some? ==> HasKey(debts, DebtKey, t.linkedDebtId.value)
  {
  }

  /** An income, or an expense with nothing selected, leaves every debt as it was. */
  lemma UnlinkedSubmissionLeavesDebts(
    s: FinanceState, id: string, kind: TransactionKind, amountText: string, parsedAmount: Option<real>,
    description: string, selectedLink: string, today: string)
    requires kind == Income || selectedLink == ""
    ensures SubmitTransaction(s, id, kind, amountText, parsedAmount, description, selectedLink, today).debts == s.debts
  {
    if ValidateTransaction(kind, amountText, parsedAmount, description, selectedLink, today).Success? {
      AddTransactionLeavesDebts(s, id, kind, parsedAmount.value, today, description, LinkFor(kind, selectedLink));
    }
  }

  /** An accepted expense linked through the picker pays off exactly
      `min(amount, owed)` of the chosen debt, given unique debt ids. */
  lemma LinkedSubmissionPaysDebt(
    s: FinanceState, id: string, amountText: string, parsedAmount: Option<real>,
    description: string, selectedLink: string, today: string)
    requires KeysUnique(s.debts, DebtKey)
    requires selectedLink != "" && Selectable(s.debts, selectedLink)
    requires ValidateTransaction(Expense, amountText, parsedAmount, description, selectedLink, today).Success?
    ensures var r := SubmitTransaction(s, id, Expense, amountText, parsedAmount, description, selectedLink, today);
            exists k :: 0 <= k < |s.debts| && s.debts[k].id == selectedLink
              && TotalDebts(r.debts) == TotalDebts(s.debts) - Min(parsedAmount.value, s.debts[k].amount)
              && r.debts[k].amount == Clamp0(s.debts[k].amount - parsedAmount.value)
  {
    var k :| 0 <= k < |s.debts| && DebtKey(s.debts[k]) == selectedLink;
    LinkedExpenseLowersTotalDebts(s, id, parsedAmount.value, today, description, k);
  }

  /** The screen keeps the finance invariant given a fresh id. */
  lemma SubmitTransactionKeepsValid(
    s: FinanceState, id: string, kind: TransactionKind, amountText: string, parsedAmount: Option<real>,
    description: string, selectedLink: string, today: string)
    requires Valid(s) && !HasKey(s.transactions, TransactionKey, id)
    ensures Valid(SubmitTransaction(s, id, kind, amountText, parsedAmount, description, selectedLink, today))
  {
    if ValidateTransaction(kind, amountText, parsedAmount, description, selectedLink, today).Success? {
      AddTransactionKeepsValid(s, id, kind, parsedAmount.value, today, description, LinkFor(kind, selectedLink));
    }
  }
}
