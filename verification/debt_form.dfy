/** The add-debt screen's validation (`handleAddDebt`, AddDebtScreen.tsx):
    required fields, then a positive amount, then the `YYYY-MM-DD` shape of
    the due date; the first failing check decides, and only accepted input
    reaches `addDebt`. */
module DebtForm {
  import opened Wrappers
  import opened Types
  import opened Seqs
  import opened Finance
  import opened FormCommon

  /** `\d` of a JavaScript regular expression: an ASCII digit. */
  predicate IsDigit(c: char) {
    '0' <= c <= '9'
  }

  /** `/^\d{4}-\d{2}-\d{2}$/`: exactly ten characters, dashes at positions 4
      and 7, ASCII digits elsewhere. Only the shape is checked; month and
      day ranges are not (RFC 3339, section 5.6, `full-date` layout). */
  predicate IsDateShape(s: string) {
    |s| == 10 && forall i :: 0 <= i < 10 ==> (if i == 4 || i == 7 then s[i] == '-' else IsDigit(s[i]))
  }

  /** A character class of the date pattern. */
  datatype CharClass = Digit | Dash

  function ClassMatches(c: CharClass, ch: char): bool {
    match c
    case Digit => IsDigit(ch)
    case Dash => ch == '-'
  }

  /** The date regular expression as a sequence of single-character classes. */
  const DatePattern: seq<CharClass> := [Digit, Digit, Digit, Digit, Dash, Digit, Digit, Dash, Digit, Digit]

  /** Reference matcher for an anchored pattern of single-character classes. */
  function MatchesPattern(p: seq<CharClass>, s: string): bool {
    if |p| == 0 then |s| == 0
    else |s| > 0 && ClassMatches(p[0], s[0]) && MatchesPattern(p[1..], s[1..])
  }

  lemma {:induction false} MatchesPatternPointwise(p: seq<CharClass>, s: string)
    ensures MatchesPattern(p, s) <==> |p| == |s| && forall i :: 0 <= i < |p| ==> ClassMatches(p[i], s[i])
  {
    if |p| > 0 && |s| > 0 {
      MatchesPatternPointwise(p[1..], s[1..]);
      if |p| == |s| && (forall i :: 0 <= i < |p[1..]| ==> ClassMatches(p[1..][i], s[1..][i])) && ClassMatches(p[0], s[0]) {
        forall i | 0 <= i < |p| ensures ClassMatches(p[i], s[i]) {
          if i > 0 {
            assert p[1..][i - 1] == p[i] && s[1..][i - 1] == s[i];
          }
        }
      }
      if |p| == |s| && forall i :: 0 <= i < |p| ==> ClassMatches(p[i], s[i]) {
        forall i | 0 <= i < |p[1..]| ensures ClassMatches(p[1..][i], s[1..][i]) {
          assert p[1..][i] == p[i + 1] && s[1..][i] == s[i + 1];
        }
      }
    }
  }

  /** The due-date test agrees with the reference matcher run on the pattern. */
  lemma DateShapeMatchesPattern(s: string)
    ensures IsDateShape(s) <==> MatchesPattern(DatePattern, s)
  {
    MatchesPatternPointwise(DatePattern, s);
    if |s| == 10 {
      forall i | 0 <= i < 10
        ensures ClassMatches(DatePattern[i], s[i]) <==> (if i == 4 || i == 7 then s[i] == '-' else IsDigit(s[i]))
      {
      }
    }
  }

  /** The test is about shape alone: a month 13 and a day 45 pass. */
  lemma CalendarNonsenseAccepted()
    ensures IsDateShape("2024-13-45")
  {
    var d := "2024-13-45";
    assert forall i :: 0 <= i < 10 ==> (if i == 4 || i == 7 then d[i] == '-' else IsDigit(d[i]));
  }

  /** A missing zero, another separator or trailing text is rejected. */
  lemma MalformedDatesRejected()
    ensures !IsDateShape("2024-1-05")
    ensures !IsDateShape("2024/01/05")
    ensures !IsDateShape("2024-01-05 ")
  {
    assert "2024/01/05"[4] == '/';
  }

  predicate AllDigits(s: string) {
    forall i :: 0 <= i < |s| ==> IsDigit(s[i])
  }

  /** The accepted strings are exactly year, month and day digit groups of
      four, two and two joined by dashes, whatever their values. */
  lemma DateShapeIsDigitGroups(s: string)
    ensures IsDateShape(s) <==>
      (|s| == 10 && s == s[..4] + "-" + s[5..7] + "-" + s[8..]
       && AllDigits(s[..4]) && AllDigits(s[5..7]) && AllDigits(s[8..]))
  {
  }

  /** What `handleAddDebt` passes to `addDebt`. */
  datatype DebtDraft = DebtDraft(description: string, amount: real, dueDate: string)

  /** The validation chain of `handleAddDebt`. `parsedAmount` is what
      `parseFloat` made of `amountText` (`None` for NaN). */
  function ValidateDebt(description: string, amountText: string, parsedAmount: Option<real>, dueDate: string)
    : (r: Result<DebtDraft, FormError>)
    ensures (description == "" || amountText == "" || dueDate == "") ==> r == Failure(MissingFields)
    ensures description != "" && amountText != "" && dueDate != "" && !AmountAccepted(parsedAmount) ==>
      r == Failure(InvalidAmount)
    ensures (description != "" && amountText != "" && dueDate != "" && AmountAccepted(parsedAmount)
             && !IsDateShape(dueDate)) ==> r == Failure(InvalidDate)
    ensures r.Success? <==>
      description != "" && amountText != "" && AmountAccepted(parsedAmount) && IsDateShape(dueDate)
    ensures r.Success? ==>
      && r.value.description == description
      && r.value.amount == parsedAmount.value
      && r.value.dueDate == dueDate
      && r.value.amount > 0.0
  {
    if description == "" || amountText == "" || dueDate == "" then Failure(MissingFields)
    else if !AmountAccepted(parsedAmount) then Failure(InvalidAmount)
    else if !IsDateShape(dueDate) then Failure(InvalidDate)
    else Success(DebtDraft(description, parsedAmount.value, dueDate))
  }

  /** Pressing the add button: accepted input becomes a new debt, rejected
      input changes nothing. */
  function SubmitDebt(
    s: FinanceState, id: string, description: string, amountText: string,
    parsedAmount: Option<real>, dueDate: string): (r: FinanceState)
    ensures ValidateDebt(description, amountText, parsedAmount, dueDate).Failure? ==> r == s
    ensures ValidateDebt(description, amountText, parsedAmount, dueDate).Success? ==>
      r == AddDebt(s, id, description, parsedAmount.value, dueDate) && r.debts[0].amount > 0.0
  {
    match ValidateDebt(description, amountText, parsedAmount, dueDate)
    case Success(d) => AddDebt(s, id, d.description, d.amount, d.dueDate)
    case Failure(_) => s
  }

  /** The screen needs only a fresh id to keep the finance invariant: its
      amount check is what keeps debts non-negative. */
  lemma SubmitDebtKeepsValid(
    s: FinanceState, id: string, description: string, amountText: string,
    parsedAmount: Option<real>, dueDate: string)
    requires Valid(s) && !HasKey(s.debts, DebtKey, id)
    ensures Valid(SubmitDebt(s, id, description, amountText, parsedAmount, dueDate))
  {
    if ValidateDebt(description, amountText, parsedAmount, dueDate).Success? {
      AddDebtKeepsValid(s, id, description, parsedAmount.value, dueDate);
    }
  }
}
