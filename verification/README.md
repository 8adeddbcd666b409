# Finance and session state of a personal-finance mobile app, in Dafny

This project models the two state services of a small React Native app for
personal finances and appointment booking, together with the pure pieces
around them:

- **Finance state manager** (`FinanceProvider`): the signed-in user's debts,
  transactions and appointments, kept newest first. Adding prepends a record
  with a fixed initial status. Deleting filters by id; clearing empties one
  collection. An expense linked to a debt pays that debt down to
  `max(0, amount - paid)`. When the user changes, the user's snapshot is
  loaded (seed data for a user without one) or everything is cleared, and a
  guard decides when the snapshot is saved back.
- **Session manager** (`AuthProvider`): an account directory loaded once at
  start-up and the signed-in account. `login` compares emails
  case-insensitively and passwords exactly; `register` refuses an email
  already present up to case; `logout` signs out; `updateUser` merges a
  partial record into the signed-in account and its directory entry.
- **Dashboard figures** of the home screen (total owed, income, expenses,
  net balance and its sign) and the **validation** of the add-debt and
  add-transaction screens.

Every state change is a pure function on an immutable datatype. Amounts are
`real`. Ids, parsed amounts and dates are parameters. Storage is a map from
user id to snapshot.

Modules, one per source file or component:

| file | module | models |
|---|---|---|
| wrappers.dfy | `Wrappers` | `Option` (for `undefined`) and `Result` |
| seqs.dfy | `Seqs` | removal by key (`filter`), `findIndex`, key uniqueness |
| types.dfy | `Types` | types.ts |
| finance.dfy | `Finance` | AppContext.tsx |
| auth.dfy | `Auth` | AuthContext.tsx |
| dashboard.dfy | `Dashboard` | HomeScreen.tsx figures |
| form_common.dfy | `FormCommon` | error kinds and the amount test shared by both screens |
| debt_form.dfy | `DebtForm` | AddDebtScreen.tsx validation |
| transaction_form.dfy | `TransactionForm` | AddTransactionScreen.tsx validation |

Three behaviours of the code are easy to misread, and the model keeps them as written:

- Finance operations also change the in-memory state when nobody is signed
  in. Such a state is simply never saved.
- Deleting removes every entry with the id. "Exactly one" holds only while
  ids are unique (`Finance.DeleteRemovesExactlyOne`).
- The directory is a list, not a map keyed by email. `updateUser` can give
  two accounts the same email (`Auth.UpdateUserCanDuplicateEmail`).

## Model

| member | source | states |
|---|---|---|
| Seqs.RemoveKey | AppContext.tsx:137-143 | no element with the removed id survives; every other element keeps its multiplicity; survivors keep their relative order; removing an absent id returns the list unchanged |
| Seqs.RemoveKeyKeepsUnique | AppContext.tsx:137-143 | if ids were distinct before the filter, they are distinct after it |
| Seqs.RemoveKeyDropsOne | AppContext.tsx:137-143 | with distinct ids, removing an id that is present shortens the list by exactly one |
| Seqs.FindFirst | AuthContext.tsx:62-65 | returns the index of the first element that satisfies the condition, and none exactly when no element does; this is the `find` of `login` and also the `findIndex` of `updateUser` at AuthContext.tsx line 107 |
| Finance.OnUserChange | AppContext.tsx:74-91 | signing out empties all three collections and clears the loaded flag; signing in loads that user's snapshot (a missing collection becomes empty) or the seed when there is no snapshot, and sets the flag |
| Finance.Persist | AppContext.tsx:94-98 | storage is written only when a user is present and their data has loaded; the write puts the full snapshot under that user's key and changes no other key |
| Finance.AddDebt | AppContext.tsx:100-107 | prepends one debt with the given id, description, amount and due date and status pending; the other collections, the user and the flag stay the same |
| Finance.ApplyPayment | AppContext.tsx:118-124 | every debt with the linked id drops to max(0, amount - paid); every other debt, and the order and length, stay the same |
| Finance.AddTransaction | AppContext.tsx:109-126 | prepends the transaction; only an expense with a non-empty link changes debts, and only those carrying that id, to max(0, amount - paid) with status unchanged; appointments stay the same |
| Finance.AddAppointment | AppContext.tsx:128-135 | prepends one appointment with status confirmed; debts and transactions stay the same |
| Finance.DeleteDebt | AppContext.tsx:137-139 | no debt with the id remains; the survivors are the other debts in their order; an absent id leaves the debts unchanged; transactions are never touched |
| Finance.DeleteTransaction | AppContext.tsx:141-143 | no transaction with the id remains; the survivors keep their order; an absent id leaves the list unchanged; debts are never credited back |
| Finance.ClearDebts | AppContext.tsx:145-147 | no debt remains; transactions, appointments, the user and the loaded flag are unchanged |
| Finance.ClearTransactions | AppContext.tsx:149-151 | no transaction remains; debts (no payment is credited back), appointments, the user and the loaded flag are unchanged |
| Finance.ClearAppointments | AppContext.tsx:153-155 | no appointment remains; debts, transactions, the user and the loaded flag are unchanged |
| Finance.InitialState | AppContext.tsx:68-71 | the provider starts with empty, sound collections and not loaded, so nothing is saved and a save changes no storage |
| Finance.SeedSound | AppContext.tsx:7-19 | the seed data is sound: non-negative pending debts, confirmed appointment, distinct ids in each collection |
| Finance.ApplyPaymentKeepsSound | AppContext.tsx:118-124 | a linked payment keeps all debts non-negative and pending, and keeps their ids distinct |
| Finance.AddDebtKeepsValid | AppContext.tsx:100-107 | adding a non-negative debt under a fresh id keeps the invariant |
| Finance.AddTransactionKeepsValid | AppContext.tsx:109-126 | adding a transaction under a fresh id keeps the invariant, for any amount and link |
| Finance.AddAppointmentKeepsValid | AppContext.tsx:128-135 | adding an appointment under a fresh id keeps the invariant |
| Finance.DeleteDebtKeepsValid | AppContext.tsx:137-139 | deleting a debt keeps every remaining debt non-negative and pending, with distinct ids |
| Finance.OnUserChangeKeepsValid | AppContext.tsx:76-88 | loading from sound storage, or clearing, yields a sound state |
| Finance.StepPreservesValid | AppContext.tsx:100-155 | every operation, given fresh ids, a non-negative amount for a new debt, and sound storage, keeps debts non-negative, never makes a debt paid or an appointment done, and keeps ids unique |
| Finance.PersistKeepsStoreSound | AppContext.tsx:94-98 | saving a sound state keeps storage sound |
| Finance.RunPreservesSoundness | AppContext.tsx:94-155 | an operation followed by its save, given fresh ids and a non-negative amount for a new debt, keeps both memory and storage sound |
| Finance.AddTransactionLeavesDebts | AppContext.tsx:117-123 | an income, an expense with an absent or empty link, or a link naming no debt leaves the debt list exactly as it was |
| Finance.DeleteUndoesAddDebt | AppContext.tsx:100-139 | adding a debt under a fresh id and then deleting that id restores the previous state |
| Finance.DeleteTransactionKeepsPayment | AppContext.tsx:109-143 | deleting a just-added transaction restores the transaction list, but any debt it paid down stays paid down |
| Finance.DeleteRemovesExactlyOne | AppContext.tsx:137-143 | with unique debt ids and unique transaction ids (nothing else assumed), deleting a present id removes exactly one debt or transaction |
| Finance.SignOutAndBackRestores | AppContext.tsx:74-98 | signing out writes nothing and empties the collections; signing back in as the same user restores exactly the last saved state |
| Finance.SignInSeesOnlyOwnData | AppContext.tsx:76-81 | the state after sign-in depends only on that user's stored snapshot, not on the previous state or on other users' data |
| Finance.SaveIsolatesUsers | AppContext.tsx:57-63 | saving one user's snapshot never changes what another user loads |
| Finance.FirstSignInScenario | AppContext.tsx:7-10 | a user without a snapshot gets the two pending seed debts of 5000 and 1200; a linked expense of 500 then lowers the first to 4500 and leaves the second |
| Auth.LoadDirectory | AuthContext.tsx:47-54 | start-up sets the loaded flag and installs the stored list, or the default list when storage has none; the signed-in account is not changed |
| Auth.LoadDirectoryEstablishesInvariant | AuthContext.tsx:47-54 | when the stored list has no two emails equal up to case (or there is none and the default list is used), the loaded directory has none either; loading twice with the same stored list equals loading once |
| Auth.Login | AuthContext.tsx:56-70 | while not loaded, fails and changes nothing; otherwise succeeds exactly when some entry matches the email up to case and the password exactly, and then signs in the first such entry; any other failure is an invalid-credentials reply; a failure leaves the state unchanged |
| Auth.Register | AuthContext.tsx:72-93 | while not loaded, fails and changes nothing; fails without change if any email matches up to case; otherwise appends exactly one account with the given name, email, password and derived avatar, and signs it in |
| Auth.Logout | AuthContext.tsx:95-97 | nobody is signed in afterwards; the directory and the loaded flag stay the same |
| Auth.UpdateUser | AuthContext.tsx:99-114 | does nothing without a signed-in account; otherwise merges the patch into the signed-in account and into the first directory entry with its id, and leaves every other entry unchanged |
| Auth.MergeFields | AuthContext.tsx:103 | each field of a merged account comes from the patch when present there, and from the account otherwise |
| Auth.RegisterThenLogin | AuthContext.tsx:62-92 | after a successful registration and a sign-out, logging in with the same email and password succeeds and signs in the new account's id |
| Auth.SessionKeepsEmailsUnique | AuthContext.tsx:78-89 | register, login and logout keep directory emails pairwise distinct up to case |
| Auth.DefaultDirectoryEmailsUnique | AuthContext.tsx:16-18 | the default directory starts with emails unique up to case |
| Auth.RegisterRejectsCaseVariant | AuthContext.tsx:78-81 | after one successful registration, registering an email that differs only in case fails with email-in-use and changes nothing |
| Auth.UpdateUserCanDuplicateEmail | AuthContext.tsx:99-111 | a profile edit can give the signed-in account another account's email, breaking uniqueness |
| Auth.UpdateUserKeepsCurrentInDirectory | AuthContext.tsx:103-109 | with unique ids, if the signed-in account is in the directory before a profile edit, its updated copy is in the directory after it |
| Auth.PasswordlessAccountNeverSignsIn | AuthContext.tsx:62 | an account without a password is never the one a successful login signs in |
| Auth.DefaultAccountScenario | AuthContext.tsx:16-18 | with empty storage, the default account logs in with its email in any letter case, and every other password is refused as invalid credentials |
| Dashboard.BalanceTone | HomeScreen.tsx:44 | the balance is styled positive exactly when the signed sum of all transactions is at least zero |
| Dashboard.IncomePlusExpensesIsTotal | HomeScreen.tsx:21-22 | total income plus total expenses equals the sum of all transaction amounts |
| Dashboard.NetBalanceIsSignedTotal | HomeScreen.tsx:21-23 | income minus expenses equals the signed sum of the transactions, with income counted positive and expenses negative |
| Dashboard.TotalDebts | HomeScreen.tsx:20 | the total owed is zero for no debts and, when no debt is negative, not negative |
| Dashboard.KindTotal | HomeScreen.tsx:21-22 | the total of one kind is zero when no transaction has that kind, the whole sum when all do, and between zero and the whole sum when no amount is negative |
| Dashboard.TotalIncome | HomeScreen.tsx:21 | income and expenses add up to the sum of all transactions; income is zero when every transaction is an expense |
| Dashboard.TotalExpenses | HomeScreen.tsx:22 | expenses are zero when every transaction is income, and between zero and the sum of all transactions when no amount is negative |
| Dashboard.NetBalance | HomeScreen.tsx:23 | the balance equals the signed sum of the transactions, income counted positive and expenses negative |
| Dashboard.PaymentToUnknownDebt | AppContext.tsx:118-124 | a payment to an id no debt carries leaves the total owed unchanged |
| Dashboard.PaymentLowersTotalDebts | AppContext.tsx:118-124 | with unique ids, paying towards a present debt lowers the total owed by min(payment, amount owed on it) |
| Dashboard.PaymentNeverRaisesTotal | AppContext.tsx:121 | with non-negative debts, a non-negative payment never raises the total owed |
| Dashboard.AddTransactionMovesBalance | HomeScreen.tsx:21-23 | adding a transaction moves the balance by its signed amount and its kind's total by its amount |
| Dashboard.LinkedExpenseLowersTotalDebts | AppContext.tsx:116-125 | with unique debt ids and a non-empty id, an expense linked to a present debt lowers the total owed by min(amount, amount owed on it) |
| DebtForm.DateShapeMatchesPattern | AddDebtScreen.tsx:32-33 | the due-date test accepts exactly the strings that match ten single-character classes: four digits, dash, two digits, dash, two digits |
| DebtForm.DateShapeIsDigitGroups | AddDebtScreen.tsx:32-33 | a due date is accepted exactly when it is a four-digit, a two-digit and a two-digit group joined by dashes, for every string |
| DebtForm.CalendarNonsenseAccepted | AddDebtScreen.tsx:32-33 | the test checks shape only: "2024-13-45" is accepted |
| DebtForm.MalformedDatesRejected | AddDebtScreen.tsx:32-36 | a missing zero, a slash separator or a trailing space is rejected |
| DebtForm.ValidateDebt | AddDebtScreen.tsx:19-42 | an empty field is reported first, then an amount that is NaN or not positive, then a badly shaped date; accepted input passes the description, the parsed amount (always positive) and the due date unchanged |
| DebtForm.SubmitDebt | AddDebtScreen.tsx:19-42 | rejected input leaves the state unchanged; accepted input adds exactly that debt, whose amount is positive |
| DebtForm.SubmitDebtKeepsValid | AddDebtScreen.tsx:25-42 | given only a fresh id, submitting the form keeps the finance invariant |
| TransactionForm.LinkFor | AddTransactionScreen.tsx:40 | a link is passed exactly when the kind is expense and the selection is non-empty, and it is the selection |
| TransactionForm.ValidateTransaction | AddTransactionScreen.tsx:21-41 | an empty amount or description is reported first, then a NaN or non-positive amount; accepted input passes the kind, positive amount, description, today's date and the link rule unchanged |
| TransactionForm.SubmitTransaction | AddTransactionScreen.tsx:21-41 | rejected input leaves the state unchanged; accepted input adds exactly the drafted transaction |
| TransactionForm.PassedLinkNamesExistingDebt | AddTransactionScreen.tsx:87-90 | when the selection is "none" or the id of a debt in state, any link passed names an existing debt |
| TransactionForm.UnlinkedSubmissionLeavesDebts | AddTransactionScreen.tsx:40 | an income, or an expense with nothing selected, never changes a debt |
| TransactionForm.LinkedSubmissionPaysDebt | AddTransactionScreen.tsx:35-41 | with unique debt ids, an accepted expense linked through the picker lowers the chosen debt to max(0, owed - amount) and the total owed by min(amount, owed) |
| TransactionForm.SubmitTransactionKeepsValid | AddTransactionScreen.tsx:27-41 | given a fresh id, submitting the form keeps the finance invariant |

## Left out

- Storage I/O and JSON are not modelled. Reading and writing `userData_<id>` and `mockUsers` is asynchronous with errors swallowed. Storage becomes a map from user id to parsed snapshot. A read error or an empty stored string counts as "no snapshot".
- Directory persistence is not modelled. The writes of `mockUsers` after `register` and `updateUser` are not modelled. The stored list appears only as the input of `Auth.LoadDirectory`.
- Effect scheduling is not modelled. React runs the load and save effects asynchronously and in its own order. The model loads atomically on a user change and applies the save guard after every step. It therefore misses the window where a new user is set but that user's load has not finished. In that window the loaded flag still holds its previous value.
- React object identity is not modelled. The load effect re-runs whenever the user object changes identity, for example after `updateUser`. The finance model takes the signed-in user's id directly. The wiring between the two providers is not modelled.
- Id generation is not modelled. Random ids (`Math.random().toString(36)`) are parameters. Uniqueness is a hypothesis of the invariant lemmas, because the source does not guarantee it.
- `parseFloat` is not modelled: the parsed amount is a parameter, with `None` for NaN. `Date`/`toISOString` are not modelled either: today's date is a parameter.
- Amounts are exact reals. JavaScript numbers are IEEE doubles, so the source's sums, differences and `toFixed` display round in ways the model does not.
- `toLowerCase` is modelled as ASCII lower-casing only. Unicode case mapping is not modelled.
- Auth.UpdateUser: a patch field whose value is explicitly `undefined` counts as absent. In the source such a field would overwrite the stored value with `undefined`. For the same reason the password cannot be cleared.
- The context hooks are not modelled. `useFinance`, `useAppointments` and `useAuth` throw outside their provider.
- Rendering, navigation, alerts, pickers and the other screens are not modelled. These are the list screens, profile, appointment booking, service item and time slot. They hold no state logic of the two services.
- The thin guards of the login, register, edit-profile and appointment screens are not modelled. These are non-empty fields, matching password confirmation and the `HH:MM` time selection. The services accept any input there.
