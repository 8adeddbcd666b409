/** The finance state manager (`FinanceProvider`, AppContext.tsx): three
    newest-first collections owned by the signed-in user, the one
    cross-entity rule (a linked expense pays down its debt), the per-user
    load on sign-in / clear on sign-out, and the guard that decides when a
    snapshot is written back to storage. Every React state update is a pure
    transition on `FinanceState`. */
module Finance {
  import opened Wrappers
  import opened Types
  import opened Seqs

  /** A parsed `userData_<id>` snapshot. Each collection may be missing from
      the stored object; a missing one reads as empty. */
  datatype StoredData = StoredData(
    debts: Option<seq<Debt>>,
    transactions: Option<seq<Transaction>>,
    appointments: Option<seq<Appointment>>)

  /** Persisted storage, reduced to its `userData_<id>` keys. */
  type Store = map<UserId, StoredData>

  datatype FinanceState = FinanceState(
    user: Option<UserId>,
    dataLoaded: bool,
    debts: seq<Debt>,
    transactions: seq<Transaction>,
    appointments: seq<Appointment>)

  /** The provider's state before any user is known. */
  const Initial: FinanceState := FinanceState(None, false, [], [], [])

  /** Sample data handed to a user with no stored snapshot. */
  const SeedDebts: seq<Debt> := [
    Debt("1", "Empréstimo Banco", 5000.0, "2024-12-01", Pending),
    Debt("2", "Cartão de Crédito", 1200.0, "2024-09-15", Pending)
  ]
  const SeedTransactions: seq<Transaction> := [
    Transaction("1", Income, 3000.0, "2024-08-01", "Salário", None),
    Transaction("2", Expense, 500.0, "2024-08-05", "Aluguel", Some("1"))
  ]
  const SeedAppointments: seq<Appointment> := [
    Appointment("1", "Trança Nagô", "2024-08-25T14:00:00.000Z", Confirmed)
  ]
  const SeedData: StoredData := StoredData(Some(SeedDebts), Some(SeedTransactions), Some(SeedAppointments))

  /** `Math.max(0, x)`. */
  function Clamp0(x: real): real {
    if x < 0.0 then 0.0 else x
  }

  // ---------------------------------------------------------------------
  // Loading and saving

  /** `loadUserData`: the stored snapshot of `u`, or the seed when there is none. */
  function LoadUserData(store: Store, u: UserId): StoredData {
    if u in store then store[u] else SeedData
  }

  /** The load effect, run whenever the signed-in user changes: a present
      user gets their snapshot (missing collections empty, no snapshot at
      all the seed) and the loaded flag; an absent user empties everything. */
  function OnUserChange(s: FinanceState, user: Option<UserId>, store: Store): (r: FinanceState)
    ensures r.user == user
    ensures r.dataLoaded <==> user.Some?
    ensures user.None? ==> r.debts == [] && r.transactions == [] && r.appointments == []
    ensures user.Some? && user.value !in store ==>
      r.debts == SeedDebts && r.transactions == SeedTransactions && r.appointments == SeedAppointments
    ensures user.Some? && user.value in store ==>
      && r.debts == store[user.value].debts.GetOr([])
      && r.transactions == store[user.value].transactions.GetOr([])
      && r.appointments == store[user.value].appointments.GetOr([])
  {
    match user
    case None => FinanceState(None, false, [], [], [])
    case Some(u) =>
      var data := LoadUserData(store, u);
      FinanceState(user, true, data.debts.GetOr([]), data.transactions.GetOr([]), data.appointments.GetOr([]))
  }

  /** The save guard: a snapshot is written only for a present user whose data has loaded. */
  predicate ShouldSave(s: FinanceState) {
    s.user.Some? && s.dataLoaded
  }

  /** The full snapshot `saveUserData` writes. */
  function SnapshotOf(s: FinanceState): StoredData {
    StoredData(Some(s.debts), Some(s.transactions), Some(s.appointments))
  }

  /** The save effect: overwrite the signed-in user's snapshot when the
      guard allows it; every other user's snapshot is left alone. */
  function Persist(s: FinanceState, store: Store): (r: Store)
    ensures !ShouldSave(s) ==> r == store
    ensures ShouldSave(s) ==> s.user.value in r && r[s.user.value] == SnapshotOf(s)
    ensures forall k :: k in r && s.user != Some(k) ==> k in store && r[k] == store[k]
    ensures forall k :: k in store ==> k in r
  {
    if ShouldSave(s) then store[s.user.value := SnapshotOf(s)] else store
  }

  // ---------------------------------------------------------------------
  // Mutations

  /** `addDebt`: a new `Pending` debt in front of the others. */
  function AddDebt(s: FinanceState, id: string, description: string, amount: real, dueDate: string): (r: FinanceState)
    ensures |r.debts| == |s.debts| + 1 && r.debts[1..] == s.debts
    ensures r.debts[0].id == id && r.debts[0].description == description
    ensures r.debts[0].amount == amount && r.debts[0].dueDate == dueDate
    ensures r.debts[0].status == Pending
    ensures r.transactions == s.transactions && r.appointments == s.appointments
    ensures r.user == s.user && r.dataLoaded == s.dataLoaded
  {
    s.(debts := [Debt(id, description, amount, dueDate, Pending)] + s.debts)
  }

  /** A transaction pays down debts exactly when it is an expense with a
      non-empty link (an empty string is falsy in the source). */
  predicate PaysDebt(kind: TransactionKind, linkedDebtId: Option<string>) {
    kind == Expense && linkedDebtId.Some? && linkedDebtId.value != ""
  }

  /** One debt after a payment of `paid` towards `debtId`. */
  function PayDebt(d: Debt, debtId: string, paid: real): Debt {
    if d.id == debtId then d.(amount := Clamp0(d.amount - paid)) else d
  }

  /** The `prevDebts.map(...)` of `addTransaction`: every debt whose id is
      `debtId` drops to `max(0, amount - paid)`; nothing else changes, order
      and length included. */
  function ApplyPayment(debts: seq<Debt>, debtId: string, paid: real): (r: seq<Debt>)
    ensures |r| == |debts|
    ensures forall i :: 0 <= i < |debts| && debts[i].id != debtId ==> r[i] == debts[i]
    ensures forall i :: 0 <= i < |debts| && debts[i].id == debtId ==>
      r[i] == debts[i].(amount := Clamp0(debts[i].amount - paid))
  {
    if |debts| == 0 then []
    else [PayDebt(debts[0], debtId, paid)] + ApplyPayment(debts[1..], debtId, paid)
  }

  /** `addTransaction`: the transaction goes in front; a linked expense also
      pays down the debts carrying its link. */
  function AddTransaction(
    s: FinanceState, id: string, kind: TransactionKind, amount: real,
    date: string, description: string, linkedDebtId: Option<string>): (r: FinanceState)
    ensures |r.transactions| == |s.transactions| + 1 && r.transactions[1..] == s.transactions
    ensures r.transactions[0] == Transaction(id, kind, amount, date, description, linkedDebtId)
    ensures |r.debts| == |s.debts|
    ensures forall i :: 0 <= i < |s.debts| ==>
      r.debts[i] == (if PaysDebt(kind, linkedDebtId) && s.debts[i].id == linkedDebtId.value
                     then s.debts[i].(amount := Clamp0(s.debts[i].amount - amount))
                     else s.debts[i])
    ensures r.appointments == s.appointments
    ensures r.user == s.user && r.dataLoaded == s.dataLoaded
  {
    var tx := Transaction(id, kind, amount, date, description, linkedDebtId);
    var debts := if PaysDebt(kind, linkedDebtId) then ApplyPayment(s.debts, linkedDebtId.value, amount) else s.debts;
    s.(transactions := [tx] + s.transactions, debts := debts)
  }

  /** `addAppointment`: a new `Confirmed` appointment in front of the others. */
  function AddAppointment(s: FinanceState, id: string, serviceName: string, date: string): (r: FinanceState)
    ensures |r.appointments| == |s.appointments| + 1 && r.appointments[1..] == s.appointments
    ensures r.appointments[0] == Appointment(id, serviceName, date, Confirmed)
    ensures r.debts == s.debts && r.transactions == s.transactions
    ensures r.user == s.user && r.dataLoaded == s.dataLoaded
  {
    s.(appointments := [Appointment(id, serviceName, date, Confirmed)] + s.appointments)
  }

  /** `deleteDebt`: drop every debt with this id, keep the rest in order. */
  function DeleteDebt(s: FinanceState, id: string): (r: FinanceState)
    ensures forall i :: 0 <= i < |r.debts| ==> r.debts[i].id != id
    ensures forall d :: d in r.debts ==> d in s.debts
    ensures forall d {:trigger multiset(r.debts)[d]} :: d in s.debts && d.id != id ==> multiset(r.debts)[d] == multiset(s.debts)[d]
    ensures IsSubsequence(r.debts, s.debts)
    ensures !HasKey(s.debts, DebtKey, id) ==> r.debts == s.debts
    ensures r.transactions == s.transactions && r.appointments == s.appointments
    ensures r.user == s.user && r.dataLoaded == s.dataLoaded
  {
    s.(debts := RemoveKey(s.debts, DebtKey, id))
  }

  /** `deleteTransaction`: drop every transaction with this id; debts are
      not credited back. */
  function DeleteTransaction(s: FinanceState, id: string): (r: FinanceState)
    ensures forall i :: 0 <= i < |r.transactions| ==> r.transactions[i].id != id
    ensures forall t :: t in r.transactions ==> t in s.transactions
    ensures forall t {:trigger multiset(r.transactions)[t]} :: t in s.transactions && t.id != id ==> multiset(r.transactions)[t] == multiset(s.transactions)[t]
    ensures IsSubsequence(r.transactions, s.transactions)
    ensures !HasKey(s.transactions, TransactionKey, id) ==> r.transactions == s.transactions
    ensures r.debts == s.debts && r.appointments == s.appointments
    ensures r.user == s.user && r.dataLoaded == s.dataLoaded
  {
    s.(transactions := RemoveKey(s.transactions, TransactionKey, id))
  }

  /** `clearDebts`: no debt is left; the other collections, the user and
      the loaded flag stay as they were. */
  function ClearDebts(s: FinanceState): (r: FinanceState)
    ensures |r.debts| == 0
    ensures r.transactions == s.transactions && r.appointments == s.appointments
    ensures r.user == s.user && r.dataLoaded == s.dataLoaded
  {
    s.(debts := [])
  }

  /** `clearTransactions`: no transaction is left and, in particular, no
      debt is credited back. */
  function ClearTransactions(s: FinanceState): (r: FinanceState)
    ensures |r.transactions| == 0
    ensures r.debts == s.debts && r.appointments == s.appointments
    ensures r.user == s.user && r.dataLoaded == s.dataLoaded
  {
    s.(transactions := [])
  }

  /** `clearAppointments`: no appointment is left. */
  function ClearAppointments(s: FinanceState): (r: FinanceState)
    ensures |r.appointments| == 0
    ensures r.debts == s.debts && r.transactions == s.transactions
    ensures r.user == s.user && r.dataLoaded == s.dataLoaded
  {
    s.(appointments := [])
  }

  // ---------------------------------------------------------------------
  // The provider as a state machine

  /** Everything that changes the provider's state: the nine exposed
      operations and the load effect triggered by a change of user. */
  datatype Command =
    | AddDebtOp(id: string, description: string, amount: real, dueDate: string)
    | AddTransactionOp(id: string, kind: TransactionKind, amount: real, date: string,
                       description: string, linkedDebtId: Option<string>)
    | AddAppointmentOp(id: string, serviceName: string, date: string)
    | DeleteDebtOp(id: string)
    | DeleteTransactionOp(id: string)
    | ClearDebtsOp
    | ClearTransactionsOp
    | ClearAppointmentsOp
    | UserChangedOp(user: Option<UserId>)

  function Step(s: FinanceState, cmd: Command, store: Store): FinanceState {
    match cmd
    case AddDebtOp(id, description, amount, dueDate) => AddDebt(s, id, description, amount, dueDate)
    case AddTransactionOp(id, kind, amount, date, description, link) =>
      AddTransaction(s, id, kind, amount, date, description, link)
    case AddAppointmentOp(id, serviceName, date) => AddAppointment(s, id, serviceName, date)
    case DeleteDebtOp(id) => DeleteDebt(s, id)
    case DeleteTransactionOp(id) => DeleteTransaction(s, id)
    case ClearDebtsOp => ClearDebts(s)
    case ClearTransactionsOp => ClearTransactions(s)
    case ClearAppointmentsOp => ClearAppointments(s)
    case UserChangedOp(user) => OnUserChange(s, user, store)
  }

  /** One command followed by the save effect it triggers. */
  function Run(s: FinanceState, store: Store, cmd: Command): (FinanceState, Store) {
    var s' := Step(s, cmd, store);
    (s', Persist(s', store))
  }

  // ---------------------------------------------------------------------
  // Invariants

  /** Every debt is non-negative and still pending. */
  predicate DebtsSound(debts: seq<Debt>) {
    forall i :: 0 <= i < |debts| ==> debts[i].amount >= 0.0 && debts[i].status == Pending
  }

  /** Every appointment is still confirmed. */
  predicate AppointmentsSound(appointments: seq<Appointment>) {
    forall i :: 0 <= i < |appointments| ==> appointments[i].status == Confirmed
  }

  /** What holds of the collections whatever the user does: no debt is
      negative, no debt is ever paid, no appointment is ever done, and ids
      are unique within each collection. */
  predicate CollectionsSound(debts: seq<Debt>, transactions: seq<Transaction>, appointments: seq<Appointment>) {
    && DebtsSound(debts)
    && AppointmentsSound(appointments)
    && KeysUnique(debts, DebtKey)
    && KeysUnique(transactions, TransactionKey)
    && KeysUnique(appointments, AppointmentKey)
  }

  predicate Valid(s: FinanceState) {
    CollectionsSound(s.debts, s.transactions, s.appointments)
  }

  predicate StoredSound(data: StoredData) {
    CollectionsSound(data.debts.GetOr([]), data.transactions.GetOr([]), data.appointments.GetOr([]))
  }

  predicate StoreSound(store: Store) {
    forall k :: k in store ==> StoredSound(store[k])
  }

  /** What a caller must supply for the invariant to survive a command: a
      fresh id for each new record and a non-negative debt amount (the
      add-debt screen only lets positive amounts through). */
  predicate Admissible(s: FinanceState, cmd: Command) {
    match cmd
    case AddDebtOp(id, _, amount, _) => amount >= 0.0 && !HasKey(s.debts, DebtKey, id)
    case AddTransactionOp(id, _, _, _, _, _) => !HasKey(s.transactions, TransactionKey, id)
    case AddAppointmentOp(id, _, _) => !HasKey(s.appointments, AppointmentKey, id)
    case _ => true
  }

  /** The provider starts sound, empty and with nothing to save. */
  lemma InitialState(store: Store)
    ensures Valid(Initial) && !ShouldSave(Initial)
    ensures Persist(Initial, store) == store
  {
  }

  lemma SeedSound()
    ensures StoredSound(SeedData)
  {
    assert KeysUnique(SeedDebts, DebtKey) by {
      forall i, j | 0 <= i < j < |SeedDebts| ensures DebtKey(SeedDebts[i]) != DebtKey(SeedDebts[j]) {
        assert i == 0 && j == 1;
      }
    }
    assert KeysUnique(SeedTransactions, TransactionKey) by {
      forall i, j | 0 <= i < j < |SeedTransactions|
        ensures TransactionKey(SeedTransactions[i]) != TransactionKey(SeedTransactions[j])
      {
        assert i == 0 && j == 1;
      }
    }
  }

  /** A linked payment keeps every debt non-negative and pending and keeps
      ids as they were. */
  lemma ApplyPaymentKeepsSound(debts: seq<Debt>, debtId: string, paid: real)
    requires DebtsSound(debts) && KeysUnique(debts, DebtKey)
    ensures DebtsSound(ApplyPayment(debts, debtId, paid))
    ensures KeysUnique(ApplyPayment(debts, debtId, paid), DebtKey)
  {
    var r := ApplyPayment(debts, debtId, paid);
    forall i, j | 0 <= i < j < |r| ensures DebtKey(r[i]) != DebtKey(r[j]) {
      assert r[i].id == debts[i].id && r[j].id == debts[j].id;
    }
  }

  lemma AddDebtKeepsValid(s: FinanceState, id: string, description: string, amount: real, dueDate: string)
    requires Valid(s) && amount >= 0.0 && !HasKey(s.debts, DebtKey, id)
    ensures Valid(AddDebt(s, id, description, amount, dueDate))
  {
    var r := AddDebt(s, id, description, amount, dueDate);
    PrependFreshKeepsUnique(r.debts[0], s.debts, DebtKey);
    assert r.debts == [r.debts[0]] + s.debts;
  }

  lemma AddTransactionKeepsValid(
    s: FinanceState, id: string, kind: TransactionKind, amount: real,
    date: string, description: string, linkedDebtId: Option<string>)
    requires Valid(s) && !HasKey(s.transactions, TransactionKey, id)
    ensures Valid(AddTransaction(s, id, kind, amount, date, description, linkedDebtId))
  {
    var r := AddTransaction(s, id, kind, amount, date, description, linkedDebtId);
    PrependFreshKeepsUnique(r.transactions[0], s.transactions, TransactionKey);
    assert r.transactions == [r.transactions[0]] + s.transactions;
    if PaysDebt(kind, linkedDebtId) {
      ApplyPaymentKeepsSound(s.debts, linkedDebtId.value, amount);
      assert r.debts == ApplyPayment(s.debts, linkedDebtId.value, amount);
    } else {
      assert r.debts == s.debts;
    }
  }

  lemma AddAppointmentKeepsValid(s: FinanceState, id: string, serviceName: string, date: string)
    requires Valid(s) && !HasKey(s.appointments, AppointmentKey, id)
    ensures Valid(AddAppointment(s, id, serviceName, date))
  {
    var r := AddAppointment(s, id, serviceName, date);
    PrependFreshKeepsUnique(r.appointments[0], s.appointments, AppointmentKey);
    assert r.appointments == [r.appointments[0]] + s.appointments;
  }

  lemma OnUserChangeKeepsValid(s: FinanceState, user: Option<UserId>, store: Store)
    requires StoreSound(store)
    ensures Valid(OnUserChange(s, user, store))
  {
    if user.Some? {
      SeedSound();
      assert StoredSound(LoadUserData(store, user.value));
    }
  }

  lemma DeleteDebtKeepsValid(s: FinanceState, id: string)
    requires Valid(s)
    ensures Valid(DeleteDebt(s, id))
  {
    var r := DeleteDebt(s, id);
    RemoveKeyKeepsUnique(s.debts, DebtKey, id);
    forall i | 0 <= i < |r.debts| ensures r.debts[i].amount >= 0.0 && r.debts[i].status == Pending {
      assert r.debts[i] in s.debts;
    }
  }

  /** Every command keeps the invariant, given fresh ids and sound storage. */
  lemma StepPreservesValid(s: FinanceState, cmd: Command, store: Store)
    requires Valid(s) && StoreSound(store) && Admissible(s, cmd)
    ensures Valid(Step(s, cmd, store))
  {
    match cmd
    case AddDebtOp(id, description, amount, dueDate) =>
      AddDebtKeepsValid(s, id, description, amount, dueDate);
    case AddTransactionOp(id, kind, amount, date, description, link) =>
      AddTransactionKeepsValid(s, id, kind, amount, date, description, link);
    case AddAppointmentOp(id, serviceName, date) =>
      AddAppointmentKeepsValid(s, id, serviceName, date);
    case DeleteDebtOp(id) =>
      DeleteDebtKeepsValid(s, id);
    case DeleteTransactionOp(id) =>
      RemoveKeyKeepsUnique(s.transactions, TransactionKey, id);
    case ClearDebtsOp =>
    case ClearTransactionsOp =>
    case ClearAppointmentsOp =>
    case UserChangedOp(user) =>
      OnUserChangeKeepsValid(s, user, store);
  }

  /** The save effect stores only sound snapshots. */
  lemma PersistKeepsStoreSound(s: FinanceState, store: Store)
    requires Valid(s) && StoreSound(store)
    ensures StoreSound(Persist(s, store))
  {
  }

  /** Invariant of the whole provider: memory and storage stay sound across
      any admissible command and the save it triggers. */
  lemma RunPreservesSoundness(s: FinanceState, store: Store, cmd: Command)
    requires Valid(s) && StoreSound(store) && Admissible(s, cmd)
    ensures Valid(Run(s, store, cmd).0) && StoreSound(Run(s, store, cmd).1)
  {
    StepPreservesValid(s, cmd, store);
    PersistKeepsStoreSound(Step(s, cmd, store), store);
  }

  // ---------------------------------------------------------------------
  // Properties of single operations

  /** The debts are left exactly as they were by an income, by an expense
      without a (non-empty) link, and by a link that names no debt. */
  lemma AddTransactionLeavesDebts(
    s: FinanceState, id: string, kind: TransactionKind, amount: real,
    date: string, description: string, linkedDebtId: Option<string>)
    requires !PaysDebt(kind, linkedDebtId) || !HasKey(s.debts, DebtKey, linkedDebtId.value)
    ensures AddTransaction(s, id, kind, amount, date, description, linkedDebtId).debts == s.debts
  {
    var r := AddTransaction(s, id, kind, amount, date, description, linkedDebtId);
    forall i | 0 <= i < |s.debts| ensures r.debts[i] == s.debts[i] {
      if PaysDebt(kind, linkedDebtId) {
        assert DebtKey(s.debts[i]) != linkedDebtId.value;
      }
    }
  }

  /** Adding a debt under a fresh id and deleting that id restores the state. */
  lemma DeleteUndoesAddDebt(s: FinanceState, id: string, description: string, amount: real, dueDate: string)
    requires !HasKey(s.debts, DebtKey, id)
    ensures DeleteDebt(AddDebt(s, id, description, amount, dueDate), id) == s
  {
    var added := AddDebt(s, id, description, amount, dueDate);
    assert added.debts[1..] == s.debts;
  }

  /** Deleting a freshly added transaction restores the transaction list but
      not the debts: a payment it made stays made. */
  lemma DeleteTransactionKeepsPayment(
    s: FinanceState, id: string, kind: TransactionKind, amount: real,
    date: string, description: string, linkedDebtId: Option<string>, i: int)
    requires !HasKey(s.transactions, TransactionKey, id)
    requires 0 <= i < |s.debts|
    ensures var added := AddTransaction(s, id, kind, amount, date, description, linkedDebtId);
            var r := DeleteTransaction(added, id);
            && r.transactions == s.transactions
            && r.debts == added.debts
            && ((PaysDebt(kind, linkedDebtId) && s.debts[i].id == linkedDebtId.value
                 && amount > 0.0 && s.debts[i].amount > 0.0)
                ==> r.debts[i].amount < s.debts[i].amount)
  {
    var added := AddTransaction(s, id, kind, amount, date, description, linkedDebtId);
    assert added.transactions[1..] == s.transactions;
  }

  /** With unique ids, deleting an id that is present removes exactly one
      debt or transaction. */
  lemma DeleteRemovesExactlyOne(s: FinanceState, id: string)
    requires KeysUnique(s.debts, DebtKey) && KeysUnique(s.transactions, TransactionKey)
    ensures HasKey(s.debts, DebtKey, id) ==> |DeleteDebt(s, id).debts| == |s.debts| - 1
    ensures HasKey(s.transactions, TransactionKey, id) ==>
      |DeleteTransaction(s, id).transactions| == |s.transactions| - 1
  {
    if HasKey(s.debts, DebtKey, id) {
      RemoveKeyDropsOne(s.debts, DebtKey, id);
    }
    if HasKey(s.transactions, TransactionKey, id) {
      RemoveKeyDropsOne(s.transactions, TransactionKey, id);
    }
  }

  // ---------------------------------------------------------------------
  // Loading, saving and user switches

  /** Signing out writes nothing; signing back in as the same user restores
      exactly the state whose snapshot was last saved. */
  lemma SignOutAndBackRestores(s: FinanceState, store: Store)
    requires ShouldSave(s)
    ensures var saved := Persist(s, store);
            var (out, outStore) := Run(s, saved, UserChangedOp(None));
            && outStore == saved
            && out.debts == [] && out.transactions == [] && out.appointments == []
            && Run(out, outStore, UserChangedOp(s.user)).0 == s
  {
  }

  /** What a user sees after signing in depends only on that user's own
      snapshot: not on the previous state, and not on other users' data. */
  lemma SignInSeesOnlyOwnData(s1: FinanceState, s2: FinanceState, u: UserId, store1: Store, store2: Store)
    requires u in store1 <==> u in store2
    requires u in store1 ==> store1[u] == store2[u]
    ensures OnUserChange(s1, Some(u), store1) == OnUserChange(s2, Some(u), store2)
  {
  }

  /** Saving one user's data never changes what another user loads. */
  lemma SaveIsolatesUsers(s: FinanceState, store: Store, other: FinanceState, u: UserId)
    requires s.user != Some(u)
    ensures OnUserChange(other, Some(u), Persist(s, store)) == OnUserChange(other, Some(u), store)
  {
    SignInSeesOnlyOwnData(other, other, u, Persist(s, store), store);
  }

  /** First sign-in of a user without a snapshot: the two seed debts, both
      pending; a linked expense of 500 then brings the 5000 debt to 4500. */
  lemma FirstSignInScenario(s: FinanceState, u: UserId, store: Store)
    requires u !in store
    ensures var r := OnUserChange(s, Some(u), store);
            && |r.debts| == 2
            && r.debts[0].description == "Empréstimo Banco" && r.debts[0].amount == 5000.0
            && r.debts[1].description == "Cartão de Crédito" && r.debts[1].amount == 1200.0
            && r.debts[0].status == Pending && r.debts[1].status == Pending
            && AddTransaction(r, "t", Expense, 500.0, "2024-08-10", "Parcela", Some("1")).debts[0].amount == 4500.0
            && AddTransaction(r, "t", Expense, 500.0, "2024-08-10", "Parcela", Some("1")).debts[1].amount == 1200.0
  {
  }
}
