/** The record shapes of the app (types.ts). Enumerated string unions become
    datatypes, so "exactly one of" holds by construction; optional fields
    become `Option`. Dates stay plain strings: the `YYYY-MM-DD` layout is
    documented in the source but not enforced by the type. */
module Types {
  import opened Wrappers

  type UserId = string

  /** An account. The password is optional in the type; an account without
      one can never pass the exact password comparison of `login`. */
  datatype User = User(id: UserId, name: string, email: string, avatar: string, password: Option<string>)

  /** `'Pendente' | 'Pago'`. */
  datatype DebtStatus = Pending | Paid

  datatype Debt = Debt(id: string, description: string, amount: real, dueDate: string, status: DebtStatus)

  /** `'income' | 'expense'`. */
  datatype TransactionKind = Income | Expense

  /** A movement of money; only expenses are ever linked to a debt. */
  datatype Transaction = Transaction(
    id: string,
    kind: TransactionKind,
    amount: real,
    date: string,
    description: string,
    linkedDebtId: Option<string>)

  /** `'Confirmado' | 'Concluído'`. */
  datatype AppointmentStatus = Confirmed | Done

  /** A booked service; `date` is an ISO instant string. */
  datatype Appointment = Appointment(id: string, serviceName: string, date: string, status: AppointmentStatus)

  /** The id fields, as key functions for the generic helpers of `Seqs`. */
  function UserKey(u: User): string { u.id }
  function DebtKey(d: Debt): string { d.id }
  function TransactionKey(t: Transaction): string { t.id }
  function AppointmentKey(a: Appointment): string { a.id }
}
