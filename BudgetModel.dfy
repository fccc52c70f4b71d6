/** The budget schema with its embedded expense schema: minima, required paths, the
    expense date default and the one-budget-per-club index. */
module BudgetModel {
  import opened Common
  import opened JsString

  datatype Expense = Expense(description: string, amount: int, date: int)

  /** The paths of an expense sub-document before it is saved. */
  datatype ExpenseFields = ExpenseFields(description: Option<string>, amount: JsNumber, date: Option<int>)

  /** The `default: Date.now` of the date path, evaluated when the document is built. */
  function CastExpense(f: ExpenseFields, now: int): (c: ExpenseFields)
    ensures c.date.Some?
    ensures c.date == if f.date.None? then Some(now) else f.date
    ensures c.description == f.description && c.amount == f.amount
  {
    f.(date := if f.date.None? then Some(now) else f.date)
  }

  /** A number path that is `required` with `min: 0`: `null` and `undefined` fail the
      first, a negative number the second; zero passes. */
  predicate AmountValid(a: JsNumber) {
    a.Num? && a.n >= 0
  }

  predicate ExpenseFieldsValid(f: ExpenseFields) {
    Truthy(f.description) && AmountValid(f.amount) && f.date.Some?
  }

  predicate ExpenseValid(x: Expense) {
    x.description != "" && x.amount >= 0
  }

  function ExpenseRecord(f: ExpenseFields): (x: Expense)
    requires ExpenseFieldsValid(f)
    ensures ExpenseValid(x)
  {
    Expense(f.description.value, f.amount.n, f.date.value)
  }

  datatype Budget = Budget(id: Id, club: Id, allocatedAmount: int, expenses: seq<Expense>, createdAt: int)

  /** The paths of a budget document before it is saved. */
  datatype BudgetFields = BudgetFields(club: Option<Id>, allocatedAmount: JsNumber, expenses: seq<Expense>)

  /** The validators: club and allocatedAmount are required, the amount is at least zero,
      and every embedded expense is valid. */
  predicate BudgetFieldsValid(f: BudgetFields) {
    f.club.Some? && AmountValid(f.allocatedAmount) && forall k :: 0 <= k < |f.expenses| ==> ExpenseValid(f.expenses[k])
  }

  predicate BudgetRecordValid(b: Budget) {
    b.allocatedAmount >= 0 && forall k :: 0 <= k < |b.expenses| ==> ExpenseValid(b.expenses[k])
  }

  function BudgetRecord(f: BudgetFields, id: Id, createdAt: int): (b: Budget)
    requires BudgetFieldsValid(f)
    ensures BudgetRecordValid(b)
  {
    Budget(id, f.club.value, f.allocatedAmount.n, f.expenses, createdAt)
  }

  /** The `unique` index of the club path. */
  predicate OneBudgetPerClub(budgets: seq<Budget>) {
    forall i, j :: 0 <= i < j < |budgets| ==> budgets[i].club != budgets[j].club
  }
}
