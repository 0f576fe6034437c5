/**
 * The rows of the four tables the report reads (members, months, transactions,
 * settings). A column bound from a request field that was absent is NULL in
 * SQLite; such columns are `Option`s here.
 */
module Types {

  datatype Option<+T> = None | Some(value: T)

  /** A row of the members table. `id` is the primary key. */
  datatype Member = Member(
    id: string,
    name: Option<string>,
    phone: Option<string>,
    address: Option<string>,
    rayon: Option<string>)

  /** A row of the fixed months table. */
  datatype Month = Month(id: string, name: string)

  /** The three values the handlers write into `transactions.type`. */
  datatype TxKind = Income | Installment | Expense

  /** A row of the transactions table. */
  datatype Transaction = Transaction(
    id: string,
    kind: TxKind,
    description: Option<string>,
    amount: Option<int>,
    payMethod: Option<string>,
    date: string,
    memberId: Option<string>,
    month: Option<string>,
    year: Option<string>,
    category: Option<string>)

  /** The settings row with id 1, the only one any statement reads or updates. */
  datatype Settings = Settings(
    organizationName: Option<string>,
    activeMonth: Option<string>,
    monthlyFee: int)

  /** The twelve months seeded at boot, in insertion order. */
  const SEEDED_MONTHS: seq<Month> := [
    Month("1", "Januari"), Month("2", "Februari"), Month("3", "Maret"),
    Month("4", "April"), Month("5", "Mei"), Month("6", "Juni"),
    Month("7", "Juli"), Month("8", "Agustus"), Month("9", "September"),
    Month("10", "Oktober"), Month("11", "November"), Month("12", "Desember")]

  /** No two members share an id (members.id is the primary key). */
  ghost predicate UniqueMemberIds(ms: seq<Member>) {
    forall i, j :: 0 <= i < j < |ms| ==> ms[i].id != ms[j].id
  }

  /** No two months share an id (months.id is the primary key). */
  ghost predicate UniqueMonthIds(mos: seq<Month>) {
    forall i, j :: 0 <= i < j < |mos| ==> mos[i].id != mos[j].id
  }

  /** No two transactions share an id (transactions.id is the primary key). */
  ghost predicate UniqueTxIds(txs: seq<Transaction>) {
    forall i, j :: 0 <= i < j < |txs| ==> txs[i].id != txs[j].id
  }

  /** No month id contains the '-' that separates the two halves of a report id. */
  ghost predicate MonthIdsDashFree(mos: seq<Month>) {
    forall i :: 0 <= i < |mos| ==> '-' !in mos[i].id
  }

  predicate HasMember(ms: seq<Member>, id: string) {
    exists i :: 0 <= i < |ms| && ms[i].id == id
  }

  predicate HasTx(txs: seq<Transaction>, id: string) {
    exists i :: 0 <= i < |txs| && txs[i].id == id
  }

  /** The position of a seeded month id in SEEDED_MONTHS, or -1. */
  function SeededPosition(id: string): int {
    if id == "1" then 0 else if id == "2" then 1 else if id == "3" then 2
    else if id == "4" then 3 else if id == "5" then 4 else if id == "6" then 5
    else if id == "7" then 6 else if id == "8" then 7 else if id == "9" then 8
    else if id == "10" then 9 else if id == "11" then 10 else if id == "12" then 11
    else -1
  }

  /** The seeded months have distinct, dash-free ids. */
  lemma SeededMonthsWellFormed()
    ensures |SEEDED_MONTHS| == 12
    ensures UniqueMonthIds(SEEDED_MONTHS)
    ensures MonthIdsDashFree(SEEDED_MONTHS)
  {
    forall i | 0 <= i < 12
      ensures SeededPosition(SEEDED_MONTHS[i].id) == i
      ensures '-' !in SEEDED_MONTHS[i].id
    {
    }
  }
}
