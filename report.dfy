/**
 * The report derivation: every row the query returns becomes one report
 * record, whose status follows the precedence income, then a positive
 * installment sum, then unpaid; then the optional status filter.
 */
module Report {
  import opened Types
  import opened Query

  datatype Status = Paid | Installment | Unpaid {
    /** The string the report carries in its `status` field. */
    function Name(): string {
      match this
      case Paid => "paid"
      case Installment => "installment"
      case Unpaid => "unpaid"
    }
  }

  /** One record of the report response. */
  datatype ReportRow = ReportRow(
    id: string,
    memberName: Option<string>,
    month: string,
    status: Status,
    amount: int,
    installmentPaid: int,
    payMethod: string)

  /** The record id `${memberId}-${monthId}`. */
  function IdOf(memberId: string, monthId: string): string {
    memberId + "-" + monthId
  }

  /** `r.amount || 0`: a NULL (or zero) amount counts as 0. */
  function AmountOrZero(a: Option<int>): int {
    if a.Some? then a.value else 0
  }

  /** `row.method || '-'`: a NULL or empty method becomes "-". */
  function MethodOrDash(m: Option<string>): (s: string)
    ensures s != ""
    ensures m.Some? && m.value != "" ==> s == m.value
  {
    if m.Some? && m.value != "" then m.value else "-"
  }

  /** What one row contributes to the installment sum of the pair (a, b). */
  function Contribution(r: JoinedRow, a: string, b: string): int {
    if r.memberId == a && r.monthId == b && r.txType == Some(TxKind.Installment) then AmountOrZero(r.txAmount) else 0
  }

  /**
   * The installment sum of the pair (a, b) over the returned rows: the rows
   * of that pair whose type is 'installment', their amounts added up.
   */
  function InstallmentSum(rows: seq<JoinedRow>, a: string, b: string): int {
    if rows == [] then 0 else Contribution(rows[0], a, b) + InstallmentSum(rows[1..], a, b)
  }

  /** The record for one returned row, given its pair's installment sum and the current fee. */
  function ToReport(row: JoinedRow, installment: int, fee: int): ReportRow {
    var income := row.txType == Some(Income);
    ReportRow(
      IdOf(row.memberId, row.monthId),
      row.memberName,
      row.monthName,
      if income then Paid else if installment > 0 then Status.Installment else Unpaid,
      if income then fee else installment,
      installment,
      MethodOrDash(row.txMethod))
  }

  /** The record for `row` when the sums are taken over all of `whole`. */
  function Reported(whole: seq<JoinedRow>, fee: int, row: JoinedRow): ReportRow {
    ToReport(row, InstallmentSum(whole, row.memberId, row.monthId), fee)
  }

  /** The records of `xs`, one each and in order, with sums taken over `whole`. */
  function ReportEach(whole: seq<JoinedRow>, fee: int, xs: seq<JoinedRow>): (rs: seq<ReportRow>)
    ensures |rs| == |xs|
    ensures forall k :: 0 <= k < |xs| ==> rs[k] == Reported(whole, fee, xs[k])
  {
    if xs == [] then [] else [Reported(whole, fee, xs[0])] + ReportEach(whole, fee, xs[1..])
  }

  /** `rows.map(...)`: one record per returned row, sums taken over the returned rows. */
  function Reports(rows: seq<JoinedRow>, fee: int): seq<ReportRow> {
    ReportEach(rows, fee, rows)
  }

  /** The records whose status name is `name`, in order. */
  function KeepStatus(rs: seq<ReportRow>, name: string): (kept: seq<ReportRow>)
    ensures |kept| <= |rs|
    ensures forall x :: x in kept <==> x in rs && x.status.Name() == name
    ensures forall x :: multiset(kept)[x] == if x.status.Name() == name then multiset(rs)[x] else 0
  {
    if rs == [] then []
    else
      assert rs == [rs[0]] + rs[1..];
      (if rs[0].status.Name() == name then [rs[0]] else []) + KeepStatus(rs[1..], name)
  }

  /** The optional `status` parameter: given (non-empty), it keeps the records with exactly that status name. */
  function StatusFilter(rs: seq<ReportRow>, status: string): seq<ReportRow> {
    if status == "" then rs else KeepStatus(rs, status)
  }

  /** The report response for the rows the query returned. */
  function Derive(rows: seq<JoinedRow>, fee: int, status: string): seq<ReportRow> {
    StatusFilter(Reports(rows, fee), status)
  }
}
