/**
 * The CSV export: the same per-row derivation as the report, rendered with
 * Indonesian status labels and formatted amounts, filtered by label text and
 * written as comma-separated lines. The currency formatter is a parameter.
 */
module Export {
  import opened Types
  import opened Query
  import opened Report

  /** One record of the export before it is written out. */
  datatype ExportRow = ExportRow(
    id: string,
    memberName: Option<string>,
    month: string,
    status: string,
    amount: string,
    payMethod: string)

  /** The export record for one returned row, given its pair's installment sum, the fee and the formatter. */
  function ExportRecord(row: JoinedRow, installment: int, fee: int, fmt: int -> string): ExportRow {
    var income := row.txType == Some(Income);
    ExportRow(
      IdOf(row.memberId, row.monthId),
      row.memberName,
      row.monthName,
      if income then "Lunas"
      else if installment > 0 then "Cicilan (" + fmt(installment) + ")"
      else "Belum Bayar",
      if income then fmt(fee) else fmt(installment),
      MethodOrDash(row.txMethod))
  }

  /** The export records of `xs`, one each and in order, with sums taken over `whole`. */
  function ExportEach(whole: seq<JoinedRow>, fee: int, fmt: int -> string, xs: seq<JoinedRow>): (es: seq<ExportRow>)
    ensures |es| == |xs|
    ensures forall k :: 0 <= k < |xs| ==>
              es[k] == ExportRecord(xs[k], InstallmentSum(whole, xs[k].memberId, xs[k].monthId), fee, fmt)
  {
    if xs == [] then []
    else [ExportRecord(xs[0], InstallmentSum(whole, xs[0].memberId, xs[0].monthId), fee, fmt)]
         + ExportEach(whole, fee, fmt, xs[1..])
  }

  function ExportRecords(rows: seq<JoinedRow>, fee: int, fmt: int -> string): seq<ExportRow> {
    ExportEach(rows, fee, fmt, rows)
  }

  /** JavaScript's `s.includes(t)`: `t` occurs in `s` (case-sensitive; every string includes ""). */
  predicate Includes(s: string, t: string) {
    t <= s || (s != [] && Includes(s[1..], t))
  }

  /** The records whose label includes `text`, in order. */
  function KeepLabel(es: seq<ExportRow>, text: string): (kept: seq<ExportRow>)
    ensures |kept| <= |es|
    ensures forall e :: e in kept <==> e in es && Includes(e.status, text)
    ensures forall e :: multiset(kept)[e] == if Includes(e.status, text) then multiset(es)[e] else 0
  {
    if es == [] then []
    else
      assert es == [es[0]] + es[1..];
      (if Includes(es[0].status, text) then [es[0]] else []) + KeepLabel(es[1..], text)
  }

  /** The optional `status` parameter of the export: given (non-empty), it keeps labels that include it. */
  function LabelFilter(es: seq<ExportRow>, status: string): seq<ExportRow> {
    if status == "" then es else KeepLabel(es, status)
  }

  /** JavaScript's `xs.join(sep)` on strings. */
  function JoinWith(sep: char, xs: seq<string>): string {
    if xs == [] then ""
    else if |xs| == 1 then xs[0]
    else xs[0] + [sep] + JoinWith(sep, xs[1..])
  }

  /** The character of a decimal digit. */
  function DigitChar(k: nat): (c: char)
    requires k < 10
    ensures '0' <= c <= '9'
  {
    ('0' as int + k) as char
  }

  /** The number a string of decimal digits denotes, most significant digit first. */
  function DigitsValue(s: string): nat {
    if s == [] then 0
    else
      var c := s[|s| - 1];
      DigitsValue(s[..|s| - 1]) * 10 + (if '0' <= c <= '9' then c as int - '0' as int else 0)
  }

  /** The decimal digits of a non-negative integer, as `String(n)` writes them. */
  function Decimal(n: nat): (s: string)
    ensures |s| >= 1
    ensures forall k :: 0 <= k < |s| ==> '0' <= s[k] <= '9'
    ensures DigitsValue(s) == n
    ensures n > 0 ==> s[0] != '0'
  {
    if n < 10 then [DigitChar(n)]
    else
      var s := Decimal(n / 10) + [DigitChar(n % 10)];
      assert s[..|s| - 1] == Decimal(n / 10);
      s
  }

  /** An array element that is NULL is written as the empty string by `join`. */
  function OrEmpty(o: Option<string>): string {
    if o.Some? then o.value else ""
  }

  const CSV_HEADER: seq<string> := ["No", "Nama Anggota", "Bulan", "Status", "Jumlah", "Metode"]

  /** The fields of the CSV line numbered `n`. */
  function CsvFields(n: nat, e: ExportRow): seq<string> {
    [Decimal(n), OrEmpty(e.memberName), e.month, e.status, e.amount, e.payMethod]
  }

  /** The lines of `es`, numbered from `n` on. */
  function CsvLines(es: seq<ExportRow>, n: nat): (lines: seq<string>)
    ensures |lines| == |es|
  {
    if es == [] then [] else [JoinWith(',', CsvFields(n, es[0]))] + CsvLines(es[1..], n + 1)
  }

  /** The header line, then one line per record numbered from 1. */
  function CsvLineList(es: seq<ExportRow>): seq<string> {
    [JoinWith(',', CSV_HEADER)] + CsvLines(es, 1)
  }

  /** The CSV text: its lines joined by line breaks. */
  function Csv(es: seq<ExportRow>): string {
    JoinWith('\n', CsvLineList(es))
  }

  /** The export response for the rows the query returned. */
  function ExportCsv(rows: seq<JoinedRow>, fee: int, status: string, fmt: int -> string): string {
    Csv(LabelFilter(ExportRecords(rows, fee, fmt), status))
  }
}
