/**
 * What the CSV export says: its records agree field by field with the
 * report's, the label filter is a substring test on the Indonesian labels,
 * and the text reads back as a header plus one numbered line per record as
 * long as no field contains a comma or a line break.
 */
module ExportFacts {
  import opened Types
  import opened Query
  import opened Report
  import opened Export
  import opened ReportFacts

  /** The Indonesian label the export writes for a report status. */
  function Label(s: Status, installment: int, fmt: int -> string): string {
    match s
    case Paid => "Lunas"
    case Installment => "Cicilan (" + fmt(installment) + ")"
    case Unpaid => "Belum Bayar"
  }

  /** Cutting a text at every `sep`, as `s.split(sep)` does: the inverse of JoinWith. */
  function Split(s: string, sep: char): (parts: seq<string>)
    ensures |parts| >= 1
    decreases |s|
  {
    if s == [] then [""]
    else
      var rest := Split(s[1..], sep);
      if s[0] == sep then [""] + rest else [[s[0]] + rest[0]] + rest[1..]
  }

  /** A field that neither ends a CSV column nor a CSV line. */
  predicate Clean(f: string) {
    ',' !in f && '\n' !in f
  }

  /** Every field the export writes for `e` is clean. */
  predicate CleanRecord(e: ExportRow) {
    Clean(OrEmpty(e.memberName)) && Clean(e.month) && Clean(e.status) && Clean(e.amount) && Clean(e.payMethod)
  }

  // ---------------------------------------------------------------------------
  // The export and the report

  /**
   * Record k of the export is record k of the report in Indonesian: the same
   * id, name, month and method, the status as its label and the amount formatted.
   */
  lemma ExportMatchesReport(rows: seq<JoinedRow>, fee: int, fmt: int -> string)
    ensures |ExportRecords(rows, fee, fmt)| == |Reports(rows, fee)| == |rows|
    ensures forall k :: 0 <= k < |rows| ==>
              var e := ExportRecords(rows, fee, fmt)[k];
              var r := Reports(rows, fee)[k];
              && e.id == r.id && e.memberName == r.memberName && e.month == r.month
              && e.status == Label(r.status, r.installmentPaid, fmt)
              && e.amount == fmt(r.amount)
              && e.payMethod == r.payMethod
  {
  }

  /** `s.includes(t)` with a non-empty `t` needs the first character of `t` somewhere in `s`. */
  lemma {:induction false} IncludesHead(s: string, t: string)
    requires t != [] && Includes(s, t)
    ensures t[0] in s
  {
    if !(t <= s) {
      IncludesHead(s[1..], t);
    }
  }

  lemma {:induction false} KeepLabelSubsequence(es: seq<ExportRow>, text: string)
    ensures IsSubsequence(KeepLabel(es, text), es)
  {
    if es != [] {
      KeepLabelSubsequence(es[1..], text);
      var kept := KeepLabel(es, text);
      if Includes(es[0].status, text) {
        assert kept[0] == es[0] && kept[1..] == KeepLabel(es[1..], text);
      } else {
        assert kept == KeepLabel(es[1..], text);
      }
    }
  }

  /**
   * The export's status filter keeps, in order, the records whose label
   * contains the parameter, each as many times as it occurs; an absent or
   * empty parameter keeps everything.
   */
  lemma LabelFilterMeaning(es: seq<ExportRow>, status: string)
    ensures status == "" ==> LabelFilter(es, status) == es
    ensures IsSubsequence(LabelFilter(es, status), es)
    ensures forall e :: e in LabelFilter(es, status) <==> e in es && Includes(e.status, status)
    ensures forall e :: multiset(LabelFilter(es, status))[e]
                        == if Includes(e.status, status) then multiset(es)[e] else 0
  {
    if status == "" {
      SubsequenceRefl(es);
      forall e: ExportRow
        ensures Includes(e.status, status)
      {
        assert status <= e.status;
      }
    } else {
      KeepLabelSubsequence(es, status);
    }
  }

  /** Only the installment label contains "Cicilan". */
  lemma CicilanLabel(st: Status, installment: int, fmt: int -> string)
    ensures Includes(Label(st, installment, fmt), "Cicilan") <==> st == Status.Installment
  {
    var l := Label(st, installment, fmt);
    if st == Status.Installment {
      assert "Cicilan" <= l;
    } else if Includes(l, "Cicilan") {
      IncludesHead(l, "Cicilan");
    }
  }

  /** The paid label contains "Lunas" and the unpaid one does not. */
  lemma LunasLabel(st: Status, installment: int, fmt: int -> string)
    ensures st == Paid ==> Includes(Label(st, installment, fmt), "Lunas")
    ensures st == Unpaid ==> !Includes(Label(st, installment, fmt), "Lunas")
  {
    var l := Label(st, installment, fmt);
    if st == Paid {
      assert "Lunas" <= l;
    } else if st == Unpaid && Includes(l, "Lunas") {
      IncludesHead(l, "Lunas");
    }
  }

  /** Filtering the export by "Cicilan" keeps exactly the records whose report status is 'installment'. */
  lemma CicilanKeepsInstallments(rows: seq<JoinedRow>, fee: int, fmt: int -> string)
    ensures forall k :: 0 <= k < |rows| ==>
              (ExportRecords(rows, fee, fmt)[k] in LabelFilter(ExportRecords(rows, fee, fmt), "Cicilan")
               <==> Reports(rows, fee)[k].status == Status.Installment)
  {
    var es := ExportRecords(rows, fee, fmt);
    var rs := Reports(rows, fee);
    ExportMatchesReport(rows, fee, fmt);
    LabelFilterMeaning(es, "Cicilan");
    forall k | 0 <= k < |rows|
      ensures es[k] in LabelFilter(es, "Cicilan") <==> rs[k].status == Status.Installment
    {
      assert es[k] in es;
      CicilanLabel(rs[k].status, rs[k].installmentPaid, fmt);
    }
  }

  /** Filtering the export by "Lunas" keeps every paid record and drops every unpaid one. */
  lemma LunasKeepsPaid(rows: seq<JoinedRow>, fee: int, fmt: int -> string)
    ensures forall k :: 0 <= k < |rows| && Reports(rows, fee)[k].status == Paid ==>
              ExportRecords(rows, fee, fmt)[k] in LabelFilter(ExportRecords(rows, fee, fmt), "Lunas")
    ensures forall k :: 0 <= k < |rows| && Reports(rows, fee)[k].status == Unpaid ==>
              ExportRecords(rows, fee, fmt)[k] !in LabelFilter(ExportRecords(rows, fee, fmt), "Lunas")
  {
    var es := ExportRecords(rows, fee, fmt);
    var rs := Reports(rows, fee);
    ExportMatchesReport(rows, fee, fmt);
    LabelFilterMeaning(es, "Lunas");
    forall k | 0 <= k < |rows|
      ensures rs[k].status == Paid ==> es[k] in LabelFilter(es, "Lunas")
      ensures rs[k].status == Unpaid ==> es[k] !in LabelFilter(es, "Lunas")
    {
      assert es[k] in es;
      LunasLabel(rs[k].status, rs[k].installmentPaid, fmt);
    }
  }

  // ---------------------------------------------------------------------------
  // Joining and splitting

  lemma {:induction false} SplitNoSep(s: string, sep: char)
    requires sep !in s
    ensures Split(s, sep) == [s]
  {
    if s != [] {
      SplitNoSep(s[1..], sep);
      assert [s[0]] + s[1..] == s;
    }
  }

  lemma {:induction false} SplitConcat(x: string, y: string, sep: char)
    requires sep !in x
    ensures Split(x + [sep] + y, sep) == [x] + Split(y, sep)
  {
    if x == [] {
      assert x + [sep] + y == [sep] + y;
      assert ([sep] + y)[1..] == y;
    } else {
      assert (x + [sep] + y)[1..] == x[1..] + [sep] + y;
      SplitConcat(x[1..], y, sep);
      assert [x[0]] + x[1..] == x;
    }
  }

  /** Splitting a joined list at the separator gives the list back, when no element contains the separator. */
  lemma {:induction false} SplitJoin(xs: seq<string>, sep: char)
    requires |xs| >= 1
    requires forall k :: 0 <= k < |xs| ==> sep !in xs[k]
    ensures Split(JoinWith(sep, xs), sep) == xs
  {
    if |xs| == 1 {
      SplitNoSep(xs[0], sep);
    } else {
      SplitJoin(xs[1..], sep);
      SplitConcat(xs[0], JoinWith(sep, xs[1..]), sep);
      assert [xs[0]] + xs[1..] == xs;
    }
  }

  /** A character that is not the separator and occurs in no element does not occur in the join. */
  lemma {:induction false} JoinAvoids(sep: char, xs: seq<string>, c: char)
    requires c != sep
    requires forall k :: 0 <= k < |xs| ==> c !in xs[k]
    ensures c !in JoinWith(sep, xs)
  {
    if |xs| > 1 {
      JoinAvoids(sep, xs[1..], c);
    }
  }

  // ---------------------------------------------------------------------------
  // Layout of the CSV text

  /** Line k of the body carries number n + k and the fields of record k. */
  lemma {:induction false} CsvLineAt(es: seq<ExportRow>, n: nat, k: nat)
    requires k < |es|
    ensures CsvLines(es, n)[k] == JoinWith(',', CsvFields(n + k, es[k]))
  {
    if k > 0 {
      CsvLineAt(es[1..], n + 1, k - 1);
      assert es[1..][k - 1] == es[k];
    }
  }

  lemma DecimalClean(n: nat)
    ensures Clean(Decimal(n))
  {
    var d := Decimal(n);
    assert forall k :: 0 <= k < |d| ==> d[k] != ',' && d[k] != '\n';
  }

  lemma CleanFields(n: nat, e: ExportRow)
    requires CleanRecord(e)
    ensures forall k :: 0 <= k < 6 ==> Clean(CsvFields(n, e)[k])
  {
    DecimalClean(n);
  }

  lemma HeaderClean()
    ensures forall k :: 0 <= k < |CSV_HEADER| ==> Clean(CSV_HEADER[k])
    ensures '\n' !in JoinWith(',', CSV_HEADER)
    ensures Split(JoinWith(',', CSV_HEADER), ',') == CSV_HEADER
  {
    forall k | 0 <= k < |CSV_HEADER|
      ensures Clean(CSV_HEADER[k])
    {
    }
    JoinAvoids(',', CSV_HEADER, '\n');
    SplitJoin(CSV_HEADER, ',');
  }

  /** A clean record's line is one line, and splitting it at commas gives its fields. */
  lemma CleanLine(n: nat, e: ExportRow)
    requires CleanRecord(e)
    ensures '\n' !in JoinWith(',', CsvFields(n, e))
    ensures Split(JoinWith(',', CsvFields(n, e)), ',') == CsvFields(n, e)
  {
    CleanFields(n, e);
    JoinAvoids(',', CsvFields(n, e), '\n');
    SplitJoin(CsvFields(n, e), ',');
  }

  /** The text of clean records splits at line breaks into exactly its lines. */
  lemma CsvSplitLines(es: seq<ExportRow>)
    requires forall k :: 0 <= k < |es| ==> CleanRecord(es[k])
    ensures Split(Csv(es), '\n') == CsvLineList(es)
  {
    var lines := CsvLineList(es);
    HeaderClean();
    forall k | 0 <= k < |lines|
      ensures '\n' !in lines[k]
    {
      if k > 0 {
        CsvLineAt(es, 1, k - 1);
        CleanLine(k, es[k - 1]);
      }
    }
    SplitJoin(lines, '\n');
  }

  /** Each body line of clean records splits at commas into its number and six fields. */
  lemma BodyLinesSplit(es: seq<ExportRow>)
    requires forall k :: 0 <= k < |es| ==> CleanRecord(es[k])
    ensures forall k :: 0 <= k < |es| ==> Split(CsvLines(es, 1)[k], ',') == CsvFields(k + 1, es[k])
  {
    forall k | 0 <= k < |es|
      ensures Split(CsvLines(es, 1)[k], ',') == CsvFields(k + 1, es[k])
    {
      CsvLineAt(es, 1, k);
      CleanLine(1 + k, es[k]);
    }
  }

  /**
   * When no field contains a comma or a line break, the CSV text reads back
   * as the header line followed by one line per record, line k + 1 holding
   * the number k + 1 and the six fields of record k.
   */
  lemma CsvLayout(es: seq<ExportRow>)
    requires forall k :: 0 <= k < |es| ==> CleanRecord(es[k])
    ensures |Split(Csv(es), '\n')| == |es| + 1
    ensures Split(Split(Csv(es), '\n')[0], ',') == CSV_HEADER
    ensures forall k :: 0 <= k < |es| ==> Split(Split(Csv(es), '\n')[k + 1], ',') == CsvFields(k + 1, es[k])
  {
    CsvSplitLines(es);
    HeaderClean();
    BodyLinesSplit(es);
    var lines := Split(Csv(es), '\n');
    assert forall k :: 0 <= k < |es| ==> lines[k + 1] == CsvLines(es, 1)[k];
  }

  // ---------------------------------------------------------------------------
  // A formatted amount breaks the columns

  /**
   * An amount holding one comma, as the id-ID currency format writes its
   * decimal part, splits into two columns: the line then has seven fields,
   * the amount's cents fall under Metode and the method under no header.
   */
  lemma AmountCommaAddsColumn(n: nat, e: ExportRow, whole: string, cents: string)
    requires Clean(OrEmpty(e.memberName)) && Clean(e.month) && Clean(e.status) && Clean(e.payMethod)
    requires Clean(whole) && Clean(cents) && e.amount == whole + "," + cents
    ensures Split(JoinWith(',', CsvFields(n, e)), ',')
            == [Decimal(n), OrEmpty(e.memberName), e.month, e.status, whole, cents, e.payMethod]
  {
    DecimalClean(n);
    var f := CsvFields(n, e);
    SplitOneExtra(f, 4, whole, cents, ',');
    assert f[..4] + [whole, cents] + f[5..]
           == [Decimal(n), OrEmpty(e.memberName), e.month, e.status, whole, cents, e.payMethod];
  }

  /**
   * Splitting a join in which element i alone holds one separator gives the
   * elements back with element i cut in two at that separator.
   */
  lemma {:induction false} SplitOneExtra(xs: seq<string>, i: nat, x: string, y: string, sep: char)
    requires i < |xs| && xs[i] == x + [sep] + y && sep !in x && sep !in y
    requires forall k :: 0 <= k < |xs| && k != i ==> sep !in xs[k]
    ensures Split(JoinWith(sep, xs), sep) == xs[..i] + [x, y] + xs[i + 1..]
  {
    if i == 0 {
      if |xs| == 1 {
        SplitConcat(x, y, sep);
        SplitNoSep(y, sep);
      } else {
        var rest := JoinWith(sep, xs[1..]);
        assert JoinWith(sep, xs) == x + [sep] + (y + [sep] + rest);
        SplitConcat(x, y + [sep] + rest, sep);
        SplitConcat(y, rest, sep);
        SplitJoin(xs[1..], sep);
      }
    } else {
      SplitOneExtra(xs[1..], i - 1, x, y, sep);
      SplitConcat(xs[0], JoinWith(sep, xs[1..]), sep);
      assert xs[1..][..i - 1] == xs[1..i] && xs[1..][i..] == xs[i + 1..];
      assert [xs[0]] + xs[1..i] == xs[..i];
    }
  }

  /**
   * A paid record at the seeded fee of 100000, which the id-ID currency
   * format writes "Rp 100.000,00", is written as seven fields under six
   * headers: Jumlah holds "Rp 100.000" and Metode holds "00".
   */
  lemma FormattedFeeBreaksCsv(n: nat, id: string, name: string, month: string, payMethod: string)
    requires Clean(name) && Clean(month) && Clean(payMethod)
    ensures var e := ExportRow(id, Some(name), month, "Lunas", "Rp\U{A0}100.000,00", payMethod);
            var fields := Split(JoinWith(',', CsvFields(n, e)), ',');
            && |fields| == 7
            && fields[4] == "Rp\U{A0}100.000"
            && fields[5] == "00"
            && fields[6] == payMethod
  {
    var e := ExportRow(id, Some(name), month, "Lunas", "Rp\U{A0}100.000,00", payMethod);
    assert e.amount == "Rp\U{A0}100.000" + "," + "00";
    AmountCommaAddsColumn(n, e, "Rp\U{A0}100.000", "00");
  }
}
