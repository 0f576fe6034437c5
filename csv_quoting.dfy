/**
 * The export written as RFC 4180 asks: every field enclosed in double
 * quotes, a double quote inside a field doubled. A reader of that format
 * gets every record back with its fields whole, whatever characters the
 * formatted amounts or the names contain.
 */
module CsvQuoting {
  import opened Types
  import opened Query
  import opened Report
  import opened Export

  /** The field's characters with every double quote doubled. */
  function Escape(f: string): string {
    if f == [] then []
    else (if f[0] == '"' then "\"\"" else [f[0]]) + Escape(f[1..])
  }

  /** A field enclosed in double quotes. */
  function Quote(f: string): string {
    "\"" + Escape(f) + "\""
  }

  function QuoteAll(fs: seq<string>): (qs: seq<string>)
    ensures |qs| == |fs|
  {
    if fs == [] then [] else [Quote(fs[0])] + QuoteAll(fs[1..])
  }

  /** One record as a line of quoted fields separated by commas. */
  function QuotedLine(fs: seq<string>): string {
    JoinWith(',', QuoteAll(fs))
  }

  function QuotedLines(recs: seq<seq<string>>): (lines: seq<string>)
    ensures |lines| == |recs|
  {
    if recs == [] then [] else [QuotedLine(recs[0])] + QuotedLines(recs[1..])
  }

  /** The table the export writes: one row of fields per record, numbered from `n`. */
  function CsvTable(es: seq<ExportRow>, n: nat): (t: seq<seq<string>>)
    ensures |t| == |es|
    ensures forall k :: 0 <= k < |es| ==> t[k] == CsvFields(n + k, es[k])
  {
    if es == [] then [] else [CsvFields(n, es[0])] + CsvTable(es[1..], n + 1)
  }

  /** The CSV text with quoted fields: the header, then one line per record. */
  function QuotedCsv(es: seq<ExportRow>): string {
    JoinWith('\n', QuotedLines([CSV_HEADER] + CsvTable(es, 1)))
  }

  /** The export response with quoted fields. */
  function ExportQuotedCsv(rows: seq<JoinedRow>, fee: int, status: string, fmt: int -> string): string {
    QuotedCsv(LabelFilter(ExportRecords(rows, fee, fmt), status))
  }

  // ---------------------------------------------------------------------------
  // A reader for quoted CSV

  /**
   * Reads the inside of a quoted field (the opening quote already consumed)
   * up to its closing quote: the field and the text after the closing quote.
   */
  function ReadQuoted(s: string): (r: Option<(string, string)>)
    ensures r.Some? ==> |r.value.1| < |s|
    decreases |s|
  {
    if s == [] then None
    else if s[0] == '"' then
      if |s| >= 2 && s[1] == '"' then
        match ReadQuoted(s[2..])
        case None => None
        case Some((f, rest)) => Some(("\"" + f, rest))
      else Some(("", s[1..]))
    else
      match ReadQuoted(s[1..])
      case None => None
      case Some((f, rest)) => Some(([s[0]] + f, rest))
  }

  /** Reads one record: quoted fields separated by commas; returns the fields and the text after them. */
  function ReadRecord(s: string): (r: Option<(seq<string>, string)>)
    ensures r.Some? ==> |r.value.1| < |s|
    decreases |s|
  {
    if s == [] || s[0] != '"' then None
    else
      match ReadQuoted(s[1..])
      case None => None
      case Some((f, rest)) =>
        if rest != [] && rest[0] == ',' then
          match ReadRecord(rest[1..])
          case None => None
          case Some((fs, rest')) => Some(([f] + fs, rest'))
        else Some(([f], rest))
  }

  /** Reads a whole text: records separated by line breaks. */
  function ReadCsv(s: string): Option<seq<seq<string>>>
    decreases |s|
  {
    match ReadRecord(s)
    case None => None
    case Some((fs, rest)) =>
      if rest == [] then Some([fs])
      else if rest[0] == '\n' then
        match ReadCsv(rest[1..])
        case None => None
        case Some(more) => Some([fs] + more)
      else None
  }

  // ---------------------------------------------------------------------------
  // Round trip

  lemma {:induction false} ReadEscaped(f: string, rest: string)
    requires rest == [] || rest[0] != '"'
    ensures ReadQuoted(Escape(f) + "\"" + rest) == Some((f, rest))
  {
    var s := Escape(f) + "\"" + rest;
    if f == [] {
      assert s == "\"" + rest;
      assert s[1..] == rest;
    } else if f[0] == '"' {
      assert s == "\"\"" + (Escape(f[1..]) + "\"" + rest);
      assert s[2..] == Escape(f[1..]) + "\"" + rest;
      ReadEscaped(f[1..], rest);
      assert "\"" + f[1..] == f;
    } else {
      assert s == [f[0]] + (Escape(f[1..]) + "\"" + rest);
      assert s[1..] == Escape(f[1..]) + "\"" + rest;
      ReadEscaped(f[1..], rest);
      assert [f[0]] + f[1..] == f;
    }
  }

  lemma QuotedLineCons(fs: seq<string>)
    requires |fs| >= 1
    ensures |fs| == 1 ==> QuotedLine(fs) == Quote(fs[0])
    ensures |fs| > 1 ==> QuotedLine(fs) == Quote(fs[0]) + [','] + QuotedLine(fs[1..])
  {
    var qs := QuoteAll(fs);
    assert qs[0] == Quote(fs[0]) && qs[1..] == QuoteAll(fs[1..]);
  }

  /** A quoted field followed by a line break or the end is the record's last field. */
  lemma ReadLastField(f: string, rest: string)
    requires rest == [] || rest[0] == '\n'
    ensures ReadRecord(Quote(f) + rest) == Some(([f], rest))
  {
    var s := Quote(f) + rest;
    assert s[0] == '"' && s[1..] == Escape(f) + "\"" + rest;
    ReadEscaped(f, rest);
  }

  /** A quoted field followed by a comma is followed by the rest of the record. */
  lemma ReadFieldThenMore(f: string, after: string, fs: seq<string>, rest: string)
    requires ReadRecord(after) == Some((fs, rest))
    ensures ReadRecord(Quote(f) + [','] + after) == Some(([f] + fs, rest))
  {
    var s := Quote(f) + [','] + after;
    assert s[0] == '"' && s[1..] == Escape(f) + "\"" + ([','] + after);
    ReadEscaped(f, [','] + after);
    assert ([','] + after)[1..] == after;
  }

  lemma {:induction false} ReadQuotedLine(fs: seq<string>, rest: string)
    requires |fs| >= 1
    requires rest == [] || rest[0] == '\n'
    ensures ReadRecord(QuotedLine(fs) + rest) == Some((fs, rest))
  {
    QuotedLineCons(fs);
    if |fs| == 1 {
      ReadLastField(fs[0], rest);
      assert [fs[0]] == fs;
    } else {
      ReadQuotedLine(fs[1..], rest);
      ReadFieldThenMore(fs[0], QuotedLine(fs[1..]) + rest, fs[1..], rest);
      assert QuotedLine(fs) + rest == Quote(fs[0]) + [','] + (QuotedLine(fs[1..]) + rest);
      assert [fs[0]] + fs[1..] == fs;
    }
  }

  /** Every non-empty list of non-empty records, written as quoted lines, reads back unchanged. */
  lemma {:induction false} ReadQuotedLines(recs: seq<seq<string>>)
    requires |recs| >= 1
    requires forall k :: 0 <= k < |recs| ==> |recs[k]| >= 1
    ensures ReadCsv(JoinWith('\n', QuotedLines(recs))) == Some(recs)
  {
    var ls := QuotedLines(recs);
    assert ls[0] == QuotedLine(recs[0]) && ls[1..] == QuotedLines(recs[1..]);
    if |recs| == 1 {
      ReadQuotedLine(recs[0], []);
      assert QuotedLine(recs[0]) + [] == QuotedLine(recs[0]);
      assert [recs[0]] == recs;
    } else {
      var after := JoinWith('\n', ls[1..]);
      assert JoinWith('\n', ls) == QuotedLine(recs[0]) + ("\n" + after);
      ReadQuotedLine(recs[0], "\n" + after);
      assert ("\n" + after)[1..] == after;
      ReadQuotedLines(recs[1..]);
      assert ReadCsv(JoinWith('\n', ls)) == Some([recs[0]] + recs[1..]);
      assert [recs[0]] + recs[1..] == recs;
    }
  }

  lemma QuotedCsvTable(es: seq<ExportRow>)
    ensures ReadCsv(QuotedCsv(es)) == Some([CSV_HEADER] + CsvTable(es, 1))
  {
    var recs := [CSV_HEADER] + CsvTable(es, 1);
    assert forall k :: 0 <= k < |recs| ==> |recs[k]| == 6;
    ReadQuotedLines(recs);
  }

  /**
   * The quoted export reads back as the header followed by one record per
   * export row, numbered from 1, each with its six fields whole: commas,
   * quotes and line breaks in a name or a formatted amount move nothing.
   */
  lemma QuotedCsvReadsBack(es: seq<ExportRow>)
    ensures ReadCsv(QuotedCsv(es)).Some?
    ensures var t := ReadCsv(QuotedCsv(es)).value;
            && |t| == |es| + 1
            && t[0] == CSV_HEADER
            && forall k :: 0 <= k < |es| ==> t[k + 1] == CsvFields(k + 1, es[k])
  {
    QuotedCsvTable(es);
    var body := CsvTable(es, 1);
    var t := [CSV_HEADER] + body;
    forall k | 0 <= k < |es|
      ensures t[k + 1] == CsvFields(k + 1, es[k])
    {
      assert t[k + 1] == body[k];
    }
  }
}
