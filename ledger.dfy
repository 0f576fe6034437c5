/**
 * The tables the handlers write, as one object: members and transactions
 * grow by INSERT, a member and the settings row change by UPDATE, and the
 * report and export handlers read all of it. Ids that the handlers draw from
 * uuidv4() and the date stamp are parameters; the primary keys make them fresh.
 */
module Handlers {
  import opened Types
  import opened Query
  import opened Report
  import opened Export
  import opened CsvQuoting
  import opened ReportFacts

  /** The foreign key on transactions.memberId accepts a NULL or an existing member id. */
  predicate MemberKnown(ms: seq<Member>, memberId: Option<string>) {
    memberId.None? || HasMember(ms, memberId.value)
  }

  /** The row a member's income for one month inserts. */
  function IncomeRow(id: string, memberId: Option<string>, month: string, year: Option<string>,
                     amount: Option<int>, payMethod: Option<string>, description: Option<string>,
                     date: string): Transaction
  {
    Transaction(id, Income, description, amount, payMethod, date, memberId, Some(month), year, None)
  }

  /** The rows a member's income inserts: one per listed month, the k-th with the k-th id. */
  function IncomeRows(ids: seq<string>, memberId: Option<string>, months: seq<string>, year: Option<string>,
                      amount: Option<int>, payMethod: Option<string>, description: Option<string>,
                      date: string): (rows: seq<Transaction>)
    requires |ids| == |months|
    ensures |rows| == |months|
    ensures forall k :: 0 <= k < |rows| ==>
              && rows[k].id == ids[k] && rows[k].kind == Income && rows[k].month == Some(months[k])
              && rows[k].memberId == memberId && rows[k].year == year
              && rows[k].amount == amount && rows[k].payMethod == payMethod
  {
    seq(|months|, k requires 0 <= k < |months| =>
      IncomeRow(ids[k], memberId, months[k], year, amount, payMethod, description, date))
  }

  /** The row an income that is not a member's inserts: no member, month or year. */
  function OtherIncomeRow(id: string, description: Option<string>, amount: Option<int>,
                          payMethod: Option<string>, date: string): Transaction
  {
    Transaction(id, Income, description, amount, payMethod, date, None, None, None, None)
  }

  /** The row an installment inserts; its year is always '2025'. */
  function InstallmentRow(id: string, memberId: Option<string>, month: Option<string>, amount: Option<int>,
                          payMethod: Option<string>, description: Option<string>, date: string): Transaction
  {
    Transaction(id, TxKind.Installment, description, amount, payMethod, date, memberId, month, Some("2025"), None)
  }

  /** The row an expense inserts: the request's name becomes the description; no member. */
  function ExpenseRow(id: string, name: Option<string>, category: Option<string>, amount: Option<int>,
                      payMethod: Option<string>, date: string): Transaction
  {
    Transaction(id, Expense, name, amount, payMethod, date, None, None, None, category)
  }

  /** `UPDATE members SET ... WHERE id = ?`: the member with that id takes the new fields, no other row changes. */
  function WithMember(ms: seq<Member>, id: string, name: Option<string>, phone: Option<string>,
                      address: Option<string>, rayon: Option<string>): (ms': seq<Member>)
    ensures |ms'| == |ms|
    ensures forall k :: 0 <= k < |ms| ==> ms'[k].id == ms[k].id
    ensures forall k :: 0 <= k < |ms| && ms[k].id == id ==> ms'[k] == Member(id, name, phone, address, rayon)
    ensures forall k :: 0 <= k < |ms| && ms[k].id != id ==> ms'[k] == ms[k]
  {
    if ms == [] then []
    else [if ms[0].id == id then Member(id, name, phone, address, rayon) else ms[0]]
         + WithMember(ms[1..], id, name, phone, address, rayon)
  }

  class Ledger {
    var members: seq<Member>
    var transactions: seq<Transaction>
    var settings: Settings
    const months: seq<Month>

    /** The table constraints: primary keys, the seeded months and the foreign key on memberId. */
    ghost predicate Valid()
      reads this
    {
      && UniqueMemberIds(members)
      && UniqueTxIds(transactions)
      && months == SEEDED_MONTHS
      && forall k :: 0 <= k < |transactions| ==> MemberKnown(members, transactions[k].memberId)
    }

    /** A fresh database: no members or transactions, the seeded months and the seeded settings row. */
    constructor ()
      ensures Valid()
      ensures members == [] && transactions == []
      ensures settings == Settings(Some("KasaPro"), Some("6"), 100000)
    {
      members := [];
      transactions := [];
      settings := Settings(Some("KasaPro"), Some("6"), 100000);
      months := SEEDED_MONTHS;
    }

    /** POST /api/members: inserts a member under a fresh id and answers with it. */
    method AddMember(id: string, name: Option<string>, phone: Option<string>, address: Option<string>,
                     rayon: Option<string>) returns (m: Member)
      requires Valid()
      requires !HasMember(members, id)
      modifies this
      ensures Valid()
      ensures m == Member(id, name, phone, address, rayon)
      ensures members == old(members) + [m]
      ensures transactions == old(transactions) && settings == old(settings)
    {
      m := Member(id, name, phone, address, rayon);
      members := members + [m];
      forall k | 0 <= k < |transactions|
        ensures MemberKnown(members, transactions[k].memberId)
      {
        if transactions[k].memberId.Some? {
          var i :| 0 <= i < |old(members)| && old(members)[i].id == transactions[k].memberId.value;
          assert members[i] == old(members)[i];
        }
      }
    }

    /** PUT /api/members/:id: overwrites the four fields of the member with that id; no row matching changes nothing. */
    method UpdateMember(id: string, name: Option<string>, phone: Option<string>, address: Option<string>,
                        rayon: Option<string>)
      requires Valid()
      modifies this
      ensures Valid()
      ensures members == WithMember(old(members), id, name, phone, address, rayon)
      ensures transactions == old(transactions) && settings == old(settings)
    {
      members := WithMember(members, id, name, phone, address, rayon);
      forall k | 0 <= k < |transactions|
        ensures MemberKnown(members, transactions[k].memberId)
      {
        if transactions[k].memberId.Some? {
          var i :| 0 <= i < |old(members)| && old(members)[i].id == transactions[k].memberId.value;
          assert members[i].id == old(members)[i].id;
        }
      }
    }

    /**
     * POST /api/transactions/income for a member: one INSERT per listed
     * month, each checked by the foreign key on its own. All of them succeed
     * or all fail, since they share the memberId; the answer is a failure
     * when any insert failed.
     */
    method RecordMemberIncome(ids: seq<string>, memberId: Option<string>, monthIds: seq<string>,
                              year: Option<string>, amount: Option<int>, payMethod: Option<string>,
                              description: Option<string>, date: string) returns (ok: bool)
      requires Valid()
      requires |ids| == |monthIds|
      requires forall i, j :: 0 <= i < j < |ids| ==> ids[i] != ids[j]
      requires forall k :: 0 <= k < |ids| ==> !HasTx(transactions, ids[k])
      modifies this
      ensures Valid()
      ensures ok == (MemberKnown(members, memberId) || monthIds == [])
      ensures transactions == old(transactions)
              + (if MemberKnown(members, memberId)
                 then IncomeRows(ids, memberId, monthIds, year, amount, payMethod, description, date) else [])
      ensures members == old(members) && settings == old(settings)
    {
      var known := MemberKnown(members, memberId);
      ghost var rows := IncomeRows(ids, memberId, monthIds, year, amount, payMethod, description, date);
      ghost var before := transactions;
      ok := true;
      var i := 0;
      while i < |monthIds|
        invariant 0 <= i <= |monthIds|
        invariant members == old(members) && settings == old(settings)
        invariant transactions == before + (if known then rows[..i] else [])
        invariant ok == (known || i == 0)
        invariant Valid()
      {
        if MemberKnown(members, memberId) {
          var row := IncomeRow(ids[i], memberId, monthIds[i], year, amount, payMethod, description, date);
          assert row == rows[i];
          forall k | 0 <= k < |transactions|
            ensures transactions[k].id != ids[i]
          {
            if k < |before| {
              assert before[k] == transactions[k];
            } else {
              assert transactions[k] == rows[k - |before|];
            }
          }
          assert rows[..i + 1] == rows[..i] + [row];
          transactions := transactions + [row];
        } else {
          ok := false;
        }
        i := i + 1;
      }
      assert rows[..|monthIds|] == rows;
    }

    /** POST /api/transactions/income for anything else: one income row with no member, month or year. */
    method RecordOtherIncome(id: string, description: Option<string>, amount: Option<int>,
                             payMethod: Option<string>, date: string) returns (t: Transaction)
      requires Valid()
      requires !HasTx(transactions, id)
      modifies this
      ensures Valid()
      ensures t == OtherIncomeRow(id, description, amount, payMethod, date)
      ensures transactions == old(transactions) + [t]
      ensures members == old(members) && settings == old(settings)
    {
      t := OtherIncomeRow(id, description, amount, payMethod, date);
      transactions := transactions + [t];
    }

    /** POST /api/transactions/installment: one installment row for year '2025', refused by the foreign key for an unknown member. */
    method RecordInstallment(id: string, memberId: Option<string>, month: Option<string>, amount: Option<int>,
                             payMethod: Option<string>, description: Option<string>, date: string)
      returns (ok: bool)
      requires Valid()
      requires !HasTx(transactions, id)
      modifies this
      ensures Valid()
      ensures ok == MemberKnown(members, memberId)
      ensures transactions == old(transactions)
              + (if ok then [InstallmentRow(id, memberId, month, amount, payMethod, description, date)] else [])
      ensures members == old(members) && settings == old(settings)
    {
      ok := MemberKnown(members, memberId);
      if ok {
        transactions := transactions + [InstallmentRow(id, memberId, month, amount, payMethod, description, date)];
      }
    }

    /** POST /api/transactions/expense: one expense row, described by the request's name, tied to no member. */
    method RecordExpense(id: string, name: Option<string>, category: Option<string>, amount: Option<int>,
                         payMethod: Option<string>, date: string) returns (t: Transaction)
      requires Valid()
      requires !HasTx(transactions, id)
      modifies this
      ensures Valid()
      ensures t == ExpenseRow(id, name, category, amount, payMethod, date)
      ensures transactions == old(transactions) + [t]
      ensures members == old(members) && settings == old(settings)
    {
      t := ExpenseRow(id, name, category, amount, payMethod, date);
      transactions := transactions + [t];
    }

    /** PUT /api/settings: overwrites the settings row with id 1. */
    method UpdateSettings(organizationName: Option<string>, activeMonth: Option<string>, monthlyFee: int)
      requires Valid()
      modifies this
      ensures Valid()
      ensures settings == Settings(organizationName, activeMonth, monthlyFee)
      ensures members == old(members) && transactions == old(transactions)
    {
      settings := Settings(organizationName, activeMonth, monthlyFee);
    }

    /**
     * GET /api/reports: assembles the WHERE clause, runs the query and
     * derives the records with the current fee. Unfiltered by status, record
     * i belongs to returned row i and its installmentPaid is the ledger's sum
     * for that member and month in the requested year.
     */
    method Report(month: string, year: string, status: string, search: string) returns (out: seq<ReportRow>)
      requires Valid()
      ensures out == Derive(Join(members, months, transactions, month, year, search), settings.monthlyFee, status)
      ensures status == "" ==>
                var rows := Join(members, months, transactions, month, year, search);
                && |out| == |rows|
                && forall i :: 0 <= i < |rows| ==>
                     && out[i].id == IdOf(rows[i].memberId, rows[i].monthId)
                     && out[i].installmentPaid
                        == LedgerInstallmentSum(transactions, rows[i].memberId, rows[i].monthId, year)
    {
      var cs := BuildWhere(month, year, search);
      var rows := Where(FullJoin(members, months, transactions), cs);
      out := Derive(rows, settings.monthlyFee, status);
      SeededMonthsWellFormed();
      forall i | 0 <= i < |rows|
        ensures Reports(rows, settings.monthlyFee)[i].installmentPaid
                == LedgerInstallmentSum(transactions, rows[i].memberId, rows[i].monthId, year)
      {
        RecordFromLedger(members, months, transactions, month, year, search, settings.monthlyFee, i);
      }
    }

    /**
     * GET /api/reports/export, with every field quoted: the records of the
     * same query in Indonesian, filtered by label text, as CSV text that reads
     * back as the header and one record per kept row.
     */
    method Export(month: string, year: string, status: string, search: string, fmt: int -> string)
      returns (csv: string)
      ensures csv == ExportQuotedCsv(Join(members, months, transactions, month, year, search),
                                     settings.monthlyFee, status, fmt)
      ensures var kept := LabelFilter(ExportRecords(Join(members, months, transactions, month, year, search),
                                                    settings.monthlyFee, fmt), status);
              && ReadCsv(csv).Some?
              && |ReadCsv(csv).value| == |kept| + 1
              && ReadCsv(csv).value[0] == CSV_HEADER
              && forall k :: 0 <= k < |kept| ==> ReadCsv(csv).value[k + 1] == CsvFields(k + 1, kept[k])
    {
      var cs := BuildWhere(month, year, search);
      var rows := Where(FullJoin(members, months, transactions), cs);
      var kept := LabelFilter(ExportRecords(rows, settings.monthlyFee, fmt), status);
      csv := QuotedCsv(kept);
      QuotedCsvReadsBack(kept);
    }
  }
}
