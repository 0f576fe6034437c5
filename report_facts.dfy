/**
 * What the report says about the ledger: the installment sum of every
 * record is the sum of the ledger's matching installments, the status
 * follows the precedence rule, a pair yields as many records as it has
 * matching transactions, filters act row by row, and the order in which
 * SQLite returns the rows only permutes the report.
 */
module ReportFacts {
  import opened Types
  import opened SqlLike
  import opened Query
  import opened JoinFacts
  import opened Report

  /** The year filter's test on a transaction (`t.year = ?` when a year is given). */
  predicate YearOk(t: Transaction, year: string) {
    year != "" ==> t.year == Some(year)
  }

  /**
   * The specification of `installmentPaid`: the amounts of the ledger's
   * installments for member a and month b that pass the year filter.
   */
  function LedgerInstallmentSum(txs: seq<Transaction>, a: string, b: string, year: string): int {
    if txs == [] then 0
    else (if Matches(txs[0], a, b) && txs[0].kind == TxKind.Installment && YearOk(txs[0], year)
          then AmountOrZero(txs[0].amount) else 0)
         + LedgerInstallmentSum(txs[1..], a, b, year)
  }

  /** The month and search parameters ask only about the pair, never about its transaction. */
  predicate PairPasses(m: Member, mo: Month, month: string, search: string) {
    && (month != "" ==> mo.id == month)
    && (search != "" ==> m.name.Some? && Like("%" + search + "%", m.name.value))
  }

  /** The number of records carrying `id`. */
  function CountId(rs: seq<ReportRow>, id: string): nat {
    if rs == [] then 0 else (if rs[0].id == id then 1 else 0) + CountId(rs[1..], id)
  }

  /** `a` is `b` with some elements left out, the rest kept in order. */
  predicate IsSubsequence<T(==)>(a: seq<T>, b: seq<T>)
    decreases |b|
  {
    if a == [] then true
    else if b == [] then false
    else (a[0] == b[0] && IsSubsequence(a[1..], b[1..])) || IsSubsequence(a, b[1..])
  }

  // ---------------------------------------------------------------------------
  // Installment sums

  lemma {:induction false} InstallmentSumAppend(x: seq<JoinedRow>, y: seq<JoinedRow>, a: string, b: string)
    ensures InstallmentSum(x + y, a, b) == InstallmentSum(x, a, b) + InstallmentSum(y, a, b)
  {
    if x == [] {
      assert x + y == y;
    } else {
      assert (x + y)[0] == x[0] && (x + y)[1..] == x[1..] + y;
      InstallmentSumAppend(x[1..], y, a, b);
    }
  }

  /** Only the rows of the pair itself count toward its sum. */
  lemma {:induction false} InstallmentSumOfPair(rows: seq<JoinedRow>, a: string, b: string)
    ensures InstallmentSum(rows, a, b) == InstallmentSum(OfPair(rows, a, b), a, b)
  {
    if rows != [] {
      InstallmentSumOfPair(rows[1..], a, b);
      var head := if rows[0].memberId == a && rows[0].monthId == b then [rows[0]] else [];
      InstallmentSumAppend(head, OfPair(rows[1..], a, b), a, b);
    }
  }

  /** The first element of `xs` sits somewhere in a permutation `ys`; removing both leaves permutations. */
  lemma PickOut<T>(xs: seq<T>, ys: seq<T>) returns (k: nat)
    requires xs != [] && multiset(xs) == multiset(ys)
    ensures k < |ys| && ys[k] == xs[0]
    ensures ys == ys[..k] + [ys[k]] + ys[k + 1..]
    ensures multiset(xs[1..]) == multiset(ys[..k] + ys[k + 1..])
  {
    assert xs[0] in multiset(ys);
    k :| 0 <= k < |ys| && ys[k] == xs[0];
    assert ys == ys[..k] + [ys[k]] + ys[k + 1..];
    assert xs == [xs[0]] + xs[1..];
    assert multiset(ys) == multiset(ys[..k]) + multiset{ys[k]} + multiset(ys[k + 1..]);
    assert multiset(xs) == multiset{xs[0]} + multiset(xs[1..]);
    assert multiset(xs[1..]) == multiset(xs) - multiset{xs[0]};
    assert multiset(ys[..k] + ys[k + 1..]) == multiset(ys[..k]) + multiset(ys[k + 1..]);
  }

  /** The sum does not depend on the order of the rows. */
  lemma {:induction false} InstallmentSumPermutation(xs: seq<JoinedRow>, ys: seq<JoinedRow>, a: string, b: string)
    requires multiset(xs) == multiset(ys)
    ensures InstallmentSum(xs, a, b) == InstallmentSum(ys, a, b)
    decreases |xs|
  {
    if xs == [] {
      assert |ys| == |multiset(ys)| == 0;
    } else {
      var k := PickOut(xs, ys);
      InstallmentSumPermutation(xs[1..], ys[..k] + ys[k + 1..], a, b);
      InstallmentSumAppend(ys[..k] + [ys[k]], ys[k + 1..], a, b);
      InstallmentSumAppend(ys[..k], [ys[k]], a, b);
      InstallmentSumAppend(ys[..k], ys[k + 1..], a, b);
    }
  }

  /** Without a matching transaction the ledger sum is 0. */
  lemma {:induction false} LedgerSumNoMatch(txs: seq<Transaction>, a: string, b: string, year: string)
    requires forall t :: t in txs ==> !Matches(t, a, b)
    ensures LedgerInstallmentSum(txs, a, b, year) == 0
  {
    if txs != [] {
      assert txs[0] in txs;
      LedgerSumNoMatch(txs[1..], a, b, year);
    }
  }

  /** Which rows of a pair's block the WHERE clause keeps. */
  lemma PairRowPasses(m: Member, mo: Month, txs: seq<Transaction>, r: JoinedRow,
                      month: string, year: string, search: string)
    requires r in PairRows(m, mo, txs)
    ensures SatisfiesAll(r, WhereClauses(month, year, search)) <==>
              PairPasses(m, mo, month, search) && (year != "" ==> r.txYear == Some(year))
  {
    PairRowsShape(m, mo, txs);
  }

  /** What one transaction's joined row adds to its pair's sum once the WHERE clause has run. */
  lemma HeadSum(m: Member, mo: Month, t: Transaction, month: string, year: string, search: string)
    requires PairPasses(m, mo, month, search)
    ensures var head := if Matches(t, m.id, mo.id) then [TxRow(m, mo, t)] else [];
            InstallmentSum(Where(head, WhereClauses(month, year, search)), m.id, mo.id)
            == if Matches(t, m.id, mo.id) && t.kind == TxKind.Installment && YearOk(t, year)
               then AmountOrZero(t.amount) else 0
  {
    var cs := WhereClauses(month, year, search);
    if Matches(t, m.id, mo.id) {
      assert SatisfiesAll(TxRow(m, mo, t), cs) <==> YearOk(t, year);
      assert [TxRow(m, mo, t)][1..] == [];
    }
  }

  /** The installment sum of a pair's kept matching rows is the ledger sum. */
  lemma {:induction false} MatchRowsSum(m: Member, mo: Month, txs: seq<Transaction>,
                                        month: string, year: string, search: string)
    requires PairPasses(m, mo, month, search)
    ensures InstallmentSum(Where(MatchRows(m, mo, txs), WhereClauses(month, year, search)), m.id, mo.id)
            == LedgerInstallmentSum(txs, m.id, mo.id, year)
  {
    var cs := WhereClauses(month, year, search);
    if txs != [] {
      var t := txs[0];
      var head := if Matches(t, m.id, mo.id) then [TxRow(m, mo, t)] else [];
      assert MatchRows(m, mo, txs) == head + MatchRows(m, mo, txs[1..]);
      WhereAppend(head, MatchRows(m, mo, txs[1..]), cs);
      InstallmentSumAppend(Where(head, cs), Where(MatchRows(m, mo, txs[1..]), cs), m.id, mo.id);
      MatchRowsSum(m, mo, txs[1..], month, year, search);
      HeadSum(m, mo, t, month, year, search);
    }
  }

  /** The installment sum of a pair's block after WHERE is the ledger sum. */
  lemma PairRowsSum(m: Member, mo: Month, txs: seq<Transaction>, month: string, year: string, search: string)
    requires PairPasses(m, mo, month, search)
    ensures InstallmentSum(Where(PairRows(m, mo, txs), WhereClauses(month, year, search)), m.id, mo.id)
            == LedgerInstallmentSum(txs, m.id, mo.id, year)
  {
    MatchRowsSum(m, mo, txs, month, year, search);
  }

  /**
   * Every record's installmentPaid is the sum of the amounts of the ledger's
   * installments for its member and month that pass the year filter (a NULL
   * amount adding 0), however many rows of other pairs the query returned.
   */
  lemma InstallmentPaidIsLedgerSum(ms: seq<Member>, mos: seq<Month>, txs: seq<Transaction>,
                                   month: string, year: string, search: string, i: nat)
    requires UniqueMemberIds(ms) && UniqueMonthIds(mos)
    requires i < |Join(ms, mos, txs, month, year, search)|
    ensures var rows := Join(ms, mos, txs, month, year, search);
            InstallmentSum(rows, rows[i].memberId, rows[i].monthId)
            == LedgerInstallmentSum(txs, rows[i].memberId, rows[i].monthId, year)
  {
    var cs := WhereClauses(month, year, search);
    var full := FullJoin(ms, mos, txs);
    var rows := Where(full, cs);
    var r := rows[i];
    assert r in rows;
    FullJoinOrigin(ms, mos, txs);
    var p, q :| 0 <= p < |ms| && 0 <= q < |mos| && r in PairRows(ms[p], mos[q], txs);
    PairRowPasses(ms[p], mos[q], txs, r, month, year, search);
    PairRowsShape(ms[p], mos[q], txs);
    var a, b := ms[p].id, mos[q].id;
    InstallmentSumOfPair(rows, a, b);
    OfPairWhere(full, cs, a, b);
    PairSlice(ms, mos, txs, p, q);
    PairRowsSum(ms[p], mos[q], txs, month, year, search);
  }

  // ---------------------------------------------------------------------------
  // What each record says

  /**
   * The record of the i-th returned row, in terms of the ledger: it is
   * 'paid' exactly when the row's transaction is an income, and then its
   * amount is the fee passed in, not the recorded amount; otherwise it is
   * 'installment' exactly when the ledger's installment sum for the pair is
   * positive, and its amount is that sum.
   */
  lemma RecordFromLedger(ms: seq<Member>, mos: seq<Month>, txs: seq<Transaction>,
                         month: string, year: string, search: string, fee: int, i: nat)
    requires UniqueMemberIds(ms) && UniqueMonthIds(mos)
    requires i < |Join(ms, mos, txs, month, year, search)|
    ensures var rows := Join(ms, mos, txs, month, year, search);
            var rec := Reports(rows, fee)[i];
            var sum := LedgerInstallmentSum(txs, rows[i].memberId, rows[i].monthId, year);
            && |Reports(rows, fee)| == |rows|
            && rec.id == IdOf(rows[i].memberId, rows[i].monthId)
            && rec.memberName == rows[i].memberName
            && rec.installmentPaid == sum
            && (rec.status == Paid <==> rows[i].txType == Some(Income))
            && (rec.status == Status.Installment <==> rows[i].txType != Some(Income) && sum > 0)
            && (rec.status == Unpaid <==> rows[i].txType != Some(Income) && sum <= 0)
            && rec.amount == (if rows[i].txType == Some(Income) then fee else sum)
  {
    InstallmentPaidIsLedgerSum(ms, mos, txs, month, year, search, i);
  }

  /**
   * A returned row that the LEFT JOIN padded with NULLs gives an 'unpaid'
   * record with amount 0, installmentPaid 0 and method '-'.
   */
  lemma UnmatchedRowIsUnpaid(ms: seq<Member>, mos: seq<Month>, txs: seq<Transaction>,
                             month: string, year: string, search: string, fee: int, i: nat)
    requires UniqueMemberIds(ms) && UniqueMonthIds(mos)
    requires i < |Join(ms, mos, txs, month, year, search)|
    requires Join(ms, mos, txs, month, year, search)[i].txType.None?
    ensures var rows := Join(ms, mos, txs, month, year, search);
            Reports(rows, fee)[i]
            == ReportRow(IdOf(rows[i].memberId, rows[i].monthId), rows[i].memberName, rows[i].monthName,
                         Unpaid, 0, 0, "-")
  {
    var rows := Join(ms, mos, txs, month, year, search);
    var r := rows[i];
    assert r in rows;
    FullJoinOrigin(ms, mos, txs);
    var p, q :| 0 <= p < |ms| && 0 <= q < |mos| && r in PairRows(ms[p], mos[q], txs);
    PairRowOrigin(ms[p], mos[q], txs, r);
    LedgerSumNoMatch(txs, r.memberId, r.monthId, year);
    InstallmentPaidIsLedgerSum(ms, mos, txs, month, year, search, i);
  }

  /** When every matching installment amounts to 0 (or NULL), the ledger sum is 0. */
  lemma {:induction false} LedgerSumZero(txs: seq<Transaction>, a: string, b: string, year: string)
    requires forall t :: t in txs && Matches(t, a, b) && t.kind == TxKind.Installment ==> AmountOrZero(t.amount) == 0
    ensures LedgerInstallmentSum(txs, a, b, year) == 0
  {
    if txs != [] {
      assert txs[0] in txs;
      LedgerSumZero(txs[1..], a, b, year);
    }
  }

  /**
   * A pair whose only matching transaction is an installment of 0 (or a NULL
   * amount) is 'unpaid': every record of it has amount 0 and installmentPaid
   * 0, and when the filters let the pair and that transaction's year through,
   * it has such a record.
   */
  lemma LoneZeroInstallmentIsUnpaid(ms: seq<Member>, mos: seq<Month>, txs: seq<Transaction>,
                                    month: string, year: string, search: string, fee: int,
                                    i: nat, j: nat, t: Transaction)
    requires UniqueMemberIds(ms) && UniqueMonthIds(mos)
    requires i < |ms| && j < |mos|
    requires t in txs && t.kind == TxKind.Installment && Matches(t, ms[i].id, mos[j].id)
    requires AmountOrZero(t.amount) == 0
    requires forall u :: u in txs && Matches(u, ms[i].id, mos[j].id) ==> u == t
    ensures var rows := Join(ms, mos, txs, month, year, search);
            forall p :: 0 <= p < |rows| && rows[p].memberId == ms[i].id && rows[p].monthId == mos[j].id ==>
              var rec := Reports(rows, fee)[p];
              rec.status == Unpaid && rec.amount == 0 && rec.installmentPaid == 0
    ensures PairPasses(ms[i], mos[j], month, search) && YearOk(t, year) ==>
              TxRow(ms[i], mos[j], t) in Join(ms, mos, txs, month, year, search)
  {
    var rows := Join(ms, mos, txs, month, year, search);
    var a, b := ms[i].id, mos[j].id;
    LedgerSumZero(txs, a, b, year);
    forall p | 0 <= p < |rows| && rows[p].memberId == a && rows[p].monthId == b
      ensures var rec := Reports(rows, fee)[p];
              rec.status == Unpaid && rec.amount == 0 && rec.installmentPaid == 0
    {
      LoneZeroRow(ms, mos, txs, month, year, search, i, j, t, p);
      RecordFromLedger(ms, mos, txs, month, year, search, fee, p);
    }
    if PairPasses(ms[i], mos[j], month, search) && YearOk(t, year) {
      MatchRowsShape(ms[i], mos[j], txs);
      PairRowsInFullJoin(ms, mos, txs, i, j);
      PairRowPasses(ms[i], mos[j], txs, TxRow(ms[i], mos[j], t), month, year, search);
    }
  }

  /** A returned row of such a pair carries no income. */
  lemma LoneZeroRow(ms: seq<Member>, mos: seq<Month>, txs: seq<Transaction>,
                    month: string, year: string, search: string, i: nat, j: nat, t: Transaction, p: nat)
    requires i < |ms| && j < |mos| && t.kind == TxKind.Installment
    requires forall u :: u in txs && Matches(u, ms[i].id, mos[j].id) ==> u == t
    requires p < |Join(ms, mos, txs, month, year, search)|
    requires Join(ms, mos, txs, month, year, search)[p].memberId == ms[i].id
    requires Join(ms, mos, txs, month, year, search)[p].monthId == mos[j].id
    ensures Join(ms, mos, txs, month, year, search)[p].txType != Some(Income)
  {
    var r := Join(ms, mos, txs, month, year, search)[p];
    assert r in Join(ms, mos, txs, month, year, search);
    FullJoinOrigin(ms, mos, txs);
    var p', q' :| 0 <= p' < |ms| && 0 <= q' < |mos| && r in PairRows(ms[p'], mos[q'], txs);
    PairRowOrigin(ms[p'], mos[q'], txs, r);
    PairRowsShape(ms[p'], mos[q'], txs);
  }

  // ---------------------------------------------------------------------------
  // Records per pair

  lemma NoDashAfterSplit(x: string, y: string, k: nat)
    requires '-' !in y && |x| < k < |IdOf(x, y)|
    ensures IdOf(x, y)[k] != '-' && IdOf(x, y)[|x|] == '-'
  {
    assert IdOf(x, y)[k] == y[k - |x| - 1];
  }

  /** Record ids determine member and month when month ids have no '-'. */
  lemma IdInjective(a: string, b: string, c: string, d: string)
    requires '-' !in b && '-' !in d
    requires IdOf(a, b) == IdOf(c, d)
    ensures a == c && b == d
  {
    var s := IdOf(a, b);
    assert s == IdOf(c, d);
    if |a| < |c| {
      NoDashAfterSplit(a, b, |c|);
    } else if |c| < |a| {
      NoDashAfterSplit(c, d, |a|);
    }
    assert a == s[..|a|] == c;
    assert b == s[|a| + 1..] == d;
  }

  lemma {:induction false} CountIdIsPairCount(rows: seq<JoinedRow>, rs: seq<ReportRow>, a: string, b: string)
    requires |rs| == |rows|
    requires forall k :: 0 <= k < |rows| ==> rs[k].id == IdOf(rows[k].memberId, rows[k].monthId)
    requires forall k :: 0 <= k < |rows| ==> '-' !in rows[k].monthId
    requires '-' !in b
    ensures CountId(rs, IdOf(a, b)) == |OfPair(rows, a, b)|
  {
    if rows != [] {
      CountIdIsPairCount(rows[1..], rs[1..], a, b);
      if rs[0].id == IdOf(a, b) {
        IdInjective(rows[0].memberId, rows[0].monthId, a, b);
      }
    }
  }

  lemma {:induction false} WhereKeepsAll(rows: seq<JoinedRow>, cs: seq<Cond>)
    requires forall r :: r in rows ==> SatisfiesAll(r, cs)
    ensures Where(rows, cs) == rows
  {
    if rows != [] {
      assert rows[0] in rows;
      WhereKeepsAll(rows[1..], cs);
    }
  }

  /** Without parameters the query returns the whole join. */
  lemma JoinUnfiltered(ms: seq<Member>, mos: seq<Month>, txs: seq<Transaction>)
    ensures Join(ms, mos, txs, "", "", "") == FullJoin(ms, mos, txs)
  {
    WhereKeepsAll(FullJoin(ms, mos, txs), WhereClauses("", "", ""));
  }

  /**
   * Without filters, a pair with k >= 1 matching transactions gets k records
   * carrying its id, and a pair with none gets exactly one.
   */
  lemma RecordsPerPair(ms: seq<Member>, mos: seq<Month>, txs: seq<Transaction>, fee: int, i: nat, j: nat)
    requires UniqueMemberIds(ms) && UniqueMonthIds(mos) && MonthIdsDashFree(mos)
    requires i < |ms| && j < |mos|
    ensures var k := CountMatches(txs, ms[i].id, mos[j].id);
            CountId(Derive(Join(ms, mos, txs, "", "", ""), fee, ""), IdOf(ms[i].id, mos[j].id))
            == if k == 0 then 1 else k
  {
    JoinUnfiltered(ms, mos, txs);
    var rows := FullJoin(ms, mos, txs);
    FullJoinOrigin(ms, mos, txs);
    forall k | 0 <= k < |rows|
      ensures '-' !in rows[k].monthId
    {
      assert rows[k] in rows;
      var p, q :| 0 <= p < |ms| && 0 <= q < |mos| && rows[k] in PairRows(ms[p], mos[q], txs);
      PairRowsShape(ms[p], mos[q], txs);
    }
    CountIdIsPairCount(rows, Reports(rows, fee), ms[i].id, mos[j].id);
    PairSlice(ms, mos, txs, i, j);
    MatchRowsShape(ms[i], mos[j], txs);
  }

  /**
   * An income and a positive installment recorded for the same member and
   * month give, without filters, both a 'paid' and an 'installment' record
   * under the same id.
   */
  lemma IncomeAndInstallmentBothReported(ms: seq<Member>, mos: seq<Month>, txs: seq<Transaction>,
                                         fee: int, i: nat, j: nat, inc: Transaction, ins: Transaction)
    requires UniqueMemberIds(ms) && UniqueMonthIds(mos)
    requires i < |ms| && j < |mos|
    requires inc in txs && inc.kind == Income && Matches(inc, ms[i].id, mos[j].id)
    requires ins in txs && ins.kind == TxKind.Installment && Matches(ins, ms[i].id, mos[j].id)
    requires LedgerInstallmentSum(txs, ms[i].id, mos[j].id, "") > 0
    ensures var rs := Derive(Join(ms, mos, txs, "", "", ""), fee, "");
            exists p, q :: 0 <= p < |rs| && 0 <= q < |rs|
              && rs[p].id == IdOf(ms[i].id, mos[j].id) && rs[p].status == Paid && rs[p].amount == fee
              && rs[q].id == IdOf(ms[i].id, mos[j].id) && rs[q].status == Status.Installment
              && rs[q].amount == LedgerInstallmentSum(txs, ms[i].id, mos[j].id, "")
  {
    JoinUnfiltered(ms, mos, txs);
    var rows := FullJoin(ms, mos, txs);
    MatchRowsShape(ms[i], mos[j], txs);
    PairRowsInFullJoin(ms, mos, txs, i, j);
    assert TxRow(ms[i], mos[j], inc) in rows;
    assert TxRow(ms[i], mos[j], ins) in rows;
    var p :| 0 <= p < |rows| && rows[p] == TxRow(ms[i], mos[j], inc);
    var q :| 0 <= q < |rows| && rows[q] == TxRow(ms[i], mos[j], ins);
    var rs := Reports(rows, fee);
    assert Derive(rows, fee, "") == rs;
    RecordFromLedger(ms, mos, txs, "", "", "", fee, p);
    RecordFromLedger(ms, mos, txs, "", "", "", fee, q);
    assert rs[p].id == IdOf(ms[i].id, mos[j].id) && rs[p].status == Paid && rs[p].amount == fee;
    assert rs[q].id == IdOf(ms[i].id, mos[j].id) && rs[q].status == Status.Installment
           && rs[q].amount == LedgerInstallmentSum(txs, ms[i].id, mos[j].id, "");
  }

  // ---------------------------------------------------------------------------
  // Filters

  /**
   * With a year filter every returned row carries a transaction of that year,
   * so a pair with no transaction disappears from the report even though its
   * member exists.
   */
  lemma YearFilterKeepsOnlyThatYear(ms: seq<Member>, mos: seq<Month>, txs: seq<Transaction>,
                                    month: string, year: string, search: string)
    requires year != ""
    ensures forall r :: r in Join(ms, mos, txs, month, year, search) ==>
              r.txType.Some? && r.txYear == Some(year)
  {
    FullJoinOrigin(ms, mos, txs);
    forall r | r in Join(ms, mos, txs, month, year, search)
      ensures r.txType.Some? && r.txYear == Some(year)
    {
      var p, q :| 0 <= p < |ms| && 0 <= q < |mos| && r in PairRows(ms[p], mos[q], txs);
      PairRowOrigin(ms[p], mos[q], txs, r);
    }
  }

  /** A pair none of whose matching transactions has the filtered year has no row. */
  lemma YearFilterDropsPair(ms: seq<Member>, mos: seq<Month>, txs: seq<Transaction>,
                            month: string, year: string, search: string, a: string, b: string)
    requires year != ""
    requires forall t :: t in txs && Matches(t, a, b) ==> t.year != Some(year)
    ensures forall r :: r in Join(ms, mos, txs, month, year, search) ==> r.memberId != a || r.monthId != b
  {
    FullJoinOrigin(ms, mos, txs);
    forall r | r in Join(ms, mos, txs, month, year, search)
      ensures r.memberId != a || r.monthId != b
    {
      var p, q :| 0 <= p < |ms| && 0 <= q < |mos| && r in PairRows(ms[p], mos[q], txs);
      PairRowOrigin(ms[p], mos[q], txs, r);
      PairRowsShape(ms[p], mos[q], txs);
    }
  }

  /**
   * The month and search parameters keep or drop whole pairs: a returned row
   * has the requested month id and a member name that `LIKE '%search%'`
   * accepts; when the search text holds no `%` or `_`, that is a name
   * containing the text up to ASCII case.
   */
  lemma MonthAndSearchFilters(ms: seq<Member>, mos: seq<Month>, txs: seq<Transaction>,
                              month: string, year: string, search: string, r: JoinedRow)
    requires r in Join(ms, mos, txs, month, year, search)
    ensures month != "" ==> r.monthId == month
    ensures search != "" ==> r.memberName.Some? && Like("%" + search + "%", r.memberName.value)
    ensures search != "" && NoWildcards(search) ==>
              r.memberName.Some? && ContainsFolded(r.memberName.value, search)
  {
    if search != "" && NoWildcards(search) {
      SearchIsSubstring(search, r.memberName.value);
    }
  }

  lemma {:induction false} KeepStatusSubsequence(rs: seq<ReportRow>, name: string)
    ensures IsSubsequence(KeepStatus(rs, name), rs)
  {
    if rs != [] {
      KeepStatusSubsequence(rs[1..], name);
      var kept := KeepStatus(rs, name);
      if rs[0].status.Name() == name {
        assert kept[0] == rs[0] && kept[1..] == KeepStatus(rs[1..], name);
      } else {
        assert kept == KeepStatus(rs[1..], name);
      }
    }
  }

  /**
   * The status filter keeps, in order, exactly the records whose status name
   * equals the parameter, each as many times as it occurs; an absent or empty
   * parameter keeps everything, and a value other than 'paid', 'installment'
   * or 'unpaid' keeps nothing.
   */
  lemma StatusFilterMeaning(rs: seq<ReportRow>, status: string)
    ensures status == "" ==> StatusFilter(rs, status) == rs
    ensures IsSubsequence(StatusFilter(rs, status), rs)
    ensures status != "" ==>
              forall x :: x in StatusFilter(rs, status) <==> x in rs && x.status.Name() == status
    ensures forall x :: multiset(StatusFilter(rs, status))[x]
                        == if status == "" || x.status.Name() == status then multiset(rs)[x] else 0
    ensures status !in {"", "paid", "installment", "unpaid"} ==> StatusFilter(rs, status) == []
  {
    if status == "" {
      SubsequenceRefl(rs);
    } else {
      KeepStatusSubsequence(rs, status);
      if status !in {"paid", "installment", "unpaid"} {
        KeepStatusUnknown(rs, status);
      }
    }
  }

  lemma {:induction false} KeepStatusUnknown(rs: seq<ReportRow>, name: string)
    requires name !in {"paid", "installment", "unpaid"}
    ensures KeepStatus(rs, name) == []
  {
    if rs != [] {
      KeepStatusUnknown(rs[1..], name);
    }
  }

  lemma {:induction false} SubsequenceRefl<T>(rs: seq<T>)
    ensures IsSubsequence(rs, rs)
  {
    if rs != [] {
      SubsequenceRefl(rs[1..]);
    }
  }

  // ---------------------------------------------------------------------------
  // Row order

  /** `xs.map(f)`. */
  function MapSeq<A, B>(f: A -> B, xs: seq<A>): (ys: seq<B>)
    ensures |ys| == |xs|
    ensures forall k :: 0 <= k < |xs| ==> ys[k] == f(xs[k])
  {
    if xs == [] then [] else [f(xs[0])] + MapSeq(f, xs[1..])
  }

  lemma {:induction false} MapSeqAppend<A, B>(f: A -> B, x: seq<A>, y: seq<A>)
    ensures MapSeq(f, x + y) == MapSeq(f, x) + MapSeq(f, y)
  {
  }

  /** Mapping a permutation gives a permutation. */
  lemma {:induction false} MapSeqPermutation<A, B>(f: A -> B, xs: seq<A>, ys: seq<A>)
    requires multiset(xs) == multiset(ys)
    ensures multiset(MapSeq(f, xs)) == multiset(MapSeq(f, ys))
    decreases |xs|
  {
    if xs == [] {
      assert |ys| == |multiset(ys)| == 0;
    } else {
      var k := PickOut(xs, ys);
      var rest := ys[..k] + ys[k + 1..];
      var a, r, b := MapSeq(f, ys[..k]), MapSeq(f, [ys[k]]), MapSeq(f, ys[k + 1..]);
      var t := MapSeq(f, xs[1..]);
      MapSeqPermutation(f, xs[1..], rest);
      MapSeqAppend(f, ys[..k] + [ys[k]], ys[k + 1..]);
      MapSeqAppend(f, ys[..k], [ys[k]]);
      MapSeqAppend(f, ys[..k], ys[k + 1..]);
      MapSeqAppend(f, [xs[0]], xs[1..]);
      assert xs == [xs[0]] + xs[1..];
      assert MapSeq(f, ys) == a + r + b;
      assert MapSeq(f, rest) == a + b;
      assert MapSeq(f, xs) == r + t;
      assert multiset(t) == multiset(a) + multiset(b);
      calc {
        multiset(MapSeq(f, xs));
        multiset(r) + multiset(t);
        multiset(a) + multiset(r) + multiset(b);
        multiset(MapSeq(f, ys));
      }
    }
  }

  lemma ReportEachPermutation(whole: seq<JoinedRow>, fee: int, xs: seq<JoinedRow>, ys: seq<JoinedRow>)
    requires multiset(xs) == multiset(ys)
    ensures multiset(ReportEach(whole, fee, xs)) == multiset(ReportEach(whole, fee, ys))
  {
    var f := x => Reported(whole, fee, x);
    assert ReportEach(whole, fee, xs) == MapSeq(f, xs);
    assert ReportEach(whole, fee, ys) == MapSeq(f, ys);
    MapSeqPermutation(f, xs, ys);
  }

  /**
   * The query has no ORDER BY: if SQLite returns the same rows in another
   * order, the report holds the same records, only in that other order.
   */
  lemma ReportsIgnoreRowOrder(rows: seq<JoinedRow>, rows': seq<JoinedRow>, fee: int)
    requires multiset(rows) == multiset(rows')
    ensures multiset(Reports(rows, fee)) == multiset(Reports(rows', fee))
  {
    forall r | r in rows'
      ensures Reported(rows, fee, r) == Reported(rows', fee, r)
    {
      InstallmentSumPermutation(rows, rows', r.memberId, r.monthId);
    }
    assert ReportEach(rows, fee, rows') == ReportEach(rows', fee, rows') by {
      forall k | 0 <= k < |rows'|
        ensures ReportEach(rows, fee, rows')[k] == ReportEach(rows', fee, rows')[k]
      {
        assert rows'[k] in rows';
      }
    }
    ReportEachPermutation(rows, fee, rows, rows');
  }
}
