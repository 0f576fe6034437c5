/**
 * The report query: members CROSS JOIN months LEFT JOIN transactions on
 * member and month, narrowed by a WHERE clause that the handler assembles
 * from the month, year and search parameters. The query has no ORDER BY;
 * the model fixes members as the outer loop, months inside it and matching
 * transactions in table order, and states everything else relative to that.
 */
module Query {
  import opened Types
  import opened SqlLike

  /** One row of the query's SELECT list. The t.* columns are NULL when the LEFT JOIN found no transaction. */
  datatype JoinedRow = JoinedRow(
    memberId: string,
    memberName: Option<string>,
    monthId: string,
    monthName: string,
    txType: Option<TxKind>,
    txAmount: Option<int>,
    txMethod: Option<string>,
    txYear: Option<string>)

  /** The ON condition `t.memberId = m.id AND t.month = mo.id`; a NULL column never compares equal. */
  predicate Matches(t: Transaction, memberId: string, monthId: string) {
    t.memberId == Some(memberId) && t.month == Some(monthId)
  }

  /** The row of a (member, month) pair that the LEFT JOIN pads with NULLs. */
  function NullRow(m: Member, mo: Month): JoinedRow {
    JoinedRow(m.id, m.name, mo.id, mo.name, None, None, None, None)
  }

  /** The row of a (member, month) pair joined with transaction `t`. */
  function TxRow(m: Member, mo: Month, t: Transaction): JoinedRow {
    JoinedRow(m.id, m.name, mo.id, mo.name, Some(t.kind), t.amount, t.payMethod, t.year)
  }

  /** One joined row per transaction that matches the pair, in table order. */
  function MatchRows(m: Member, mo: Month, txs: seq<Transaction>): seq<JoinedRow> {
    if txs == [] then []
    else (if Matches(txs[0], m.id, mo.id) then [TxRow(m, mo, txs[0])] else [])
         + MatchRows(m, mo, txs[1..])
  }

  /** The LEFT JOIN's rows for one pair: the matching rows, or one NULL-padded row when there are none. */
  function PairRows(m: Member, mo: Month, txs: seq<Transaction>): seq<JoinedRow> {
    var hits := MatchRows(m, mo, txs);
    if hits == [] then [NullRow(m, mo)] else hits
  }

  /** The rows of one member across all months. */
  function MemberRows(m: Member, mos: seq<Month>, txs: seq<Transaction>): seq<JoinedRow> {
    if mos == [] then [] else PairRows(m, mos[0], txs) + MemberRows(m, mos[1..], txs)
  }

  /** The whole FROM clause, before WHERE. */
  function FullJoin(ms: seq<Member>, mos: seq<Month>, txs: seq<Transaction>): seq<JoinedRow> {
    if ms == [] then [] else MemberRows(ms[0], mos, txs) + FullJoin(ms[1..], mos, txs)
  }

  /** One `AND ...` condition the handler appends to the WHERE clause, with its bound parameter. */
  datatype Cond = MonthIs(monthId: string) | YearIs(year: string) | NameLike(pattern: string)

  predicate Satisfies(r: JoinedRow, c: Cond) {
    match c
    case MonthIs(id) => r.monthId == id
    case YearIs(y) => r.txYear == Some(y)
    case NameLike(p) => r.memberName.Some? && Like(p, r.memberName.value)
  }

  predicate SatisfiesAll(r: JoinedRow, cs: seq<Cond>) {
    forall i :: 0 <= i < |cs| ==> Satisfies(r, cs[i])
  }

  /**
   * What the three query parameters ask of a row: each one that is given
   * (a non-empty string) restricts the row, and a NULL column fails its test.
   */
  predicate RowPasses(r: JoinedRow, month: string, year: string, search: string) {
    && (month != "" ==> r.monthId == month)
    && (year != "" ==> r.txYear == Some(year))
    && (search != "" ==> r.memberName.Some? && Like("%" + search + "%", r.memberName.value))
  }

  lemma SatisfiesAllAppend(r: JoinedRow, a: seq<Cond>, b: seq<Cond>)
    ensures SatisfiesAll(r, a + b) <==> SatisfiesAll(r, a) && SatisfiesAll(r, b)
  {
    if SatisfiesAll(r, a) && SatisfiesAll(r, b) {
      forall i | 0 <= i < |a + b|
        ensures Satisfies(r, (a + b)[i])
      {
        if i >= |a| {
          assert (a + b)[i] == b[i - |a|];
        }
      }
    }
    if SatisfiesAll(r, a + b) {
      forall i | 0 <= i < |a|
        ensures Satisfies(r, a[i])
      {
        assert (a + b)[i] == a[i];
      }
      forall i | 0 <= i < |b|
        ensures Satisfies(r, b[i])
      {
        assert (a + b)[|a| + i] == b[i];
      }
    }
  }

  lemma SatisfiesOne(r: JoinedRow, c: Cond)
    ensures SatisfiesAll(r, [c]) <==> Satisfies(r, c)
  {
    assert [c][0] == c;
  }

  /** The conditions the handler appends, in the order it appends them. */
  function WhereClauses(month: string, year: string, search: string): (cs: seq<Cond>)
    ensures |cs| <= 3
    ensures forall r :: SatisfiesAll(r, cs) <==> RowPasses(r, month, year, search)
  {
    var cs1 := if month != "" then [MonthIs(month)] else [];
    var cs2 := if year != "" then [YearIs(year)] else [];
    var cs3 := if search != "" then [NameLike("%" + search + "%")] else [];
    assert forall r :: SatisfiesAll(r, cs1 + cs2 + cs3) <==> RowPasses(r, month, year, search) by {
      forall r
        ensures SatisfiesAll(r, cs1 + cs2 + cs3) <==> RowPasses(r, month, year, search)
      {
        SatisfiesAllAppend(r, cs1 + cs2, cs3);
        SatisfiesAllAppend(r, cs1, cs2);
        SatisfiesOne(r, MonthIs(month));
        SatisfiesOne(r, YearIs(year));
        SatisfiesOne(r, NameLike("%" + search + "%"));
      }
    }
    cs1 + cs2 + cs3
  }

  /** Assembles the WHERE clause the way the handler does, one `AND` at a time. */
  method BuildWhere(month: string, year: string, search: string) returns (cs: seq<Cond>)
    ensures cs == WhereClauses(month, year, search)
    ensures forall r :: SatisfiesAll(r, cs) <==> RowPasses(r, month, year, search)
  {
    cs := [];
    if month != "" {
      cs := cs + [MonthIs(month)];
    }
    if year != "" {
      cs := cs + [YearIs(year)];
    }
    if search != "" {
      cs := cs + [NameLike("%" + search + "%")];
    }
  }

  /** The rows of `rows` that satisfy every condition, in order. */
  function Where(rows: seq<JoinedRow>, cs: seq<Cond>): (r: seq<JoinedRow>)
    ensures |r| <= |rows|
    ensures forall x :: x in r <==> x in rows && SatisfiesAll(x, cs)
  {
    if rows == [] then []
    else (if SatisfiesAll(rows[0], cs) then [rows[0]] else []) + Where(rows[1..], cs)
  }

  /** The WHERE clause keeps every passing row as many times as it occurs and drops the others. */
  lemma {:induction false} WhereMultiplicity(rows: seq<JoinedRow>, cs: seq<Cond>)
    ensures forall x :: multiset(Where(rows, cs))[x] == if SatisfiesAll(x, cs) then multiset(rows)[x] else 0
  {
    if rows != [] {
      WhereMultiplicity(rows[1..], cs);
      assert rows == [rows[0]] + rows[1..];
      var head := if SatisfiesAll(rows[0], cs) then [rows[0]] else [];
      assert Where(rows, cs) == head + Where(rows[1..], cs);
    }
  }

  /** The rows the report query returns for the given parameters. */
  function Join(ms: seq<Member>, mos: seq<Month>, txs: seq<Transaction>,
                month: string, year: string, search: string): seq<JoinedRow>
  {
    Where(FullJoin(ms, mos, txs), WhereClauses(month, year, search))
  }
}
