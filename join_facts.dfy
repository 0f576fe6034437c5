/**
 * What the LEFT JOIN produces, pair by pair: the rows of one (member, month)
 * pair are one per matching transaction, or a single NULL-padded row, and
 * with unique member and month ids they form one block of the join.
 */
module JoinFacts {
  import opened Types
  import opened Query

  /** The rows of `rows` that belong to the pair (a, b), in order. */
  function OfPair(rows: seq<JoinedRow>, a: string, b: string): seq<JoinedRow> {
    if rows == [] then []
    else (if rows[0].memberId == a && rows[0].monthId == b then [rows[0]] else [])
         + OfPair(rows[1..], a, b)
  }

  /** The number of transactions the ON condition pairs with (a, b). */
  function CountMatches(txs: seq<Transaction>, a: string, b: string): nat {
    if txs == [] then 0
    else (if Matches(txs[0], a, b) then 1 else 0) + CountMatches(txs[1..], a, b)
  }

  /** `r` is one of the rows the join gives some (member, month) pair of the tables. */
  ghost predicate RowOrigin(r: JoinedRow, ms: seq<Member>, mos: seq<Month>, txs: seq<Transaction>) {
    exists i, j :: 0 <= i < |ms| && 0 <= j < |mos| && r in PairRows(ms[i], mos[j], txs)
  }

  lemma {:induction false} WhereAppend(x: seq<JoinedRow>, y: seq<JoinedRow>, cs: seq<Cond>)
    ensures Where(x + y, cs) == Where(x, cs) + Where(y, cs)
  {
    if x != [] {
      assert (x + y)[0] == x[0] && (x + y)[1..] == x[1..] + y;
      WhereAppend(x[1..], y, cs);
    } else {
      assert x + y == y;
    }
  }

  lemma {:induction false} OfPairAppend(x: seq<JoinedRow>, y: seq<JoinedRow>, a: string, b: string)
    ensures OfPair(x + y, a, b) == OfPair(x, a, b) + OfPair(y, a, b)
  {
    if x != [] {
      assert (x + y)[0] == x[0] && (x + y)[1..] == x[1..] + y;
      OfPairAppend(x[1..], y, a, b);
    } else {
      assert x + y == y;
    }
  }

  /** Picking one pair and applying the WHERE clause commute. */
  lemma {:induction false} OfPairWhere(rows: seq<JoinedRow>, cs: seq<Cond>, a: string, b: string)
    ensures OfPair(Where(rows, cs), a, b) == Where(OfPair(rows, a, b), cs)
  {
    if rows != [] {
      OfPairWhere(rows[1..], cs, a, b);
      var h := [rows[0]];
      var w := if SatisfiesAll(rows[0], cs) then h else [];
      OfPairAppend(w, Where(rows[1..], cs), a, b);
      var o := if rows[0].memberId == a && rows[0].monthId == b then h else [];
      WhereAppend(o, OfPair(rows[1..], a, b), cs);
      assert h[1..] == [];
    }
  }

  lemma {:induction false} OfPairKeepsAll(rows: seq<JoinedRow>, a: string, b: string)
    requires forall r :: r in rows ==> r.memberId == a && r.monthId == b
    ensures OfPair(rows, a, b) == rows
  {
    if rows != [] {
      assert rows[0] in rows;
      OfPairKeepsAll(rows[1..], a, b);
    }
  }

  lemma {:induction false} OfPairDropsAll(rows: seq<JoinedRow>, a: string, b: string)
    requires forall r :: r in rows ==> r.memberId != a || r.monthId != b
    ensures OfPair(rows, a, b) == []
  {
    if rows != [] {
      assert rows[0] in rows;
      OfPairDropsAll(rows[1..], a, b);
    }
  }

  /** The rows of MatchRows are exactly the matching transactions, joined, and there are as many. */
  lemma {:induction false} MatchRowsShape(m: Member, mo: Month, txs: seq<Transaction>)
    ensures |MatchRows(m, mo, txs)| == CountMatches(txs, m.id, mo.id)
    ensures forall r :: r in MatchRows(m, mo, txs) ==>
              exists t :: t in txs && Matches(t, m.id, mo.id) && r == TxRow(m, mo, t)
    ensures forall t :: t in txs && Matches(t, m.id, mo.id) ==> TxRow(m, mo, t) in MatchRows(m, mo, txs)
  {
    if txs != [] {
      MatchRowsShape(m, mo, txs[1..]);
      var head := if Matches(txs[0], m.id, mo.id) then [TxRow(m, mo, txs[0])] else [];
      assert MatchRows(m, mo, txs) == head + MatchRows(m, mo, txs[1..]);
      forall t | t in txs && Matches(t, m.id, mo.id)
        ensures TxRow(m, mo, t) in MatchRows(m, mo, txs)
      {
        if t != txs[0] {
          assert t in txs[1..];
        }
      }
    }
  }

  /** Every row of a pair's block carries the pair's member and month columns. */
  lemma PairRowsShape(m: Member, mo: Month, txs: seq<Transaction>)
    ensures |PairRows(m, mo, txs)| >= 1
    ensures forall r :: r in PairRows(m, mo, txs) ==>
              r.memberId == m.id && r.memberName == m.name && r.monthId == mo.id && r.monthName == mo.name
  {
    MatchRowsShape(m, mo, txs);
  }

  /**
   * A joined row has NULL transaction columns exactly when no transaction
   * matches its pair; otherwise its columns are those of a matching one.
   */
  lemma PairRowOrigin(m: Member, mo: Month, txs: seq<Transaction>, r: JoinedRow)
    requires r in PairRows(m, mo, txs)
    ensures r.txType.None? ==> r == NullRow(m, mo) && forall t :: t in txs ==> !Matches(t, m.id, mo.id)
    ensures r.txType.Some? ==> exists t :: t in txs && Matches(t, m.id, mo.id) && r == TxRow(m, mo, t)
  {
    MatchRowsShape(m, mo, txs);
  }

  lemma {:induction false} MemberRowsShape(m: Member, mos: seq<Month>, txs: seq<Transaction>)
    ensures forall r :: r in MemberRows(m, mos, txs) ==>
              r.memberId == m.id && exists j :: 0 <= j < |mos| && r in PairRows(m, mos[j], txs)
  {
    if mos != [] {
      MemberRowsShape(m, mos[1..], txs);
      PairRowsShape(m, mos[0], txs);
      forall r | r in MemberRows(m, mos, txs)
        ensures r.memberId == m.id && exists j :: 0 <= j < |mos| && r in PairRows(m, mos[j], txs)
      {
        if r !in PairRows(m, mos[0], txs) {
          assert r in MemberRows(m, mos[1..], txs);
          var j :| 0 <= j < |mos[1..]| && r in PairRows(m, mos[1..][j], txs);
          assert mos[1..][j] == mos[j + 1];
        }
      }
    }
  }

  /** Every row of the join belongs to a pair of the members and months tables. */
  lemma {:induction false} FullJoinOrigin(ms: seq<Member>, mos: seq<Month>, txs: seq<Transaction>)
    ensures forall r :: r in FullJoin(ms, mos, txs) ==> RowOrigin(r, ms, mos, txs)
  {
    if ms != [] {
      FullJoinOrigin(ms[1..], mos, txs);
      MemberRowsShape(ms[0], mos, txs);
      forall r | r in FullJoin(ms, mos, txs)
        ensures RowOrigin(r, ms, mos, txs)
      {
        if r in MemberRows(ms[0], mos, txs) {
          var j :| 0 <= j < |mos| && r in PairRows(ms[0], mos[j], txs);
        } else {
          assert RowOrigin(r, ms[1..], mos, txs);
          var i, j :| 0 <= i < |ms[1..]| && 0 <= j < |mos| && r in PairRows(ms[1..][i], mos[j], txs);
          assert ms[1..][i] == ms[i + 1];
        }
      }
    }
  }

  /** Every pair's block is part of the join. */
  lemma {:induction false} PairRowsInFullJoin(ms: seq<Member>, mos: seq<Month>, txs: seq<Transaction>, i: nat, j: nat)
    requires i < |ms| && j < |mos|
    ensures forall r :: r in PairRows(ms[i], mos[j], txs) ==> r in FullJoin(ms, mos, txs)
  {
    if i == 0 {
      MemberRowsHasPair(ms[0], mos, txs, j);
    } else {
      PairRowsInFullJoin(ms[1..], mos, txs, i - 1, j);
      assert ms[1..][i - 1] == ms[i];
    }
  }

  lemma {:induction false} MemberRowsHasPair(m: Member, mos: seq<Month>, txs: seq<Transaction>, j: nat)
    requires j < |mos|
    ensures forall r :: r in PairRows(m, mos[j], txs) ==> r in MemberRows(m, mos, txs)
  {
    if j > 0 {
      MemberRowsHasPair(m, mos[1..], txs, j - 1);
      assert mos[1..][j - 1] == mos[j];
    }
  }

  /** With a unique month id b, one member's rows for month b are that month's block. */
  lemma {:induction false} MemberRowsSlice(m: Member, mos: seq<Month>, txs: seq<Transaction>, j: nat)
    requires UniqueMonthIds(mos) && j < |mos|
    ensures OfPair(MemberRows(m, mos, txs), m.id, mos[j].id) == PairRows(m, mos[j], txs)
  {
    var b := mos[j].id;
    PairRowsShape(m, mos[0], txs);
    OfPairAppend(PairRows(m, mos[0], txs), MemberRows(m, mos[1..], txs), m.id, b);
    if j == 0 {
      OfPairKeepsAll(PairRows(m, mos[0], txs), m.id, b);
      MemberRowsShape(m, mos[1..], txs);
      forall r | r in MemberRows(m, mos[1..], txs)
        ensures r.memberId != m.id || r.monthId != b
      {
        var k :| 0 <= k < |mos[1..]| && r in PairRows(m, mos[1..][k], txs);
        PairRowsShape(m, mos[1..][k], txs);
        assert mos[1..][k] == mos[k + 1];
      }
      OfPairDropsAll(MemberRows(m, mos[1..], txs), m.id, b);
    } else {
      OfPairDropsAll(PairRows(m, mos[0], txs), m.id, b);
      MemberRowsSlice(m, mos[1..], txs, j - 1);
      assert mos[1..][j - 1] == mos[j];
      assert UniqueMonthIds(mos[1..]) by {
        forall p, q | 0 <= p < q < |mos[1..]|
          ensures mos[1..][p].id != mos[1..][q].id
        {
          assert mos[1..][p] == mos[p + 1] && mos[1..][q] == mos[q + 1];
        }
      }
    }
  }

  lemma UniqueMembersTail(ms: seq<Member>)
    requires UniqueMemberIds(ms) && ms != []
    ensures UniqueMemberIds(ms[1..])
    ensures forall p :: 0 <= p < |ms[1..]| ==> ms[1..][p].id != ms[0].id
  {
    forall p, q | 0 <= p < q < |ms[1..]|
      ensures ms[1..][p].id != ms[1..][q].id
    {
      assert ms[1..][p] == ms[p + 1] && ms[1..][q] == ms[q + 1];
    }
    forall p | 0 <= p < |ms[1..]|
      ensures ms[1..][p].id != ms[0].id
    {
      assert ms[1..][p] == ms[p + 1];
    }
  }

  /** Members other than `a` contribute no row of member `a`. */
  lemma FullJoinOthers(ms: seq<Member>, mos: seq<Month>, txs: seq<Transaction>, a: string, b: string)
    requires forall p :: 0 <= p < |ms| ==> ms[p].id != a
    ensures OfPair(FullJoin(ms, mos, txs), a, b) == []
  {
    FullJoinOrigin(ms, mos, txs);
    forall r | r in FullJoin(ms, mos, txs)
      ensures r.memberId != a || r.monthId != b
    {
      var p, q :| 0 <= p < |ms| && 0 <= q < |mos| && r in PairRows(ms[p], mos[q], txs);
      PairRowsShape(ms[p], mos[q], txs);
    }
    OfPairDropsAll(FullJoin(ms, mos, txs), a, b);
  }

  /**
   * With unique member and month ids, the rows of the join that belong to a
   * pair of the tables are exactly that pair's block.
   */
  lemma {:induction false} PairSlice(ms: seq<Member>, mos: seq<Month>, txs: seq<Transaction>, i: nat, j: nat)
    requires UniqueMemberIds(ms) && UniqueMonthIds(mos)
    requires i < |ms| && j < |mos|
    decreases i, 1
    ensures OfPair(FullJoin(ms, mos, txs), ms[i].id, mos[j].id) == PairRows(ms[i], mos[j], txs)
  {
    var a, b := ms[i].id, mos[j].id;
    var head, tail := MemberRows(ms[0], mos, txs), FullJoin(ms[1..], mos, txs);
    assert FullJoin(ms, mos, txs) == head + tail;
    OfPairAppend(head, tail, a, b);
    UniqueMembersTail(ms);
    if i == 0 {
      MemberRowsSlice(ms[0], mos, txs, j);
      FullJoinOthers(ms[1..], mos, txs, a, b);
    } else {
      OtherMemberRows(ms[0], mos, txs, a, b);
      PairSliceTail(ms, mos, txs, i, j);
    }
  }

  lemma {:induction false} PairSliceTail(ms: seq<Member>, mos: seq<Month>, txs: seq<Transaction>, i: nat, j: nat)
    requires 0 < i < |ms| && j < |mos|
    requires UniqueMemberIds(ms[1..]) && UniqueMonthIds(mos)
    decreases i, 0
    ensures OfPair(FullJoin(ms[1..], mos, txs), ms[i].id, mos[j].id) == PairRows(ms[i], mos[j], txs)
  {
    assert ms[1..][i - 1] == ms[i];
    PairSlice(ms[1..], mos, txs, i - 1, j);
  }

  /** A member's rows hold no row of another member. */
  lemma OtherMemberRows(m: Member, mos: seq<Month>, txs: seq<Transaction>, a: string, b: string)
    requires m.id != a
    ensures OfPair(MemberRows(m, mos, txs), a, b) == []
  {
    MemberRowsShape(m, mos, txs);
    OfPairDropsAll(MemberRows(m, mos, txs), a, b);
  }
}
