/**
 * What the handlers' inserts do to the report: an income for a member and
 * month makes that pair's row 'paid' at the current fee, an installment adds
 * its amount to the pair's installmentPaid only for the year '2025' (or no
 * year filter), and a row tied to no member, an expense or an income that
 * is not a member's, changes no report at all.
 */
module LedgerFacts {
  import opened Types
  import opened Query
  import opened JoinFacts
  import opened Report
  import opened ReportFacts
  import opened Handlers

  lemma {:induction false} MatchRowsAppend(m: Member, mo: Month, txs: seq<Transaction>, t: Transaction)
    ensures MatchRows(m, mo, txs + [t])
            == MatchRows(m, mo, txs) + (if Matches(t, m.id, mo.id) then [TxRow(m, mo, t)] else [])
  {
    if txs == [] {
      assert [t][1..] == [];
    } else {
      assert (txs + [t])[0] == txs[0] && (txs + [t])[1..] == txs[1..] + [t];
      MatchRowsAppend(m, mo, txs[1..], t);
    }
  }

  lemma {:induction false} MemberRowsIgnore(m: Member, mos: seq<Month>, txs: seq<Transaction>, t: Transaction)
    requires t.memberId.None?
    ensures MemberRows(m, mos, txs + [t]) == MemberRows(m, mos, txs)
  {
    if mos != [] {
      MatchRowsAppend(m, mos[0], txs, t);
      MemberRowsIgnore(m, mos[1..], txs, t);
    }
  }

  /** A transaction with no memberId joins no pair: the query's rows are those without it, for any filters. */
  lemma {:induction false} UnlinkedTxJoinsNothing(ms: seq<Member>, mos: seq<Month>, txs: seq<Transaction>,
                                                 t: Transaction)
    requires t.memberId.None?
    ensures FullJoin(ms, mos, txs + [t]) == FullJoin(ms, mos, txs)
  {
    if ms != [] {
      MemberRowsIgnore(ms[0], mos, txs, t);
      UnlinkedTxJoinsNothing(ms[1..], mos, txs, t);
    }
  }

  /** An expense leaves every report and export unchanged. */
  lemma ExpenseLeavesReports(ms: seq<Member>, mos: seq<Month>, txs: seq<Transaction>,
                             id: string, name: Option<string>, category: Option<string>, amount: Option<int>,
                             payMethod: Option<string>, date: string,
                             month: string, year: string, search: string)
    ensures var t := ExpenseRow(id, name, category, amount, payMethod, date);
            Join(ms, mos, txs + [t], month, year, search) == Join(ms, mos, txs, month, year, search)
  {
    UnlinkedTxJoinsNothing(ms, mos, txs, ExpenseRow(id, name, category, amount, payMethod, date));
  }

  /** An income that is not a member's leaves every report and export unchanged. */
  lemma OtherIncomeLeavesReports(ms: seq<Member>, mos: seq<Month>, txs: seq<Transaction>,
                                 id: string, description: Option<string>, amount: Option<int>,
                                 payMethod: Option<string>, date: string,
                                 month: string, year: string, search: string)
    ensures var t := OtherIncomeRow(id, description, amount, payMethod, date);
            Join(ms, mos, txs + [t], month, year, search) == Join(ms, mos, txs, month, year, search)
  {
    UnlinkedTxJoinsNothing(ms, mos, txs, OtherIncomeRow(id, description, amount, payMethod, date));
  }

  /**
   * An income row of the ledger for member i and month j appears in the
   * report whenever the filters let the pair and the row's year through,
   * as a 'paid' record at the fee passed in.
   */
  lemma IncomeMakesPaid(ms: seq<Member>, mos: seq<Month>, txs: seq<Transaction>, t: Transaction,
                        i: nat, j: nat, month: string, year: string, search: string, fee: int)
    requires i < |ms| && j < |mos|
    requires t in txs && t.kind == Income && Matches(t, ms[i].id, mos[j].id)
    requires PairPasses(ms[i], mos[j], month, search) && YearOk(t, year)
    ensures var rows := Join(ms, mos, txs, month, year, search);
            exists k :: 0 <= k < |rows|
              && rows[k] == TxRow(ms[i], mos[j], t)
              && Reports(rows, fee)[k].id == IdOf(ms[i].id, mos[j].id)
              && Reports(rows, fee)[k].status == Paid
              && Reports(rows, fee)[k].amount == fee
  {
    var r := TxRow(ms[i], mos[j], t);
    MatchRowsShape(ms[i], mos[j], txs);
    assert r in PairRows(ms[i], mos[j], txs);
    PairRowsInFullJoin(ms, mos, txs, i, j);
    assert RowPasses(r, month, year, search);
    var rows := Join(ms, mos, txs, month, year, search);
    assert r in rows;
    var k :| 0 <= k < |rows| && rows[k] == r;
  }

  /** The ledger's installment sum grows by exactly what an appended row contributes. */
  lemma {:induction false} LedgerSumAppend(txs: seq<Transaction>, t: Transaction, a: string, b: string, year: string)
    ensures LedgerInstallmentSum(txs + [t], a, b, year)
            == LedgerInstallmentSum(txs, a, b, year)
               + (if Matches(t, a, b) && t.kind == TxKind.Installment && YearOk(t, year)
                  then AmountOrZero(t.amount) else 0)
  {
    if txs == [] {
      assert [t][1..] == [];
    } else {
      assert (txs + [t])[0] == txs[0] && (txs + [t])[1..] == txs[1..] + [t];
      LedgerSumAppend(txs[1..], t, a, b, year);
    }
  }

  /**
   * A recorded installment for member a and month b adds its amount (a
   * NULL amount adding 0) to the pair's installmentPaid when the report asks
   * for no year or for '2025', and nothing under any other year.
   */
  lemma InstallmentCountsFor2025(txs: seq<Transaction>, id: string, a: string, b: string, amount: Option<int>,
                                 payMethod: Option<string>, description: Option<string>, date: string, year: string)
    ensures var t := InstallmentRow(id, Some(a), Some(b), amount, payMethod, description, date);
            LedgerInstallmentSum(txs + [t], a, b, year)
            == LedgerInstallmentSum(txs, a, b, year) + (if year in {"", "2025"} then AmountOrZero(amount) else 0)
  {
    LedgerSumAppend(txs, InstallmentRow(id, Some(a), Some(b), amount, payMethod, description, date), a, b, year);
  }

  /** An installment for one pair leaves every other pair's installment sum as it was. */
  lemma InstallmentTouchesOnePair(txs: seq<Transaction>, id: string, a: string, b: string, a': string, b': string,
                                  amount: Option<int>, payMethod: Option<string>, description: Option<string>,
                                  date: string, year: string)
    requires a != a' || b != b'
    ensures var t := InstallmentRow(id, Some(a), Some(b), amount, payMethod, description, date);
            LedgerInstallmentSum(txs + [t], a', b', year) == LedgerInstallmentSum(txs, a', b', year)
  {
    LedgerSumAppend(txs, InstallmentRow(id, Some(a), Some(b), amount, payMethod, description, date), a', b', year);
  }

  /** Every row a member's income inserts makes its month 'paid' in the unfiltered report. */
  lemma MemberIncomePaysEachMonth(ms: seq<Member>, mos: seq<Month>, txs: seq<Transaction>,
                                  ids: seq<string>, i: nat, monthIds: seq<string>, j: nat, k: nat,
                                  year: Option<string>, amount: Option<int>, payMethod: Option<string>,
                                  description: Option<string>, date: string, fee: int)
    requires i < |ms| && j < |mos| && k < |monthIds| && |ids| == |monthIds|
    requires monthIds[k] == mos[j].id
    ensures var rows := Join(ms, mos, txs + IncomeRows(ids, Some(ms[i].id), monthIds, year, amount, payMethod,
                                                       description, date), "", "", "");
            exists p :: 0 <= p < |rows|
              && Reports(rows, fee)[p].id == IdOf(ms[i].id, mos[j].id)
              && Reports(rows, fee)[p].status == Paid
              && Reports(rows, fee)[p].amount == fee
  {
    var added := IncomeRows(ids, Some(ms[i].id), monthIds, year, amount, payMethod, description, date);
    var t := added[k];
    assert t in txs + added by {
      assert (txs + added)[|txs| + k] == t;
    }
    IncomeMakesPaid(ms, mos, txs + added, t, i, j, "", "", "", fee);
  }
}
