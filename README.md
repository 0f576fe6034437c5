# KasaPro payment report, in Dafny

KasaPro is the treasury backend of a members' association. Members pay a monthly
fee, either in one go ("income") or in parts ("installments"). The treasurer also
records other income and expenses. Two endpoints turn the ledger into a
per-member, per-month payment report:

- `GET /api/reports` returns JSON records with status `paid`, `installment` or `unpaid`;
- `GET /api/reports/export` returns the same derivation as CSV, with Indonesian labels
  (`Lunas`, `Cicilan (<amount>)`, `Belum Bayar`) and formatted amounts.

This project models:

- the report query: members × months LEFT JOIN transactions, with its WHERE
  clause built from the `month`, `year` and `search` parameters (modules `Query` and `SqlLike`);
- the per-row derivation and the status filter (module `Report`);
- the CSV export (module `Export`), plus a quoted variant (module `CsvQuoting`);
- the handlers that write the ledger: a `Ledger` class whose methods append
  and update the tables (module `Handlers`).

The lemmas relate the report to the ledger (modules `JoinFacts`,
`ReportFacts`, `ExportFacts` and `LedgerFacts`). They show:

- `installmentPaid` is the ledger's installment sum for the member and month, under the year filter;
- the status follows the precedence income, then a positive sum, then unpaid;
- a pair with k matching transactions gives k records that share one id;
- the filters act row by row and keep every matching record as often as it occurs;
- for search text without `%` or `_`, the search is a substring test that ignores the case of ASCII letters only;
- the order in which SQLite returns rows only permutes the report;
- the export agrees field by field with the report.

Modelling choices:

- Query-string parameters are strings, and `""` stands for an absent or empty
  parameter, as JavaScript truthiness treats both alike.
- Nullable columns are `Option`s.
- The query has no ORDER BY. The model fixes one order: members outer, months
  inner, matching transactions in table order. `ReportFacts.ReportsIgnoreRowOrder`
  shows that any other order only permutes the records.
- `Intl.NumberFormat` (`formatCurrency`) is the function parameter `fmt`.
- Ids from `uuidv4()` and the date stamp are parameters. The primary keys
  require the ids to be fresh.
- The foreign key on `transactions.memberId` is enforced (`PRAGMA foreign_keys = ON`).
  An insert naming an unknown member fails and appends nothing. A NULL memberId passes.
- The model follows the code in two places a reader might not expect:
  - The code derives one record per joined row, not one per (member, month) pair.
  - The year filter drops the NULL-padded row of a pair with no transactions,
    since `t.year = ?` is never true of a NULL.

## Model

| member | source | states |
|---|---|---|
| Types.SeededMonthsWellFormed | kasapro-backend/server.js:66-75 | the twelve seeded months have distinct ids and no id contains '-' |
| SqlLike.PercentMatchesAll | kasapro-backend/server.js:340-343 | a lone '%' pattern matches every name |
| SqlLike.LikePrefix | kasapro-backend/server.js:340-343 | a wildcard-free text followed by '%' matches exactly the names it is an ASCII-case-insensitive prefix of |
| SqlLike.LikeLeadingPercent | kasapro-backend/server.js:340-343 | a pattern starting with '%' matches exactly when its rest matches some suffix |
| SqlLike.SearchIsSubstring | kasapro-backend/server.js:340-343 | `name LIKE '%text%'` holds exactly when the wildcard-free text occurs in the name, ignoring ASCII case |
| Query.WhereClauses | kasapro-backend/server.js:332-343 | at most three conditions, and a row satisfies all of them exactly when it passes every given month, year and search parameter (a NULL year or name fails) |
| Query.BuildWhere | kasapro-backend/server.js:330-343 | the conditions appended one at a time are those of WhereClauses, with the same meaning |
| Query.Where | kasapro-backend/server.js:328-343 | the kept rows are exactly the rows that satisfy every condition, no more rows than given |
| Query.WhereMultiplicity | kasapro-backend/server.js:328-343 | the WHERE clause keeps each passing row as many times as it occurs in the join and drops every other row |
| JoinFacts.MatchRowsShape | kasapro-backend/server.js:327 | a pair gets one joined row per matching transaction: the count of matches, each row built from a matching transaction, every matching transaction present |
| JoinFacts.PairRowsShape | kasapro-backend/server.js:323-327 | every pair yields at least one row, carrying that member's id and name and that month's id and name |
| JoinFacts.PairRowOrigin | kasapro-backend/server.js:327 | a row with NULL type is the NULL-padded row of a pair no transaction matches; any other row comes from a matching transaction |
| JoinFacts.FullJoinOrigin | kasapro-backend/server.js:325-327 | every joined row belongs to some member and month of the tables |
| JoinFacts.PairRowsInFullJoin | kasapro-backend/server.js:325-327 | every row of every pair is in the cross join |
| JoinFacts.PairSlice | kasapro-backend/server.js:325-327 | with unique ids, the join's rows for one member and month are exactly that pair's LEFT JOIN rows |
| JoinFacts.OfPairWhere | kasapro-backend/server.js:328-343 | selecting one pair's rows commutes with the WHERE filter |
| Report.MethodOrDash | kasapro-backend/server.js:367 | the method is never empty, and a non-empty recorded method is kept |
| Report.ReportEach | kasapro-backend/server.js:356-369 | one record per row, in order, record k derived from row k |
| Report.KeepStatus | kasapro-backend/server.js:371-372 | keeps exactly the records whose status name equals the parameter, each as many times as it occurs, and drops all others |
| ReportFacts.InstallmentSumPermutation | kasapro-backend/server.js:357-359 | the installment sum of a pair depends only on the multiset of returned rows |
| ReportFacts.InstallmentSumOfPair | kasapro-backend/server.js:357-359 | a pair's installment sum reads only that pair's rows |
| ReportFacts.PairRowsSum | kasapro-backend/server.js:357-359 | the installment sum over a pair's rows that pass the filters equals the ledger's sum for that pair and year |
| ReportFacts.InstallmentPaidIsLedgerSum | kasapro-backend/server.js:357-359 | for every returned row, the sum over the returned rows of its pair equals the ledger's installment amounts (NULL counting 0) for that member, month and year filter |
| ReportFacts.RecordFromLedger | kasapro-backend/server.js:356-368 | each record's id, name and installmentPaid in ledger terms; status paid iff the row is an income, installment iff not income and the sum is positive, unpaid otherwise; amount the fee for income, else the sum |
| ReportFacts.UnmatchedRowIsUnpaid | kasapro-backend/server.js:356-368 | a NULL-padded row gives an unpaid record with amount 0, installmentPaid 0 and method '-' |
| ReportFacts.LoneZeroInstallmentIsUnpaid | kasapro-backend/server.js:364-366 | in any ledger, a pair whose only matching transaction is a 0 or NULL installment gets only unpaid records with amount 0 and installmentPaid 0, and it has such a record when the filters let the pair and the year through |
| ReportFacts.IdInjective | kasapro-backend/server.js:361 | with dash-free month ids, the record id determines the member and month |
| ReportFacts.CountIdIsPairCount | kasapro-backend/server.js:361 | the number of records with a pair's id is the number of that pair's rows |
| ReportFacts.RecordsPerPair | kasapro-backend/server.js:356-369 | unfiltered, a pair with k matching transactions gets max(1, k) records with its id |
| ReportFacts.IncomeAndInstallmentBothReported | kasapro-backend/server.js:364-365 | an income and an installment for one pair give both a paid record whose amount is the fee and an installment record whose amount is the ledger's installment sum |
| ReportFacts.YearFilterKeepsOnlyThatYear | kasapro-backend/server.js:336-339 | with a year given, every returned row carries a transaction of that year |
| ReportFacts.YearFilterDropsPair | kasapro-backend/server.js:336-339 | with a year given, a pair with no transaction of that year returns no row |
| ReportFacts.MonthAndSearchFilters | kasapro-backend/server.js:332-343 | every returned row is of the given month and its member name matches `LIKE '%search%'`; when the search text has no `%` or `_`, that means the name contains the text, ignoring the case of ASCII letters |
| ReportFacts.JoinUnfiltered | kasapro-backend/server.js:328 | with no parameters the WHERE clause keeps every joined row |
| ReportFacts.StatusFilterMeaning | kasapro-backend/server.js:371-376 | no status returns the records unchanged; otherwise an order-preserving subsequence that holds every record with that status name as many times as it occurs, and no other; none for a name other than paid, installment or unpaid |
| ReportFacts.KeepStatusSubsequence | kasapro-backend/server.js:372 | the status filter keeps records in their order |
| ReportFacts.ReportEachPermutation | kasapro-backend/server.js:356-369 | permuting the rows permutes the records |
| ReportFacts.ReportsIgnoreRowOrder | kasapro-backend/server.js:356-369 | two row orders with the same multiset give the same multiset of records |
| Export.ExportEach | kasapro-backend/server.js:418-430 | one export record per row, in order, record k derived from row k |
| Export.KeepLabel | kasapro-backend/server.js:432 | keeps exactly the records whose label contains the text, each as many times as it occurs, and drops all others |
| Export.Decimal | kasapro-backend/server.js:435 | the line number is written as decimal digits that denote exactly that number, with no leading zero |
| Export.CsvLines | kasapro-backend/server.js:445 | one CSV line per kept record |
| ExportFacts.ExportMatchesReport | kasapro-backend/server.js:418-430 | export record k has the id, name, month and method of report record k; its label is the Indonesian label of the report status, and its amount is the formatted report amount |
| ExportFacts.CicilanLabel | kasapro-backend/server.js:426 | only the installment label contains "Cicilan" |
| ExportFacts.LunasLabel | kasapro-backend/server.js:426 | the paid label contains "Lunas" and the unpaid label does not |
| ExportFacts.LabelFilterMeaning | kasapro-backend/server.js:432 | no status keeps everything; otherwise an order-preserving subsequence that holds every record whose label contains the text as many times as it occurs, and no other |
| ExportFacts.CicilanKeepsInstallments | kasapro-backend/server.js:426-432 | filtering by "Cicilan" keeps a record exactly when its report status is installment |
| ExportFacts.LunasKeepsPaid | kasapro-backend/server.js:426-432 | filtering by "Lunas" keeps every paid record and drops every unpaid one |
| ExportFacts.SplitJoin | kasapro-backend/server.js:443-446 | splitting a join at its separator gives the list back when no element contains the separator |
| ExportFacts.CsvLineAt | kasapro-backend/server.js:434-445 | body line k holds number n + k and the fields of record k |
| ExportFacts.HeaderClean | kasapro-backend/server.js:433-444 | the header line is one line whose comma-separated fields are the six headers |
| ExportFacts.CsvLayout | kasapro-backend/server.js:433-446 | when no field holds a comma or line break, the text reads back as the header plus one line per kept record, line k + 1 numbered k + 1 with record k's six fields |
| ExportFacts.AmountCommaAddsColumn | kasapro-backend/server.js:427-445 | an amount holding one comma splits into two columns, giving seven fields under six headers |
| ExportFacts.FormattedFeeBreaksCsv | kasapro-backend/server.js:427-445 | a paid record at the fee 100000, formatted "Rp 100.000,00", with any comma-free name, month and method, is written as seven fields: Jumlah holds "Rp 100.000", the next field "00" and the method is pushed to a seventh column |
| ExportFacts.SplitOneExtra | kasapro-backend/server.js:443-445 | a single separator inside one joined element makes the split return one more part, that element cut in two and the rest unchanged |
| CsvQuoting.ReadEscaped | kasapro-backend/server.js:443-446 | a field with doubled quotes and a closing quote reads back whole |
| CsvQuoting.ReadQuotedLine | kasapro-backend/server.js:443-446 | a line of quoted fields reads back as exactly those fields |
| CsvQuoting.ReadQuotedLines | kasapro-backend/server.js:443-446 | any list of non-empty records written as quoted lines reads back unchanged |
| CsvQuoting.QuotedCsvTable | kasapro-backend/server.js:433-446 | the quoted export reads back as the header followed by the numbered six-field table of the kept records |
| CsvQuoting.QuotedCsvReadsBack | kasapro-backend/server.js:433-446 | the quoted export reads back as the header plus, for every kept record, its number and six fields whole, whatever they contain |
| Handlers.IncomeRows | kasapro-backend/server.js:203-217 | one income row per listed month, the k-th with the k-th id and month and the shared member, year, amount and method |
| Handlers.WithMember | kasapro-backend/server.js:174-176 | the member with the id takes the new fields; no id changes and every other member is unchanged |
| Handlers.Ledger.constructor | kasapro-backend/server.js:20-97 | the tables start empty, the months are the seeded twelve, and the settings are KasaPro, month 6, fee 100000 |
| Handlers.Ledger.AddMember | kasapro-backend/server.js:154-166 | appends the member under its fresh id, answers with it, and keeps the constraints |
| Handlers.Ledger.UpdateMember | kasapro-backend/server.js:172-183 | overwrites the matching member's fields (nothing when none matches) and keeps the constraints |
| Handlers.Ledger.RecordMemberIncome | kasapro-backend/server.js:200-228 | for a member the foreign key accepts, appends one income row per month; otherwise appends nothing; reports failure exactly when an insert failed |
| Handlers.Ledger.RecordOtherIncome | kasapro-backend/server.js:229-233 | appends one income row with no member, month or year |
| Handlers.Ledger.RecordInstallment | kasapro-backend/server.js:248-263 | appends one installment row for year '2025' when the foreign key accepts the member, nothing otherwise |
| Handlers.Ledger.RecordExpense | kasapro-backend/server.js:277-282 | appends one expense row with the request's name as description and no member |
| Handlers.Ledger.UpdateSettings | kasapro-backend/server.js:306-309 | the settings row takes the three new values; nothing else changes |
| Handlers.Ledger.Report | kasapro-backend/server.js:320-379 | the response is the derivation of the query's rows at the current fee; unfiltered, record i has row i's id and the ledger's installment sum for its pair and year |
| Handlers.Ledger.Export | kasapro-backend/server.js:382-453 | the quoted export of the query's rows reads back as the header plus one numbered record per kept row |
| LedgerFacts.UnlinkedTxJoinsNothing | kasapro-backend/server.js:327 | a transaction with no member leaves the joined rows unchanged |
| LedgerFacts.ExpenseLeavesReports | kasapro-backend/server.js:279-282 | recording an expense changes no report or export, whatever the filters |
| LedgerFacts.OtherIncomeLeavesReports | kasapro-backend/server.js:230-233 | recording non-member income changes no report or export, whatever the filters |
| LedgerFacts.IncomeMakesPaid | kasapro-backend/server.js:364-365 | an income for a member and month that the filters let through shows as a paid record of that pair at the fee |
| LedgerFacts.MemberIncomePaysEachMonth | kasapro-backend/server.js:203-217 | after a member's income, each listed month of that member has a paid record at the fee |
| LedgerFacts.LedgerSumAppend | kasapro-backend/server.js:357-359 | an appended row adds exactly its own contribution to a pair's installment sum |
| LedgerFacts.InstallmentCountsFor2025 | kasapro-backend/server.js:262 | a recorded installment adds its amount (NULL adds 0) to its pair's sum under no year filter or '2025', and nothing under any other year |
| LedgerFacts.InstallmentTouchesOnePair | kasapro-backend/server.js:260-261 | an installment leaves every other pair's sum unchanged |

## Left out

- HTTP handling is not modelled: Express routing, CORS, status codes, JSON bodies, static files and the catch-all route. The handlers' error answers become a boolean `ok` where an insert can fail.
- Login, the `authenticate` middleware and the `pengawas` write gate are not modelled. They are authorization, not ledger logic.
- The reads `GET /api/members`, `GET /api/transactions` and `GET /api/settings` are not modelled. They return a table unchanged.
- sqlite3 callbacks and the `Promise.all` fan-out of a member's income inserts are modelled as sequential appends. Every insert in the fan-out shares one memberId, so the foreign key accepts all of them or none.
- Database errors other than the foreign key are not modelled, for example a full disk or a locked file.
- `uuidv4()` and `new Date()` are parameters. The primary keys require the ids to be fresh.
- `Intl.NumberFormat` is the parameter `fmt`. The only concrete output used is the id-ID rendering of 100000, in `ExportFacts.FormattedFeeBreaksCsv`.
- Schema creation and boot-time seeding are represented only by the constructor's starting state. The settings seed inserts a new row on every boot, but every statement reads and writes only row 1, so the model holds that one row.
- The crash when no settings row exists is left out. The fee is always an integer.
- Request values of the wrong JavaScript type are left out. Examples: a non-numeric amount, an array in a query parameter, a missing `months` list.
- SQLite compares values by type affinity. The model compares strings only.
- The real CSV response carries a `Content-Type` header and an attachment file name. These are not modelled.
- Handlers.Ledger.Export: writes the quoted CSV of the finding below, not the unquoted text of the source. The unquoted text is `Export.ExportCsv`, and `ExportFacts.CsvLayout` states its layout.
- ExportFacts.CsvLayout: states the unquoted layout only for records whose fields hold no comma and no line break. With such characters the layout breaks (see Findings).
- ExportFacts.LunasKeepsPaid: does not say whether an installment record passes the "Lunas" filter. That depends on the formatter's output.
- Amounts and sums are unbounded integers. JavaScript adds `r.amount` as IEEE doubles (`kasapro-backend/server.js:356-369`), so a sum beyond 2^53 would round there but is exact in the model.
- SqlLike.SearchIsSubstring: describes only search text free of '%' and '_'. Those characters act as wildcards, and `Query.Where` models them through `SqlLike.Like`.

## Findings

| source | as written | input that shows it | evidently intended | confidence | as-written member | corrected member |
|---|---|---|---|---|---|---|
| kasapro-backend/server.js:427-446 | the amount and the installment label come from `formatCurrency`, which writes id-ID currency with a decimal comma ("Rp 100.000,00"); fields are joined with ',' unquoted | any paid record with the seeded fee 100000 | six columns per line under the six headers, e.g. by quoting fields as RFC 4180 does | high for the comma in id-ID IDR formatting (documented behaviour of Intl), not executed | ExportFacts.FormattedFeeBreaksCsv | CsvQuoting.QuotedCsvReadsBack |
