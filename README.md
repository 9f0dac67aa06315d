# Ledger dashboard: a Dafny model of its data core

The dashboard reads a workbook with a debt sheet (one row per debt: STT,
Họ tên, Nội dung, Phải trả, Đã trả, Còn lại, Bonus, Thuế (%), Tiền Thuế,
Ngày bắt đầu, Hạn trả, Trạng thái) and a deposit sheet (a timestamp column
and one column per depositor). It normalises both, filters the debt table
by name and status, and shows three totals, the share collected, and the
ten names with the most still owed.

The model covers the four parts of that core:

- **Loader** (`load_data`).
  - `Loader.LoadLedger` is a method built from loops. `NormaliseDebts` keeps and normalises the numbered debt rows. `MeltDeposits` drops the total row with `DropTotals`, then reshapes the deposit sheet column by column with `CollectColumn`.
  - Each method is proved equal to a specification function (`LedgerOf`, `DebtsOf`, `DepositsOf`, `MeltColumn`).
  - The properties are lemmas about those functions, in `LedgerFacts`.
  - The load is all-or-nothing: it returns `Absent` or `Loaded(debts, deposits)`.
- **Formatters** (`format_vnd`, `format_percent`).
  - `Format` covers rounding (ties to even, as Python's `format` does), thousands grouping with '.', the " VNĐ" suffix and the sign.
  - A round trip reads each formatted text back.
- **Table filter**.
  - `View` has the case-insensitive name search, the status selection and the status options.
  - The status options are the distinct status values, each printed as text, other than those printing "nan"; all options start out selected.
- **Dashboard**.
  - `Dashboard` has the three column sums and the guarded collected share.
  - `Ranking` groups the charted names, sums their remaining amounts, sorts from largest to smallest and keeps ten.

Shared modules:

- `Seqs`: boolean-mask selection, `apply`, `unique()`, `sum()` and column stacking, stated on sequences.
- `Strings`: `strip`, `upper`/`lower`, `in`, decimal digits and the text-to-number parse.
- `Sheets`: cells, sheets, the workbook, and `to_numeric(..., errors='coerce')`.
- `Wrappers`: `Option`.
- `Scenarios`: a worked one-row ledger and a grouped amount.

Amounts are exact `real`s.

The pandas conversions the model does not interpret are passed in as a `Sheets.Conversions` value:

- `to_datetime` for dates and for timestamps;
- `str()` of a numeric cell.

When a value does not parse, the conversion returns `None` (NaT).

Behaviour of `app.py` worth noting, all of it modelled:

- **Debt sheet fallback.** When no sheet name contains "NỢ", the first sheet of the workbook is read as the debt sheet.
- **Debt sheet width.** The debt columns are selected by position, 0-10 and 12, so the debt sheet needs 13 columns; with fewer, the load is `Absent`.
- **Progress guard.** Progress is computed only when the amount due is greater than 0; otherwise it is 0.
- **Collected-share guard.** When the total amount due is 0 or less, the collected-share delta shows "0%".
- **STT filter.** A row is kept when its STT cell is any number, zero, negative and fractional numbers included.
- **Status options.** A status is offered unless it prints as "nan" in some letter case; blank status cells print as "nan".
- **Unparseable timestamps.** A deposit row whose timestamp does not parse still yields its records, with a missing timestamp.
- **Empty deposit sheet.** A deposit sheet with no column at all makes the whole load `Absent`, because selecting its first column raises inside the `try`.
- **A second "Thời gian" column.** When a depositor column is also named "Thời gian", the renamed first column makes `df['Thời gian']` select two columns, converting them to timestamps raises, and the whole load is `Absent`.
- **A depositor column named "Số tiền".** `melt` names its value column "Số tiền" and raises when the frame already has a column of that name, so such a deposit sheet makes the whole load `Absent`. A first column of that name is renamed to "Thời gian" before `melt` and does not clash.

## Model

| member | source | states |
|---|---|---|
| Loader.LoadLedger | app.py:76-124 | the loaded ledger is exactly `LedgerOf`: Absent for a missing file, an empty workbook, a debt sheet narrower than 13 columns, or a deposit sheet with no column, with a depositor column also named "Thời gian" or with a depositor column named "Số tiền"; otherwise both frames |
| Loader.NormaliseDebts | app.py:93-108 | the loops build exactly the numbered rows of the debt sheet, normalised, in sheet order |
| Loader.KeepNumbered | app.py:93 | the loop keeps exactly the rows whose STT cell parses as a number, in order |
| Loader.MeltDeposits | app.py:113-121 | the loop builds exactly the long-format deposits: total row dropped, column 1 to the last, one record per data row with a positive amount, column after column |
| Loader.DropTotals | app.py:115 | the loop keeps exactly the rows whose first cell is not "Tổng:", in order |
| Loader.CollectColumn | app.py:118-120 | the loop keeps exactly one record per data row whose coerced amount in column j is positive, in row order |
| Loader.FirstSheetWith | app.py:83 | the position found is the first sheet whose upper-cased name contains the marker; None exactly when no sheet name does |
| Loader.DebtSheet | app.py:83 | the debt sheet is the first sheet whose upper-cased name contains "NỢ"; when no sheet name does, it is the first sheet of the workbook |
| Loader.Progress | app.py:104 | progress times due is paid times 100 when due > 0; progress is 0 when due <= 0 |
| LedgerFacts.NarrowDebtSheetIsAbsent | app.py:86-91 | a debt sheet with fewer than 13 columns makes the whole load Absent |
| LedgerFacts.AbsentExactly | app.py:78-124 | the load is Absent if and only if the file is missing, there is no sheet, the debt sheet is narrower than 13 columns, or the deposit sheet has no column, a depositor column also named "Thời gian" or a depositor column named "Số tiền" |
| LedgerFacts.TimeClashIsAbsent | app.py:116-117 | a deposit sheet with a depositor column named "Thời gian" (the first column not being so named) makes the whole load Absent |
| LedgerFacts.AmountClashIsAbsent | app.py:118 | a deposit sheet with a depositor column named "Số tiền", the value name of `melt` (the first column not being so named), makes the whole load Absent |
| LedgerFacts.NoDepositSheetNoDeposits | app.py:111-113 | without a sheet whose name contains "NẠP" a successful load has no deposit records |
| LedgerFacts.DebtRowsKept | app.py:93 | the debt frame has one record per row whose STT cell parses as a number, in increasing row order, each the normalisation of its row; a row is kept if and only if its STT parses |
| LedgerFacts.NormaliseSpec | app.py:95-104 | the name is the cell's text stripped, and stripping it again changes nothing; each money field and the tax rate is the cell's number or 0; the progress is paid/due in percent when due > 0, else 0 |
| LedgerFacts.LoadedDebtsWellFormed | app.py:93-96 | every loaded debt has a numeric STT and a name with no surrounding whitespace |
| LedgerFacts.ProgressNotClamped | app.py:104 | paying more than is due gives progress above 100 |
| LedgerFacts.ProgressBounded | app.py:104 | paying between nothing and the amount due gives progress between 0 and 100 |
| LedgerFacts.ProgressExamples | app.py:104 | progress(0, x) = 0, progress(100, 50) = 50, progress(100, 150) = 150 |
| LedgerFacts.MeltColumnMembers | app.py:118-120 | a record is in column j's output if and only if some data row has a positive coerced amount in column j and the record is that row's (timestamp, header name, amount) |
| LedgerFacts.DepositMembers | app.py:115-121 | a record is in the deposit frame if and only if it comes from a row that is not the total row and a column 1 <= j < width whose coerced amount is positive |
| LedgerFacts.DepositsPositive | app.py:119-120 | every deposit record's amount is greater than 0 |
| LedgerFacts.DepositCount | app.py:118 | there are at most rows × (columns − 1) deposit records |
| LedgerFacts.ColumnBeyond | app.py:118 | a column that no data row reaches yields no record |
| LedgerFacts.TotalRowIgnored | app.py:115 | inserting a "Tổng:" row anywhere, of any length, leaves the deposit records unchanged |
| Sheets.CoerceSpec | app.py:99-101 | coercion keeps a number, turns a blank cell into 0 and turns text with a character that cannot belong to a number into 0 |
| Strings.StripSpec | app.py:96 | the stripped text is what remains after removing a whitespace prefix and suffix, and it neither starts nor ends with whitespace |
| Strings.StripIdempotent | app.py:96 | stripping twice equals stripping once |
| Strings.ContainsSpec | app.py:83 | substring containment holds exactly when the needle occurs at some position |
| Strings.ParsedTextIsNumeral | app.py:93 | text that parses as a number consists only of digits, '.', '+' and '-' |
| Strings.DigitsRoundTrip | app.py:72 | reading back the decimal digits of n gives n |
| Format.RoundHalfEven | app.py:68 | the integer is within 0.5 of the value, is even on a tie, and keeps the value's sign |
| Format.FormatVnd | app.py:66-68 | the text is "-" if and only if the value is missing or 0 |
| Format.GroupedValue | app.py:68 | the grouped digits with their separators removed are a digit string whose value is the number |
| Format.GroupedShape | app.py:68 | counting from the right, every fourth character of the grouped number is '.', every other one a digit, and there is no leading zero |
| Format.FormatVndRoundTrip | app.py:66-68 | for a non-zero value the text ends in " VNĐ"; with it and the '.' separators removed, the text parses back to the value rounded half to even, and the text starts with '-' if and only if the value is negative, also when it rounds to 0 ("-0 VNĐ") |
| Format.FormatPercent | app.py:70-72 | a missing value gives "0%"; every result ends with '%' |
| Format.FormatPercentRoundTrip | app.py:72 | without its '%', the text parses back to 100 × value rounded half to even |
| Seqs.Dedup | app.py:152 | `unique()` makes each element appear once, leaves out nothing that occurs and adds nothing that does not |
| View.ShownSpec | app.py:155-157 | the rows shown are exactly the selection of the debts by the one test "name matches when a search is typed, and status selected when a selection is made", every copy of a matching row in its place; so a row is shown if and only if it is a debt, its lower-cased name contains the lower-cased search when a search is typed, and its printed status is selected when a selection is made; the shown rows are a subsequence of the debts in order |
| View.StatusOptionsSpec | app.py:152 | a status is offered if and only if some debt prints it and it is not "nan" in any case |
| View.DefaultView | app.py:152-157 | with every offered status selected, the status filter hides exactly the rows whose status prints as "nan", and hides nothing when no status is offered |
| Dashboard.CollectedShare | app.py:200 | the share is missing if and only if due <= 0; otherwise share × due = paid |
| Dashboard.TotalsAppend | app.py:195-197 | each of the three sums is additive over a split of the frame |
| Dashboard.TotalsSnoc | app.py:195-197 | one more row adds exactly its own due, paid and remaining amounts |
| Dashboard.CollectedBounded | app.py:195-200 | when no debt is negative or overpaid and something is due, the collected share lies between 0 and 1 |
| Dashboard.MetricsSpec | app.py:195-201 | each total shows "-" if and only if it is 0; the delta is "0%" when due <= 0 and otherwise reads back as paid/due × 100 rounded half to even |
| Ranking.SortDesc | app.py:210 | the sorted entries are a permutation of the groups and are non-increasing in their sums |
| Ranking.SortDistinct | app.py:210 | sorting keeps names distinct |
| Ranking.GroupsDistinct | app.py:210 | the groups have distinct names |
| Ranking.GroupEntry | app.py:207-210 | every group is a name some charted debt has, with the sum of the remaining amounts of that name's charted rows |
| Ranking.GroupOfDebt | app.py:207-210 | every charted debt's name has its group with its sum |
| Ranking.TopEntry | app.py:210 | every entry of the top ten is a group |
| Ranking.TopComplete | app.py:210 | a group is in the top ten, or ten entries are shown and its sum is no larger than the tenth |
| Ranking.TopSorted | app.py:210 | the top ten has at most 10 entries, is non-increasing, and keeps distinct names distinct |
| Ranking.TopDebtorsSpec | app.py:207-210 | at most 10 entries, non-increasing, distinct names, each a name neither blank nor "nan" found in the debts with the sum of that name's remaining amounts; a charted name is missing only when ten are shown and its sum is no larger than the tenth |
| Ranking.NameTotalSnoc | app.py:210 | a further row adds its remaining amount to its own name's sum and to no other |
| Ranking.GroupsPartition | app.py:207-210 | the group sums add up to the remaining amount of all charted debts, so every charted row is counted exactly once |
| Scenarios.AnnaSheets | app.py:83 | in the workbook ["Sổ Nợ", "Nạp tiền"] the first sheet is the debt sheet and the second the deposit sheet |
| Scenarios.FallbackDebtSheet | app.py:83 | in the workbook ["Khach hang", "Nạp tiền"] no name has "NỢ", so the first sheet is the debt sheet; the second is still the deposit sheet |
| Scenarios.AnnaDebts | app.py:93-104 | the one numbered row " Anna " with 1000000 due and 250000 paid gives one debt "Anna" at progress 25 |
| Scenarios.AnnaDeposits | app.py:111-121 | the row (2024-01-01, 500) under [Thời gian, Anna] gives exactly one record: that timestamp, "Anna", 500 |
| Scenarios.AnnaLedger | app.py:76-124 | the two-sheet workbook loads to one debt "Anna" at progress 25 and one deposit of 500 by "Anna" |
| Scenarios.ClashingDepositSheet | app.py:116-117 | the header [Ngày, Thời gian] clashes with the renamed first column |
| Scenarios.AmountHeaderIsAbsent | app.py:118 | a deposit log [Thời gian, Số tiền] beside a valid debt sheet has the "Số tiền" clash, and the whole load is Absent |
| Scenarios.GroupedMillion | app.py:66-68 | 1234567 is shown as "1.234.567 VNĐ" |

## Left out

- Streamlit elements are left out as presentation: the page, the popup, session state, tabs, metric widgets, the table's column configuration and the Plotly chart. The table's display formatting of each cell is left out too, but the formatters it applies are modelled.
- `@st.cache_data` memoisation and the refresh button's cache clearing are left out. They are framework state, and the model is the function that is cached.
- File access, `pd.ExcelFile` and `pd.read_excel` are left out. The model takes the parsed workbook as input, with `None` for a missing file.
  - The input is the rows as the reader yields them: the NA spellings read_excel recognises ("", "NA", "N/A", "null", "nan", ...) are already blank cells, and a sheet's width is the widest of its header and data rows, a row shorter than that reading as blank cells.
  - Duplicate header names, which pandas renames ("Anna.1"), are not modelled.
- `pd.to_datetime` and `str()` of a float are left out because their behaviour belongs to pandas. They are parameters (`Sheets.Conversions`), so dates and timestamps are opaque.
- Strings.ParseDecimal models `to_numeric` on text only for an optional sign, digits and at most one '.'. The following are not modelled: exponents, "inf"/"nan" spellings, surrounding whitespace, and numeric cells that Excel yields as booleans or dates.
- Strings.UpperChar and Strings.LowerChar map ASCII, Latin-1 and Vietnamese letters only, with 'µ' upper-cased to Greek 'Μ' and 'ÿ' to 'Ÿ' as Python does. Python's full Unicode case mapping, including mappings that change a string's length (such as 'ß'), is not modelled.
- View.NameMatches uses literal substring search. pandas `str.contains` treats the search text as a regular expression, so searches with regex metacharacters are not modelled. The default `na=False` does not arise, because names are always text after `astype(str)`.
- Format.FormatVnd and Format.FormatPercent compute on exact reals. The following are not modelled: binary floating-point effects on rounding, and infinities (where `format` would print "inf" or raise).
- Dashboard.MetricsOf shows the delta through FormatPercent of paid/due. The source writes `f"{paid/due*100:.0f}%"`, which is the same text on exact reals.
- Ranking.SortDesc is a stable insertion sort. Lemmas state only what holds for any order, because pandas' `sort_values` default does not fix the order of equal sums.
- Loader.NormaliseDebts first keeps the numbered rows, as pandas does, then normalises them row by row where pandas works column by column. The resulting frame is the same and the intermediate frames are not modelled.
- Loader.Normalise keeps the STT, Nội dung and Trạng thái cells as read, as the source does.
- Loader.TimeClash and Loader.AmountClash look only at text header cells: pandas keeps a numeric header as a number, which never equals a column name of text, and names a blank header "Unnamed: j".
- Loader.TimeClash treats a depositor column named "Thời gian" as a clash only when the first column is not so named; when it is, pandas renames the second one to "Thời gian.1", the duplicate-header case left out above.
- Loader.AmountClash follows pandas 2, whose `melt` raises on a value name that is already a column; pandas 1 only warned and melted the frame, which this model does not cover.
