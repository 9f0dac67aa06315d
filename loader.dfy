/**
 * The ledger loader (`load_data`): it picks the debt and deposit sheets of a
 * parsed workbook, normalises the debt rows and reshapes the deposit sheet
 * from one column per depositor to one record per deposit. Any failure makes
 * the whole load `Absent`; a partial result is never produced.
 */
module Loader {
  import opened Wrappers
  import opened Strings
  import opened Sheets
  import Seqs

  /** Marker of the debt sheet's name, "NỢ". */
  const DebtMarker: string := "N\U{1EE2}"
  /** Marker of the deposit sheet's name, "NẠP". */
  const DepositMarker: string := "N\U{1EA0}P"
  /** First cell of the deposit sheet's total row, "Tổng:". */
  const TotalMarker: string := "T\U{1ED5}ng:"
  /** The name the deposit sheet's first column is given, "Thời gian". */
  const TimeColumn: string := "Th\U{1EDD}i gian"
  /** The value column `melt` makes of the deposit sheet, "Số tiền". */
  const AmountColumn: string := "S\U{1ED1} ti\U{1EC1}n"
  /** The debt columns are taken at positions 0-10 and 12, so the sheet needs 13. */
  const DebtWidth: nat := 13

  /** One normalised row of the debt sheet (the column order of the renamed frame). */
  datatype Debt = Debt(
    stt: Cell,              // STT, kept as read
    name: string,           // Họ tên, as text and trimmed
    content: Cell,          // Nội dung
    due: real,              // Phải trả
    paid: real,             // Đã trả
    remaining: real,        // Còn lại
    bonus: real,            // Bonus
    taxRate: real,          // Thuế (%)
    taxAmount: real,        // Tiền Thuế
    start: Option<Date>,    // Ngày bắt đầu
    deadline: Option<Date>, // Hạn trả
    status: Cell,           // Trạng thái, kept as read
    progress: real)         // Tiến độ, derived

  /** One record of the long-format deposit table: Thời gian, Người nạp, Số tiền. */
  datatype Deposit = Deposit(time: Option<Time>, depositor: string, amount: real)

  /** What `load_data` returns: `(None, None)` or both frames. */
  datatype Ledger = Absent | Loaded(debts: seq<Debt>, deposits: seq<Deposit>)

  // ---------------------------------------------------------------- sheet selection

  predicate NameHas(sh: Sheet, marker: string) {
    Contains(Upper(sh.name), marker)
  }

  /** `next(s for s in sheet_names if marker in s.upper())`, as a position. */
  function FirstSheetWith(wb: Workbook, marker: string): (r: Option<nat>)
    ensures r.Some? ==> r.value < |wb| && NameHas(wb[r.value], marker)
    ensures r.Some? ==> forall k :: 0 <= k < r.value ==> !NameHas(wb[k], marker)
    ensures r.None? ==> forall k :: 0 <= k < |wb| ==> !NameHas(wb[k], marker)
  {
    if wb == [] then None
    else if NameHas(wb[0], marker) then Some(0)
    else
      match FirstSheetWith(wb[1..], marker)
      case None => None
      case Some(i) => Some(i + 1)
  }

  /** The debt sheet: the first whose name has the debt marker, else the first sheet. */
  function DebtSheet(wb: Workbook): (r: Sheet)
    requires |wb| > 0
    ensures (exists k :: 0 <= k < |wb| && NameHas(wb[k], DebtMarker)) ==>
      exists k :: 0 <= k < |wb| && r == wb[k] && NameHas(wb[k], DebtMarker)
                  && forall i :: 0 <= i < k ==> !NameHas(wb[i], DebtMarker)
    ensures (forall k :: 0 <= k < |wb| ==> !NameHas(wb[k], DebtMarker)) ==> r == wb[0]
  {
    match FirstSheetWith(wb, DebtMarker)
    case Some(k) => wb[k]
    case None => wb[0]
  }

  // ---------------------------------------------------------------- debt rows

  /** The row filter: the STT cell is a number. */
  predicate Numbered(row: seq<Cell>) {
    ToNumeric(At(row, 0)).Some?
  }

  /** Tiến độ: the paid share of the amount due, in percent, 0 when nothing is due. */
  function Progress(due: real, paid: real): (r: real)
    ensures due > 0.0 ==> r * due == paid * 100.0
    ensures due <= 0.0 ==> r == 0.0
  {
    if due > 0.0 then paid / due * 100.0 else 0.0
  }

  /** One kept debt row after trimming, coercion, the progress column and the dates. */
  function Normalise(row: seq<Cell>, conv: Conversions): Debt {
    var due, paid := Coerce(At(row, 3)), Coerce(At(row, 4));
    Debt(At(row, 0), Strip(Show(At(row, 1), conv)), At(row, 2),
         due, paid, Coerce(At(row, 5)), Coerce(At(row, 6)),
         Coerce(At(row, 7)), Coerce(At(row, 8)),
         conv.toDate(At(row, 9)), conv.toDate(At(row, 10)),
         At(row, 12), Progress(due, paid))
  }

  function Normaliser(conv: Conversions): seq<Cell> -> Debt {
    row => Normalise(row, conv)
  }

  /** The debt frame: the numbered rows, normalised, in sheet order. */
  function DebtsOf(rows: seq<seq<Cell>>, conv: Conversions): seq<Debt> {
    Seqs.Map(Seqs.Filter(rows, Numbered), Normaliser(conv))
  }

  // ---------------------------------------------------------------- deposit sheet

  /** Every row but the total row ("Tổng:" in the first column) is data. */
  predicate NotTotal(row: seq<Cell>) {
    At(row, 0) != Text(TotalMarker)
  }

  /**
   * A depositor column headed by the text "Thời gian": once the first column
   * is renamed, `df['Thời gian']` selects two columns, and converting that
   * frame to timestamps raises. Only a text header can clash: pandas keeps a
   * numeric header as a number, and a blank one is named "Unnamed: j".
   */
  predicate TimeClash(sh: Sheet) {
    && At(sh.header, 0) != Text(TimeColumn)
    && exists j: nat :: 1 <= j < Width(sh) && At(sh.header, j) == Text(TimeColumn)
  }

  /**
   * A depositor column headed by the text "Số tiền": `melt` refuses a value
   * name that is already a column of the frame and raises. The first column is renamed to
   * "Thời gian" before `melt`, so its own name does not clash.
   */
  predicate AmountClash(sh: Sheet) {
    && At(sh.header, 0) != Text(AmountColumn)
    && exists j: nat :: 1 <= j < Width(sh) && At(sh.header, j) == Text(AmountColumn)
  }

  /** The record `melt` makes of data row `row` and depositor column `j`. */
  function MakeDeposit(row: seq<Cell>, header: seq<Cell>, j: nat, conv: Conversions): Deposit {
    Deposit(conv.toTime(At(row, 0)), HeaderName(At(header, j), j, conv), Coerce(At(row, j)))
  }

  function PaidIn(j: nat): seq<Cell> -> bool {
    row => Coerce(At(row, j)) > 0.0
  }

  function DepositIn(header: seq<Cell>, j: nat, conv: Conversions): seq<Cell> -> Deposit {
    row => MakeDeposit(row, header, j, conv)
  }

  /** The kept records of column `j`, row by row. */
  function MeltColumn(data: seq<seq<Cell>>, header: seq<Cell>, j: nat, conv: Conversions): seq<Deposit> {
    Seqs.Map(Seqs.Filter(data, PaidIn(j)), DepositIn(header, j, conv))
  }

  /** Column `j`'s records, for each depositor column. */
  function Columns(data: seq<seq<Cell>>, header: seq<Cell>, conv: Conversions): nat -> seq<Deposit> {
    (j: nat) => MeltColumn(data, header, j, conv)
  }

  /** The long-format deposit frame: the records of columns 1 .. width-1, column after column, as `melt` stacks them. */
  function DepositsOf(sh: Sheet, conv: Conversions): seq<Deposit> {
    Seqs.Concat(Columns(Seqs.Filter(sh.rows, NotTotal), sh.header, conv), 1, Width(sh))
  }

  // ---------------------------------------------------------------- the whole load

  /**
   * `load_data` on a workbook, `None` standing for a missing file. An empty
   * workbook, a debt sheet with fewer than 13 columns, a deposit sheet with
   * no column at all and a deposit sheet with a second "Thời gian" column
   * or a depositor column named "Số tiền" raise inside the `try` and give
   * `Absent`.
   */
  function LedgerOf(file: Option<Workbook>, conv: Conversions): Ledger {
    match file
    case None => Absent
    case Some(wb) =>
      if |wb| == 0 then Absent
      else if Width(DebtSheet(wb)) < DebtWidth then Absent
      else
        match FirstSheetWith(wb, DepositMarker)
        case None => Loaded(DebtsOf(DebtSheet(wb).rows, conv), [])
        case Some(k) =>
          if Width(wb[k]) == 0 || TimeClash(wb[k]) || AmountClash(wb[k]) then Absent
          else Loaded(DebtsOf(DebtSheet(wb).rows, conv), DepositsOf(wb[k], conv))
  }

  method LoadLedger(file: Option<Workbook>, conv: Conversions) returns (r: Ledger)
    ensures r == LedgerOf(file, conv)
  {
    if file.None? {
      return Absent;
    }
    var wb := file.value;
    if |wb| == 0 {
      return Absent;
    }
    var debtSheet := DebtSheet(wb);
    if Width(debtSheet) < DebtWidth {
      return Absent;
    }
    var debts := NormaliseDebts(debtSheet.rows, conv);
    var nap := FirstSheetWith(wb, DepositMarker);
    if nap.None? {
      return Loaded(debts, []);
    }
    if Width(wb[nap.value]) == 0 || TimeClash(wb[nap.value]) || AmountClash(wb[nap.value]) {
      return Absent;
    }
    var deposits := MeltDeposits(wb[nap.value], conv);
    return Loaded(debts, deposits);
  }

  /** Drops the rows without a numeric STT, then normalises the kept rows one at a time. */
  method NormaliseDebts(rows: seq<seq<Cell>>, conv: Conversions) returns (debts: seq<Debt>)
    ensures debts == DebtsOf(rows, conv)
  {
    var kept := KeepNumbered(rows);
    debts := [];
    for i := 0 to |kept|
      invariant debts == Seqs.Map(kept[..i], Normaliser(conv))
    {
      Seqs.MapStep(kept, i, Normaliser(conv));
      debts := debts + [Normalise(kept[i], conv)];
    }
    assert kept[..|kept|] == kept;
  }

  /** `df[pd.to_numeric(df['STT'], errors='coerce').notnull()]`. */
  method KeepNumbered(rows: seq<seq<Cell>>) returns (kept: seq<seq<Cell>>)
    ensures kept == Seqs.Filter(rows, Numbered)
  {
    kept := [];
    for i := 0 to |rows|
      invariant kept == Seqs.Filter(rows[..i], Numbered)
    {
      Seqs.FilterStep(rows, i, Numbered);
      if Numbered(rows[i]) {
        kept := kept + [rows[i]];
      }
    }
    assert rows[..|rows|] == rows;
  }

  /** Drops the total row, then emits one record per depositor column and row with a positive amount. */
  method MeltDeposits(sh: Sheet, conv: Conversions) returns (out: seq<Deposit>)
    ensures out == DepositsOf(sh, conv)
  {
    var data := DropTotals(sh.rows);
    var w := Width(sh);
    out := [];
    var j := 1;
    while j < w
      invariant 1 <= j && (j <= w || j == 1)
      invariant out == Seqs.Concat(Columns(data, sh.header, conv), 1, j)
    {
      var column := CollectColumn(data, sh.header, j, conv);
      ColumnsStep(data, sh.header, j, conv);
      out := out + column;
      j := j + 1;
    }
  }

  /** `df[df.iloc[:, 0] != 'Tổng:']`. */
  method DropTotals(rows: seq<seq<Cell>>) returns (data: seq<seq<Cell>>)
    ensures data == Seqs.Filter(rows, NotTotal)
  {
    data := [];
    for i := 0 to |rows|
      invariant data == Seqs.Filter(rows[..i], NotTotal)
    {
      Seqs.FilterStep(rows, i, NotTotal);
      if NotTotal(rows[i]) {
        data := data + [rows[i]];
      }
    }
    assert rows[..|rows|] == rows;
  }

  /** The records of depositor column `j` whose coerced amount is positive. */
  method CollectColumn(data: seq<seq<Cell>>, header: seq<Cell>, j: nat, conv: Conversions)
    returns (column: seq<Deposit>)
    ensures column == MeltColumn(data, header, j, conv)
  {
    column := [];
    for i := 0 to |data|
      invariant column == MeltColumn(data[..i], header, j, conv)
    {
      ColumnStep(data, i, header, j, conv);
      var amount := Coerce(At(data[i], j));
      if amount > 0.0 {
        column := column + [MakeDeposit(data[i], header, j, conv)];
      }
    }
    assert data[..|data|] == data;
  }

  lemma ColumnsStep(data: seq<seq<Cell>>, header: seq<Cell>, j: nat, conv: Conversions)
    requires j >= 1
    ensures Seqs.Concat(Columns(data, header, conv), 1, j + 1)
         == Seqs.Concat(Columns(data, header, conv), 1, j) + MeltColumn(data, header, j, conv)
  {
  }

  lemma ColumnStep(data: seq<seq<Cell>>, i: nat, header: seq<Cell>, j: nat, conv: Conversions)
    requires i < |data|
    ensures MeltColumn(data[..i + 1], header, j, conv)
         == MeltColumn(data[..i], header, j, conv)
            + (if Coerce(At(data[i], j)) > 0.0 then [MakeDeposit(data[i], header, j, conv)] else [])
  {
    assert data[..i + 1] == data[..i] + [data[i]];
    ColumnSnoc(data[..i], data[i], header, j, conv);
  }

  lemma ColumnSnoc(data: seq<seq<Cell>>, row: seq<Cell>, header: seq<Cell>, j: nat, conv: Conversions)
    ensures MeltColumn(data + [row], header, j, conv)
         == MeltColumn(data, header, j, conv)
            + (if Coerce(At(row, j)) > 0.0 then [MakeDeposit(row, header, j, conv)] else [])
  {
    Seqs.FilterSnoc(data, row, PaidIn(j));
    if Coerce(At(row, j)) > 0.0 {
      Seqs.MapSnoc(Seqs.Filter(data, PaidIn(j)), row, DepositIn(header, j, conv));
    }
  }
}
