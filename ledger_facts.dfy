/**
 * What the loader promises about its two frames: the all-or-nothing result,
 * which debt rows are kept and how they are normalised, and which deposit
 * records the reshaping emits.
 */
module LedgerFacts {
  import opened Wrappers
  import opened Strings
  import opened Sheets
  import opened Loader
  import Seqs

  // ---------------------------------------------------------------- all or nothing

  /** A debt sheet too narrow for columns 0-10 and 12 makes the whole load Absent. */
  lemma NarrowDebtSheetIsAbsent(wb: Workbook, conv: Conversions)
    requires |wb| > 0 && Width(DebtSheet(wb)) < DebtWidth
    ensures LedgerOf(Some(wb), conv) == Absent
  {
  }

  /**
   * The load fails exactly when the file is missing, the workbook has no
   * sheet, the debt sheet is too narrow, or the deposit sheet has no column
   * or a depositor column also named "Thời gian" or named "Số tiền".
   */
  lemma AbsentExactly(file: Option<Workbook>, conv: Conversions)
    ensures LedgerOf(file, conv) == Absent <==>
      || file.None?
      || |file.value| == 0
      || Width(DebtSheet(file.value)) < DebtWidth
      || (FirstSheetWith(file.value, DepositMarker).Some?
          && (|| Width(file.value[FirstSheetWith(file.value, DepositMarker).value]) == 0
              || TimeClash(file.value[FirstSheetWith(file.value, DepositMarker).value])
              || AmountClash(file.value[FirstSheetWith(file.value, DepositMarker).value])))
  {
  }

  /** A deposit sheet with a second "Thời gian" column makes the whole load Absent. */
  lemma TimeClashIsAbsent(wb: Workbook, conv: Conversions)
    requires FirstSheetWith(wb, DepositMarker).Some?
    requires TimeClash(wb[FirstSheetWith(wb, DepositMarker).value])
    ensures LedgerOf(Some(wb), conv) == Absent
  {
  }

  /** A deposit sheet with a depositor column named "Số tiền" makes the whole load Absent. */
  lemma AmountClashIsAbsent(wb: Workbook, conv: Conversions)
    requires FirstSheetWith(wb, DepositMarker).Some?
    requires AmountClash(wb[FirstSheetWith(wb, DepositMarker).value])
    ensures LedgerOf(Some(wb), conv) == Absent
  {
  }

  /** Without a sheet whose name has "NẠP", the deposit frame is empty. */
  lemma NoDepositSheetNoDeposits(wb: Workbook, conv: Conversions)
    requires FirstSheetWith(wb, DepositMarker).None?
    requires LedgerOf(Some(wb), conv).Loaded?
    ensures LedgerOf(Some(wb), conv).deposits == []
  {
  }

  // ---------------------------------------------------------------- debt rows

  /**
   * The debt frame has one record per row whose STT cell is a number, in sheet
   * order, and no other: record `k` is the normalised row `idx[k]`.
   */
  lemma DebtRowsKept(rows: seq<seq<Cell>>, conv: Conversions)
    ensures var idx := Seqs.FilterIndices(rows, Numbered);
      && |DebtsOf(rows, conv)| == |idx|
      && (forall k :: 0 <= k < |idx| ==>
            idx[k] < |rows| && DebtsOf(rows, conv)[k] == Normalise(rows[idx[k]], conv))
      && (forall k, l :: 0 <= k < l < |idx| ==> idx[k] < idx[l])
      && (forall i :: 0 <= i < |rows| ==> (i in idx <==> ToNumeric(At(rows[i], 0)).Some?))
  {
    var idx := Seqs.FilterIndices(rows, Numbered);
    var kept := Seqs.Filter(rows, Numbered);
    Seqs.FilterIndicesMatch(rows, Numbered);
    Seqs.FilterIndicesMembers(rows, Numbered);
    forall k | 0 <= k < |idx|
      ensures DebtsOf(rows, conv)[k] == Normalise(rows[idx[k]], conv)
    {
      assert DebtsOf(rows, conv)[k] == Normaliser(conv)(kept[k]);
    }
  }

  /**
   * A normalised row: the name is the cell's text with surrounding whitespace
   * removed (so trimming again changes nothing), every amount and the tax rate
   * is the cell's number or 0, and the progress is paid/due in percent or 0.
   */
  lemma NormaliseSpec(row: seq<Cell>, conv: Conversions)
    ensures var d := Normalise(row, conv);
      && d.name == Strip(Show(At(row, 1), conv))
      && Strip(d.name) == d.name
      && d.due == ToNumeric(At(row, 3)).GetOr(0.0)
      && d.paid == ToNumeric(At(row, 4)).GetOr(0.0)
      && d.remaining == ToNumeric(At(row, 5)).GetOr(0.0)
      && d.bonus == ToNumeric(At(row, 6)).GetOr(0.0)
      && d.taxRate == ToNumeric(At(row, 7)).GetOr(0.0)
      && d.taxAmount == ToNumeric(At(row, 8)).GetOr(0.0)
      && (d.due > 0.0 ==> d.progress * d.due == d.paid * 100.0)
      && (d.due <= 0.0 ==> d.progress == 0.0)
  {
    StripIdempotent(Show(At(row, 1), conv));
  }

  /** Every loaded debt has a numeric STT and a trimmed name. */
  lemma LoadedDebtsWellFormed(file: Option<Workbook>, conv: Conversions, d: Debt)
    requires LedgerOf(file, conv).Loaded? && d in LedgerOf(file, conv).debts
    ensures ToNumeric(d.stt).Some?
    ensures Strip(d.name) == d.name
  {
    var rows := DebtSheet(file.value).rows;
    Seqs.MapMembers(Seqs.Filter(rows, Numbered), Normaliser(conv), d);
    var row :| row in Seqs.Filter(rows, Numbered) && d == Normaliser(conv)(row);
    NormaliseSpec(row, conv);
  }

  /** Progress is not clamped: paying more than is due gives more than 100. */
  lemma ProgressNotClamped(due: real, paid: real)
    requires 0.0 < due < paid
    ensures Progress(due, paid) > 100.0
  {
    assert paid / due > 1.0;
  }

  /** Paying between nothing and everything gives a progress between 0 and 100. */
  lemma ProgressBounded(due: real, paid: real)
    requires 0.0 < due && 0.0 <= paid <= due
    ensures 0.0 <= Progress(due, paid) <= 100.0
  {
    assert 0.0 <= paid / due <= 1.0;
  }

  lemma ProgressExamples(x: real)
    ensures Progress(0.0, x) == 0.0
    ensures Progress(100.0, 50.0) == 50.0
    ensures Progress(100.0, 150.0) == 150.0
  {
  }

  // ---------------------------------------------------------------- deposits

  /** `row`'s cell in column `j` is a positive amount and `d` is its record. */
  predicate Emits(row: seq<Cell>, header: seq<Cell>, j: nat, conv: Conversions, d: Deposit) {
    Coerce(At(row, j)) > 0.0 && d == MakeDeposit(row, header, j, conv)
  }

  lemma MeltColumnMembers(data: seq<seq<Cell>>, header: seq<Cell>, j: nat, conv: Conversions, d: Deposit)
    ensures d in MeltColumn(data, header, j, conv) <==> exists row :: row in data && Emits(row, header, j, conv, d)
  {
    var paid := Seqs.Filter(data, PaidIn(j));
    Seqs.MapMembers(paid, DepositIn(header, j, conv), d);
    if row :| row in data && Emits(row, header, j, conv, d) {
      Seqs.FilterKeeps(data, PaidIn(j), row);
      assert d == DepositIn(header, j, conv)(row);
    }
  }

  /**
   * A deposit record is emitted exactly for a data row (not the total row) and
   * a depositor column whose coerced amount is positive.
   */
  lemma DepositMembers(sh: Sheet, conv: Conversions, d: Deposit)
    ensures d in DepositsOf(sh, conv) <==>
      exists row, j :: row in sh.rows && NotTotal(row) && 1 <= j < Width(sh) && Emits(row, sh.header, j, conv, d)
  {
    var data := Seqs.Filter(sh.rows, NotTotal);
    var cols := Columns(data, sh.header, conv);
    Seqs.ConcatMembers(cols, 1, Width(sh), d);
    forall row ensures row in data <==> row in sh.rows && NotTotal(row) {
      Seqs.FilterKeeps(sh.rows, NotTotal, row);
    }
    if d in DepositsOf(sh, conv) {
      var j :| 1 <= j < Width(sh) && d in cols(j);
      MeltColumnMembers(data, sh.header, j, conv, d);
    }
    if row, j :| row in sh.rows && NotTotal(row) && 1 <= j < Width(sh) && Emits(row, sh.header, j, conv, d) {
      MeltColumnMembers(data, sh.header, j, conv, d);
      assert d in cols(j);
    }
  }

  /** Every deposit record has a positive amount. */
  lemma DepositsPositive(sh: Sheet, conv: Conversions)
    ensures forall d :: d in DepositsOf(sh, conv) ==> d.amount > 0.0
  {
    forall d | d in DepositsOf(sh, conv) ensures d.amount > 0.0 {
      DepositMembers(sh, conv, d);
    }
  }

  /** At most one record per data row and depositor column. */
  lemma DepositCount(sh: Sheet, conv: Conversions)
    requires Width(sh) >= 1
    ensures |DepositsOf(sh, conv)| <= |sh.rows| * (Width(sh) - 1)
  {
    var data := Seqs.Filter(sh.rows, NotTotal);
    var cols := Columns(data, sh.header, conv);
    forall j | 1 <= j < Width(sh) ensures |cols(j)| <= |data| {
      assert cols(j) == MeltColumn(data, sh.header, j, conv);
    }
    Seqs.ConcatLength(cols, 1, Width(sh), |data|);
    MulMono(|data|, |sh.rows|, Width(sh) - 1);
  }

  lemma MulMono(a: nat, b: nat, c: nat)
    requires a <= b
    ensures a * c <= b * c
  {
  }

  /** A column no data row reaches contributes no record. */
  lemma ColumnBeyond(data: seq<seq<Cell>>, header: seq<Cell>, j: nat, conv: Conversions)
    requires MaxLen(data) <= j
    ensures MeltColumn(data, header, j, conv) == []
  {
    forall k | 0 <= k < |data| ensures !PaidIn(j)(data[k]) {
      assert At(data[k], j) == Empty;
    }
    Seqs.FilterNone(data, PaidIn(j));
  }

  /** A total row, wherever it stands and however wide it is, changes no deposit record. */
  lemma TotalRowIgnored(sh: Sheet, a: seq<seq<Cell>>, t: seq<Cell>, b: seq<seq<Cell>>, conv: Conversions)
    requires sh.rows == a + [t] + b && !NotTotal(t)
    ensures DepositsOf(sh, conv) == DepositsOf(sh.(rows := a + b), conv)
  {
    var other := sh.(rows := a + b);
    var data := Seqs.Filter(sh.rows, NotTotal);
    DropTotalRow(a, t, b);
    assert data == Seqs.Filter(other.rows, NotTotal);
    var w1, w2 := Width(sh), Width(other);
    var lo := if w2 >= 1 then w2 else 1;
    forall k | 0 <= k < |data| ensures |data[k]| <= MaxLen(other.rows) {
      assert data[k] in other.rows;
      var i :| 0 <= i < |other.rows| && other.rows[i] == data[k];
    }
    MaxLenBound(data, MaxLen(other.rows));
    forall k | 0 <= k < |other.rows| ensures |other.rows[k]| <= MaxLen(sh.rows) {
      if k < |a| {
        assert other.rows[k] == sh.rows[k];
      } else {
        assert other.rows[k] == sh.rows[k + 1];
      }
    }
    MaxLenBound(other.rows, MaxLen(sh.rows));
    var cols := Columns(data, sh.header, conv);
    if w1 >= lo {
      forall j | lo <= j < w1 ensures cols(j) == [] {
        ColumnBeyond(data, sh.header, j, conv);
      }
      Seqs.ConcatEmptyTail(cols, 1, lo, w1);
    }
  }

  lemma DropTotalRow(a: seq<seq<Cell>>, t: seq<Cell>, b: seq<seq<Cell>>)
    requires !NotTotal(t)
    ensures Seqs.Filter(a + [t] + b, NotTotal) == Seqs.Filter(a + b, NotTotal)
  {
    Seqs.FilterAppend(a + [t], b, NotTotal);
    Seqs.FilterSnoc(a, t, NotTotal);
    Seqs.FilterAppend(a, b, NotTotal);
  }
}
