/**
 * Worked instances of the loader and the formatter on small concrete inputs:
 * a one-row ledger with a one-row deposit sheet, and a grouped amount.
 */
module Scenarios {
  import opened Wrappers
  import opened Sheets
  import opened Loader
  import opened Format
  import Strings
  import Seqs

  /** A debt sheet "Sổ Nợ" with one numbered row for " Anna ". */
  function DebtSheetOfAnna(): Sheet {
    Sheet("S\U{1ED5} N\U{1EE3}",
          seq(13, j => Text("c")),
          [[Num(1.0), Text(" Anna "), Empty, Num(1000000.0), Num(250000.0),
            Num(0.0), Num(0.0), Num(0.0), Num(0.0), Empty, Empty, Empty, Empty]])
  }

  /** A deposit sheet "Nạp tiền" with the columns [Thời gian, Anna] and one row. */
  function DepositSheetOfAnna(): Sheet {
    Sheet("N\U{1EA1}p ti\U{1EC1}n",
          [Text("Th\U{1EDD}i gian"), Text("Anna")],
          [[Text("2024-01-01"), Num(500.0)]])
  }

  /** "SỔ NỢ" has the debt marker and not the deposit marker. */
  lemma DebtSheetName(name: string)
    requires name == "S\U{1ED5} N\U{1EE3}"
    ensures Strings.Contains(Strings.Upper(name), DebtMarker)
    ensures !Strings.Contains(Strings.Upper(name), DepositMarker)
  {
    var h := Strings.Upper(name);
    assert h == "S\U{1ED4} N\U{1EE2}";
    assert Strings.OccursAt(h, DebtMarker, 3);
    Strings.ContainsSpec(h, DebtMarker);
    forall i: nat ensures !Strings.OccursAt(h, DepositMarker, i) {
      if i + 3 <= |h| {
        assert h[i..i + 3][1] == h[i + 1] != '\U{1EA0}';
      }
    }
    Strings.ContainsSpec(h, DepositMarker);
  }

  /** "NẠP TIỀN" has the deposit marker and not the debt marker. */
  lemma DepositSheetName(name: string)
    requires name == "N\U{1EA1}p ti\U{1EC1}n"
    ensures Strings.Contains(Strings.Upper(name), DepositMarker)
    ensures !Strings.Contains(Strings.Upper(name), DebtMarker)
  {
    var h := Strings.Upper(name);
    assert h == "N\U{1EA0}P TI\U{1EC0}N";
    assert Strings.OccursAt(h, DepositMarker, 0);
    Strings.ContainsSpec(h, DepositMarker);
    forall i: nat ensures !Strings.OccursAt(h, DebtMarker, i) {
      if i + 2 <= |h| {
        assert h[i..i + 2][1] == h[i + 1] != '\U{1EE2}';
      }
    }
    Strings.ContainsSpec(h, DebtMarker);
  }

  /** "Sổ Nợ" is the debt sheet and "Nạp tiền", the second sheet, the deposit sheet. */
  lemma AnnaSheets(wb: Workbook)
    requires wb == [DebtSheetOfAnna(), DepositSheetOfAnna()]
    ensures FirstSheetWith(wb, DebtMarker) == Some(0) && FirstSheetWith(wb, DepositMarker) == Some(1)
  {
    DebtSheetName(wb[0].name);
    DepositSheetName(wb[1].name);
    assert wb[1..] == [wb[1]];
  }

  /** "KHACH HANG" has neither marker. */
  lemma PlainSheetName(name: string)
    requires name == "Khach hang"
    ensures !Strings.Contains(Strings.Upper(name), DebtMarker)
    ensures !Strings.Contains(Strings.Upper(name), DepositMarker)
  {
    var h := Strings.Upper(name);
    assert h == "KHACH HANG";
    forall i: nat ensures !Strings.OccursAt(h, DebtMarker, i) {
      if i + 2 <= |h| {
        assert h[i..i + 2][1] == h[i + 1] != '\U{1EE2}';
      }
    }
    forall i: nat ensures !Strings.OccursAt(h, DepositMarker, i) {
      if i + 3 <= |h| {
        assert h[i..i + 3][1] == h[i + 1] != '\U{1EA0}';
      }
    }
    Strings.ContainsSpec(h, DebtMarker);
    Strings.ContainsSpec(h, DepositMarker);
  }

  /**
   * No sheet name of ["Khach hang", "Nạp tiền"] has the debt marker, so the
   * first sheet is taken as the debt sheet; the second is still the deposit sheet.
   */
  lemma FallbackDebtSheet(wb: Workbook)
    requires wb == [Sheet("Khach hang", [], []), DepositSheetOfAnna()]
    ensures FirstSheetWith(wb, DebtMarker).None?
    ensures DebtSheet(wb) == wb[0]
    ensures FirstSheetWith(wb, DepositMarker) == Some(1)
  {
    PlainSheetName(wb[0].name);
    DepositSheetName(wb[1].name);
    assert wb[1..] == [wb[1]];
  }

  lemma StripAnna(s: string)
    requires s == [' ', 'A', 'n', 'n', 'a', ' ']
    ensures Strings.Strip(s) == "Anna"
  {
    assert Strings.IsSpace(s[0]) && !Strings.IsSpace(s[1..][0]);
    var t := s[1..];
    assert t == ['A', 'n', 'n', 'a', ' '];
    assert Strings.IsSpace(t[4]) && !Strings.IsSpace(t[..4][3]);
  }

  /** The one row is kept: its name is trimmed to "Anna" and its progress is 25%. */
  lemma AnnaDebts(rows: seq<seq<Cell>>, conv: Conversions)
    requires rows == DebtSheetOfAnna().rows
    ensures var ds := DebtsOf(rows, conv);
      |ds| == 1 && ds[0].name == "Anna" && ds[0].due == 1000000.0 && ds[0].progress == 25.0
  {
    assert Numbered(rows[0]);
    Seqs.FilterAll(rows, Numbered);
    assert Show(At(rows[0], 1), conv) == " Anna ";
    StripAnna(Show(At(rows[0], 1), conv));
    assert DebtsOf(rows, conv)[0] == Normalise(rows[0], conv);
  }

  /** The one row gives one deposit of 500 by "Anna". */
  lemma AnnaDeposits(sh: Sheet, conv: Conversions)
    requires sh == DepositSheetOfAnna()
    ensures DepositsOf(sh, conv) == [Deposit(conv.toTime(Text("2024-01-01")), "Anna", 500.0)]
  {
    assert NotTotal(sh.rows[0]);
    Seqs.FilterAll(sh.rows, NotTotal);
    AnnaWidths(DebtSheetOfAnna(), sh);
    AnnaColumn(sh.rows, sh.header, conv);
    var cols := Columns(sh.rows, sh.header, conv);
    assert Seqs.Concat(cols, 1, 2) == Seqs.Concat(cols, 1, 1) + cols(1);
  }

  lemma AnnaColumn(rows: seq<seq<Cell>>, header: seq<Cell>, conv: Conversions)
    requires rows == DepositSheetOfAnna().rows && header == DepositSheetOfAnna().header
    ensures MeltColumn(rows, header, 1, conv) == [Deposit(conv.toTime(Text("2024-01-01")), "Anna", 500.0)]
  {
    assert PaidIn(1)(rows[0]);
    Seqs.FilterAll(rows, PaidIn(1));
    assert MakeDeposit(rows[0], header, 1, conv) == Deposit(conv.toTime(Text("2024-01-01")), "Anna", 500.0);
  }

  /** The ledger has one debt named "Anna" at 25% progress and one deposit of 500 by "Anna". */
  lemma AnnaLedger(wb: Workbook, conv: Conversions)
    requires wb == [DebtSheetOfAnna(), DepositSheetOfAnna()]
    ensures var r := LedgerOf(Some(wb), conv);
      && r.Loaded?
      && |r.debts| == 1 && r.debts[0].name == "Anna" && r.debts[0].progress == 25.0
      && r.deposits == [Deposit(conv.toTime(Text("2024-01-01")), "Anna", 500.0)]
  {
    AnnaLoads(wb, conv);
    AnnaDebts(wb[0].rows, conv);
    AnnaDeposits(wb[1], conv);
  }

  lemma AnnaLoads(wb: Workbook, conv: Conversions)
    requires wb == [DebtSheetOfAnna(), DepositSheetOfAnna()]
    ensures LedgerOf(Some(wb), conv) == Loaded(DebtsOf(wb[0].rows, conv), DepositsOf(wb[1], conv))
  {
    AnnaSheets(wb);
    AnnaWidths(wb[0], wb[1]);
    AnnaNoClash(wb[1]);
    assert DebtSheet(wb) == wb[0];
  }

  /** Anna's deposit header [Thời gian, Anna] clashes with neither name `load_data` introduces. */
  lemma AnnaNoClash(sh: Sheet)
    requires sh == DepositSheetOfAnna()
    ensures !TimeClash(sh) && !AmountClash(sh)
  {
    assert At(sh.header, 0) == Text(TimeColumn);
    assert MaxLen(sh.rows) == 2;
    assert At(sh.header, 1) == Text("Anna");
    assert "Anna" != AmountColumn by { assert "Anna"[0] != AmountColumn[0]; }
  }

  lemma AnnaWidths(debtSheet: Sheet, depositSheet: Sheet)
    requires debtSheet == DebtSheetOfAnna() && depositSheet == DepositSheetOfAnna()
    ensures Width(debtSheet) == 13 && Width(depositSheet) == 2
  {
    assert MaxLen(debtSheet.rows) == 13;
    assert MaxLen(depositSheet.rows) == 2;
  }

  /** A deposit sheet whose second column is also called "Thời gian" clashes with the renamed first column. */
  lemma ClashingDepositSheet(sh: Sheet)
    requires sh == Sheet("N\U{1EA0}P", [Text("Ng\U{E0}y"), Text("Th\U{1EDD}i gian")], [[Text("2024-01-01"), Num(500.0)]])
    ensures TimeClash(sh)
  {
    assert MaxLen(sh.rows) == 2;
    assert At(sh.header, 1) == Text(TimeColumn);
  }

  /**
   * A two-column deposit log [Thời gian, Số tiền] next to Anna's debt sheet:
   * its depositor column has the name `melt` gives its value column, so the
   * whole load is Absent.
   */
  lemma AmountHeaderIsAbsent(wb: Workbook, conv: Conversions)
    requires wb == [DebtSheetOfAnna(),
                    Sheet("N\U{1EA1}p ti\U{1EC1}n", [Text("Th\U{1EDD}i gian"), Text("S\U{1ED1} ti\U{1EC1}n")],
                          [[Text("2024-01-01"), Num(500.0)]])]
    ensures AmountClash(wb[1])
    ensures LedgerOf(Some(wb), conv) == Absent
  {
    DebtSheetName(wb[0].name);
    DepositSheetName(wb[1].name);
    assert wb[1..] == [wb[1]];
    assert FirstSheetWith(wb, DepositMarker) == Some(1);
    assert MaxLen(wb[1].rows) == 2;
    assert At(wb[1].header, 0) == Text(TimeColumn) != Text(AmountColumn);
    assert At(wb[1].header, 1) == Text(AmountColumn);
    assert MaxLen(wb[0].rows) == 13;
    assert DebtSheet(wb) == wb[0];
  }

  /** 1234567 is shown as "1.234.567 VNĐ". */
  lemma GroupedMillion(v: real)
    requires v == 1234567.0
    ensures FormatVnd(Some(v)) == "1.234.567" + Suffix
  {
    var n := RoundHalfEven(v);
    assert n == 1234567 by {
      assert v.Floor == 1234567;
    }
    assert n / 1000 == 1234 && n % 1000 == 567;
    GroupedThousands(1234);
    assert Pad3(567) == "567";
    assert Grouped(n) == "1.234" + "." + "567";
  }

  lemma GroupedThousands(m: nat)
    requires m == 1234
    ensures Grouped(m) == "1.234"
  {
    assert m / 1000 == 1 && m % 1000 == 234;
    assert Strings.Digits(1) == "1";
    assert Pad3(234) == "234";
  }
}
