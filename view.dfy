/**
 * The debt table's filter: a case-insensitive search on the name and a
 * selection of statuses, whose options are the distinct printed statuses
 * other than "nan" and which starts with all of them selected.
 */
module View {
  import opened Strings
  import opened Sheets
  import opened Loader
  import Seqs

  /** The name contains the search text, both lower-cased. */
  predicate NameMatches(d: Debt, search: string) {
    Contains(Lower(d.name), Lower(search))
  }

  /** The status as the table prints it (`astype(str)`). */
  function StatusText(d: Debt, conv: Conversions): string {
    Show(d.status, conv)
  }

  function ByName(search: string): Debt -> bool {
    d => NameMatches(d, search)
  }

  function ByStatus(selected: seq<string>, conv: Conversions): Debt -> bool {
    d => StatusText(d, conv) in selected
  }

  /** The rows shown: the name filter when a search is typed, then the status filter when a status is selected. */
  function Shown(debts: seq<Debt>, search: string, selected: seq<string>, conv: Conversions): seq<Debt> {
    var named := if search != "" then Seqs.Filter(debts, ByName(search)) else debts;
    if selected != [] then Seqs.Filter(named, ByStatus(selected, conv)) else named
  }

  /** The row test of the table: the name test when a search is typed, the status test when a status is selected. */
  function Matches(search: string, selected: seq<string>, conv: Conversions): Debt -> bool {
    d => (search != "" ==> NameMatches(d, search)) && (selected != [] ==> StatusText(d, conv) in selected)
  }

  /** A status offered in the selection: it does not print as "nan" in any case. */
  predicate Listed(s: string) {
    Lower(s) != "nan"
  }

  function StatusOf(d: Debt): Cell {
    d.status
  }

  function Printer(conv: Conversions): Cell -> string {
    c => Show(c, conv)
  }

  /** The status options: the distinct status cells in order of appearance, printed, without "nan". */
  function StatusOptions(debts: seq<Debt>, conv: Conversions): seq<string> {
    Seqs.Filter(Seqs.Map(Seqs.Dedup(Seqs.Map(debts, StatusOf)), Printer(conv)), Listed)
  }

  function ListedStatus(conv: Conversions): Debt -> bool {
    d => Listed(StatusText(d, conv))
  }

  /**
   * The rows shown are the debts, each copy in its own place, that pass the
   * name test when a search is typed and the status test when a status is
   * selected; so a row is shown exactly when it passes, and the rows shown
   * keep the order of the debt frame.
   */
  lemma ShownSpec(debts: seq<Debt>, search: string, selected: seq<string>, conv: Conversions, d: Debt)
    ensures Shown(debts, search, selected, conv) == Seqs.Filter(debts, Matches(search, selected, conv))
    ensures d in Shown(debts, search, selected, conv) <==>
      && d in debts
      && (search != "" ==> NameMatches(d, search))
      && (selected != [] ==> StatusText(d, conv) in selected)
    ensures Seqs.IsSubsequence(Shown(debts, search, selected, conv), debts)
  {
    ShownOneFilter(debts, search, selected, conv);
    Seqs.FilterKeeps(debts, Matches(search, selected, conv), d);
    Seqs.FilterIsSubsequence(debts, Matches(search, selected, conv));
  }

  lemma ShownOneFilter(debts: seq<Debt>, search: string, selected: seq<string>, conv: Conversions)
    ensures Shown(debts, search, selected, conv) == Seqs.Filter(debts, Matches(search, selected, conv))
  {
    var m := Matches(search, selected, conv);
    if search != "" && selected != [] {
      Seqs.FilterFilter(debts, ByName(search), ByStatus(selected, conv));
      Seqs.FilterCongruent(debts, Seqs.Both(ByName(search), ByStatus(selected, conv)), m);
    } else if search != "" {
      Seqs.FilterCongruent(debts, ByName(search), m);
    } else if selected != [] {
      Seqs.FilterCongruent(debts, ByStatus(selected, conv), m);
    } else {
      Seqs.FilterAll(debts, m);
    }
  }

  /** A status is offered exactly when some debt prints it and it is not "nan". */
  lemma StatusOptionsSpec(debts: seq<Debt>, conv: Conversions, s: string)
    ensures s in StatusOptions(debts, conv) <==> Listed(s) && exists d :: d in debts && StatusText(d, conv) == s
  {
    var cells := Seqs.Map(debts, StatusOf);
    var distinct := Seqs.Dedup(cells);
    var printed := Seqs.Map(distinct, Printer(conv));
    Seqs.FilterKeeps(printed, Listed, s);
    Seqs.MapMembers(distinct, Printer(conv), s);
    if d :| d in debts && StatusText(d, conv) == s {
      StatusCellListed(debts, d);
      assert s == Printer(conv)(d.status);
    }
    if s in printed {
      var c :| c in distinct && s == Printer(conv)(c);
      Seqs.MapMembers(debts, StatusOf, c);
      var d :| d in debts && c == StatusOf(d);
      assert StatusText(d, conv) == s;
    }
  }

  lemma StatusCellListed(debts: seq<Debt>, d: Debt)
    requires d in debts
    ensures d.status in Seqs.Dedup(Seqs.Map(debts, StatusOf))
  {
    var k :| 0 <= k < |debts| && debts[k] == d;
    assert Seqs.Map(debts, StatusOf)[k] == d.status;
  }

  /**
   * With every offered status selected, as on first display, the status
   * filter hides exactly the rows whose status prints as "nan"; when no
   * status is offered at all, nothing is hidden.
   */
  lemma DefaultView(debts: seq<Debt>, search: string, conv: Conversions)
    ensures var options := StatusOptions(debts, conv);
      var named := if search != "" then Seqs.Filter(debts, ByName(search)) else debts;
      && (options != [] ==> Shown(debts, search, options, conv) == Seqs.Filter(named, ListedStatus(conv)))
      && (options == [] ==> Shown(debts, search, options, conv) == named)
  {
    var options := StatusOptions(debts, conv);
    var named := if search != "" then Seqs.Filter(debts, ByName(search)) else debts;
    forall d | d in named ensures ByStatus(options, conv)(d) == ListedStatus(conv)(d) {
      if search != "" {
        Seqs.FilterKeeps(debts, ByName(search), d);
      }
      StatusOptionsSpec(debts, conv, StatusText(d, conv));
    }
    Seqs.FilterCongruent(named, ByStatus(options, conv), ListedStatus(conv));
  }
}
