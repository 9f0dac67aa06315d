/**
 * The "Top Con Nợ" ranking: the debts whose name is neither blank nor "nan",
 * grouped by name with their remaining amounts summed, sorted by that sum
 * from largest to smallest, and the first ten kept.
 */
module Ranking {
  import opened Strings
  import opened Loader
  import opened Dashboard
  import Seqs

  /** One bar of the chart: a name and the sum of its remaining amounts. */
  datatype Entry = Entry(name: string, remaining: real)

  /** How many names the chart shows (`head(10)`). */
  const TopCount: nat := 10

  /** A debt that takes part in the chart: its name is not "nan" in any case and not blank. */
  predicate Charted(d: Debt) {
    Lower(d.name) != "nan" && d.name != ""
  }

  function NameOf(d: Debt): string {
    d.name
  }

  function Named(n: string): Debt -> bool {
    (d: Debt) => d.name == n
  }

  /** The group sum of the remaining amounts of the rows named `n`. */
  function NameTotal(rows: seq<Debt>, n: string): real {
    Seqs.Sum(Seqs.Map(Seqs.Filter(rows, Named(n)), RemainingOf))
  }

  function TotalFor(rows: seq<Debt>): string -> Entry {
    n => Entry(n, NameTotal(rows, n))
  }

  /** One entry per distinct charted name, in order of first appearance. */
  function Groups(debts: seq<Debt>): seq<Entry> {
    var rows := Seqs.Filter(debts, Charted);
    Seqs.Map(Seqs.Dedup(Seqs.Map(rows, NameOf)), TotalFor(rows))
  }

  predicate NonIncreasing(s: seq<Entry>) {
    forall i, j :: 0 <= i < j < |s| ==> s[i].remaining >= s[j].remaining
  }

  predicate NamesDistinct(s: seq<Entry>) {
    forall i, j :: 0 <= i < j < |s| ==> s[i].name != s[j].name
  }

  /** Puts `x` into a list sorted from largest to smallest, after the entries not smaller than it. */
  function Insert(x: Entry, s: seq<Entry>): (r: seq<Entry>)
    ensures multiset(r) == multiset(s) + multiset{x}
  {
    if s == [] then [x]
    else if s[0].remaining >= x.remaining then
      assert s == [s[0]] + s[1..];
      [s[0]] + Insert(x, s[1..])
    else [x] + s
  }

  lemma InsertMembers(x: Entry, s: seq<Entry>, e: Entry)
    ensures e in Insert(x, s) <==> e == x || e in s
  {
    assert e in Insert(x, s) <==> e in multiset(Insert(x, s));
    assert e in s <==> e in multiset(s);
  }

  lemma {:induction false} InsertSorted(x: Entry, s: seq<Entry>)
    requires NonIncreasing(s)
    ensures NonIncreasing(Insert(x, s))
    decreases |s|
  {
    if s != [] && s[0].remaining >= x.remaining {
      var rest := Insert(x, s[1..]);
      InsertSorted(x, s[1..]);
      forall e | e in rest ensures s[0].remaining >= e.remaining {
        InsertMembers(x, s[1..], e);
      }
      assert Insert(x, s) == [s[0]] + rest;
    }
  }

  lemma {:induction false} InsertDistinct(x: Entry, s: seq<Entry>)
    requires NamesDistinct(s)
    requires forall e :: e in s ==> e.name != x.name
    ensures NamesDistinct(Insert(x, s))
    decreases |s|
  {
    if s != [] && s[0].remaining >= x.remaining {
      var rest := Insert(x, s[1..]);
      InsertDistinct(x, s[1..]);
      forall e | e in rest ensures s[0].name != e.name {
        InsertMembers(x, s[1..], e);
      }
      assert Insert(x, s) == [s[0]] + rest;
    }
  }

  /** Sorting from largest to smallest sum (`sort_values(ascending=False)`): a sorted permutation. */
  function SortDesc(s: seq<Entry>): (r: seq<Entry>)
    ensures multiset(r) == multiset(s)
    ensures NonIncreasing(r)
  {
    if s == [] then []
    else
      var rest := SortDesc(s[1..]);
      InsertSorted(s[0], rest);
      assert s == [s[0]] + s[1..];
      Insert(s[0], rest)
  }

  lemma {:induction false} SortDistinct(s: seq<Entry>)
    requires NamesDistinct(s)
    ensures NamesDistinct(SortDesc(s))
    decreases |s|
  {
    if s != [] {
      var rest := SortDesc(s[1..]);
      SortDistinct(s[1..]);
      forall e | e in rest ensures e.name != s[0].name {
        assert e in multiset(rest);
        var k :| 0 <= k < |s[1..]| && s[1..][k] == e;
        assert s[k + 1] == e;
      }
      InsertDistinct(s[0], rest);
    }
  }

  /** The largest ten entries (`sort_values(ascending=False).head(10)`). */
  function Top(g: seq<Entry>): seq<Entry> {
    var sorted := SortDesc(g);
    if |sorted| <= TopCount then sorted else sorted[..TopCount]
  }

  /** The chart's entries: the ten largest group sums. */
  function TopDebtors(debts: seq<Debt>): seq<Entry> {
    Top(Groups(debts))
  }

  lemma GroupsDistinct(debts: seq<Debt>)
    ensures NamesDistinct(Groups(debts))
  {
    var rows := Seqs.Filter(debts, Charted);
    var distinct := Seqs.Dedup(Seqs.Map(rows, NameOf));
    var g := Groups(debts);
    forall i, j | 0 <= i < j < |g| ensures g[i].name != g[j].name {
      assert g[i].name == distinct[i] && g[j].name == distinct[j];
    }
  }

  /** Each group is a charted name with its group sum. */
  lemma GroupEntry(debts: seq<Debt>, e: Entry)
    requires e in Groups(debts)
    ensures e.remaining == NameTotal(Seqs.Filter(debts, Charted), e.name)
    ensures exists d :: d in debts && Charted(d) && d.name == e.name
  {
    var rows := Seqs.Filter(debts, Charted);
    var distinct := Seqs.Dedup(Seqs.Map(rows, NameOf));
    var g := Groups(debts);
    var k :| 0 <= k < |g| && g[k] == e;
    assert e == TotalFor(rows)(distinct[k]);
    Seqs.MapMembers(rows, NameOf, e.name);
    var d :| d in rows && e.name == NameOf(d);
    assert d in debts && Charted(d);
  }

  /** Every charted debt's name has its group. */
  lemma GroupOfDebt(debts: seq<Debt>, d: Debt)
    requires d in debts && Charted(d)
    ensures Entry(d.name, NameTotal(Seqs.Filter(debts, Charted), d.name)) in Groups(debts)
  {
    var rows := Seqs.Filter(debts, Charted);
    var names := Seqs.Map(rows, NameOf);
    Seqs.FilterKeeps(debts, Charted, d);
    Seqs.MapMembers(rows, NameOf, d.name);
    Seqs.DedupMembers(names, d.name);
    assert Entry(d.name, NameTotal(rows, d.name)) == TotalFor(rows)(d.name);
    Seqs.MapMembers(Seqs.Dedup(names), TotalFor(rows), Entry(d.name, NameTotal(rows, d.name)));
  }

  /** An entry of the top ten is one of the entries ranked. */
  lemma TopEntry(g: seq<Entry>, i: nat)
    requires i < |Top(g)|
    ensures Top(g)[i] in g
  {
    var sorted := SortDesc(g);
    assert Top(g)[i] == sorted[i];
    assert sorted[i] in multiset(g);
  }

  /** An entry is in the top ten, or ten are and it is no larger than the tenth. */
  lemma TopComplete(g: seq<Entry>, e: Entry)
    requires e in g
    ensures var r := Top(g);
      || (exists i :: 0 <= i < |r| && r[i] == e)
      || (|r| == TopCount && e.remaining <= r[TopCount - 1].remaining)
  {
    var sorted := SortDesc(g);
    var r := Top(g);
    assert e in multiset(g);
    var p :| 0 <= p < |sorted| && sorted[p] == e;
    if p < |r| {
      assert r[p] == e;
    } else {
      assert r[TopCount - 1] == sorted[TopCount - 1];
    }
  }

  /** The top ten is sorted from largest to smallest and keeps names distinct. */
  lemma TopSorted(g: seq<Entry>)
    ensures |Top(g)| <= TopCount
    ensures NonIncreasing(Top(g))
    ensures NamesDistinct(g) ==> NamesDistinct(Top(g))
  {
    if NamesDistinct(g) {
      SortDistinct(g);
    }
  }

  /**
   * The ranking shows at most ten names, from the largest remaining sum to
   * the smallest, each name once; every entry is a charted name (so neither
   * blank nor "nan") with the sum of its rows' remaining amounts; and a
   * charted name is left out only when ten names are shown and its sum is no
   * larger than the tenth.
   */
  lemma TopDebtorsSpec(debts: seq<Debt>)
    ensures var r, rows := TopDebtors(debts), Seqs.Filter(debts, Charted);
      && |r| <= TopCount
      && NonIncreasing(r)
      && NamesDistinct(r)
      && (forall i :: 0 <= i < |r| ==>
            && r[i].remaining == NameTotal(rows, r[i].name)
            && Lower(r[i].name) != "nan" && r[i].name != ""
            && exists d :: d in debts && d.name == r[i].name)
      && (forall d :: d in debts && Charted(d) ==>
            || (exists i :: 0 <= i < |r| && r[i].name == d.name)
            || (|r| == TopCount && NameTotal(rows, d.name) <= r[TopCount - 1].remaining))
  {
    var rows := Seqs.Filter(debts, Charted);
    var g := Groups(debts);
    var r := TopDebtors(debts);
    GroupsDistinct(debts);
    TopSorted(g);
    forall i | 0 <= i < |r|
      ensures r[i].remaining == NameTotal(rows, r[i].name)
      ensures Lower(r[i].name) != "nan" && r[i].name != ""
      ensures exists d :: d in debts && d.name == r[i].name
    {
      TopEntry(g, i);
      GroupEntry(debts, r[i]);
    }
    forall d | d in debts && Charted(d)
      ensures || (exists i :: 0 <= i < |r| && r[i].name == d.name)
              || (|r| == TopCount && NameTotal(rows, d.name) <= r[TopCount - 1].remaining)
    {
      GroupOfDebt(debts, d);
      TopComplete(g, Entry(d.name, NameTotal(rows, d.name)));
    }
  }

  // ---------------------------------------------------------------- group sums partition the total

  function RemainingOfEntry(e: Entry): real {
    e.remaining
  }

  function TotalOf(rows: seq<Debt>): string -> real {
    n => NameTotal(rows, n)
  }

  /** A further row adds its remaining amount to its own name's sum only. */
  lemma NameTotalSnoc(rows: seq<Debt>, d: Debt, n: string)
    ensures NameTotal(rows + [d], n) == NameTotal(rows, n) + (if d.name == n then d.remaining else 0.0)
  {
    var kept := Seqs.Filter(rows, Named(n));
    Seqs.FilterSnoc(rows, d, Named(n));
    if d.name == n {
      Seqs.MapSnoc(kept, d, RemainingOf);
      var m := Seqs.Map(kept, RemainingOf);
      assert (m + [d.remaining])[..|m|] == m;
    } else {
      assert kept + [] == kept;
    }
  }

  lemma {:induction false} SumOverNamesSnoc(names: seq<string>, rows: seq<Debt>, d: Debt)
    requires Seqs.Distinct(names)
    ensures Seqs.Sum(Seqs.Map(names, TotalOf(rows + [d])))
         == Seqs.Sum(Seqs.Map(names, TotalOf(rows))) + (if d.name in names then d.remaining else 0.0)
    decreases |names|
  {
    if names != [] {
      var init, m := names[..|names| - 1], names[|names| - 1];
      assert names == init + [m];
      SumOverNamesSnoc(init, rows, d);
      Seqs.MapSnoc(init, m, TotalOf(rows + [d]));
      Seqs.MapSnoc(init, m, TotalOf(rows));
      NameTotalSnoc(rows, d, m);
      assert Seqs.Map(names, TotalOf(rows + [d]))[..|init|] == Seqs.Map(init, TotalOf(rows + [d]));
      assert Seqs.Map(names, TotalOf(rows))[..|init|] == Seqs.Map(init, TotalOf(rows));
      assert d.name in names <==> d.name in init || d.name == m;
      assert !(d.name in init && d.name == m);
    }
  }

  lemma {:induction false} SumOverNamesEmpty(names: seq<string>)
    ensures Seqs.Sum(Seqs.Map(names, TotalOf([]))) == 0.0
    decreases |names|
  {
    if names != [] {
      var init := names[..|names| - 1];
      SumOverNamesEmpty(init);
      assert Seqs.Map(names, TotalOf([]))[..|init|] == Seqs.Map(init, TotalOf([]));
    }
  }

  /** Summing the group sums over distinct names that cover every row gives the rows' total. */
  lemma {:induction false} SumOverNames(names: seq<string>, rows: seq<Debt>)
    requires Seqs.Distinct(names)
    requires forall k :: 0 <= k < |rows| ==> rows[k].name in names
    ensures Seqs.Sum(Seqs.Map(names, TotalOf(rows))) == TotalRemaining(rows)
    decreases |rows|
  {
    if rows == [] {
      SumOverNamesEmpty(names);
    } else {
      var init, d := rows[..|rows| - 1], rows[|rows| - 1];
      assert rows == init + [d];
      SumOverNames(names, init);
      SumOverNamesSnoc(names, init, d);
      TotalsSnoc(init, d);
    }
  }

  lemma NamesCover(rows: seq<Debt>)
    ensures forall k :: 0 <= k < |rows| ==> rows[k].name in Seqs.Dedup(Seqs.Map(rows, NameOf))
  {
    forall k | 0 <= k < |rows| ensures rows[k].name in Seqs.Dedup(Seqs.Map(rows, NameOf)) {
      assert Seqs.Map(rows, NameOf)[k] == rows[k].name;
    }
  }

  lemma GroupValues(debts: seq<Debt>)
    ensures var rows := Seqs.Filter(debts, Charted);
      Seqs.Map(Groups(debts), RemainingOfEntry) == Seqs.Map(Seqs.Dedup(Seqs.Map(rows, NameOf)), TotalOf(rows))
  {
    var rows := Seqs.Filter(debts, Charted);
    var names := Seqs.Dedup(Seqs.Map(rows, NameOf));
    var g := Groups(debts);
    forall k | 0 <= k < |names|
      ensures Seqs.Map(g, RemainingOfEntry)[k] == Seqs.Map(names, TotalOf(rows))[k]
    {
      assert g[k] == TotalFor(rows)(names[k]);
    }
  }

  /** The chart's group sums add up to the remaining amount of all charted debts: every charted row is counted once. */
  lemma GroupsPartition(debts: seq<Debt>)
    ensures Seqs.Sum(Seqs.Map(Groups(debts), RemainingOfEntry)) == TotalRemaining(Seqs.Filter(debts, Charted))
  {
    var rows := Seqs.Filter(debts, Charted);
    NamesCover(rows);
    SumOverNames(Seqs.Dedup(Seqs.Map(rows, NameOf)), rows);
    GroupValues(debts);
  }
}
