/**
 * The dashboard's three metrics: the sums of the amount due, paid and
 * remaining over every debt, each formatted as money, and the share
 * collected, shown as a percentage only when something is due.
 */
module Dashboard {
  import opened Wrappers
  import opened Loader
  import opened Strings
  import opened Format
  import Seqs

  function DueOf(d: Debt): real {
    d.due
  }

  function PaidOf(d: Debt): real {
    d.paid
  }

  function RemainingOf(d: Debt): real {
    d.remaining
  }

  /** Tổng Phải Thu: the sum of Phải trả. */
  function TotalDue(debts: seq<Debt>): real {
    Seqs.Sum(Seqs.Map(debts, DueOf))
  }

  /** Đã Thu Về: the sum of Đã trả. */
  function TotalPaid(debts: seq<Debt>): real {
    Seqs.Sum(Seqs.Map(debts, PaidOf))
  }

  /** Còn Nợ Đọng: the sum of Còn lại. */
  function TotalRemaining(debts: seq<Debt>): real {
    Seqs.Sum(Seqs.Map(debts, RemainingOf))
  }

  /** The collected share paid/due, missing when nothing is due (the division is guarded). */
  function CollectedShare(due: real, paid: real): (r: Option<real>)
    ensures r.None? <==> due <= 0.0
    ensures r.Some? ==> r.value * due == paid
  {
    if due > 0.0 then Some(paid / due) else None
  }

  /** The four texts the metric widgets show. */
  datatype Metrics = Metrics(due: string, collected: string, delta: string, remaining: string)

  /**
   * The metrics of a debt frame. The delta is the collected share in percent,
   * rounded to an integer, or "0%" when nothing is due; it is what
   * `format_percent` prints of the share.
   */
  function MetricsOf(debts: seq<Debt>): Metrics {
    var due, paid := TotalDue(debts), TotalPaid(debts);
    Metrics(FormatVnd(Some(due)), FormatVnd(Some(paid)),
            FormatPercent(CollectedShare(due, paid)), FormatVnd(Some(TotalRemaining(debts))))
  }

  /** Each total is additive over the rows: splitting the frame splits the sum. */
  lemma TotalsAppend(a: seq<Debt>, b: seq<Debt>)
    ensures TotalDue(a + b) == TotalDue(a) + TotalDue(b)
    ensures TotalPaid(a + b) == TotalPaid(a) + TotalPaid(b)
    ensures TotalRemaining(a + b) == TotalRemaining(a) + TotalRemaining(b)
  {
    Seqs.MapAppend(a, b, DueOf);
    Seqs.SumAppend(Seqs.Map(a, DueOf), Seqs.Map(b, DueOf));
    Seqs.MapAppend(a, b, PaidOf);
    Seqs.SumAppend(Seqs.Map(a, PaidOf), Seqs.Map(b, PaidOf));
    Seqs.MapAppend(a, b, RemainingOf);
    Seqs.SumAppend(Seqs.Map(a, RemainingOf), Seqs.Map(b, RemainingOf));
  }

  /** One more row adds exactly its own amounts. */
  lemma TotalsSnoc(debts: seq<Debt>, d: Debt)
    ensures TotalDue(debts + [d]) == TotalDue(debts) + d.due
    ensures TotalPaid(debts + [d]) == TotalPaid(debts) + d.paid
    ensures TotalRemaining(debts + [d]) == TotalRemaining(debts) + d.remaining
  {
    TotalsAppend(debts, [d]);
  }

  /** When no debt is overpaid and none is negative, the collected share lies between 0 and 1. */
  lemma CollectedBounded(debts: seq<Debt>)
    requires forall k :: 0 <= k < |debts| ==> 0.0 <= debts[k].paid <= debts[k].due
    requires TotalDue(debts) > 0.0
    ensures var r := CollectedShare(TotalDue(debts), TotalPaid(debts));
      r.Some? && 0.0 <= r.value <= 1.0
  {
    var paid, due := Seqs.Map(debts, PaidOf), Seqs.Map(debts, DueOf);
    Seqs.SumMono(paid, due);
    Seqs.SumNonNegative(paid);
    ShareBounded(TotalPaid(debts), TotalDue(debts));
  }

  lemma ShareBounded(p: real, t: real)
    requires 0.0 <= p <= t && t > 0.0
    ensures 0.0 <= p / t <= 1.0
  {
    assert p / t * t == p;
  }

  /**
   * A total shows "-" exactly when it is 0; the delta shows "0%" whenever
   * nothing is due; otherwise the delta reads back as the rounded percentage
   * and 100 times the share times the amount due is the amount paid.
   */
  lemma MetricsSpec(debts: seq<Debt>)
    ensures var m, due, paid := MetricsOf(debts), TotalDue(debts), TotalPaid(debts);
      && (m.due == "-" <==> due == 0.0)
      && (m.collected == "-" <==> paid == 0.0)
      && (m.remaining == "-" <==> TotalRemaining(debts) == 0.0)
      && (due <= 0.0 ==> m.delta == "0%")
      && (due > 0.0 ==> ParseDecimal(m.delta[..|m.delta| - 1]) == Some(RoundHalfEven(paid / due * 100.0) as real))
  {
    var due, paid := TotalDue(debts), TotalPaid(debts);
    if due > 0.0 {
      FormatPercentRoundTrip(paid / due);
    }
  }
}
