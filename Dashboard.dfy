/** One rendering of the dashboard: the selected option is applied to the
    table, and the four summary cards (total, monthly average, best month,
    worst month) are computed from the resulting view. */
module Dashboard {
  import opened SalesTable
  import opened View
  import opened Aggregates
  import opened Currency

  /** Why a rendering stops: `idxmax` on an empty revenue column raises
      ValueError, so an empty view never reaches the best-month card. */
  datatype Error = EmptyView

  datatype Result<T> = Ok(value: T) | Err(error: Error)

  /** The figures behind the four cards. */
  datatype Summary = Summary(total: nat, average: real, best: Record, worst: Record)

  /** The text shown on the four cards. */
  datatype Cards = Cards(totalCard: string, averageCard: string, bestCard: string, worstCard: string)

  /** A rendering with selection `sel`.  It fails exactly when the view is
      empty; otherwise the best and worst rows are rows of the view whose
      revenues bound every revenue of the view, the earliest such rows when
      several share the extreme revenue. */
  function Render(t: seq<Record>, sel: string): (r: Result<Summary>)
    ensures r.Err? <==> Filter(t, sel) == []
    ensures r.Ok? ==> r.value.best in Filter(t, sel) && r.value.worst in Filter(t, sel)
    ensures r.Ok? ==> forall x :: x in Filter(t, sel) ==>
      r.value.worst.revenue <= x.revenue <= r.value.best.revenue
    ensures r.Ok? ==> r.value.total == Total(Filter(t, sel)) && r.value.average == Mean(Filter(t, sel))
    ensures r.Ok? ==> r.value.best == Filter(t, sel)[ArgMax(Filter(t, sel))]
    ensures r.Ok? ==> r.value.worst == Filter(t, sel)[ArgMin(Filter(t, sel))]
  {
    var v := Filter(t, sel);
    if v == [] then Err(EmptyView)
    else
      var hi, lo := ArgMax(v), ArgMin(v);
      assert forall x :: x in v ==> v[lo].revenue <= x.revenue <= v[hi].revenue by {
        forall x | x in v ensures v[lo].revenue <= x.revenue <= v[hi].revenue {
          var j :| 0 <= j < |v| && v[j] == x;
        }
      }
      var s := Summary(Total(v), Mean(v), v[hi], v[lo]);
      Ok(s)
  }

  /** The text of a month card: the label, then the amount in parentheses. */
  function MonthCard(r: Record): (c: string)
    ensures |c| == |r.month| + |FormatCurrency(r.revenue)| + 3
    ensures c[..|r.month|] == r.month
    ensures c[|r.month|..|r.month| + 2] == " ("
    ensures c[|r.month| + 2..|c| - 1] == FormatCurrency(r.revenue)
    ensures c[|c| - 1] == ')'
  {
    r.month + " (" + FormatCurrency(r.revenue) + ")"
  }

  /** `c` is the card of row `r`: the row's month, then " (", then an amount
      that reads back as the row's revenue, then ")". */
  predicate ShowsMonth(c: string, r: Record)
  {
    && |c| >= |r.month| + 3
    && c[..|r.month|] == r.month
    && c[|r.month|..|r.month| + 2] == " ("
    && c[|c| - 1] == ')'
    && ShowsAmount(c[|r.month| + 2..|c| - 1], r.revenue)
  }

  /** `n` is `mean` rounded to a whole number: within one half of it, and
      even when `mean` lies exactly halfway between two whole numbers. */
  predicate RoundsMean(n: nat, mean: real)
  {
    && n as real - 0.5 <= mean <= n as real + 0.5
    && (mean == n as real + 0.5 || mean == n as real - 0.5 ==> n % 2 == 0)
  }

  /** The card texts.  The total card reads back as the view's total, the
      average card as the view's mean rounded to a whole number (ties to
      even), and the best and worst cards name the first row with the
      largest and the smallest revenue, followed by that revenue. */
  function CardsOf(t: seq<Record>, sel: string): (c: Result<Cards>)
    ensures c.Ok? <==> Filter(t, sel) != []
    ensures c.Ok? ==> ShowsAmount(c.value.totalCard, Total(Filter(t, sel)))
    ensures c.Ok? ==>
      && ShowsAmount(c.value.averageCard, RoundHalfEven(Total(Filter(t, sel)), |Filter(t, sel)|))
      && RoundsMean(RoundHalfEven(Total(Filter(t, sel)), |Filter(t, sel)|), Mean(Filter(t, sel)))
    ensures c.Ok? ==> ShowsMonth(c.value.bestCard, Filter(t, sel)[ArgMax(Filter(t, sel))])
    ensures c.Ok? ==> ShowsMonth(c.value.worstCard, Filter(t, sel)[ArgMin(Filter(t, sel))])
    ensures c.Ok? ==> c.value.totalCard == FormatCurrency(Render(t, sel).value.total)
    ensures c.Ok? ==>
      c.value.averageCard == FormatCurrency(RoundHalfEven(Render(t, sel).value.total, |Filter(t, sel)|))
    ensures c.Ok? ==> c.value.bestCard == MonthCard(Render(t, sel).value.best)
    ensures c.Ok? ==> c.value.worstCard == MonthCard(Render(t, sel).value.worst)
  {
    var v := Filter(t, sel);
    match Render(t, sel)
    case Err(e) => Err(e)
    case Ok(s) =>
      var avg := RoundHalfEven(Total(v), |v|);
      FormatCurrencyRoundTrip(s.total);
      FormatCurrencyRoundTrip(avg);
      RoundedMean(v);
      MonthCardShows(s.best);
      MonthCardShows(s.worst);
      Ok(Cards(FormatCurrency(s.total), FormatCurrency(avg), MonthCard(s.best), MonthCard(s.worst)))
  }

  /** A month card reads as its row's month and revenue. */
  lemma MonthCardShows(r: Record)
    ensures ShowsMonth(MonthCard(r), r)
  {
    FormatCurrencyRoundTrip(r.revenue);
  }

  /** Rounding the total over the count, ties to even, rounds the mean. */
  lemma RoundedMean(v: seq<Record>)
    requires |v| > 0
    ensures RoundsMean(RoundHalfEven(Total(v), |v|), Mean(v))
  {
    var t, c := Total(v), |v|;
    var n := RoundHalfEven(t, c);
    var avg := Mean(v);
    assert avg * c as real == t as real;
    HalfBounds(t, c, n, avg);
  }

  /** The integer bounds of `RoundHalfEven` carried over to the real quotient
      `avg = t / c`. */
  lemma HalfBounds(t: nat, c: nat, n: nat, avg: real)
    requires c > 0 && avg * c as real == t as real
    requires 2 * t <= (2 * n + 1) * c && (2 * n - 1) * c <= 2 * t
    requires (2 * n + 1) * c == 2 * t || (2 * n - 1) * c == 2 * t ==> n % 2 == 0
    ensures RoundsMean(n, avg)
  {
    var cr, nr, tr := c as real, n as real, t as real;
    IntProduct(2 * n + 1, c);
    IntProduct(2 * n - 1, c);
    RealHalf(tr, cr, nr, avg);
    if avg == nr + 0.5 || avg == nr - 0.5 {
      assert ((2 * n + 1) * c) as real == 2.0 * tr || ((2 * n - 1) * c) as real == 2.0 * tr;
    }
  }

  lemma IntProduct(a: int, b: int)
    ensures (a * b) as real == a as real * b as real
  {
  }

  /** `t / c` lies within one half of `n` when `2t` lies between
      `(2n - 1)c` and `(2n + 1)c`; it is exactly halfway only at the ends. */
  lemma RealHalf(t: real, c: real, n: real, avg: real)
    requires c > 0.0 && avg * c == t
    requires 2.0 * t <= (2.0 * n + 1.0) * c && (2.0 * n - 1.0) * c <= 2.0 * t
    ensures n - 0.5 <= avg <= n + 0.5
    ensures avg == n + 0.5 ==> (2.0 * n + 1.0) * c == 2.0 * t
    ensures avg == n - 0.5 ==> (2.0 * n - 1.0) * c == 2.0 * t
  {
    assert 2.0 * t == (2.0 * avg) * c;
    ScaledLe(2.0 * avg, 2.0 * n + 1.0, c);
    ScaledLe(2.0 * n - 1.0, 2.0 * avg, c);
  }

  lemma ScaledLe(a: real, b: real, c: real)
    requires c > 0.0 && a * c <= b * c
    ensures a <= b
  {
  }

  /** On any table a rendering fails exactly when no row survives the
      filter; in particular the sentinel fails only on an empty table. */
  lemma RenderAll(t: seq<Record>)
    ensures Render(t, AllMonths).Ok? <==> t != []
  {
  }

  /** The options of the embedded table: the sentinel, then 01월..12월. */
  lemma TableOptions()
    ensures Options(Table) == [AllMonths] + MonthLabels
    ensures |Options(Table)| == 13
  {
    TableShape();
    LabelsUnique();
    DistinctOfUnique(MonthLabels);
  }

  /** Selecting one of the twelve labels gives that month's row alone. */
  lemma SelectEachMonth(i: nat)
    requires i < 12
    ensures Filter(Table, MonthLabels[i]) == [Table[i]]
  {
    TableShape();
    TableLabels();
    SelectUnique(Table, i);
  }

  /** The rendering of a one-month view: its total, mean, best and worst
      are all that month's row. */
  lemma RenderEachMonth(i: nat)
    requires i < 12
    ensures Render(Table, MonthLabels[i]) ==
      Ok(Summary(Table[i].revenue, Table[i].revenue as real, Table[i], Table[i]))
  {
    SelectEachMonth(i);
    SingleView(Table[i]);
  }

  /** A label that is neither the sentinel nor a month of the table gives an
      empty view, and the rendering stops; the table itself is a value and
      stays as it was. */
  lemma SelectUnknown(sel: string)
    requires sel != AllMonths && sel !in MonthLabels
    ensures Filter(Table, sel) == []
    ensures Render(Table, sel) == Err(EmptyView)
  {
    TableLabels();
    SelectAbsent(Table, sel);
  }

  /** The options the sidebar offers for the embedded table, as a
      membership test. */
  lemma TableOptionMembers(sel: string)
    ensures sel in Options(Table) <==> sel == AllMonths || sel in MonthLabels
  {
    TableOptions();
    assert sel in [AllMonths] + MonthLabels <==> sel == AllMonths || sel in MonthLabels;
  }

  /** On the embedded table a rendering succeeds exactly for the options
      the sidebar offers. */
  lemma RenderSucceedsOnOptions(sel: string)
    ensures Render(Table, sel).Ok? <==> sel in Options(Table)
  {
    TableOptionMembers(sel);
    if sel == AllMonths {
      assert Filter(Table, sel) == Table;
    } else if sel in MonthLabels {
      SelectEachMonth(FirstIndex(MonthLabels, sel));
    } else {
      SelectUnknown(sel);
    }
  }

  /** July's row as the dashboard shows it: revenue 22,500,000 and growth
      18.4%. */
  lemma SelectJuly()
    ensures Filter(Table, "07월") == [Record("07월", 22500000, 19000000, 184)]
  {
    JulyRow();
    SelectEachMonth(6);
  }

  /** Row 7 of the embedded table. */
  lemma JulyRow()
    ensures MonthLabels[6] == "07월"
    ensures Table[6] == Record("07월", 22500000, 19000000, 184)
  {
  }

  /** The whole table sums to 244,000,000. */
  lemma TableTotal()
    ensures Total(Table) == 244000000
  {
    var a, b := Table[..6], Table[6..];
    assert Table == a + b;
    TotalAppend(a, b);
  }

  /** The best month of the whole table is 12월 with 28,000,000. */
  lemma TableBest()
    ensures ArgMax(Table) == 11
    ensures Table[11].month == "12월" && Table[11].revenue == 28000000
  {
    ArgMaxUnique(Table, 11);
  }

  /** The worst month of the whole table is 03월 with 11,000,000. */
  lemma TableWorst()
    ensures ArgMin(Table) == 2
    ensures Table[2].month == "03월" && Table[2].revenue == 11000000
  {
    ArgMinUnique(Table, 2);
  }

  /** The whole table's figures: the average is 244000000/12, the best month
      is 12월 and the worst is 03월. */
  lemma TableSummary()
    ensures Render(Table, AllMonths) ==
      Ok(Summary(244000000, 244000000 as real / 12 as real, Table[11], Table[2]))
  {
    TableTotal();
    TableBest();
    TableWorst();
    assert Filter(Table, AllMonths) == Table;
  }

  /** The total and average cards for the whole table. */
  lemma TableCards()
    ensures CardsOf(Table, AllMonths).Ok?
    ensures CardsOf(Table, AllMonths).value.totalCard == "₩244,000,000"
    ensures CardsOf(Table, AllMonths).value.averageCard == "₩20,333,333"
  {
    TableSummary();
    TableTotal();
    assert Filter(Table, AllMonths) == Table;
    FormatTotalCard();
    FormatAverageCard();
  }
}
