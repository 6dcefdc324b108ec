/** The four summary figures computed over a view of the table: the revenue
    column's sum, mean, and the first position of its largest and smallest
    value (pandas' `sum`, `mean`, `idxmax`, `idxmin`). */
module Aggregates {
  import opened SalesTable

  /** Sum of the revenue column; zero for an empty view.  No row's revenue
      exceeds it, since revenues are never negative. */
  function Total(v: seq<Record>): (s: nat)
    ensures forall j :: 0 <= j < |v| ==> v[j].revenue <= s
  {
    if v == [] then 0
    else
      var rest := Total(v[1..]);
      assert forall j :: 1 <= j < |v| ==> v[j] == v[1..][j - 1];
      v[0].revenue + rest
  }

  /** The empty view sums to zero (the page then shows ₩0). */
  lemma TotalEmpty()
    ensures Total([]) == 0
  {
  }

  /** The total of two consecutive pieces is the sum of their totals. */
  lemma {:induction false} TotalAppend(a: seq<Record>, b: seq<Record>)
    ensures Total(a + b) == Total(a) + Total(b)
  {
    if a == [] {
      assert a + b == b;
    } else {
      assert (a + b)[1..] == a[1..] + b;
      TotalAppend(a[1..], b);
    }
  }

  /** The total of a one-row view is that row's revenue. */
  lemma TotalSingle(r: Record)
    ensures Total([r]) == r.revenue
  {
  }

  /** Arithmetic mean of the revenue column. */
  function Mean(v: seq<Record>): (avg: real)
    requires |v| > 0
    ensures avg * |v| as real == Total(v) as real
  {
    Total(v) as real / |v| as real
  }

  /** Position of the largest revenue, the first one if several rows share
      it. */
  function ArgMax(v: seq<Record>): (k: nat)
    requires |v| > 0
    ensures k < |v|
    ensures forall j :: 0 <= j < |v| ==> v[j].revenue <= v[k].revenue
    ensures forall j :: 0 <= j < k ==> v[j].revenue < v[k].revenue
  {
    if |v| == 1 then 0
    else
      var k := ArgMax(v[..|v| - 1]);
      if v[|v| - 1].revenue > v[k].revenue then |v| - 1 else k
  }

  /** Position of the smallest revenue, the first one if several rows share
      it. */
  function ArgMin(v: seq<Record>): (k: nat)
    requires |v| > 0
    ensures k < |v|
    ensures forall j :: 0 <= j < |v| ==> v[k].revenue <= v[j].revenue
    ensures forall j :: 0 <= j < k ==> v[k].revenue < v[j].revenue
  {
    if |v| == 1 then 0
    else
      var k := ArgMin(v[..|v| - 1]);
      if v[|v| - 1].revenue < v[k].revenue then |v| - 1 else k
  }

  /** The first-occurrence maximum is the only position with both
      properties. */
  lemma ArgMaxUnique(v: seq<Record>, k: nat)
    requires k < |v|
    requires forall j :: 0 <= j < |v| ==> v[j].revenue <= v[k].revenue
    requires forall j :: 0 <= j < k ==> v[j].revenue < v[k].revenue
    ensures ArgMax(v) == k
  {
  }

  /** The first-occurrence minimum is the only position with both
      properties. */
  lemma ArgMinUnique(v: seq<Record>, k: nat)
    requires k < |v|
    requires forall j :: 0 <= j < |v| ==> v[k].revenue <= v[j].revenue
    requires forall j :: 0 <= j < k ==> v[k].revenue < v[j].revenue
    ensures ArgMin(v) == k
  {
  }

  /** The total lies between `|v|` times any lower bound and `|v|` times any
      upper bound of the revenues. */
  lemma {:induction false} TotalBounds(v: seq<Record>, lo: nat, hi: nat)
    requires forall j :: 0 <= j < |v| ==> lo <= v[j].revenue <= hi
    ensures |v| * lo <= Total(v) <= |v| * hi
  {
    if v != [] {
      var n := |v| - 1;
      assert forall j :: 0 <= j < n ==> v[1..][j] == v[j + 1];
      TotalBounds(v[1..], lo, hi);
      assert Total(v) == v[0].revenue + Total(v[1..]);
      assert |v| * lo == lo + n * lo && |v| * hi == hi + n * hi;
    }
  }

  /** The mean lies between any lower and any upper bound of the revenues. */
  lemma MeanBounds(v: seq<Record>, lo: nat, hi: nat)
    requires |v| > 0
    requires forall j :: 0 <= j < |v| ==> lo <= v[j].revenue <= hi
    ensures lo as real <= Mean(v) <= hi as real
  {
    TotalBounds(v, lo, hi);
    var c := |v|;
    CastProduct(c, lo);
    CastProduct(c, hi);
    QuotientBounds(Total(v) as real, c as real, lo as real, hi as real);
  }

  /** The mean lies between the smallest and the largest revenue. */
  lemma MeanBetweenExtremes(v: seq<Record>)
    requires |v| > 0
    ensures v[ArgMin(v)].revenue as real <= Mean(v) <= v[ArgMax(v)].revenue as real
  {
    MeanBounds(v, v[ArgMin(v)].revenue, v[ArgMax(v)].revenue);
  }

  lemma CastProduct(a: nat, b: nat)
    ensures (a * b) as real == a as real * b as real
  {
  }

  lemma QuotientBounds(t: real, n: real, lo: real, hi: real)
    requires n > 0.0 && n * lo <= t <= n * hi
    ensures lo <= t / n <= hi
  {
  }

  /** On a one-row view the mean, the maximum and the minimum are that row. */
  lemma SingleView(r: Record)
    ensures Total([r]) == r.revenue
    ensures Mean([r]) == r.revenue as real
    ensures ArgMax([r]) == 0 && ArgMin([r]) == 0
  {
  }
}
