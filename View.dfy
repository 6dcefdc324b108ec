/** The sidebar's month options and the filtered view of the table that the
    selected option produces. */
module View {
  import opened SalesTable

  /** The sentinel option that selects the whole table ("all"). */
  const AllMonths: string := "전체"

  /** `a` can be obtained from `b` by deleting elements, keeping order. */
  predicate IsSubsequence<T(==)>(a: seq<T>, b: seq<T>)
    decreases |b|
  {
    if a == [] then true
    else if b == [] then false
    else if a[0] == b[0] then IsSubsequence(a[1..], b[1..])
    else IsSubsequence(a, b[1..])
  }

  /** The rows of `t` whose month is `m`, in table order (a boolean-mask
      selection on the month column). */
  function Select(t: seq<Record>, m: string): (v: seq<Record>)
    ensures forall i :: 0 <= i < |v| ==> v[i].month == m
    ensures forall x :: multiset(v)[x] == (if x.month == m then multiset(t)[x] else 0)
    ensures IsSubsequence(v, t)
  {
    if t == [] then []
    else
      var rest := Select(t[1..], m);
      assert t == [t[0]] + t[1..];
      if t[0].month == m then
        assert ([t[0]] + rest)[1..] == rest;
        [t[0]] + rest
      else
        rest
  }

  /** The view the selection `sel` produces: the table itself for the
      sentinel, otherwise the rows whose month equals `sel`. */
  function Filter(t: seq<Record>, sel: string): (v: seq<Record>)
    ensures sel == AllMonths ==> v == t
    ensures sel != AllMonths ==> forall i :: 0 <= i < |v| ==> v[i].month == sel
    ensures sel != AllMonths ==> forall x ::
      multiset(v)[x] == (if x.month == sel then multiset(t)[x] else 0)
    ensures IsSubsequence(v, t)
  {
    SubsequenceReflexive(t);
    if sel == AllMonths then t else Select(t, sel)
  }

  lemma {:induction false} SubsequenceReflexive<T>(s: seq<T>)
    ensures IsSubsequence(s, s)
  {
    if s != [] {
      SubsequenceReflexive(s[1..]);
    }
  }

  /** Selecting a month no row carries gives the empty view. */
  lemma {:induction false} SelectAbsent(t: seq<Record>, m: string)
    requires forall i :: 0 <= i < |t| ==> t[i].month != m
    ensures Select(t, m) == []
  {
    if t != [] {
      SelectAbsent(t[1..], m);
    }
  }

  /** When month labels are unique, selecting the label of row `k` gives
      exactly that row. */
  lemma {:induction false} SelectUnique(t: seq<Record>, k: nat)
    requires UniqueMonths(t)
    requires k < |t|
    ensures Select(t, t[k].month) == [t[k]]
  {
    var m := t[k].month;
    if k == 0 {
      SelectAbsent(t[1..], m);
    } else {
      assert UniqueMonths(t[1..]);
      SelectUnique(t[1..], k - 1);
      assert t[1..][k - 1] == t[k];
    }
  }

  /** Selecting again with the same month changes nothing. */
  lemma {:induction false} SelectIdempotent(t: seq<Record>, m: string)
    ensures Select(Select(t, m), m) == Select(t, m)
  {
    if t != [] {
      SelectIdempotent(t[1..], m);
      var rest := Select(t[1..], m);
      if t[0].month == m {
        assert ([t[0]] + rest)[1..] == rest;
      }
    }
  }

  /** Re-filtering a view with the selection that produced it gives the same
      view. */
  lemma FilterIdempotent(t: seq<Record>, sel: string)
    ensures Filter(Filter(t, sel), sel) == Filter(t, sel)
  {
    if sel != AllMonths {
      SelectIdempotent(t, sel);
    }
  }

  /** The index of the first occurrence of `x` in `s`. */
  function FirstIndex(s: seq<string>, x: string): (k: nat)
    requires x in s
    ensures k < |s| && s[k] == x
    ensures forall j :: 0 <= j < k ==> s[j] != x
  {
    if s[0] == x then 0 else 1 + FirstIndex(s[1..], x)
  }

  /** The distinct elements of `s` in order of first appearance, as pandas'
      `unique` returns them. */
  function Distinct(s: seq<string>): (d: seq<string>)
    ensures forall i, j :: 0 <= i < j < |d| ==> d[i] != d[j]
    ensures forall x :: x in d <==> x in s
  {
    if s == [] then []
    else
      var p := s[..|s| - 1];
      var d := Distinct(p);
      assert forall x :: x in s <==> x in p || x == s[|s| - 1];
      if s[|s| - 1] in d then d else d + [s[|s| - 1]]
  }

  /** The first appearance of an element of a prefix is inside the prefix. */
  lemma FirstIndexPrefix(s: seq<string>, n: nat, x: string)
    requires n <= |s| && x in s[..n]
    ensures FirstIndex(s, x) == FirstIndex(s[..n], x)
  {
    var k, k' := FirstIndex(s, x), FirstIndex(s[..n], x);
    assert s[k'] == x;
  }

  /** `Distinct` lists the elements in order of their first appearance. */
  lemma {:induction false} DistinctOrder(s: seq<string>)
    ensures forall i, j :: 0 <= i < j < |Distinct(s)| ==>
      FirstIndex(s, Distinct(s)[i]) < FirstIndex(s, Distinct(s)[j])
  {
    if s != [] {
      var n := |s| - 1;
      var p, d := s[..n], Distinct(s[..n]);
      DistinctOrder(p);
      forall x | x in d ensures FirstIndex(s, x) == FirstIndex(p, x) < n {
        FirstIndexPrefix(s, n, x);
      }
      if s[n] !in d {
        assert FirstIndex(s, s[n]) == n;
        assert d + [s[n]] == Distinct(s);
      }
    }
  }

  /** A sequence without repeated elements is its own distinct list. */
  lemma {:induction false} DistinctOfUnique(s: seq<string>)
    requires forall i, j :: 0 <= i < j < |s| ==> s[i] != s[j]
    ensures Distinct(s) == s
  {
    if s != [] {
      var n := |s| - 1;
      DistinctOfUnique(s[..n]);
      assert s[..n] + [s[n]] == s;
    }
  }

  /** The sidebar options: the sentinel, then the distinct month labels in
      order of their first row. */
  function Options(t: seq<Record>): (opts: seq<string>)
    ensures |opts| >= 1 && opts[0] == AllMonths
    ensures forall m :: m in opts[1..] <==> exists i :: 0 <= i < |t| && t[i].month == m
    ensures forall i, j :: 1 <= i < j < |opts| ==> opts[i] != opts[j]
    ensures forall i, j :: 1 <= i < j < |opts| ==>
      opts[i] in Months(t) && opts[j] in Months(t) &&
      FirstIndex(Months(t), opts[i]) < FirstIndex(Months(t), opts[j])
  {
    var d := Distinct(Months(t));
    DistinctOrder(Months(t));
    assert ([AllMonths] + d)[1..] == d;
    forall m | m in d ensures exists i :: 0 <= i < |t| && t[i].month == m {
      var i := FirstIndex(Months(t), m);
      assert t[i].month == m;
    }
    [AllMonths] + d
  }
}
