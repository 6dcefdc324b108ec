/** The dashboard's currency formatting: a won sign followed by the amount's
    decimal digits with a comma between every group of three, counted from
    the right (Python's `,.0f` format specification). */
module Currency {

  /** The currency symbol that starts every formatted amount. */
  const Won: char := '₩'

  predicate IsDigit(c: char)
  {
    '0' <= c <= '9'
  }

  predicate AllDigits(s: string)
  {
    forall i :: 0 <= i < |s| ==> IsDigit(s[i])
  }

  function DigitChar(d: nat): (c: char)
    requires d < 10
    ensures IsDigit(c)
  {
    (0x30 + d) as char
  }

  function DigitValue(c: char): (d: nat)
    requires IsDigit(c)
    ensures d < 10
    ensures DigitChar(d) == c
  {
    c as int - 0x30
  }

  /** The decimal representation of `n`: most significant digit first, no
      leading zero except for the single digit of zero. */
  function Digits(n: nat): (ds: string)
    ensures |ds| >= 1
    ensures AllDigits(ds)
    ensures ds[0] == '0' <==> n == 0
  {
    if n < 10 then [DigitChar(n)] else Digits(n / 10) + [DigitChar(n % 10)]
  }

  /** The number a string of decimal digits denotes. */
  function ValueOf(ds: string): nat
    requires AllDigits(ds)
  {
    if ds == [] then 0 else ValueOf(ds[..|ds| - 1]) * 10 + DigitValue(ds[|ds| - 1])
  }

  /** Reading back the decimal representation gives the number. */
  lemma {:induction false} DigitsRoundTrip(n: nat)
    ensures ValueOf(Digits(n)) == n
  {
    var ds := Digits(n);
    if n >= 10 {
      DigitsRoundTrip(n / 10);
      assert ds[..|ds| - 1] == Digits(n / 10);
    }
  }

  /** Every canonical digit string (non-empty, no leading zero unless it is
      "0") is the decimal representation of the number it denotes. */
  lemma {:induction false} CanonicalDigits(ds: string)
    requires |ds| >= 1 && AllDigits(ds)
    requires ds[0] == '0' ==> |ds| == 1
    ensures Digits(ValueOf(ds)) == ds
  {
    if |ds| > 1 {
      var p := ds[..|ds| - 1];
      CanonicalDigits(p);
      var v := ValueOf(p);
      assert p[0] == ds[0];
      var n := ValueOf(ds);
      assert n / 10 == v && n % 10 == DigitValue(ds[|ds| - 1]);
    }
  }

  predicate NoCommas(s: string)
  {
    forall i :: 0 <= i < |s| ==> s[i] != ','
  }

  /** `s` with every comma removed. */
  function StripCommas(s: string): (r: string)
    ensures NoCommas(r)
    ensures |r| <= |s|
  {
    if s == [] then []
    else if s[0] == ',' then StripCommas(s[1..])
    else [s[0]] + StripCommas(s[1..])
  }

  lemma {:induction false} StripCommasAppend(a: string, b: string)
    ensures StripCommas(a + b) == StripCommas(a) + StripCommas(b)
  {
    if a != [] {
      assert (a + b)[0] == a[0] && (a + b)[1..] == a[1..] + b;
      StripCommasAppend(a[1..], b);
      if a[0] != ',' {
        assert StripCommas(a + b) == [a[0]] + (StripCommas(a[1..]) + StripCommas(b));
      }
    } else {
      assert a + b == b;
    }
  }

  lemma {:induction false} StripCommasNone(s: string)
    requires NoCommas(s)
    ensures StripCommas(s) == s
  {
    if s != [] {
      StripCommasNone(s[1..]);
    }
  }

  /** The comma layout of thousands grouping: counting positions from the
      right end, exactly every fourth character is a comma, and the string
      does not start with one, so the leftmost group has one to three
      characters and every later group has exactly three. */
  predicate ThousandsLayout(g: string)
  {
    && (forall i :: 0 <= i < |g| ==> (g[i] == ',' <==> (|g| - i) % 4 == 0))
    && |g| % 4 != 0
  }

  /** Inserts a comma before every group of three digits counted from the
      right. */
  function Group(ds: string): (g: string)
    requires |ds| >= 1 && NoCommas(ds)
    ensures ThousandsLayout(g)
    ensures StripCommas(g) == ds
    ensures |g| == |ds| + (|ds| - 1) / 3
  {
    if |ds| <= 3 then
      StripCommasNone(ds);
      ds
    else
      var p, q := ds[..|ds| - 3], ds[|ds| - 3..];
      assert p + q == ds;
      var h := Group(p);
      LayoutStep(h, q);
      StripStep(h, q);
      h + [','] + q
  }

  /** Appending a comma and a three-character group keeps the layout. */
  lemma LayoutStep(h: string, q: string)
    requires ThousandsLayout(h) && |q| == 3 && NoCommas(q)
    ensures ThousandsLayout(h + [','] + q)
  {
    var g := h + [','] + q;
    forall i | 0 <= i < |g| ensures g[i] == ',' <==> (|g| - i) % 4 == 0 {
      if i < |h| {
        assert g[i] == h[i] && |g| - i == (|h| - i) + 4;
      } else if i == |h| {
        assert g[i] == ',';
      } else {
        assert g[i] == q[i - |h| - 1];
      }
    }
  }

  /** Removing the commas of an appended group leaves the group's digits. */
  lemma StripStep(h: string, q: string)
    requires NoCommas(q)
    ensures StripCommas(h + [','] + q) == StripCommas(h) + q
  {
    StripCommasAppend(h + [','], q);
    StripCommasAppend(h, [',']);
    StripCommasNone(q);
  }

  /** `format_currency` on a non-negative whole number. */
  function FormatCurrency(n: nat): (s: string)
    ensures |s| >= 2 && s[0] == Won
    ensures ThousandsLayout(s[1..])
    ensures StripCommas(s[1..]) == Digits(n)
  {
    var ds := Digits(n);
    assert NoCommas(ds) by {
      forall i | 0 <= i < |ds| ensures ds[i] != ',' { assert IsDigit(ds[i]); }
    }
    var s := [Won] + Group(ds);
    assert s[1..] == Group(ds);
    s
  }

  /** `s` is a currency text that reads back as the amount `n`: a won sign,
      then digits (and commas) denoting `n`. */
  predicate ShowsAmount(s: string, n: nat)
  {
    && |s| >= 2 && s[0] == Won
    && AllDigits(StripCommas(s[1..]))
    && ValueOf(StripCommas(s[1..])) == n
  }

  /** Dropping the won sign and the commas and reading the digits back gives
      the amount that was formatted. */
  lemma FormatCurrencyRoundTrip(n: nat)
    ensures AllDigits(StripCommas(FormatCurrency(n)[1..]))
    ensures ValueOf(StripCommas(FormatCurrency(n)[1..])) == n
    ensures ShowsAmount(FormatCurrency(n), n)
  {
    DigitsRoundTrip(n);
  }

  /** Two amounts format alike only if they are equal. */
  lemma FormatCurrencyInjective(m: nat, n: nat)
    requires FormatCurrency(m) == FormatCurrency(n)
    ensures m == n
  {
    FormatCurrencyRoundTrip(m);
    FormatCurrencyRoundTrip(n);
  }

  /** Three digit characters for `b`, with leading zeros. */
  function ThreeDigits(b: nat): (s: string)
    requires b < 1000
    ensures |s| == 3 && AllDigits(s)
  {
    [DigitChar(b / 100), DigitChar(b / 10 % 10), DigitChar(b % 10)]
  }

  /** The decimal digits of `a * 1000 + b` are those of `a` followed by the
      three digits of `b`. */
  lemma DigitsThousands(a: nat, b: nat)
    requires a >= 1 && b < 1000
    ensures Digits(a * 1000 + b) == Digits(a) + ThreeDigits(b)
  {
    var n := a * 1000 + b;
    assert n / 10 == a * 100 + b / 10 && n % 10 == b % 10;
    assert (a * 100 + b / 10) / 10 == a * 10 + b / 100;
    assert (a * 100 + b / 10) % 10 == b / 10 % 10;
    assert (a * 10 + b / 100) / 10 == a && (a * 10 + b / 100) % 10 == b / 100;
    assert Digits(a * 10 + b / 100) == Digits(a) + [DigitChar(b / 100)];
    assert Digits(a * 100 + b / 10) == Digits(a) + [DigitChar(b / 100)] + [DigitChar(b / 10 % 10)];
  }

  /** Formatting `a * 1000 + b` appends a comma and the three digits of `b`
      to the formatting of `a`: the grouping is built from the right. */
  lemma FormatThousands(a: nat, b: nat)
    requires a >= 1 && b < 1000
    ensures FormatCurrency(a * 1000 + b) == FormatCurrency(a) + [','] + ThreeDigits(b)
  {
    DigitsThousands(a, b);
    var ds := Digits(a * 1000 + b);
    assert ds[..|ds| - 3] == Digits(a) && ds[|ds| - 3..] == ThreeDigits(b);
  }

  /** Rounding `num / den` to the nearest whole number, ties to the even
      neighbour, as the `.0f` precision does. */
  function RoundHalfEven(num: nat, den: nat): (r: nat)
    requires den > 0
    ensures 2 * num <= (2 * r + 1) * den
    ensures (2 * r - 1) * den <= 2 * num
    ensures (2 * r + 1) * den == 2 * num || (2 * r - 1) * den == 2 * num ==> r % 2 == 0
  {
    var q, m := num / den, num % den;
    assert num == q * den + m;
    assert (2 * q + 1) * den == 2 * (q * den) + den;
    assert (2 * q - 1) * den == 2 * (q * den) - den;
    assert (2 * (q + 1) + 1) * den == 2 * (q * den) + 3 * den;
    assert (2 * (q + 1) - 1) * den == 2 * (q * den) + den;
    if 2 * m < den then q
    else if 2 * m > den then q + 1
    else if q % 2 == 0 then q
    else q + 1
  }

  /** A whole amount is shown unrounded. */
  lemma RoundWhole(n: nat)
    ensures RoundHalfEven(n, 1) == n
  {
  }

  // The amounts the dashboard shows for the whole embedded table.

  /** One grouping step, phrased on already-known texts. */
  lemma GroupStep(a: nat, b: nat, sa: string, sb: string)
    requires a >= 1 && b < 1000
    requires FormatCurrency(a) == sa && ThreeDigits(b) == sb
    ensures FormatCurrency(a * 1000 + b) == sa + [','] + sb
  {
    FormatThousands(a, b);
  }

  lemma TrailingGroups()
    ensures ThreeDigits(0) == "000" && ThreeDigits(333) == "333"
  {
    assert DigitChar(0) == '0' && DigitChar(3) == '3';
  }

  lemma LeadingGroup244()
    ensures FormatCurrency(244) == "₩244"
  {
    assert DigitChar(2) == '2' && DigitChar(4) == '4';
    assert Digits(24) == Digits(2) + "4";
  }

  lemma LeadingGroup20()
    ensures FormatCurrency(20) == "₩20"
  {
    assert DigitChar(2) == '2' && DigitChar(0) == '0';
  }

  /** The dashboard's whole-table total, formatted. */
  lemma FormatTotalCard()
    ensures FormatCurrency(244000000) == "₩244,000,000"
  {
    LeadingGroup244();
    TrailingGroups();
    GroupStep(244, 0, "₩244", "000");
    assert "₩244" + [','] + "000" == "₩244,000";
    GroupStep(244000, 0, "₩244,000", "000");
    assert "₩244,000" + [','] + "000" == "₩244,000,000";
  }

  /** The whole-table monthly average 244000000/12, rounded and formatted. */
  lemma FormatAverageCard()
    ensures FormatCurrency(RoundHalfEven(244000000, 12)) == "₩20,333,333"
  {
    assert RoundHalfEven(244000000, 12) == 20333333;
    LeadingGroup20();
    TrailingGroups();
    GroupStep(20, 333, "₩20", "333");
    assert "₩20" + [','] + "333" == "₩20,333";
    GroupStep(20333, 333, "₩20,333", "333");
    assert "₩20,333" + [','] + "333" == "₩20,333,333";
  }
}
