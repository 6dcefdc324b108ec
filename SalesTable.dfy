/** The fixed table of twelve monthly sales records that the dashboard
    embeds as CSV text (columns 월, 매출액, 전년동월, 증감률) and coerces to
    integers when it loads. */
module SalesTable {

  /** One row of the table.  The growth rate is the percentage written in the
      embedded data, kept in integer tenths of a percent (18.4 is 184); the
      dashboard never recomputes it from the two revenues. */
  datatype Record = Record(month: string, revenue: nat, priorRevenue: nat, growthTenths: int)

  /** The table exactly as embedded, in calendar order. */
  const Table: seq<Record> := [
    Record("01월", 12000000, 10500000, 143),
    Record("02월", 13500000, 11200000, 205),
    Record("03월", 11000000, 12800000, -141),
    Record("04월", 18000000, 15200000, 184),
    Record("05월", 21000000, 18500000, 135),
    Record("06월", 24000000, 20100000, 194),
    Record("07월", 22500000, 19000000, 184),
    Record("08월", 23000000, 20500000, 122),
    Record("09월", 19500000, 18000000, 83),
    Record("10월", 25000000, 21500000, 163),
    Record("11월", 26500000, 23000000, 152),
    Record("12월", 28000000, 25000000, 120)
  ]

  /** The twelve month labels in calendar order. */
  const MonthLabels: seq<string> :=
    ["01월", "02월", "03월", "04월", "05월", "06월",
     "07월", "08월", "09월", "10월", "11월", "12월"]

  /** The month column of a table, row by row. */
  function Months(t: seq<Record>): (ms: seq<string>)
    ensures |ms| == |t|
    ensures forall i :: 0 <= i < |t| ==> ms[i] == t[i].month
  {
    if t == [] then [] else [t[0].month] + Months(t[1..])
  }

  /** No two rows of `t` carry the same month label. */
  predicate UniqueMonths(t: seq<Record>)
  {
    forall i, j :: 0 <= i < j < |t| ==> t[i].month != t[j].month
  }

  /** The number a label of the form "NN월" stands for. */
  function LabelNumber(m: string): int
  {
    if |m| < 2 then -1 else (m[0] as int - 0x30) * 10 + (m[1] as int - 0x30)
  }

  /** Row `i` of the embedded table is the month numbered `i + 1`. */
  lemma TableLabels()
    ensures |Table| == 12
    ensures forall i :: 0 <= i < 12 ==> Table[i].month == MonthLabels[i]
    ensures forall i :: 0 <= i < 12 ==> LabelNumber(Table[i].month) == i + 1
  {
  }

  /** No month label is listed twice. */
  lemma LabelsUnique()
    ensures forall i, j :: 0 <= i < j < |MonthLabels| ==> MonthLabels[i] != MonthLabels[j]
  {
    assert forall i :: 0 <= i < 12 ==> LabelNumber(MonthLabels[i]) == i + 1;
  }

  /** The embedded table has twelve rows, labelled 01월..12월 in order, with
      no label repeated. */
  lemma TableShape()
    ensures |Table| == 12
    ensures Months(Table) == MonthLabels
    ensures UniqueMonths(Table)
  {
    TableLabels();
    assert Months(Table) == MonthLabels;
  }
}
