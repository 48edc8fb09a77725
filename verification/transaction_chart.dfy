/**
 * The "Daily Spending" bar chart of src/components/TransactionChart.tsx: the
 * amounts of the dated transactions are summed per `day/month` label in a
 * `Map`, the labels are sorted by the day of 2025 they name, and each bar is
 * the total of its label.
 */
module TransactionChart {
  import opened Seqs
  import opened JsText
  import opened Sorting
  import opened TransactionModel

  const BarWidth: nat := 30
  const BarMargin: nat := 20

  /** A slot of `const [year, month, day] = parts` past the end is `undefined`, which a template prints as such. */
  function PartOr(parts: seq<string>, i: nat): string
  {
    if i < |parts| then parts[i] else "undefined"
  }

  /** `${day}/${month}` for the pieces of `date.split("-")`. */
  function DayLabel(date: string): string
  {
    var parts := Split(date, '-');
    PartOr(parts, 2) + "/" + PartOr(parts, 1)
  }

  function LabelOf(t: Transaction): string
  {
    DayLabel(t.date)
  }

  /** `if (!t.date) return;`: only transactions with a non-empty date are charted. */
  function Dated(): Transaction -> bool
  {
    (t: Transaction) => t.date != ""
  }

  /** A `YYYY-MM-DD` date becomes `DD/MM`. */
  lemma DayLabelOfIsoDate(y: string, m: string, d: string)
    requires '-' !in y && '-' !in m && '-' !in d
    ensures DayLabel(y + "-" + m + "-" + d) == d + "/" + m
  {
    SplitJoined3(y, m, d, '-');
  }

  /** The year is dropped, so one day and month in two different years share a bar. */
  lemma YearIsDiscarded(y1: string, y2: string, m: string, d: string)
    requires '-' !in y1 && '-' !in y2 && '-' !in m && '-' !in d
    ensures DayLabel(y1 + "-" + m + "-" + d) == DayLabel(y2 + "-" + m + "-" + d)
  {
    DayLabelOfIsoDate(y1, m, d);
    DayLabelOfIsoDate(y2, m, d);
  }

  /** The `Map` a label's bar reads: the running total per label. */
  function DayTotals(s: seq<Transaction>): map<string, real>
  {
    TotalsBy(s, LabelOf, Dated())
  }

  /** The labels in the order the `Map` first received them. */
  function LabelsByArrival(s: seq<Transaction>): seq<string>
  {
    FirstAppearances(KeysOf(s, LabelOf, Dated()))
  }

  /** One more transaction: a dated one adds its amount under its label; an undated one changes nothing. */
  lemma GroupStep(p: seq<Transaction>, t: Transaction)
    ensures var m := DayTotals(p);
            var k := LabelOf(t);
            DayTotals(p + [t]) == if t.date == "" then m else m[k := (if k in m then m[k] else 0.0) + AmountOf(t)]
  {
    TotalsBySnoc(p, t, LabelOf, Dated());
  }

  /** One more transaction: a dated one whose label has no entry yet puts that label last in the key order. */
  lemma ArrivalStep(p: seq<Transaction>, t: Transaction)
    ensures LabelsByArrival(p + [t])
         == if t.date != "" && LabelOf(t) !in DayTotals(p) then LabelsByArrival(p) + [LabelOf(t)] else LabelsByArrival(p)
  {
    KeyArrivalSnoc(p, t, LabelOf, Dated());
  }

  /** What the `forEach` callback does with one transaction to the totals and their key order. */
  function Visit(grouped: map<string, real>, order: seq<string>, t: Transaction): (map<string, real>, seq<string>)
  {
    if t.date == "" then (grouped, order)
    else
      var k := LabelOf(t);
      (grouped[k := (if k in grouped then grouped[k] else 0.0) + AmountOf(t)],
       if k in grouped then order else order + [k])
  }

  /** Visiting one more transaction carries the totals and the key order of a prefix to those of the longer prefix. */
  lemma VisitStep(p: seq<Transaction>, t: Transaction)
    ensures Visit(DayTotals(p), LabelsByArrival(p), t) == (DayTotals(p + [t]), LabelsByArrival(p + [t]))
  {
    assert DayTotals(p + [t]) == Visit(DayTotals(p), LabelsByArrival(p), t).0 by {
      GroupStep(p, t);
    }
    assert LabelsByArrival(p + [t]) == Visit(DayTotals(p), LabelsByArrival(p), t).1 by {
      ArrivalStep(p, t);
    }
  }

  /**
   * The record holds an entry for exactly the labels of the dated transactions,
   * each the sum of their amounts, and the arrival order lists each such label once.
   */
  lemma DayTotalsSpec(s: seq<Transaction>)
    ensures forall l :: l in DayTotals(s) <==> HasKey(s, LabelOf, Dated(), l)
    ensures forall l :: l in DayTotals(s) ==> DayTotals(s)[l] == SumIf(s, KeyedBy(LabelOf, Dated(), l))
    ensures NoDups(LabelsByArrival(s)) && forall l :: l in LabelsByArrival(s) <==> l in DayTotals(s)
  {
    forall l ensures (l in DayTotals(s) <==> HasKey(s, LabelOf, Dated(), l)) && (l in LabelsByArrival(s) <==> l in DayTotals(s)) {
      TotalsByKeys(s, LabelOf, Dated(), l);
      FirstAppearancesMember(KeysOf(s, LabelOf, Dated()), l);
    }
    forall l | l in DayTotals(s) ensures DayTotals(s)[l] == SumIf(s, KeyedBy(LabelOf, Dated(), l)) {
      TotalsByValue(s, LabelOf, Dated(), l);
    }
  }

  /**
   * The `forEach` callback: skip an undated transaction, otherwise add its
   * amount to its label's running total, a new label going last in key order.
   */
  method AddToGroup(grouped: map<string, real>, order: seq<string>, t: Transaction)
    returns (grouped': map<string, real>, order': seq<string>)
    ensures (grouped', order') == Visit(grouped, order, t)
  {
    grouped', order' := grouped, order;
    if t.date == "" {
      return;
    }
    var formatted := DayLabel(t.date);
    var amount := AmountOf(t);
    var currentAmount := if formatted in grouped then grouped[formatted] else 0.0;
    if formatted !in grouped {
      order' := order + [formatted];
    }
    grouped' := grouped[formatted := currentAmount + amount];
    assert formatted == LabelOf(t);
  }

  /**
   * The `forEach` over the transactions, filling `grouped`; `order` is the key
   * order `[...grouped.keys()]` later reads, which a JavaScript `Map` keeps by
   * first insertion.
   */
  method GroupByDay(s: seq<Transaction>) returns (grouped: map<string, real>, order: seq<string>)
    ensures grouped == DayTotals(s) && order == LabelsByArrival(s)
    ensures forall l :: l in grouped <==> HasKey(s, LabelOf, Dated(), l)
    ensures forall l :: l in grouped ==> grouped[l] == SumIf(s, KeyedBy(LabelOf, Dated(), l))
    ensures NoDups(order) && forall l :: l in order <==> l in grouped
  {
    grouped := map[];
    order := [];
    var i := 0;
    while i < |s|
      invariant i <= |s|
      invariant (grouped, order) == (DayTotals(s[..i]), LabelsByArrival(s[..i]))
    {
      grouped, order := AddToGroup(grouped, order, s[i]);
      assert (grouped, order) == (DayTotals(s[..i + 1]), LabelsByArrival(s[..i + 1])) by {
        assert s[..i + 1] == s[..i] + [s[i]];
        VisitStep(s[..i], s[i]);
      }
      i := i + 1;
    }
    assert grouped == DayTotals(s) && order == LabelsByArrival(s) by {
      assert s[..i] == s;
    }
    DayTotalsSpec(s);
  }

  /** Number to integer as the `Date` constructor takes it: truncation toward zero. */
  function Truncate(r: real): int
  {
    if r >= 0.0 then r.Floor else -((-r).Floor)
  }

  lemma TruncateWhole(n: int)
    ensures Truncate(n as real) == n
  {
    if n < 0 {
      assert -(n as real) == (-n) as real;
    }
  }

  /** Days from 1970-01-01 to the first of month `m` (1 to 12) of year `y` in the Gregorian calendar. */
  function MonthStart(y: int, m: int): int
    requires 1 <= m <= 12
  {
    var yy := if m <= 2 then y - 1 else y;
    var era := yy / 400;
    var yoe := yy - era * 400;
    var mp := if m > 2 then m - 3 else m + 9;
    var doe := yoe * 365 + yoe / 4 - yoe / 100 + (153 * mp + 2) / 5;
    era * 146097 + doe - 719468
  }

  /**
   * The day `new Date(2025, monthIndex, day)` falls on: a month index past
   * either end of the year moves into a neighbouring year and a day past the
   * month's length into a neighbouring month.
   */
  function DayNumber2025(monthIndex: int, day: int): int
  {
    MonthStart(2025 + monthIndex / 12, monthIndex % 12 + 1) + day - 1
  }

  /**
   * The comparator's key for a label: `label.split("/").map(Number)` gives the
   * day and the month, and labels are ordered by `new Date(2025, m - 1, d)`,
   * counted here in whole days.
   */
  function LabelKey(name: string): real
  {
    var parts := Split(name, '/');
    var day := ParseNumber(parts[0]);
    var month := if |parts| > 1 then ParseNumber(parts[1]) else None;
    if day.Some? && month.Some? then DayNumber2025(Truncate(month.value - 1.0), Truncate(day.value)) as real
    else 0.0
  }

  /** The lengths of the months of 2025. */
  function DaysIn2025(m: int): nat
    requires 1 <= m <= 12
  {
    if m == 2 then 28 else if m == 4 || m == 6 || m == 9 || m == 11 then 30 else 31
  }

  /** Days of 2025 before the first of month `m`. */
  function DaysBefore2025(m: int): nat
    requires 1 <= m <= 12
  {
    if m == 1 then 0 else if m == 2 then 31 else if m == 3 then 59 else if m == 4 then 90
    else if m == 5 then 120 else if m == 6 then 151 else if m == 7 then 181 else if m == 8 then 212
    else if m == 9 then 243 else if m == 10 then 273 else if m == 11 then 304 else 334
  }

  lemma MonthStartEarly(m: int)
    requires 1 <= m <= 2
    ensures MonthStart(2025, m) == 19783 + (153 * (m + 9) + 2) / 5
  {
  }

  lemma MonthStartLate(m: int)
    requires 3 <= m <= 12
    ensures MonthStart(2025, m) == 20148 + (153 * (m - 3) + 2) / 5
  {
  }

  /** The month table agrees with the day-of-era formula's month offsets. */
  lemma DaysBeforeByFormula(m: int)
    requires 1 <= m <= 12
    ensures m <= 2 ==> DaysBefore2025(m) == (153 * (m + 9) + 2) / 5 - 306
    ensures m > 2 ==> DaysBefore2025(m) == (153 * (m - 3) + 2) / 5 + 59
  {
    if m == 1 {} else if m == 2 {} else if m == 3 {} else if m == 4 {}
    else if m == 5 {} else if m == 6 {} else if m == 7 {} else if m == 8 {}
    else if m == 9 {} else if m == 10 {} else if m == 11 {} else {}
  }

  /** The first of each month of 2025, counted from 1970-01-01: 20089 for January plus the earlier months. */
  lemma MonthStartTable(m: int)
    requires 1 <= m <= 12
    ensures MonthStart(2025, m) == 20089 + DaysBefore2025(m)
  {
    DaysBeforeByFormula(m);
    if m <= 2 {
      MonthStartEarly(m);
    } else {
      MonthStartLate(m);
    }
  }

  /** Each month of 2025 starts, in the Gregorian day count, one month's length after the one before it. */
  lemma MonthStartsFollowMonthLengths(m: int)
    requires 1 <= m < 12
    ensures MonthStart(2025, m + 1) == MonthStart(2025, m) + DaysIn2025(m)
  {
    assert DaysBefore2025(m + 1) == DaysBefore2025(m) + DaysIn2025(m);
    assert MonthStart(2025, m) == 20089 + DaysBefore2025(m) by {
      MonthStartTable(m);
    }
    assert MonthStart(2025, m + 1) == 20089 + DaysBefore2025(m + 1) by {
      MonthStartTable(m + 1);
    }
  }

  /** `new Date(2025, m - 1, d)` is day `d` counted on from the first of month `m` of 2025. */
  lemma MonthStart2025(m: int, d: int)
    requires 1 <= m <= 12
    ensures DayNumber2025(m - 1, d) == 20089 + DaysBefore2025(m) + d - 1
  {
    assert (m - 1) / 12 == 0 && (m - 1) % 12 == m - 1;
    MonthStartTable(m);
  }

  lemma DaysBeforeGrows(m1: int, m2: int)
    requires 1 <= m1 < m2 <= 12
    ensures DaysBefore2025(m1) + DaysIn2025(m1) <= DaysBefore2025(m2)
  {
  }

  /** For real calendar days of 2025 the key orders by month first and then by day. */
  lemma KeyOrdersByMonthThenDay(m1: int, d1: int, m2: int, d2: int)
    requires 1 <= m1 <= 12 && 1 <= d1 <= DaysIn2025(m1)
    requires 1 <= m2 <= 12 && 1 <= d2 <= DaysIn2025(m2)
    ensures DayNumber2025(m1 - 1, d1) < DayNumber2025(m2 - 1, d2) <==> m1 < m2 || (m1 == m2 && d1 < d2)
  {
    MonthStart2025(m1, d1);
    MonthStart2025(m2, d2);
    if m1 < m2 {
      DaysBeforeGrows(m1, m2);
    } else if m2 < m1 {
      DaysBeforeGrows(m2, m1);
    }
  }

  /** A label that splits into a day and a month that both read as numbers is keyed by that day. */
  lemma LabelKeyOfParts(name: string, d: string, m: string, dv: int, mv: int)
    requires Split(name, '/') == [d, m]
    requires ParseNumber(d) == Some(dv as real) && ParseNumber(m) == Some(mv as real)
    ensures LabelKey(name) == DayNumber2025(mv - 1, dv) as real
  {
    assert mv as real - 1.0 == (mv - 1) as real;
    TruncateWhole(dv);
    TruncateWhole(mv - 1);
  }

  /** A `DD/MM` label of digits splits into its day and month, which read as their digits' values. */
  lemma DigitsLabelParts(d: string, m: string)
    requires |d| > 0 && AllDigits(d) && |m| > 0 && AllDigits(m)
    ensures Split(d + "/" + m, '/') == [d, m]
    ensures ParseNumber(d) == Some(DigitsValue(d) as real) && ParseNumber(m) == Some(DigitsValue(m) as real)
  {
    assert '/' !in d by {
      assert forall i :: 0 <= i < |d| ==> d[i] != '/';
    }
    assert '/' !in m by {
      assert forall i :: 0 <= i < |m| ==> m[i] != '/';
    }
    SplitJoined2(d, m, '/');
    ParseDigits(d);
    ParseDigits(m);
  }

  /** In a list sorted by `LabelKey`, two labels that read as real 2025 days stand in calendar order. */
  lemma SortedLabelsFollowCalendar(labels: seq<string>, i: nat, j: nat,
                                   d1: string, m1: string, dv1: int, mv1: int,
                                   d2: string, m2: string, dv2: int, mv2: int)
    requires SortedBy(labels, LabelKey, false) && i < j < |labels|
    requires Split(labels[i], '/') == [d1, m1] && ParseNumber(d1) == Some(dv1 as real) && ParseNumber(m1) == Some(mv1 as real)
    requires Split(labels[j], '/') == [d2, m2] && ParseNumber(d2) == Some(dv2 as real) && ParseNumber(m2) == Some(mv2 as real)
    requires 1 <= mv1 <= 12 && 1 <= dv1 <= DaysIn2025(mv1)
    requires 1 <= mv2 <= 12 && 1 <= dv2 <= DaysIn2025(mv2)
    ensures mv1 < mv2 || (mv1 == mv2 && dv1 <= dv2)
  {
    SortedKeysAt(labels, i, j);
    LabelsInCalendarOrder(labels[i], d1, m1, dv1, mv1, labels[j], d2, m2, dv2, mv2);
  }

  /** Two labels that read as real 2025 days and whose keys are in order name days in calendar order. */
  lemma LabelsInCalendarOrder(n1: string, d1: string, m1: string, dv1: int, mv1: int,
                              n2: string, d2: string, m2: string, dv2: int, mv2: int)
    requires Split(n1, '/') == [d1, m1] && ParseNumber(d1) == Some(dv1 as real) && ParseNumber(m1) == Some(mv1 as real)
    requires Split(n2, '/') == [d2, m2] && ParseNumber(d2) == Some(dv2 as real) && ParseNumber(m2) == Some(mv2 as real)
    requires 1 <= mv1 <= 12 && 1 <= dv1 <= DaysIn2025(mv1)
    requires 1 <= mv2 <= 12 && 1 <= dv2 <= DaysIn2025(mv2)
    requires LabelKey(n1) <= LabelKey(n2)
    ensures mv1 < mv2 || (mv1 == mv2 && dv1 <= dv2)
  {
    LabelKeyOfParts(n1, d1, m1, dv1, mv1);
    LabelKeyOfParts(n2, d2, m2, dv2, mv2);
    CalendarOrderOfKeys(LabelKey(n1), LabelKey(n2), mv1, dv1, mv2, dv2);
  }

  lemma SortedKeysAt(labels: seq<string>, i: nat, j: nat)
    requires SortedBy(labels, LabelKey, false) && i < j < |labels|
    ensures LabelKey(labels[i]) <= LabelKey(labels[j])
  {
  }

  lemma CalendarOrderOfKeys(k1: real, k2: real, m1: int, d1: int, m2: int, d2: int)
    requires 1 <= m1 <= 12 && 1 <= d1 <= DaysIn2025(m1) && k1 == DayNumber2025(m1 - 1, d1) as real
    requires 1 <= m2 <= 12 && 1 <= d2 <= DaysIn2025(m2) && k2 == DayNumber2025(m2 - 1, d2) as real
    requires k1 <= k2
    ensures m1 < m2 || (m1 == m2 && d1 <= d2)
  {
    KeyOrdersByMonthThenDay(m2, d2, m1, d1);
  }

  /** What the component renders: the no-data card, or the bars with their labels, values and width. */
  datatype ChartView = NoData | Bars(labels: seq<string>, data: seq<real>, width: real)

  /** `Math.max(screenWidth - 40, labels.length * (BAR_WIDTH + BAR_MARGIN) + 80)`. */
  function ChartWidth(screenWidth: real, labelCount: nat): (r: real)
    ensures r >= screenWidth - 40.0 && r >= (labelCount * (BarWidth + BarMargin) + 80) as real
    ensures r == screenWidth - 40.0 || r == (labelCount * (BarWidth + BarMargin) + 80) as real
  {
    var content := (labelCount * (BarWidth + BarMargin) + 80) as real;
    if screenWidth - 40.0 >= content then screenWidth - 40.0 else content
  }

  /** `sortedDates`: the `Map`'s keys sorted by their day, ties kept in arrival order. */
  function SortedLabels(s: seq<Transaction>): (r: seq<string>)
    ensures multiset(r) == multiset(LabelsByArrival(s))
    ensures SortedBy(r, LabelKey, false)
  {
    SortBy(LabelsByArrival(s), LabelKey, false)
  }

  /**
   * `sortedDates.map((date) => grouped.get(date) || 0)`, one bar per label;
   * BarsSpec states what each bar is in terms of the transactions.
   */
  function BarValues(labels: seq<string>, grouped: map<string, real>): (r: seq<real>)
    ensures |r| == |labels|
    ensures forall i :: 0 <= i < |labels| ==> r[i] == if labels[i] in grouped then grouped[labels[i]] else 0.0
  {
    seq(|labels|, i requires 0 <= i < |labels| => if labels[i] in grouped then grouped[labels[i]] else 0.0)
  }

  function ChartOf(s: seq<Transaction>, screenWidth: real): ChartView
  {
    var labels := SortedLabels(s);
    if |labels| == 0 then NoData
    else Bars(labels, BarValues(labels, DayTotals(s)), ChartWidth(screenWidth, |labels|))
  }

  /** The component body: group, sort the keys, read the bars, and pick what to render. */
  method RenderChart(s: seq<Transaction>, screenWidth: real) returns (view: ChartView)
    ensures view == ChartOf(s, screenWidth)
  {
    var grouped, order := GroupByDay(s);
    var labels := SortBy(order, LabelKey, false);
    var data := BarValues(labels, grouped);
    if |labels| == 0 {
      return NoData;
    }
    var chartWidth := ChartWidth(screenWidth, |labels|);
    view := Bars(labels, data, chartWidth);
  }

  /** The sorted labels are the record's keys, each once, in ascending order of their key. */
  lemma SortedLabelsSpec(s: seq<Transaction>)
    ensures NoDups(SortedLabels(s)) && SortedBy(SortedLabels(s), LabelKey, false)
    ensures forall l :: l in SortedLabels(s) <==> l in DayTotals(s)
  {
    var arrival := LabelsByArrival(s);
    var labels := SortedLabels(s);
    DayTotalsSpec(s);
    NoDupsPermutation(arrival, labels);
    forall l ensures l in labels <==> l in arrival {
      assert l in labels <==> l in multiset(labels);
      assert l in arrival <==> l in multiset(arrival);
    }
  }

  /** The no-data card is shown exactly when no transaction has a date. */
  lemma NoDataIffUndated(s: seq<Transaction>, screenWidth: real)
    ensures ChartOf(s, screenWidth).NoData? <==> forall i :: 0 <= i < |s| ==> s[i].date == ""
  {
    var labels := SortedLabels(s);
    assert forall l :: l in labels <==> l in DayTotals(s) by {
      SortedLabelsSpec(s);
    }
    if |labels| > 0 {
      var l := labels[0];
      assert l in DayTotals(s) by {
        assert l in labels;
      }
      assert HasKey(s, LabelOf, Dated(), l) by {
        TotalsByKeys(s, LabelOf, Dated(), l);
      }
    }
    forall i | 0 <= i < |s| && s[i].date != "" ensures LabelOf(s[i]) in labels {
      assert HasKey(s, LabelOf, Dated(), LabelOf(s[i]));
      TotalsByKeys(s, LabelOf, Dated(), LabelOf(s[i]));
    }
  }

  /**
   * Otherwise the labels are the distinct labels of the dated transactions, in
   * ascending order of their day, and each bar is the sum of the amounts under
   * its label.
   */
  lemma BarsSpec(s: seq<Transaction>, screenWidth: real)
    requires ChartOf(s, screenWidth).Bars?
    ensures var v := ChartOf(s, screenWidth);
            && NoDups(v.labels)
            && SortedBy(v.labels, LabelKey, false)
            && (forall l :: l in v.labels <==> HasKey(s, LabelOf, Dated(), l))
            && |v.data| == |v.labels|
            && (forall i :: 0 <= i < |v.labels| ==> v.data[i] == SumIf(s, KeyedBy(LabelOf, Dated(), v.labels[i])))
            && v.width == ChartWidth(screenWidth, |v.labels|)
  {
    var labels := SortedLabels(s);
    DayTotalsSpec(s);
    SortedLabelsSpec(s);
    forall i | 0 <= i < |labels| ensures labels[i] in DayTotals(s) {
      assert labels[i] in labels;
    }
  }

  /** A transaction without a date changes nothing on the chart. */
  lemma UndatedChangesNothing(s: seq<Transaction>, t: Transaction, screenWidth: real)
    requires t.date == ""
    ensures ChartOf(s + [t], screenWidth) == ChartOf(s, screenWidth)
  {
    TotalsBySnoc(s, t, LabelOf, Dated());
    assert KeysOf(s + [t], LabelOf, Dated()) == KeysOf(s, LabelOf, Dated());
  }
}
