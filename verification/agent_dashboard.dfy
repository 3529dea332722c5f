/** The calls dashboard: `calcDurationSec`, `formatBoolish`, `pickCost` and
    the per-day grouping `buildDailySeries` behind the charts. Numbers are
    integers; a duration is kept in milliseconds, so every quantity the
    script divides (seconds, minutes, averages) is exact here. */
module AgentDashboard {
  import opened Common
  import opened Text
  import opened Json
  import opened DisplayFormat

  /** `calcDurationSec(startedAt, endedAt, duration)` times 1000: ordered
      valid timestamps win, then a numeric duration (milliseconds above
      10000, seconds otherwise), else 0. */
  function CalcDurationMillis(start: Option<int>, end: Option<int>, duration: Option<int>): int {
    if start.Some? && end.Some? && end.value >= start.value then end.value - start.value
    else if duration.Some? then (if duration.value > 10000 then duration.value else duration.value * 1000)
    else 0
  }

  predicate OrderedTimestamps(start: Option<int>, end: Option<int>) {
    start.Some? && end.Some? && end.value >= start.value
  }

  /** Ordered timestamps decide alone; a duration only counts without them. */
  lemma CalcDurationPriority(start: Option<int>, end: Option<int>, duration: Option<int>)
    ensures OrderedTimestamps(start, end) ==>
              forall d: Option<int> :: CalcDurationMillis(start, end, d) == end.value - start.value
    ensures !OrderedTimestamps(start, end) && duration.None? ==> CalcDurationMillis(start, end, duration) == 0
  {
  }

  /** Wherever the two functions do not meet their opposite priorities (no
      duration, or no ordered timestamps) the table's text is the chart's
      value rounded to seconds. */
  lemma FormatAgreesWithCalc(start: Option<int>, end: Option<int>, duration: Option<int>)
    requires duration.None? || !OrderedTimestamps(start, end)
    ensures FormatDuration(start, end, duration) ==
            if duration.None? && !OrderedTimestamps(start, end) then "-"
            else SecondsToMmSs(RoundDiv1000(CalcDurationMillis(start, end, duration)))
  {
    if duration.Some? && duration.value <= 10000 {
      assert RoundDiv1000(duration.value * 1000) == duration.value;
    }
  }

  /** Where both are present, the table shows the duration and the chart
      the timestamps: a 30-second duration over a minute-long call. */
  lemma FormatAndCalcDisagree()
    ensures FormatDuration(Some(0), Some(60000), Some(30)) == SecondsToMmSs(30)
    ensures CalcDurationMillis(Some(0), Some(60000), Some(30)) == 60000
  {
  }

  /** `formatBoolish(v)`: the two badges for the recognised words, else the
      escaped `String(v)`. */
  function FormatBoolish(v: Json): string {
    match Boolish(v)
    case Some(b) => if b then "✅ true" else "❌ false"
    case None => EscapeHtml(JsString(v))
  }

  /** The cell is always safe to put into HTML, and an unrecognised value
      is shown as its own text. */
  lemma FormatBoolishSafe(v: Json)
    ensures HtmlSafe(FormatBoolish(v))
    ensures Boolish(v).None? ==> UnescapeHtml(FormatBoolish(v)) == JsString(v)
  {
    if Boolish(v).None? {
      EscapeHtmlSafe(JsString(v));
      EscapeHtmlRoundTrip(JsString(v));
    } else {
      assert HtmlSafe("✅ true") && HtmlSafe("❌ false");
    }
  }

  /** Longer text without markup characters is never a word and is shown
      as it is. */
  lemma FormatBoolishPlain(t: string)
    requires |t| > 5 && '&' !in t && '<' !in t && '>' !in t && '"' !in t && '\'' !in t
    ensures Boolish(JStr(t)).None? && FormatBoolish(JStr(t)) == t
  {
    assert |Lower(t)| > 5;
    EscapeHtmlPlain(t);
  }

  /** A badge does not prove recognition: the text "✅ true" itself is not
      one of the words and is shown unchanged, as the same badge. */
  lemma FormatBoolishAmbiguous()
    ensures Boolish(JStr("✅ true")).None?
    ensures FormatBoolish(JStr("✅ true")) == FormatBoolish(JBool(true))
  {
    FormatBoolishPlain("✅ true");
    BoolishNonStrings();
  }

  /** The cost-related fields of a call (None: the property is undefined). */
  datatype CostFields = CostFields(cost: Option<Json>, costBreakdown: Option<Json>, costs: Option<Json>)

  /** `typeof x.cost === "number" ? x.cost : 0` for one item of `costs`; None
      when `x` is null and reading its property throws. */
  function ItemCost(x: Json): Option<int> {
    if x.JNull? then None
    else match Member(x, "cost")
      case Some(JNum(n)) => Some(n)
      case _ => Some(0)
  }

  /** The `reduce` over `costs`, stopping at the first item that throws. */
  function SumItemCosts(items: seq<Json>): Option<int> {
    if items == [] then Some(0)
    else match ItemCost(items[0])
      case None => None
      case Some(c) =>
        (match SumItemCosts(items[1..])
         case None => None
         case Some(rest) => Some(c + rest))
  }

  /** `pickCost(call)`: a numeric `cost`, else a numeric
      `costBreakdown.total`, else the sum over an array `costs`, else 0. */
  function PickCost(c: CostFields): Option<int> {
    match c.cost
    case Some(JNum(n)) => Some(n)
    case _ =>
      if JsTruthy(c.costBreakdown) && Member(c.costBreakdown.value, "total").Some? &&
         Member(c.costBreakdown.value, "total").value.JNum?
      then Some(Member(c.costBreakdown.value, "total").value.n)
      else match c.costs
        case Some(JArr(items)) => SumItemCosts(items)
        case _ => Some(0)
  }

  /** `typeof x.cost === "number"`. */
  predicate HasNumericCost(x: Json) {
    Member(x, "cost").Some? && Member(x, "cost").value.JNum?
  }

  /** The sum throws exactly on a null item; otherwise items without a
      numeric cost add nothing. */
  lemma {:induction false} SumItemCostsDefined(items: seq<Json>)
    ensures SumItemCosts(items).None? <==> JNull in items
    ensures (forall i :: 0 <= i < |items| ==> !HasNumericCost(items[i])) && JNull !in items ==>
              SumItemCosts(items) == Some(0)
  {
    if items != [] {
      SumItemCostsDefined(items[1..]);
      assert items == [items[0]] + items[1..];
      if (forall i :: 0 <= i < |items| ==> !HasNumericCost(items[i])) {
        assert forall i :: 0 <= i < |items[1..]| ==> !HasNumericCost(items[1..][i]) by {
          forall i | 0 <= i < |items[1..]| ensures !HasNumericCost(items[1..][i]) {
            assert items[1..][i] == items[i + 1];
          }
        }
        assert !HasNumericCost(items[0]);
      }
    }
  }

  /** Anywhere in a list, an item that is not null and has no numeric cost
      (no `cost`, a null one, a string one) leaves the sum as it is. */
  lemma SumItemCostsSkipsUnpriced(x: Json, items: seq<Json>)
    requires !x.JNull? && !HasNumericCost(x)
    ensures SumItemCosts([x] + items) == SumItemCosts(items)
  {
    assert ([x] + items)[1..] == items;
  }

  /** `pickCost` fails only through the sum: no numeric `cost` or
      `costBreakdown.total`, and a null among `costs`. */
  lemma PickCostFails(c: CostFields)
    ensures PickCost(c).None? ==> c.costs.Some? && c.costs.value.JArr? && JNull in c.costs.value.items
    ensures (c.cost.Some? && c.cost.value.JNum?) ==> PickCost(c) == Some(c.cost.value.n)
  {
    if c.costs.Some? && c.costs.value.JArr? {
      SumItemCostsDefined(c.costs.value.items);
    }
  }

  /** One call as the grouping sees it: its day key (`isoDay` of the start
      or creation time, None when missing or invalid), the duration inputs
      and the cost fields. */
  datatype DashboardCall = DashboardCall(day: Option<string>, start: Option<int>, end: Option<int>,
                                         duration: Option<int>, costs: CostFields)

  /** The accumulator `{ minutes, calls, spent }` of one day, with the
      minutes kept as the sum of milliseconds. */
  datatype DayTotals = DayTotals(calls: nat, millis: int, spent: int)

  /** The `Map` after some calls: its entries and its key order (insertion). */
  datatype Acc = Acc(totals: map<string, DayTotals>, order: seq<string>)

  predicate Distinct(s: seq<string>) {
    forall i, j :: 0 <= i < j < |s| ==> s[i] != s[j]
  }

  ghost predicate Consistent(a: Acc) {
    Distinct(a.order) && forall d :: d in a.order <==> d in a.totals
  }

  function Millis(c: DashboardCall): int {
    CalcDurationMillis(c.start, c.end, c.duration)
  }

  /** One pass of the loop body: an undated call is skipped; a dated one
      bumps its day's entry, or throws when its cost does. */
  function AddCall(a: Acc, c: DashboardCall): (r: Option<Acc>)
    requires Consistent(a)
    ensures r.Some? ==> Consistent(r.value)
  {
    if c.day.None? then Some(a)
    else
      match PickCost(c.costs)
      case None => None
      case Some(cost) =>
        var d := c.day.value;
        var t := if d in a.totals then a.totals[d] else DayTotals(0, 0, 0);
        Some(Acc(a.totals[d := DayTotals(t.calls + 1, t.millis + Millis(c), t.spent + cost)],
                 if d in a.totals then a.order else a.order + [d]))
  }

  /** The grouping loop over the calls in order; None when `pickCost` throws. */
  function Accumulate(calls: seq<DashboardCall>): (r: Option<Acc>)
    ensures r.Some? ==> Consistent(r.value)
  {
    if calls == [] then Some(Acc(map[], []))
    else
      match Accumulate(calls[..|calls| - 1])
      case None => None
      case Some(a) => AddCall(a, calls[|calls| - 1])
  }

  /** The distinct days of the dated calls. */
  function Days(calls: seq<DashboardCall>): set<string> {
    if calls == [] then {}
    else Days(calls[..|calls| - 1]) + (if calls[|calls| - 1].day.Some? then {calls[|calls| - 1].day.value} else {})
  }

  function Dated(calls: seq<DashboardCall>): nat {
    if calls == [] then 0
    else Dated(calls[..|calls| - 1]) + (if calls[|calls| - 1].day.Some? then 1 else 0)
  }

  function DayCount(calls: seq<DashboardCall>, d: string): nat {
    if calls == [] then 0
    else DayCount(calls[..|calls| - 1], d) + (if calls[|calls| - 1].day == Some(d) then 1 else 0)
  }

  function DayMillis(calls: seq<DashboardCall>, d: string): int {
    if calls == [] then 0
    else DayMillis(calls[..|calls| - 1], d) + (if calls[|calls| - 1].day == Some(d) then Millis(calls[|calls| - 1]) else 0)
  }

  /** No dated call makes `pickCost` throw. */
  predicate CostsDefined(calls: seq<DashboardCall>) {
    forall i :: 0 <= i < |calls| && calls[i].day.Some? ==> PickCost(calls[i].costs).Some?
  }

  function DaySpent(calls: seq<DashboardCall>, d: string): int
    requires CostsDefined(calls)
  {
    if calls == [] then 0
    else
      var c := calls[|calls| - 1];
      DaySpent(calls[..|calls| - 1], d) + (if c.day == Some(d) then PickCost(c.costs).value else 0)
  }

  /** The loop computes, for every day that occurs, the number of calls,
      the total duration and the total cost of exactly the calls of that
      day, and it throws exactly when some dated call's cost does. */
  lemma {:induction false} AccumulateCorrect(calls: seq<DashboardCall>)
    ensures Accumulate(calls).Some? <==> CostsDefined(calls)
    ensures Accumulate(calls).Some? ==>
              && (forall d :: d in Accumulate(calls).value.totals <==> d in Days(calls))
              && (forall d :: d in Accumulate(calls).value.totals ==>
                    Accumulate(calls).value.totals[d] == DayTotals(DayCount(calls, d), DayMillis(calls, d), DaySpent(calls, d)))
  {
    if calls != [] {
      var init := calls[..|calls| - 1];
      var c := calls[|calls| - 1];
      AccumulateCorrect(init);
      assert CostsDefined(calls) ==> CostsDefined(init) by {
        if CostsDefined(calls) {
          forall i | 0 <= i < |init| && init[i].day.Some? ensures PickCost(init[i].costs).Some? {
            assert init[i] == calls[i];
          }
        }
      }
      assert CostsDefined(init) && (c.day.None? || PickCost(c.costs).Some?) ==> CostsDefined(calls) by {
        if CostsDefined(init) && (c.day.None? || PickCost(c.costs).Some?) {
          forall i | 0 <= i < |calls| && calls[i].day.Some? ensures PickCost(calls[i].costs).Some? {
            if i < |init| {
              assert init[i] == calls[i];
            }
          }
        }
      }
      if Accumulate(calls).Some? {
        var a := Accumulate(init).value;
        forall d | d in Accumulate(calls).value.totals
          ensures Accumulate(calls).value.totals[d] == DayTotals(DayCount(calls, d), DayMillis(calls, d), DaySpent(calls, d))
        {
          if d !in a.totals {
            assert d in Days(calls);
            assert d !in Days(init);
            DayTotalsAbsent(init, d);
          }
        }
      }
    }
  }

  /** A day that does not occur has nothing counted. */
  lemma {:induction false} DayTotalsAbsent(calls: seq<DashboardCall>, d: string)
    requires d !in Days(calls) && CostsDefined(calls)
    ensures DayCount(calls, d) == 0 && DayMillis(calls, d) == 0 && DaySpent(calls, d) == 0
  {
    if calls != [] {
      var init := calls[..|calls| - 1];
      assert CostsDefined(init) by {
        forall i | 0 <= i < |init| && init[i].day.Some? ensures PickCost(init[i].costs).Some? {
          assert init[i] == calls[i];
        }
      }
      DayTotalsAbsent(init, d);
    }
  }

  /** Lexicographic order, strict: no label twice. */
  predicate StrictlySorted(s: seq<string>) {
    forall i, j :: 0 <= i < j < |s| ==> StrLt(s[i], s[j])
  }

  function InsertSorted(x: string, s: seq<string>): (r: seq<string>)
    requires StrictlySorted(s) && x !in s
    ensures StrictlySorted(r) && |r| == |s| + 1
    ensures forall y :: y in r <==> y in s || y == x
  {
    if s == [] then [x]
    else if StrLt(x, s[0]) then
      var r := [x] + s;
      assert forall j :: 0 < j < |r| ==> StrLt(x, r[j]) by {
        forall j | 0 < j < |r| ensures StrLt(x, r[j]) {
          if j > 1 {
            StrLtTransitive(x, s[0], r[j]);
          }
        }
      }
      r
    else
      StrLtTotal(x, s[0]);
      var rest := InsertSorted(x, s[1..]);
      var r := [s[0]] + rest;
      assert forall j :: 0 <= j < |rest| ==> StrLt(s[0], rest[j]) by {
        forall j | 0 <= j < |rest| ensures StrLt(s[0], rest[j]) {
          if rest[j] != x {
            assert rest[j] in rest;
            assert rest[j] in s[1..];
            var k :| 0 <= k < |s[1..]| && s[1..][k] == rest[j];
            assert s[k + 1] == rest[j];
          }
        }
      }
      r
  }

  /** `Array.prototype.sort()` on distinct strings. */
  function SortStrings(xs: seq<string>): (r: seq<string>)
    requires Distinct(xs)
    ensures StrictlySorted(r) && |r| == |xs|
    ensures forall y :: y in r <==> y in xs
  {
    if xs == [] then []
    else
      assert Distinct(xs[1..]) by {
        forall i, j | 0 <= i < j < |xs[1..]| ensures xs[1..][i] != xs[1..][j] {
          assert xs[1..][i] == xs[i + 1] && xs[1..][j] == xs[j + 1];
        }
      }
      assert xs[0] !in xs[1..] by {
        forall k | 0 <= k < |xs[1..]| ensures xs[1..][k] != xs[0] {
          assert xs[1..][k] == xs[k + 1];
        }
      }
      InsertSorted(xs[0], SortStrings(xs[1..]))
  }

  /** `a.calls ? a.spent / a.calls : 0`, the quotient kept as a pair. */
  datatype AverageCost = Ratio(spent: int, calls: nat) | NoCalls

  /** The chart series: the sorted labels and, per label, the call count,
      the minutes (as milliseconds), the spend and the average cost. */
  datatype DailySeries = DailySeries(labels: seq<string>, calls: seq<nat>, millis: seq<int>,
                                     spent: seq<int>, avgCost: seq<AverageCost>)

  /** The `labels.map(...)` over the sorted keys of the `Map`. */
  function SeriesFrom(a: Acc): (s: DailySeries)
    requires Consistent(a)
    ensures |s.calls| == |s.labels| && |s.millis| == |s.labels| && |s.spent| == |s.labels| && |s.avgCost| == |s.labels|
    ensures StrictlySorted(s.labels) && forall d :: d in s.labels <==> d in a.totals
  {
    var labels := SortStrings(a.order);
    DailySeries(
      labels,
      seq(|labels|, k requires 0 <= k < |labels| => a.totals[labels[k]].calls),
      seq(|labels|, k requires 0 <= k < |labels| => a.totals[labels[k]].millis),
      seq(|labels|, k requires 0 <= k < |labels| => a.totals[labels[k]].spent),
      seq(|labels|, k requires 0 <= k < |labels| =>
        var t := a.totals[labels[k]];
        if t.calls != 0 then Ratio(t.spent, t.calls) else NoCalls))
  }

  /** `buildDailySeries(calls)`; None when it throws. */
  function DailySeriesOf(calls: seq<DashboardCall>): Option<DailySeries> {
    match Accumulate(calls)
    case None => None
    case Some(a) => Some(SeriesFrom(a))
  }

  /** One pass of the loop body over the `Map`: `map.get(day) || {...}`,
      the three increments and `map.set(day, acc)`. */
  method AddCallStep(totals: map<string, DayTotals>, order: seq<string>, c: DashboardCall)
    returns (next: Option<Acc>)
    requires Consistent(Acc(totals, order))
    ensures next == AddCall(Acc(totals, order), c)
  {
    if c.day.None? {
      return Some(Acc(totals, order));
    }
    var d := c.day.value;
    var cost := PickCost(c.costs);
    if cost.None? {
      return None;
    }
    var t := if d in totals then totals[d] else DayTotals(0, 0, 0);
    var keys := order;
    if d !in totals {
      keys := order + [d];
    }
    next := Some(Acc(totals[d := DayTotals(t.calls + 1, t.millis + Millis(c), t.spent + cost.value)], keys));
  }

  /** `buildDailySeries`: the accumulating loop over the calls, then the
      series over the sorted keys. */
  method BuildDailySeries(calls: seq<DashboardCall>) returns (series: Option<DailySeries>)
    ensures series == DailySeriesOf(calls)
  {
    var totals: map<string, DayTotals> := map[];
    var order: seq<string> := [];
    for i := 0 to |calls|
      invariant Accumulate(calls[..i]) == Some(Acc(totals, order))
    {
      assert calls[..i + 1][..i] == calls[..i];
      var next := AddCallStep(totals, order, calls[i]);
      if next.None? {
        AccumulateStaysNone(calls, i + 1);
        return None;
      }
      totals, order := next.value.totals, next.value.order;
    }
    assert calls[..|calls|] == calls;
    series := Some(SeriesFrom(Acc(totals, order)));
  }

  /** Once the loop has thrown, the rest of the calls do not matter. */
  lemma {:induction false} AccumulateStaysNone(calls: seq<DashboardCall>, k: nat)
    requires k <= |calls| && Accumulate(calls[..k]).None?
    ensures Accumulate(calls).None?
    decreases |calls| - k
  {
    if k < |calls| {
      assert calls[..k + 1][..k] == calls[..k];
      AccumulateStaysNone(calls, k + 1);
    } else {
      assert calls[..k] == calls;
    }
  }

  /** What the charts show: the labels are the distinct days of the dated
      calls in ascending order, each once; every series has one entry per
      label; each entry counts, sums and averages exactly that day's calls.
      The grouping fails only when some dated call's cost throws. */
  lemma DailySeriesCorrect(calls: seq<DashboardCall>)
    ensures DailySeriesOf(calls).None? <==> !CostsDefined(calls)
    ensures DailySeriesOf(calls).Some? ==>
              var s := DailySeriesOf(calls).value;
              && StrictlySorted(s.labels)
              && (forall d :: d in s.labels <==> d in Days(calls))
              && |s.calls| == |s.labels| && |s.millis| == |s.labels| && |s.spent| == |s.labels| && |s.avgCost| == |s.labels|
              && (forall k :: 0 <= k < |s.labels| ==>
                    && s.calls[k] == DayCount(calls, s.labels[k]) && s.calls[k] > 0
                    && s.millis[k] == DayMillis(calls, s.labels[k])
                    && s.spent[k] == DaySpent(calls, s.labels[k])
                    && s.avgCost[k] == Ratio(s.spent[k], s.calls[k]))
  {
    AccumulateCorrect(calls);
    if DailySeriesOf(calls).Some? {
      var s := DailySeriesOf(calls).value;
      forall k | 0 <= k < |s.labels| ensures s.calls[k] > 0 {
        DayCountPositive(calls, s.labels[k]);
      }
    }
  }

  lemma {:induction false} DayCountPositive(calls: seq<DashboardCall>, d: string)
    requires d in Days(calls)
    ensures DayCount(calls, d) > 0
  {
    var init := calls[..|calls| - 1];
    if d in Days(init) {
      DayCountPositive(init, d);
    }
  }

  function SumNat(xs: seq<nat>): nat {
    if xs == [] then 0 else xs[0] + SumNat(xs[1..])
  }

  /** Among distinct labels, how many name day `d`. */
  function Occurrences(labels: seq<string>, d: Option<string>): nat {
    if labels == [] then 0 else (if d == Some(labels[0]) then 1 else 0) + Occurrences(labels[1..], d)
  }

  lemma {:induction false} OccurrencesDistinct(labels: seq<string>, d: Option<string>)
    requires Distinct(labels)
    ensures Occurrences(labels, d) == if d.Some? && d.value in labels then 1 else 0
  {
    if labels != [] {
      assert Distinct(labels[1..]) by {
        forall i, j | 0 <= i < j < |labels[1..]| ensures labels[1..][i] != labels[1..][j] {
          assert labels[1..][i] == labels[i + 1] && labels[1..][j] == labels[j + 1];
        }
      }
      OccurrencesDistinct(labels[1..], d);
      if d == Some(labels[0]) {
        assert labels[0] !in labels[1..] by {
          forall k | 0 <= k < |labels[1..]| ensures labels[1..][k] != labels[0] {
            assert labels[1..][k] == labels[k + 1];
          }
        }
      }
      assert labels == [labels[0]] + labels[1..];
    }
  }

  /** The counts of each label, summed. */
  function SumCounts(calls: seq<DashboardCall>, labels: seq<string>): nat {
    if labels == [] then 0 else DayCount(calls, labels[0]) + SumCounts(calls, labels[1..])
  }

  lemma {:induction false} SumCountsSnoc(calls: seq<DashboardCall>, labels: seq<string>)
    requires calls != []
    ensures SumCounts(calls, labels) ==
            SumCounts(calls[..|calls| - 1], labels) + Occurrences(labels, calls[|calls| - 1].day)
  {
    if labels != [] {
      SumCountsSnoc(calls, labels[1..]);
    }
  }

  /** Summed over distinct labels covering every day, the counts add up to
      the number of dated calls. */
  lemma {:induction false} SumCountsDated(calls: seq<DashboardCall>, labels: seq<string>)
    requires Distinct(labels) && forall d :: d in Days(calls) ==> d in labels
    ensures SumCounts(calls, labels) == Dated(calls)
  {
    if calls == [] {
      SumCountsEmpty(labels);
    } else {
      var init := calls[..|calls| - 1];
      SumCountsSnoc(calls, labels);
      OccurrencesDistinct(labels, calls[|calls| - 1].day);
      SumCountsDated(init, labels);
    }
  }

  lemma {:induction false} SumCountsEmpty(labels: seq<string>)
    ensures SumCounts([], labels) == 0
  {
    if labels != [] {
      SumCountsEmpty(labels[1..]);
    }
  }

  lemma {:induction false} SumNatCounts(calls: seq<DashboardCall>, labels: seq<string>, counts: seq<nat>)
    requires |counts| == |labels| && forall k :: 0 <= k < |labels| ==> counts[k] == DayCount(calls, labels[k])
    ensures SumNat(counts) == SumCounts(calls, labels)
  {
    if labels != [] {
      SumNatCounts(calls, labels[1..], counts[1..]);
    }
  }

  /** Every dated call is counted once: the per-day counts sum to the number
      of calls with a day, and calls without one are skipped. */
  lemma DailySeriesCountsSum(calls: seq<DashboardCall>)
    requires DailySeriesOf(calls).Some?
    ensures SumNat(DailySeriesOf(calls).value.calls) == Dated(calls)
  {
    DailySeriesCorrect(calls);
    var s := DailySeriesOf(calls).value;
    assert Distinct(s.labels) by {
      forall i, j | 0 <= i < j < |s.labels| ensures s.labels[i] != s.labels[j] {
        StrLtIrreflexive(s.labels[i]);
      }
    }
    SumNatCounts(calls, s.labels, s.calls);
    SumCountsDated(calls, s.labels);
  }
}
