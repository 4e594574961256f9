/** Gap filling for the line graph (ts/src/LineGraph/fillData.ts): the daily
    metrics become one entry per calendar day from the first entry's day to
    the last entry's day, with zero days where nothing was recorded.
    Calendar arithmetic is abstracted: `dayOf` turns a date text into a day
    number and `dateOf` turns a day number back into a date text. */
module FillData {
  import opened Records
  import opened Keys
  import opened Daily

  /** The lookup table built from the metrics by date; among equal dates the
      later metric wins. */
  function MetricsByDate(ms: seq<DailyMetric>): (m: map<string, DailyMetric>)
    ensures forall d :: d in m ==> m[d].date == d
    ensures forall i :: 0 <= i < |ms| ==> ms[i].date in m
  {
    if ms == [] then map[]
    else
      var m := MetricsByDate(ms[..|ms| - 1]);
      assert forall i :: 0 <= i < |ms| - 1 ==> ms[..|ms| - 1][i] == ms[i];
      m[ms[|ms| - 1].date := ms[|ms| - 1]]
  }

  /** Every metric in the lookup table is one of the input metrics. */
  lemma {:induction false} MetricsByDateFrom(ms: seq<DailyMetric>, d: string)
    requires d in MetricsByDate(ms)
    ensures exists i :: 0 <= i < |ms| && ms[i] == MetricsByDate(ms)[d]
  {
    var init := ms[..|ms| - 1];
    if d != ms[|ms| - 1].date {
      MetricsByDateFrom(init, d);
      var i :| 0 <= i < |init| && init[i] == MetricsByDate(init)[d];
      assert ms[i] == init[i];
    }
  }

  /** A metric whose date does not recur later in the list is the one found. */
  lemma {:induction false} LastOfDateWins(ms: seq<DailyMetric>, j: nat)
    requires j < |ms|
    requires forall k :: j < k < |ms| ==> ms[k].date != ms[j].date
    ensures MetricsByDate(ms)[ms[j].date] == ms[j]
  {
    if j < |ms| - 1 {
      var init := ms[..|ms| - 1];
      assert init[j] == ms[j];
      LastOfDateWins(init, j);
    }
  }

  /** Day `x`'s entry: the metric recorded under its date, or a zero metric. */
  function DayEntry(byDate: map<string, DailyMetric>, dateOf: int -> string, x: int): (m: DailyMetric)
    ensures m.date == dateOf(x) || dateOf(x) in byDate
  {
    var date := dateOf(x);
    if date in byDate then byDate[date] else EmptyDay(date)
  }

  /** `count` consecutive days from `start`, each with its day's entry. */
  function FillRange(byDate: map<string, DailyMetric>, dateOf: int -> string, start: int, count: nat)
    : (r: seq<DailyMetric>)
    ensures |r| == count
    ensures forall i :: 0 <= i < count ==> r[i] == DayEntry(byDate, dateOf, start + i)
  {
    seq(count, i requires 0 <= i < count => DayEntry(byDate, dateOf, start + i))
  }

  /** The daily metrics after `fillMissingDailyMetrics`. */
  function Filled(ms: seq<DailyMetric>, dayOf: string -> int, dateOf: int -> string): (r: seq<DailyMetric>)
    requires |ms| > 0
    ensures var s, e := dayOf(ms[0].date), dayOf(ms[|ms| - 1].date);
            |r| == if e >= s then e - s + 1 else 0
    ensures forall i :: 0 <= i < |r| ==> r[i].date == dateOf(dayOf(ms[0].date) + i)
  {
    var s, e := dayOf(ms[0].date), dayOf(ms[|ms| - 1].date);
    FillRange(MetricsByDate(ms), dateOf, s, if e >= s then e - s + 1 else 0)
  }

  /** `dateOf` names every day so that `dayOf` recovers it. */
  ghost predicate RoundTrips(dayOf: string -> int, dateOf: int -> string) {
    forall x :: dayOf(dateOf(x)) == x
  }

  /** Every date text is the canonical name of its day. */
  ghost predicate Canonical(ms: seq<DailyMetric>, dayOf: string -> int, dateOf: int -> string) {
    forall j :: 0 <= j < |ms| ==> dateOf(dayOf(ms[j].date)) == ms[j].date
  }

  ghost predicate StrictlyIncreasing(ms: seq<DailyMetric>, dayOf: string -> int) {
    forall i, j :: 0 <= i < j < |ms| ==> dayOf(ms[i].date) < dayOf(ms[j].date)
  }

  /** Output dates are consecutive days, first day first. */
  lemma FilledDaysConsecutive(ms: seq<DailyMetric>, dayOf: string -> int, dateOf: int -> string)
    requires |ms| > 0 && RoundTrips(dayOf, dateOf)
    ensures var r := Filled(ms, dayOf, dateOf);
            forall i :: 0 <= i < |r| ==> dayOf(r[i].date) == dayOf(ms[0].date) + i
  {
  }

  /** Each output day is either an input metric dated inside the first..last
      range, or a zero day. */
  lemma {:induction false} FilledEntries(ms: seq<DailyMetric>, dayOf: string -> int, dateOf: int -> string)
    requires |ms| > 0 && RoundTrips(dayOf, dateOf)
    ensures var r := Filled(ms, dayOf, dateOf);
            var s, e := dayOf(ms[0].date), dayOf(ms[|ms| - 1].date);
            forall i :: 0 <= i < |r| ==>
              && s <= dayOf(r[i].date) <= e
              && (r[i] == EmptyDay(r[i].date) || exists j :: 0 <= j < |ms| && ms[j] == r[i])
  {
    var r := Filled(ms, dayOf, dateOf);
    var m := MetricsByDate(ms);
    var s, e := dayOf(ms[0].date), dayOf(ms[|ms| - 1].date);
    forall i | 0 <= i < |r|
      ensures s <= dayOf(r[i].date) <= e
      ensures r[i] == EmptyDay(r[i].date) || exists j :: 0 <= j < |ms| && ms[j] == r[i]
    {
      var date := dateOf(s + i);
      assert r[i] == DayEntry(m, dateOf, s + i);
      if date in m {
        MetricsByDateFrom(ms, date);
      }
      assert r[i].date == date && dayOf(date) == s + i;
    }
  }

  /** The output entry at offset `k`. */
  lemma FilledAt(ms: seq<DailyMetric>, dayOf: string -> int, dateOf: int -> string, k: nat)
    requires |ms| > 0 && k < |Filled(ms, dayOf, dateOf)|
    ensures var date, m := dateOf(dayOf(ms[0].date) + k), MetricsByDate(ms);
            Filled(ms, dayOf, dateOf)[k] == if date in m then m[date] else EmptyDay(date)
  {
  }

  /** In a strictly increasing list no date recurs, so every metric is the
      one the lookup table keeps. */
  lemma {:induction false} StrictlyIncreasingLookup(ms: seq<DailyMetric>, dayOf: string -> int, j: nat)
    requires j < |ms| && StrictlyIncreasing(ms, dayOf)
    ensures MetricsByDate(ms)[ms[j].date] == ms[j]
  {
    forall l | j < l < |ms| ensures ms[l].date != ms[j].date {
      assert dayOf(ms[j].date) < dayOf(ms[l].date);
    }
    LastOfDateWins(ms, j);
  }

  /** With strictly increasing canonical dates, each input metric appears in
      the output exactly once, at its own day. */
  lemma {:induction false} FilledKeepsEachMetric(ms: seq<DailyMetric>, dayOf: string -> int, dateOf: int -> string, j: nat)
    requires j < |ms| && RoundTrips(dayOf, dateOf) && Canonical(ms, dayOf, dateOf)
    requires StrictlyIncreasing(ms, dayOf)
    ensures var r := Filled(ms, dayOf, dateOf);
            var k := dayOf(ms[j].date) - dayOf(ms[0].date);
            && 0 <= k < |r| && r[k] == ms[j]
            && forall i :: 0 <= i < |r| && i != k ==> r[i].date != ms[j].date
  {
    var s := dayOf(ms[0].date);
    var k := dayOf(ms[j].date) - s;
    WithinFirstAndLast(ms, dayOf, j);
    StrictlyIncreasingLookup(ms, dayOf, j);
    FilledAt(ms, dayOf, dateOf, k);
    assert dateOf(s + k) == ms[j].date;
    OnlyOwnDay(ms, dayOf, dateOf, ms[j].date, k);
  }

  /** Only the output entry at offset `k` carries the canonical date of day
      first + k. */
  lemma {:induction false} OnlyOwnDay(ms: seq<DailyMetric>, dayOf: string -> int, dateOf: int -> string,
                                       date: string, k: int)
    requires |ms| > 0 && RoundTrips(dayOf, dateOf)
    requires dayOf(date) == dayOf(ms[0].date) + k
    ensures var r := Filled(ms, dayOf, dateOf);
            forall i :: 0 <= i < |r| && i != k ==> r[i].date != date
  {
    var r := Filled(ms, dayOf, dateOf);
    var s := dayOf(ms[0].date);
    forall i | 0 <= i < |r| && i != k ensures r[i].date != date {
      assert dayOf(dateOf(s + i)) == s + i;
    }
  }

  /** Adding an entry whose date names only day start + k, with nothing
      recorded after that day, adds its total to that of the first `k` days. */
  lemma FillRangeWithEntry(m0: map<string, DailyMetric>, dateOf: int -> string, start: int, count: nat,
                           k: nat, last: DailyMetric)
    requires k < count && dateOf(start + k) == last.date
    requires forall x :: start <= x < start + count && x != start + k ==> dateOf(x) != last.date
    requires forall x :: start + k < x < start + count ==> dateOf(x) !in m0
    ensures Sum(MetricTimes(FillRange(m0[last.date := last], dateOf, start, count)))
         == Sum(MetricTimes(FillRange(m0, dateOf, start, k))) + last.totalTime
  {
    var f := FillRange(m0[last.date := last], dateOf, start, count);
    var f0 := FillRange(m0, dateOf, start, k);
    var tail := f[k + 1..];
    assert f == f[..k] + [last] + tail;
    FillRangePrefix(m0, dateOf, start, count, k, last);
    FillRangeTail(m0, dateOf, start, count, k, last);
    assert MetricTimes(f) == MetricTimes(f0) + [last.totalTime] + MetricTimes(tail);
    SumConcat(MetricTimes(f0) + [last.totalTime], MetricTimes(tail));
    SumAppend(MetricTimes(f0), last.totalTime);
  }

  lemma FillRangePrefix(m0: map<string, DailyMetric>, dateOf: int -> string, start: int, count: nat,
                        k: nat, last: DailyMetric)
    requires k < count
    requires forall x :: start <= x < start + count && x != start + k ==> dateOf(x) != last.date
    ensures FillRange(m0[last.date := last], dateOf, start, count)[..k] == FillRange(m0, dateOf, start, k)
  {
    var f := FillRange(m0[last.date := last], dateOf, start, count);
    var f0 := FillRange(m0, dateOf, start, k);
    forall i | 0 <= i < k ensures f[i] == f0[i] {
      assert dateOf(start + i) != last.date;
    }
  }

  lemma FillRangeTail(m0: map<string, DailyMetric>, dateOf: int -> string, start: int, count: nat,
                      k: nat, last: DailyMetric)
    requires k < count
    requires forall x :: start <= x < start + count && x != start + k ==> dateOf(x) != last.date
    requires forall x :: start + k < x < start + count ==> dateOf(x) !in m0
    ensures Sum(MetricTimes(FillRange(m0[last.date := last], dateOf, start, count)[k + 1..])) == 0
  {
    var f := FillRange(m0[last.date := last], dateOf, start, count);
    var tail := f[k + 1..];
    forall i | 0 <= i < |tail| ensures MetricTimes(tail)[i] == 0 {
      var x := start + k + 1 + i;
      assert dateOf(x) != last.date && dateOf(x) !in m0;
      assert tail[i] == f[k + 1 + i];
    }
    SumZeros(MetricTimes(tail));
  }

  /** The same, for the last metric of a list and the table of the others. */
  lemma FillRangeWithLast(ms: seq<DailyMetric>, dateOf: int -> string, start: int, count: nat, k: nat)
    requires |ms| > 0 && k < count && dateOf(start + k) == ms[|ms| - 1].date
    requires forall x :: start <= x < start + count && x != start + k ==> dateOf(x) != ms[|ms| - 1].date
    requires forall x :: start + k < x < start + count ==> dateOf(x) !in MetricsByDate(ms[..|ms| - 1])
    ensures Sum(MetricTimes(FillRange(MetricsByDate(ms), dateOf, start, count)))
         == Sum(MetricTimes(FillRange(MetricsByDate(ms[..|ms| - 1]), dateOf, start, k))) + ms[|ms| - 1].totalTime
  {
    var last, m0 := ms[|ms| - 1], MetricsByDate(ms[..|ms| - 1]);
    assert MetricsByDate(ms) == m0[last.date := last];
    FillRangeWithEntry(m0, dateOf, start, count, k, last);
  }

  lemma SumMetricTimesLast(ms: seq<DailyMetric>)
    requires |ms| > 0
    ensures Sum(MetricTimes(ms)) == Sum(MetricTimes(ms[..|ms| - 1])) + ms[|ms| - 1].totalTime
  {
    assert MetricTimes(ms) == MetricTimes(ms[..|ms| - 1]) + [ms[|ms| - 1].totalTime];
    SumAppend(MetricTimes(ms[..|ms| - 1]), ms[|ms| - 1].totalTime);
  }

  /** Under the round trip only day `d` is named `date` when `date` names day `d`. */
  lemma OnlyDayNamed(dayOf: string -> int, dateOf: int -> string, date: string, d: int)
    requires RoundTrips(dayOf, dateOf) && dayOf(date) == d
    ensures forall x :: x != d ==> dateOf(x) != date
  {
    forall x | x != d ensures dateOf(x) != date {
      assert dayOf(dateOf(x)) == x;
    }
  }

  /** No metric before the last one is dated on a day after the last one's. */
  lemma NothingAfterLast(ms: seq<DailyMetric>, dayOf: string -> int, dateOf: int -> string)
    requires |ms| > 0 && RoundTrips(dayOf, dateOf) && StrictlyIncreasing(ms, dayOf)
    ensures forall x :: dayOf(ms[|ms| - 1].date) < x ==> dateOf(x) !in MetricsByDate(ms[..|ms| - 1])
  {
    var init := ms[..|ms| - 1];
    var m0 := MetricsByDate(init);
    forall x | dayOf(ms[|ms| - 1].date) < x ensures dateOf(x) !in m0 {
      InitDayBefore(ms, dayOf, dateOf(x));
      assert dayOf(dateOf(x)) == x;
    }
  }

  /** A date found among all but the last metric names a day before the last one's. */
  lemma InitDayBefore(ms: seq<DailyMetric>, dayOf: string -> int, d: string)
    requires |ms| > 0 && StrictlyIncreasing(ms, dayOf)
    ensures d in MetricsByDate(ms[..|ms| - 1]) ==> dayOf(d) < dayOf(ms[|ms| - 1].date)
  {
    var init := ms[..|ms| - 1];
    if d in MetricsByDate(init) {
      MetricsByDateFrom(init, d);
      var i :| 0 <= i < |init| && init[i] == MetricsByDate(init)[d];
      assert ms[i] == init[i];
    }
  }

  /** Dropping the last metric keeps the list canonical and strictly
      increasing, with every day before the last one's. */
  lemma {:induction false} InitBefore(ms: seq<DailyMetric>, dayOf: string -> int, dateOf: int -> string)
    requires |ms| > 0 && Canonical(ms, dayOf, dateOf) && StrictlyIncreasing(ms, dayOf)
    ensures var init := ms[..|ms| - 1];
            && Canonical(init, dayOf, dateOf) && StrictlyIncreasing(init, dayOf)
            && forall j :: 0 <= j < |init| ==> dayOf(init[j].date) < dayOf(ms[|ms| - 1].date)
  {
    var init := ms[..|ms| - 1];
    forall j | 0 <= j < |init| ensures init[j] == ms[j] && dayOf(init[j].date) < dayOf(ms[|ms| - 1].date) {
      assert init[j] == ms[j];
      assert dayOf(ms[j].date) < dayOf(ms[|ms| - 1].date);
    }
  }

  /** Filling in zero days over a range that holds every input day keeps the
      sum of the day totals. */
  lemma {:induction false} FillRangeKeepsTotal(ms: seq<DailyMetric>, dayOf: string -> int, dateOf: int -> string,
                                                start: int, count: nat)
    requires RoundTrips(dayOf, dateOf) && Canonical(ms, dayOf, dateOf) && StrictlyIncreasing(ms, dayOf)
    requires forall j :: 0 <= j < |ms| ==> start <= dayOf(ms[j].date) < start + count
    ensures Sum(MetricTimes(FillRange(MetricsByDate(ms), dateOf, start, count))) == Sum(MetricTimes(ms))
  {
    if ms == [] {
      var f := FillRange(MetricsByDate(ms), dateOf, start, count);
      SumZeros(MetricTimes(f));
      assert MetricTimes(ms) == [];
    } else {
      var n := |ms| - 1;
      var init, last := ms[..n], ms[n];
      var k := dayOf(last.date) - start;
      InitBefore(ms, dayOf, dateOf);
      FillRangeKeepsTotal(init, dayOf, dateOf, start, k);
      OnlyDayNamed(dayOf, dateOf, last.date, start + k);
      NothingAfterLast(ms, dayOf, dateOf);
      FillRangeWithLast(ms, dateOf, start, count, k);
      SumMetricTimesLast(ms);
    }
  }

  /** In a strictly increasing list every day lies between the first and
      the last day. */
  lemma {:induction false} WithinFirstAndLast(ms: seq<DailyMetric>, dayOf: string -> int, j: nat)
    requires j < |ms| && StrictlyIncreasing(ms, dayOf)
    ensures dayOf(ms[0].date) <= dayOf(ms[j].date) <= dayOf(ms[|ms| - 1].date)
  {
    if 0 < j { assert dayOf(ms[0].date) < dayOf(ms[j].date); }
    if j < |ms| - 1 { assert dayOf(ms[j].date) < dayOf(ms[|ms| - 1].date); }
  }

  /** With strictly increasing canonical dates no time is lost or invented. */
  lemma {:induction false} FilledKeepsTotal(ms: seq<DailyMetric>, dayOf: string -> int, dateOf: int -> string)
    requires |ms| > 0 && RoundTrips(dayOf, dateOf) && Canonical(ms, dayOf, dateOf)
    requires StrictlyIncreasing(ms, dayOf)
    ensures Sum(MetricTimes(Filled(ms, dayOf, dateOf))) == Sum(MetricTimes(ms))
  {
    var s, e := dayOf(ms[0].date), dayOf(ms[|ms| - 1].date);
    forall j | 0 <= j < |ms| ensures s <= dayOf(ms[j].date) < s + (e - s + 1) {
      WithinFirstAndLast(ms, dayOf, j);
    }
    FillRangeKeepsTotal(ms, dayOf, dateOf, s, e - s + 1);
  }

  /** Replaces `data.dailyMetrics` by its gap-filled version and returns the
      same object; the projects and file types are left as they are. */
  method FillMissingDailyMetrics(data: TrackingData, dayOf: string -> int, dateOf: int -> string)
    returns (result: TrackingData)
    requires |data.dailyMetrics| > 0
    modifies data`dailyMetrics
    ensures result == data
    ensures data.dailyMetrics == Filled(old(data.dailyMetrics), dayOf, dateOf)
  {
    var metrics := data.dailyMetrics;
    var startDate := dayOf(metrics[0].date);
    var endDate := dayOf(metrics[|metrics| - 1].date);
    var metricsMap := MetricsByDate(metrics);
    var dailyMetrics: seq<DailyMetric> := [];
    var numberOfDays := endDate - startDate;
    var i := 0;
    while i <= numberOfDays
      invariant if numberOfDays >= 0 then 0 <= i <= numberOfDays + 1 else i == 0
      invariant |dailyMetrics| == i
      invariant forall k :: 0 <= k < i ==> dailyMetrics[k] == DayEntry(metricsMap, dateOf, startDate + k)
    {
      dailyMetrics := dailyMetrics + [DayEntry(metricsMap, dateOf, startDate + i)];
      i := i + 1;
    }
    assert dailyMetrics == FillRange(metricsMap, dateOf, startDate, i);
    data.dailyMetrics := dailyMetrics;
    result := data;
  }
}
