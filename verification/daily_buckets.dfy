/** The per-day charts of backend/routes/analytics.js: a run of consecutive local days
    ending today, each credited with the minutes of the sessions charted on it. */
module DailyBuckets {
  import opened Seqs
  import opened StudyModel

  const WeekdayNames: seq<string> := ["Sun", "Mon", "Tue", "Wed", "Thu", "Fri", "Sat"]

  /** `toLocaleDateString('en-US', { weekday: 'short' })` of a local day. */
  function ShortName(day: int): string
  {
    WeekdayNames[Weekday(day)]
  }

  /** The insights tell weekends by name; the names pick out exactly Saturday and Sunday. */
  lemma WeekendNames(day: int)
    ensures ShortName(day) == "Sat" || ShortName(day) == "Sun" <==> IsWeekend(day)
  {
    var w := Weekday(day);
    assert ShortName(day) == WeekdayNames[w];
    assert WeekdayNames[1][0] == 'M' && WeekdayNames[2][0] == 'T' && WeekdayNames[3][0] == 'W';
    assert WeekdayNames[4][0] == 'T' && WeekdayNames[5][0] == 'F';
  }

  /** One chart bar: `date` (the short weekday name), `fullDate` (the local day) and
      the minutes credited to it. */
  datatype Bucket = Bucket(name: string, day: int, duration: int)

  function EmptyBucket(day: int): Bucket
  {
    Bucket(ShortName(day), day, 0)
  }

  /** The days of the buckets are pairwise different. */
  predicate DistinctDays(buckets: seq<Bucket>)
  {
    forall i, j :: 0 <= i < j < |buckets| ==> buckets[i].day != buckets[j].day
  }

  /** `n` empty buckets for the consecutive days from `first` on. */
  predicate IsEmptyRun(buckets: seq<Bucket>, first: int, n: int)
  {
    |buckets| == n && forall j :: 0 <= j < n ==> buckets[j] == EmptyBucket(first + j)
  }

  /** `buildDailyBuckets(days)` on local day `today`. */
  method BuildDailyBuckets(days: int, today: int) returns (buckets: seq<Bucket>)
    ensures var n := if days > 0 then days else 0;
      IsEmptyRun(buckets, today - n + 1, n)
    ensures DistinctDays(buckets)
  {
    buckets := [];
    var i := days - 1;
    while i >= 0
      invariant if days > 0 then -1 <= i <= days - 1 else i == days - 1
      invariant |buckets| == days - 1 - i
      invariant forall j :: 0 <= j < |buckets| ==> buckets[j] == EmptyBucket(today - (days - 1) + j)
    {
      buckets := buckets + [EmptyBucket(today - i)];
      i := i - 1;
    }
  }

  function OnDay(day: int): Bucket -> bool
  {
    (b: Bucket) => b.day == day
  }

  /** `findIndex((day) => day.fullDate === key)` */
  function BucketIndex(buckets: seq<Bucket>, day: int): int
  {
    FirstIndex(buckets, OnDay(day))
  }

  /** One session of the `forEach`: its minutes go to the first bucket of its day,
      if the run has one. */
  function Credit(buckets: seq<Bucket>, s: Study, tz: int): (r: seq<Bucket>)
    ensures |r| == |buckets|
    ensures forall j :: 0 <= j < |r| ==> r[j].day == buckets[j].day && r[j].name == buckets[j].name
  {
    var day := ChartDay(s, tz);
    if day.None? then buckets
    else
      var k := BucketIndex(buckets, day.value);
      if k == -1 then buckets
      else buckets[k := buckets[k].(duration := buckets[k].duration + s.duration)]
  }

  /** The run after every session has been credited. */
  function Filled(buckets: seq<Bucket>, studies: seq<Study>, tz: int): (r: seq<Bucket>)
    ensures |r| == |buckets|
    ensures forall j :: 0 <= j < |r| ==> r[j].day == buckets[j].day && r[j].name == buckets[j].name
  {
    if studies == [] then buckets else Credit(Filled(buckets, Init(studies), tz), Last(studies), tz)
  }

  /** The minutes of the sessions charted on `day`, counted session by session. */
  function DayTotal(studies: seq<Study>, day: int, tz: int): int
  {
    if studies == [] then 0
    else DayTotal(Init(studies), day, tz) + (if ChartDay(Last(studies), tz) == Some(day) then Last(studies).duration else 0)
  }

  /** The minutes of the sessions charted on a day from `lo` to `hi`. */
  function WindowTotal(studies: seq<Study>, lo: int, hi: int, tz: int): int
  {
    if studies == [] then 0
    else
      var day := ChartDay(Last(studies), tz);
      WindowTotal(Init(studies), lo, hi, tz) + (if day.Some? && lo <= day.value <= hi then Last(studies).duration else 0)
  }

  function SumDurations(buckets: seq<Bucket>): int
  {
    if buckets == [] then 0 else SumDurations(Init(buckets)) + Last(buckets).duration
  }

  /** With pairwise different days, every bucket ends up holding its own day's minutes. */
  lemma {:induction false} FilledHoldsDayTotals(buckets: seq<Bucket>, studies: seq<Study>, tz: int)
    requires DistinctDays(buckets)
    ensures forall j :: 0 <= j < |buckets| ==>
              Filled(buckets, studies, tz)[j].duration == buckets[j].duration + DayTotal(studies, buckets[j].day, tz)
  {
    if studies != [] {
      FilledHoldsDayTotals(buckets, Init(studies), tz);
      var before := Filled(buckets, Init(studies), tz);
      var s := Last(studies);
      var day := ChartDay(s, tz);
      if day.Some? {
        var k := BucketIndex(before, day.value);
        forall j | 0 <= j < |buckets|
          ensures Filled(buckets, studies, tz)[j].duration == buckets[j].duration + DayTotal(studies, buckets[j].day, tz)
        {
          if k != -1 && j != k {
            assert before[j].day != before[k].day;
          }
        }
      }
    }
  }

  /** A window one day longer holds that day's minutes more. */
  lemma {:induction false} WindowExtend(studies: seq<Study>, lo: int, hi: int, tz: int)
    requires lo <= hi + 1
    ensures WindowTotal(studies, lo, hi + 1, tz) == WindowTotal(studies, lo, hi, tz) + DayTotal(studies, hi + 1, tz)
  {
    if studies != [] {
      WindowExtend(Init(studies), lo, hi, tz);
    }
  }

  lemma {:induction false} EmptyWindow(studies: seq<Study>, lo: int, tz: int)
    ensures WindowTotal(studies, lo, lo - 1, tz) == 0
  {
    if studies != [] {
      EmptyWindow(Init(studies), lo, tz);
    }
  }

  /** A filled run of consecutive days holds, all together, the minutes of the
      sessions charted inside it. */
  lemma FilledRunTotal(run: seq<Bucket>, studies: seq<Study>, first: int, n: nat, tz: int)
    requires IsEmptyRun(run, first, n)
    ensures SumDurations(Filled(run, studies, tz)) == WindowTotal(studies, first, first + n - 1, tz)
  {
    assert forall j :: 0 <= j < n ==> run[j].day == first + j && run[j].duration == 0;
    FilledHoldsDayTotals(run, studies, tz);
    RunSum(studies, first, n, tz, Filled(run, studies, tz));
  }

  lemma {:induction false} RunSum(studies: seq<Study>, first: int, n: nat, tz: int, filled: seq<Bucket>)
    requires |filled| == n
    requires forall j :: 0 <= j < n ==> filled[j].duration == DayTotal(studies, first + j, tz)
    ensures SumDurations(filled) == WindowTotal(studies, first, first + n - 1, tz)
  {
    if n == 0 {
      EmptyWindow(studies, first, tz);
    } else {
      RunSum(studies, first, n - 1, tz, Init(filled));
      WindowExtend(studies, first, first + n - 2, tz);
    }
  }

  /** The last week and the week before it together are the last fourteen days. */
  lemma {:induction false} WeeksSplit(studies: seq<Study>, today: int, tz: int)
    ensures WindowTotal(studies, today - 13, today - 7, tz) + WindowTotal(studies, today - 6, today, tz)
            == WindowTotal(studies, today - 13, today, tz)
  {
    if studies != [] {
      WeeksSplit(Init(studies), today, tz);
    }
  }

  /** With no negative durations, a window never holds more than all sessions. */
  lemma {:induction false} WindowWithinTotal(studies: seq<Study>, lo: int, hi: int, tz: int)
    requires forall s :: s in studies ==> s.duration >= 0
    ensures 0 <= WindowTotal(studies, lo, hi, tz) <= TotalMinutes(studies)
  {
    if studies != [] {
      assert studies == Init(studies) + [Last(studies)];
      WindowWithinTotal(Init(studies), lo, hi, tz);
    }
  }

  /** `studies.reduce((acc, curr) => acc + (Number(curr.duration) || 0), 0)` */
  function TotalMinutes(studies: seq<Study>): int
  {
    if studies == [] then 0 else TotalMinutes(Init(studies)) + Last(studies).duration
  }

  /** `last7Days.findIndex(...)` */
  method FindBucket(buckets: seq<Bucket>, day: int) returns (k: int)
    ensures k == BucketIndex(buckets, day)
  {
    k := FindFirst(buckets, OnDay(day));
  }

  /** One pass of the `forEach` body: look the session's day up, add its minutes there. */
  method CreditSession(buckets: seq<Bucket>, s: Study, tz: int) returns (r: seq<Bucket>)
    ensures r == Credit(buckets, s, tz)
  {
    r := buckets;
    var day := ChartDay(s, tz);
    if day.Some? {
      var k := FindBucket(r, day.value);
      if k != -1 {
        r := r[k := r[k].(duration := r[k].duration + s.duration)];
      }
    }
  }

  /** The `forEach` that credits every session to the run of buckets. */
  method FillBuckets(buckets: seq<Bucket>, studies: seq<Study>, tz: int) returns (r: seq<Bucket>)
    ensures r == Filled(buckets, studies, tz)
  {
    r := buckets;
    for i := 0 to |studies|
      invariant r == Filled(buckets, studies[..i], tz)
    {
      assert Init(studies[..i + 1]) == studies[..i] && Last(studies[..i + 1]) == studies[i];
      r := CreditSession(r, studies[i], tz);
    }
    assert studies[..|studies|] == studies;
  }

  /** `reduce((acc, d) => acc + d.duration, 0)` */
  method SumBuckets(buckets: seq<Bucket>) returns (total: int)
    ensures total == SumDurations(buckets)
  {
    total := 0;
    for i := 0 to |buckets|
      invariant total == SumDurations(buckets[..i])
    {
      assert Init(buckets[..i + 1]) == buckets[..i];
      total := total + buckets[i].duration;
    }
    assert buckets[..|buckets|] == buckets;
  }
}
