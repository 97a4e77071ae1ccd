/** The dashboard overview of backend/routes/analytics.js (`GET /api/analytics`):
    totals, per-subject statistics, the last seven days and three kinds of insight. */
module Overview {
  import opened Seqs
  import opened StudyModel
  import opened Percent
  import opened SubjectStats
  import opened DailyBuckets

  /** The insights, one variant per message. */
  datatype Insight = NeedsFocus(subject: string, completionRate: int) | MoreOnWeekends | WeekdayHabits | StreakImproved

  function Rank(i: Insight): nat
  {
    match i
    case NeedsFocus(_, _) => 0
    case MoreOnWeekends => 1
    case WeekdayHabits => 1
    case StreakImproved => 2
  }

  /** The response body; `totalHoursTenths` is `totalHours` in tenths of an hour. */
  datatype Summary = Summary(
    totalHoursTenths: int,
    totalSessions: nat,
    completedSessions: nat,
    completionRate: int,
    subjectStats: seq<SubjectStat>,
    weeklyActivity: seq<Bucket>,
    insights: seq<Insight>)

  // ----- The subject with the lowest completion rate -----

  /** An entry can take the place of the initial `minRate = 101`: it has sessions and
      its rate is below 101 %. */
  predicate Eligible(st: SubjectStat)
  {
    st.count > 0 && 100 * st.completed < 101 * st.count
  }

  /** `completed / count` of `a` is below that of `b` (both counts positive). */
  predicate RateBelow(a: SubjectStat, b: SubjectStat)
  {
    a.completed * b.count < b.completed * a.count
  }

  /** The index the `forEach` settles on: an entry replaces the current pick only
      when its rate is strictly lower, so ties keep the earlier entry. */
  function LowestIndex(stats: seq<SubjectStat>): (k: int)
    ensures -1 <= k < |stats|
  {
    if stats == [] then -1
    else
      var best := LowestIndex(Init(stats));
      var last := Last(stats);
      if last.count == 0 then best
      else if best == -1 then (if Eligible(last) then |stats| - 1 else -1)
      else if RateBelow(last, stats[best]) then |stats| - 1
      else best
  }

  lemma RateTransitive(a: SubjectStat, b: SubjectStat, c: SubjectStat)
    requires a.count > 0 && b.count > 0 && c.count > 0
    requires !RateBelow(b, a) && !RateBelow(c, b)
    ensures !RateBelow(c, a)
  {
    var na, nb, nc := a.count as int, b.count as int, c.count as int;
    var ca, cb, cc := a.completed as int, b.completed as int, c.completed as int;
    MulMonotone(ca * nb, cb * na, nc);
    MulMonotone(cb * nc, cc * nb, na);
    assert (cb * na) * nc == (cb * nc) * na;
    assert (ca * nb) * nc == (ca * nc) * nb;
    assert (cc * nb) * na == (cc * na) * nb;
    if cc * na < ca * nc {
      MulMonotone(cc * na + 1, ca * nc, nb);
    }
  }

  /** A rate below an eligible one is eligible too. */
  lemma EligibleBelow(a: SubjectStat, b: SubjectStat)
    requires Eligible(b) && a.count > 0 && RateBelow(a, b)
    ensures Eligible(a)
  {
    var na, nb := a.count as int, b.count as int;
    var ca, cb := a.completed as int, b.completed as int;
    MulMonotone(100 * cb + 1, 101 * nb, na);
    assert (100 * cb) * na == 100 * (cb * na);
    assert (101 * nb) * na == 101 * (na * nb);
    assert 100 * (ca * nb) < 101 * (na * nb);
    if 100 * ca >= 101 * na {
      MulMonotone(101 * na, 100 * ca, nb);
    }
  }

  /** No entry with sessions has a rate below that of entry `k`. */
  predicate IsMinimum(stats: seq<SubjectStat>, k: int)
    requires 0 <= k < |stats|
  {
    forall j :: 0 <= j < |stats| && stats[j].count > 0 ==> !RateBelow(stats[j], stats[k])
  }

  /** Every earlier entry with sessions has a rate above that of entry `k`. */
  predicate FirstOfRate(stats: seq<SubjectStat>, k: int)
    requires 0 <= k < |stats|
  {
    forall j :: 0 <= j < k && stats[j].count > 0 ==> RateBelow(stats[k], stats[j])
  }

  predicate NoneEligible(stats: seq<SubjectStat>)
  {
    forall j :: 0 <= j < |stats| ==> !Eligible(stats[j])
  }

  /** What the pick means. */
  predicate IsLowest(stats: seq<SubjectStat>, k: int)
  {
    -1 <= k < |stats|
    && (k == -1 <==> NoneEligible(stats))
    && (k != -1 ==> Eligible(stats[k]) && IsMinimum(stats, k) && FirstOfRate(stats, k))
  }

  /** The pick is the first entry of lowest rate among those that have sessions, and
      there is none only when no entry is eligible. */
  lemma {:induction false} LowestIndexIsFirstMinimum(stats: seq<SubjectStat>)
    ensures IsLowest(stats, LowestIndex(stats))
  {
    if stats != [] {
      LowestIndexIsFirstMinimum(Init(stats));
      LowestStep(Init(stats), Last(stats));
      assert stats == Init(stats) + [Last(stats)];
    }
  }

  lemma LowestStep(p: seq<SubjectStat>, last: SubjectStat)
    requires IsLowest(p, LowestIndex(p))
    ensures IsLowest(p + [last], LowestIndex(p + [last]))
  {
    var stats := p + [last];
    assert Init(stats) == p && Last(stats) == last;
    var best := LowestIndex(p);
    if last.count == 0 {
      SkipStep(p, last);
    } else if best == -1 {
      FirstStep(p, last);
    } else if RateBelow(last, p[best]) {
      ReplaceStep(p, last);
    } else {
      KeepStep(p, last);
    }
  }

  /** An entry without sessions is skipped. */
  lemma SkipStep(p: seq<SubjectStat>, last: SubjectStat)
    requires IsLowest(p, LowestIndex(p)) && last.count == 0
    ensures IsLowest(p + [last], LowestIndex(p))
  {
    var stats := p + [last];
    var best := LowestIndex(p);
    assert forall j :: 0 <= j < |p| ==> stats[j] == p[j];
    if best != -1 {
      assert IsMinimum(stats, best);
      assert FirstOfRate(stats, best);
    } else {
      assert NoneEligible(stats);
    }
  }

  /** With no pick yet, an eligible entry becomes the pick. */
  lemma FirstStep(p: seq<SubjectStat>, last: SubjectStat)
    requires IsLowest(p, LowestIndex(p)) && LowestIndex(p) == -1 && last.count > 0
    ensures IsLowest(p + [last], if Eligible(last) then |p| else -1)
  {
    var stats := p + [last];
    if Eligible(last) {
      forall j | 0 <= j < |p| && stats[j].count > 0
        ensures RateBelow(last, stats[j]) && !RateBelow(stats[j], last)
      {
        assert stats[j] == p[j];
        EligibleBeatsIneligible(last, p[j]);
      }
      assert stats[|p|] == last;
    } else {
      forall j | 0 <= j < |stats| ensures !Eligible(stats[j]) {
        if j < |p| {
          assert stats[j] == p[j];
        }
      }
    }
  }

  /** An eligible rate is below every ineligible one with sessions. */
  lemma EligibleBeatsIneligible(a: SubjectStat, b: SubjectStat)
    requires Eligible(a) && b.count > 0 && !Eligible(b)
    ensures RateBelow(a, b)
  {
    var na, nb := a.count as int, b.count as int;
    var ca, cb := a.completed as int, b.completed as int;
    MulMonotone(100 * ca + 1, 101 * na, nb);
    MulMonotone(101 * nb, 100 * cb, na);
    assert (100 * ca) * nb == 100 * (ca * nb);
    assert (101 * na) * nb == 101 * (na * nb);
    assert (101 * nb) * na == 101 * (na * nb);
    assert (100 * cb) * na == 100 * (cb * na);
  }

  /** A strictly lower rate replaces the pick. */
  lemma ReplaceStep(p: seq<SubjectStat>, last: SubjectStat)
    requires IsLowest(p, LowestIndex(p)) && LowestIndex(p) != -1 && last.count > 0
    requires RateBelow(last, p[LowestIndex(p)])
    ensures IsLowest(p + [last], |p|)
  {
    var stats := p + [last];
    var best := LowestIndex(p);
    EligibleBelow(last, p[best]);
    forall j | 0 <= j < |p| && stats[j].count > 0
      ensures RateBelow(last, stats[j]) && !RateBelow(stats[j], last)
    {
      assert stats[j] == p[j];
      assert !RateBelow(p[j], p[best]);
      if !RateBelow(last, p[j]) {
        RateTransitive(p[best], p[j], last);
      }
    }
    assert stats[|p|] == last;
    assert stats[best] == p[best];
  }

  /** A rate that is not strictly lower keeps the pick. */
  lemma KeepStep(p: seq<SubjectStat>, last: SubjectStat)
    requires IsLowest(p, LowestIndex(p)) && LowestIndex(p) != -1 && last.count > 0
    requires !RateBelow(last, p[LowestIndex(p)])
    ensures IsLowest(p + [last], LowestIndex(p))
  {
    var stats := p + [last];
    var best := LowestIndex(p);
    assert forall j :: 0 <= j < |p| ==> stats[j] == p[j];
    assert IsMinimum(stats, best);
    assert FirstOfRate(stats, best);
  }

  /** The `Object.keys(subjectStats).forEach` that looks for the lowest rate. */
  method LowestCompletion(stats: seq<SubjectStat>) returns (k: int)
    ensures k == LowestIndex(stats)
  {
    k := -1;
    for i := 0 to |stats|
      invariant k == LowestIndex(stats[..i])
    {
      var stat := stats[i];
      assert Init(stats[..i + 1]) == stats[..i] && Last(stats[..i + 1]) == stat;
      assert forall j :: 0 <= j < i ==> stats[..i][j] == stats[j];
      if stat.count == 0 {
        continue;
      }
      if k == -1 {
        if 100 * stat.completed < 101 * stat.count {
          k := i;
        }
      } else if stat.completed * stats[k].count < stats[k].completed * stat.count {
        k := i;
      }
    }
    assert stats[..|stats|] == stats;
  }

  // ----- Weekend against weekday -----

  function OnWeekend(): Bucket -> bool
  {
    (b: Bucket) => b.name == "Sat" || b.name == "Sun"
  }

  function OnWeekday(): Bucket -> bool
  {
    (b: Bucket) => b.name != "Sat" && b.name != "Sun"
  }

  function Active(): Bucket -> bool
  {
    (b: Bucket) => b.duration > 0
  }

  lemma SumAppend(buckets: seq<Bucket>, b: Bucket)
    ensures SumDurations(buckets + [b]) == SumDurations(buckets) + b.duration
  {
    assert Init(buckets + [b]) == buckets;
  }

  /** Weekend and weekday minutes split the week's minutes between them. */
  lemma {:induction false} WeekSplits(buckets: seq<Bucket>)
    ensures SumDurations(Filter(buckets, OnWeekend())) + SumDurations(Filter(buckets, OnWeekday()))
            == SumDurations(buckets)
  {
    if buckets != [] {
      var p, b := Init(buckets), Last(buckets);
      WeekSplits(p);
      var we, wd := Filter(p, OnWeekend()), Filter(p, OnWeekday());
      var weekend := b.name == "Sat" || b.name == "Sun";
      assert OnWeekend()(b) == weekend && OnWeekday()(b) == !weekend;
      if weekend {
        assert Filter(buckets, OnWeekend()) == we + [b];
        assert Filter(buckets, OnWeekday()) == wd;
        SumAppend(we, b);
      } else {
        assert Filter(buckets, OnWeekend()) == we;
        assert Filter(buckets, OnWeekday()) == wd + [b];
        SumAppend(wd, b);
      }
    }
  }

  /** The insights list built from the pick, the two sums and the active day count. */
  function Insights(focus: Option<Insight>, weekend: int, weekday: int, activeDays: nat): (r: seq<Insight>)
    requires focus.Some? ==> focus.value.NeedsFocus?
    ensures |r| <= 3
    ensures forall i, j :: 0 <= i < j < |r| ==> Rank(r[i]) < Rank(r[j])
    ensures focus.Some? <==> |r| > 0 && r[0].NeedsFocus?
    ensures focus.Some? ==> r[0] == focus.value
    ensures MoreOnWeekends in r <==> weekend > weekday
    ensures WeekdayHabits in r <==> weekend <= weekday && weekday > 0
    ensures StreakImproved in r <==> activeDays >= 5
  {
    var head := if focus.Some? then [focus.value] else [];
    var balance := if weekend > weekday then [MoreOnWeekends] else if weekday > 0 then [WeekdayHabits] else [];
    var streak := if activeDays >= 5 then [StreakImproved] else [];
    var r := head + balance + streak;
    assert forall i :: |head| <= i < |r| ==> !r[i].NeedsFocus?;
    r
  }

  /** The insight about the pick, if there is one with a non-empty name:
      `${subject} needs more focus (Completion rate: ${Math.round(minRate)}%)`. */
  function FocusInsight(stats: seq<SubjectStat>, k: int): (r: Option<Insight>)
    requires -1 <= k < |stats|
    ensures r.Some? <==> k != -1 && stats[k].subject != "" && stats[k].count > 0
    ensures r.Some? ==> r.value.NeedsFocus? && r.value.subject == stats[k].subject
    ensures r.Some? ==> r.value.completionRate == RoundedPercent(stats[k].completed, stats[k].count)
  {
    if k == -1 || stats[k].subject == "" || stats[k].count == 0 then None
    else Some(NeedsFocus(stats[k].subject, RoundedPercent(stats[k].completed, stats[k].count)))
  }

  /** `last7Days`: the last seven local days, each holding its sessions' minutes. */
  method WeeklyActivity(studies: seq<Study>, today: int, tz: int) returns (week: seq<Bucket>)
    ensures |week| == 7
    ensures forall j :: 0 <= j < 7 ==>
              week[j].day == today - 6 + j
              && week[j].name == ShortName(today - 6 + j)
              && week[j].duration == DayTotal(studies, today - 6 + j, tz)
  {
    var empty := BuildDailyBuckets(7, today);
    week := FillBuckets(empty, studies, tz);
    FilledHoldsDayTotals(empty, studies, tz);
    assert forall j :: 0 <= j < 7 ==> empty[j] == EmptyBucket(today - 6 + j);
  }

  /** `GET /api/analytics` on local day `today` in a zone at offset `tz`. */
  method Summarize(studies: seq<Study>, today: int, tz: int) returns (r: Summary)
    ensures r.totalHoursTenths == TenthsOfHours(TotalMinutes(studies))
    ensures r.totalSessions == |studies|
    ensures r.completedSessions == |Filter(studies, IsCompleted())|
    ensures r.completionRate == CompletionRate(|studies|, |Filter(studies, IsCompleted())|)
    ensures r.subjectStats == StatsOf(studies)
    ensures |r.weeklyActivity| == 7
    ensures forall j :: 0 <= j < 7 ==>
              r.weeklyActivity[j].day == today - 6 + j
              && r.weeklyActivity[j].name == ShortName(today - 6 + j)
              && r.weeklyActivity[j].duration == DayTotal(studies, today - 6 + j, tz)
    ensures r.insights == Insights(
              FocusInsight(StatsOf(studies), LowestIndex(StatsOf(studies))),
              SumDurations(Filter(r.weeklyActivity, OnWeekend())),
              SumDurations(Filter(r.weeklyActivity, OnWeekday())),
              |Filter(r.weeklyActivity, Active())|)
  {
    var totalMinutes := TotalMinutes(studies);
    var stats := ComputeSubjectStats(studies);
    var last7Days := WeeklyActivity(studies, today, tz);
    var completedSessions := |Filter(studies, IsCompleted())|;
    var completionRate := CompletionRate(|studies|, completedSessions);
    var k := LowestCompletion(stats);
    var weekend := SumDurations(Filter(last7Days, OnWeekend()));
    var weekday := SumDurations(Filter(last7Days, OnWeekday()));
    var activeDays := |Filter(last7Days, Active())|;
    var insights := Insights(FocusInsight(stats, k), weekend, weekday, activeDays);
    r := Summary(TenthsOfHours(totalMinutes), |studies|, completedSessions, completionRate,
                 stats, last7Days, insights);
  }

  /** Every subject of the overview has sessions and a name, so the pick exists
      exactly when some session names a subject, and its insight is always shown. */
  lemma FocusWhenAnySubject(studies: seq<Study>)
    ensures var stats := StatsOf(studies);
      FocusInsight(stats, LowestIndex(stats)).Some? <==> stats != []
  {
    var stats := StatsOf(studies);
    StatsCountsBounded(studies);
    StatsSubjectsDistinct(studies);
    LowestIndexIsFirstMinimum(stats);
    if stats != [] {
      assert Eligible(stats[0]);
    }
  }

  /** The focus insight names a subject that has sessions, reports that subject's own
      rounded completion rate, and no named subject has a lower rate than it. */
  lemma FocusNamesLowestSubject(studies: seq<Study>)
    ensures var stats := StatsOf(studies);
      var f := FocusInsight(stats, LowestIndex(stats));
      f.Some? ==>
        var subj := f.value.subject;
        CountFor(studies, subj) > 0
        && f.value.completionRate == RoundedPercent(CompletedFor(studies, subj), CountFor(studies, subj))
        && forall other :: other != "" && CountFor(studies, other) > 0 ==>
             CompletedFor(studies, subj) * CountFor(studies, other) <= CompletedFor(studies, other) * CountFor(studies, subj)
  {
    var stats := StatsOf(studies);
    var k := LowestIndex(stats);
    var f := FocusInsight(stats, k);
    if f.Some? {
      LowestIndexIsFirstMinimum(stats);
      StatsOfMeaning(studies);
      StatsSubjectsPresent(studies);
      var subj := f.value.subject;
      assert Describes(studies, stats[k]);
      forall other | other != "" && CountFor(studies, other) > 0
        ensures CompletedFor(studies, subj) * CountFor(studies, other) <= CompletedFor(studies, other) * CountFor(studies, subj)
      {
        assert HasSubject(stats, other);
        var j :| 0 <= j < |stats| && stats[j].subject == other;
        assert Describes(studies, stats[j]);
        assert !RateBelow(stats[j], stats[k]);
      }
    }
  }
}
