/** The recommendations view of backend/routes/analytics.js: the last seven local days
    against the seven before them, and the advice built from the weak subjects, the
    completion rate and that trend. */
module Recommendations {
  import opened Seqs
  import opened StudyModel
  import opened Percent
  import opened SubjectStats
  import opened TimeShare
  import opened DailyBuckets

  /** `recentTrend`: minutes in the last seven days and in the seven days before. */
  datatype Trend = Trend(currentTotal: int, previousTotal: int)

  /** The advice, one variant per message; `FocusOn` carries the joined subject names. */
  datatype Advice = FocusOn(names: string) | FinishPending | TightenSchedule | RecoverMomentum

  /** The place of each message in the list. */
  function Rank(a: Advice): nat
  {
    match a
    case FocusOn(_) => 0
    case FinishPending => 1
    case TightenSchedule => 1
    case RecoverMomentum => 2
  }

  /** `names.join(sep)` */
  function Join(names: seq<string>, sep: string): (r: string)
    ensures names == [] ==> r == []
    ensures |names| == 1 ==> r == names[0]
  {
    if names == [] then []
    else if |names| == 1 then names[0]
    else Join(Init(names), sep) + sep + Last(names)
  }

  /** The total length of the names. */
  function TotalLength(names: seq<string>): nat
  {
    if names == [] then 0 else TotalLength(Init(names)) + |Last(names)|
  }

  /** Where the `i`-th name starts in the joined text: after every earlier name and
      the separator that follows each of them. */
  function Offset(names: seq<string>, sep: string, i: nat): nat
    requires i <= |names|
  {
    if i == 0 then 0 else Offset(names, sep, i - 1) + |names[i - 1]| + |sep|
  }

  lemma {:induction false} OffsetOfPrefix(names: seq<string>, sep: string, i: nat)
    requires names != [] && i <= |names| - 1
    ensures Offset(Init(names), sep, i) == Offset(names, sep, i)
  {
    if i > 0 {
      OffsetOfPrefix(names, sep, i - 1);
    }
  }

  /** The joined text is as long as the names plus one separator between each pair
      of neighbours, and ends where the last name ends. */
  lemma {:induction false} JoinLength(names: seq<string>, sep: string)
    requires names != []
    ensures |Join(names, sep)| == TotalLength(names) + (|names| - 1) * |sep|
    ensures |Join(names, sep)| == Offset(names, sep, |names| - 1) + |Last(names)|
  {
    if |names| > 1 {
      var p := Init(names);
      JoinLength(p, sep);
      OffsetOfPrefix(names, sep, |p| - 1);
      assert (|names| - 1) * |sep| == (|p| - 1) * |sep| + |sep|;
      assert names[|p| - 1] == Last(p);
    }
  }

  lemma {:induction false} JoinNameAt(names: seq<string>, sep: string, i: nat)
    requires i < |names|
    ensures Offset(names, sep, i) + |names[i]| <= |Join(names, sep)|
    ensures Join(names, sep)[Offset(names, sep, i)..Offset(names, sep, i) + |names[i]|] == names[i]
  {
    if |names| > 1 {
      var p, x := Init(names), Last(names);
      var head := Join(p, sep);
      assert Join(names, sep) == head + sep + x;
      JoinLength(p, sep);
      if i < |p| {
        JoinNameAt(p, sep, i);
        OffsetOfPrefix(names, sep, i);
        assert names[i] == p[i];
      } else {
        OffsetOfPrefix(names, sep, |p| - 1);
        assert names[|p| - 1] == Last(p);
        assert Offset(names, sep, i) == |head| + |sep|;
      }
    }
  }

  lemma {:induction false} JoinSeparatorAt(names: seq<string>, sep: string, i: nat)
    requires 0 < i < |names|
    ensures |sep| <= Offset(names, sep, i) <= |Join(names, sep)|
    ensures Join(names, sep)[Offset(names, sep, i) - |sep|..Offset(names, sep, i)] == sep
  {
    var p, x := Init(names), Last(names);
    var head := Join(p, sep);
    assert Join(names, sep) == head + sep + x;
    JoinLength(p, sep);
    if i < |p| {
      JoinSeparatorAt(p, sep, i);
      OffsetOfPrefix(names, sep, i);
    } else {
      OffsetOfPrefix(names, sep, |p| - 1);
      assert names[|p| - 1] == Last(p);
      assert Offset(names, sep, i) == |head| + |sep|;
    }
  }

  /** The joined text holds every name, in order, each at its offset. */
  lemma JoinNamesInPlace(names: seq<string>, sep: string)
    ensures forall i: nat :: i < |names| ==>
              Offset(names, sep, i) + |names[i]| <= |Join(names, sep)|
              && Join(names, sep)[Offset(names, sep, i)..Offset(names, sep, i) + |names[i]|] == names[i]
  {
    forall i: nat | i < |names| {
      JoinNameAt(names, sep, i);
    }
  }

  /** Between each name and the next the joined text holds the separator; with
      `JoinLength`, the text holds nothing else. */
  lemma JoinSeparatorsInPlace(names: seq<string>, sep: string)
    ensures forall i: nat :: 0 < i < |names| ==>
              |sep| <= Offset(names, sep, i) <= |Join(names, sep)|
              && Join(names, sep)[Offset(names, sep, i) - |sep|..Offset(names, sep, i)] == sep
  {
    forall i: nat | 0 < i < |names| {
      JoinSeparatorAt(names, sep, i);
    }
  }

  function SubjectOf(): Share -> string
  {
    (sh: Share) => sh.subject
  }

  /** `buildRecommendations({ weakSubjects, completionRate, recentTrend })` */
  function BuildRecommendations(weak: seq<Share>, completionRate: int, trend: Trend): (r: seq<Advice>)
    ensures |r| <= 3
    ensures forall i, j :: 0 <= i < j < |r| ==> Rank(r[i]) < Rank(r[j])
    ensures (exists i :: 0 <= i < |r| && r[i].FocusOn?) <==> weak != []
    ensures weak != [] ==> r[0] == FocusOn(Join(Map(weak, SubjectOf()), ", "))
    ensures FinishPending in r <==> completionRate < 50
    ensures TightenSchedule in r <==> 50 <= completionRate < 80
    ensures RecoverMomentum in r <==> trend.currentTotal < trend.previousTotal
  {
    var focus := if weak != [] then [FocusOn(Join(Map(weak, SubjectOf()), ", "))] else [];
    var pace := if completionRate < 50 then [FinishPending] else if completionRate < 80 then [TightenSchedule] else [];
    var momentum := if trend.currentTotal < trend.previousTotal then [RecoverMomentum] else [];
    var r := focus + pace + momentum;
    assert forall i :: |focus| <= i < |r| ==> !r[i].FocusOn?;
    assert weak != [] ==> r[0].FocusOn?;
    r
  }

  /** The 7-against-7 comparison on local day `today` in a zone at offset `tz`. */
  method RecentTrend(studies: seq<Study>, today: int, tz: int) returns (trend: Trend)
    ensures trend.currentTotal == WindowTotal(studies, today - 6, today, tz)
    ensures trend.previousTotal == WindowTotal(studies, today - 13, today - 7, tz)
  {
    var last7 := BuildDailyBuckets(7, today);
    var prev14 := BuildDailyBuckets(14, today);
    var prev7 := prev14[..7];
    assert IsEmptyRun(prev7, today - 13, 7);
    var emptyLast, emptyPrev := last7, prev7;
    for i := 0 to |studies|
      invariant last7 == Filled(emptyLast, studies[..i], tz)
      invariant prev7 == Filled(emptyPrev, studies[..i], tz)
    {
      var s := studies[i];
      assert Init(studies[..i + 1]) == studies[..i] && Last(studies[..i + 1]) == s;
      last7 := CreditSession(last7, s, tz);
      prev7 := CreditSession(prev7, s, tz);
    }
    assert studies[..|studies|] == studies;
    FilledRunTotal(emptyLast, studies, today - 6, 7, tz);
    FilledRunTotal(emptyPrev, studies, today - 13, 7, tz);
    var current := SumBuckets(last7);
    var previous := SumBuckets(prev7);
    trend := Trend(current, previous);
  }

  /** The two weeks do not overlap, so with no negative durations they hold together
      no more than all the sessions do. */
  lemma TrendWithinTotal(studies: seq<Study>, today: int, tz: int)
    requires forall s :: s in studies ==> s.duration >= 0
    ensures 0 <= WindowTotal(studies, today - 6, today, tz)
    ensures 0 <= WindowTotal(studies, today - 13, today - 7, tz)
    ensures WindowTotal(studies, today - 6, today, tz) + WindowTotal(studies, today - 13, today - 7, tz)
            <= TotalMinutes(studies)
  {
    WeeksSplit(studies, today, tz);
    WindowWithinTotal(studies, today - 13, today, tz);
    WindowWithinTotal(studies, today - 6, today, tz);
    WindowWithinTotal(studies, today - 13, today - 7, tz);
  }

  /** `GET /api/analytics/recommendations`: `rows` is the durable store's subject
      grouping when it answered (see `ComputeWeakAndStrongSubjects`). */
  method RecommendationsView(studies: seq<Study>, rows: Option<seq<SubjectTime>>, today: int, tz: int)
    returns (r: seq<Advice>)
    ensures var entries := if rows.Some? then DurationsFromRows(rows.value) else DurationsOf(studies);
      r == BuildRecommendations(
             WeakOf(entries),
             CompletionRate(|studies|, |Filter(studies, IsCompleted())|),
             Trend(WindowTotal(studies, today - 6, today, tz), WindowTotal(studies, today - 13, today - 7, tz)))
  {
    var completionRate := CompletionRate(|studies|, |Filter(studies, IsCompleted())|);
    var weak, _ := ComputeWeakAndStrongSubjects(rows, studies);
    var trend := RecentTrend(studies, today, tz);
    r := BuildRecommendations(weak, completionRate, trend);
  }
}
