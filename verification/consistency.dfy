/** The study consistency score of backend/routes/analytics.js: the share of days,
    from the earliest dated session to today, on which the student studied. */
module Consistency {
  import opened Seqs
  import opened StudyModel
  import opened Percent

  datatype Level = Poor | Average | Excellent

  datatype Score = Score(score: int, level: Level)

  /** The qualitative level of a score. */
  function LevelOf(score: int): (l: Level)
    ensures l == Excellent <==> 71 <= score
    ensures l == Average <==> 41 <= score < 71
    ensures l == Poor <==> score < 41
  {
    if score >= 71 then Excellent else if score >= 41 then Average else Poor
  }

  /** The instants of the sessions whose `date` is present and parses, in order. */
  function DatedStamps(studies: seq<Study>): seq<int>
  {
    if studies == [] then []
    else
      var s := Last(studies);
      DatedStamps(Init(studies)) + (if s.date.At? then [s.date.stamp] else [])
  }

  lemma {:induction false} DatedStampsMembership(studies: seq<Study>)
    ensures forall t :: t in DatedStamps(studies) <==> exists s :: s in studies && s.date == At(t)
  {
    if studies != [] {
      DatedStampsMembership(Init(studies));
      assert studies == Init(studies) + [Last(studies)];
    }
  }

  /** The distinct day numbers of the instants, each taken in the zone at `keyOffset`. */
  function DayKeys(stamps: seq<int>, keyOffset: int): set<int>
  {
    if stamps == [] then {}
    else DayKeys(Init(stamps), keyOffset) + {LocalDay(Last(stamps), keyOffset)}
  }

  lemma {:induction false} DayKeysMembership(stamps: seq<int>, keyOffset: int)
    ensures forall k :: k in DayKeys(stamps, keyOffset) <==> exists t :: t in stamps && LocalDay(t, keyOffset) == k
  {
    if stamps != [] {
      DayKeysMembership(Init(stamps), keyOffset);
      assert stamps == Init(stamps) + [Last(stamps)];
    }
  }

  /** `firstDate`: the earliest instant, kept as the first one seen among equals. */
  function Earliest(stamps: seq<int>): (m: int)
    requires stamps != []
    ensures m in stamps && forall t :: t in stamps ==> m <= t
  {
    if |stamps| == 1 then stamps[0]
    else
      var m := Earliest(Init(stamps));
      assert stamps == Init(stamps) + [Last(stamps)];
      if Last(stamps) < m then Last(stamps) else m
  }

  /** The score with the studied days keyed in the zone at `keyOffset` and the span of
      days counted in the local zone at `tz`, both at local midnight. */
  function ScoreOf(studies: seq<Study>, now: int, tz: int, keyOffset: int): Score
  {
    var stamps := DatedStamps(studies);
    if stamps == [] then Score(0, Poor)
    else
      var totalDays := LocalDay(now, tz) - LocalDay(Earliest(stamps), tz) + 1;
      if totalDays <= 0 then Score(0, Poor)
      else
        var score := RoundedPercent(|DayKeys(stamps, keyOffset)|, totalDays);
        Score(score, LevelOf(score))
  }

  /** The handler as written: day keys come from `toISOString()`, a UTC date. */
  function AsWrittenScore(studies: seq<Study>, now: int, tz: int): Score
  {
    ScoreOf(studies, now, tz, 0)
  }

  /** The evidently intended score: the studied days keyed in the same local zone as
      the span they are divided by. */
  function CorrectedScore(studies: seq<Study>, now: int, tz: int): Score
  {
    ScoreOf(studies, now, tz, tz)
  }

  /** `computeConsistencyScore(studies)` at instant `now` in a zone at offset `tz`. */
  method ComputeConsistencyScore(studies: seq<Study>, now: int, tz: int) returns (c: Score)
    ensures c == AsWrittenScore(studies, now, tz)
    ensures DatedStamps(studies) == [] ==> c == Score(0, Poor)
  {
    if |studies| == 0 {
      return Score(0, Poor);
    }
    var first: Option<int> := None;
    var days: set<int> := {};
    for i := 0 to |studies|
      invariant first.None? <==> DatedStamps(studies[..i]) == []
      invariant first.Some? ==> first.value == Earliest(DatedStamps(studies[..i]))
      invariant days == DayKeys(DatedStamps(studies[..i]), 0)
    {
      var s := studies[i];
      assert studies[..i + 1] == studies[..i] + [s];
      StampsStep(studies[..i], s);
      if s.date.At? {
        var t := s.date.stamp;
        days := days + {UtcDay(t)};
        if first.None? || t < first.value {
          first := Some(t);
        }
      }
    }
    assert studies[..|studies|] == studies;
    if first.None? {
      return Score(0, Poor);
    }
    var totalDays := LocalDay(now, tz) - LocalDay(first.value, tz) + 1;
    if totalDays <= 0 {
      return Score(0, Poor);
    }
    var score := RoundedPercent(|days|, totalDays);
    return Score(score, LevelOf(score));
  }

  /** One more session in the loop: its instant, if any, is appended, joins the keys
      and may become the earliest. */
  lemma StampsStep(studies: seq<Study>, s: Study)
    ensures var prev, next := DatedStamps(studies), DatedStamps(studies + [s]);
      if s.date.At? then
        next == prev + [s.date.stamp]
        && DayKeys(next, 0) == DayKeys(prev, 0) + {UtcDay(s.date.stamp)}
        && Earliest(next) == (if prev == [] || s.date.stamp < Earliest(prev) then s.date.stamp else Earliest(prev))
      else next == prev
  {
    assert Init(studies + [s]) == studies && Last(studies + [s]) == s;
    if s.date.At? {
      var prev, t := DatedStamps(studies), s.date.stamp;
      assert Init(prev + [t]) == prev && Last(prev + [t]) == t;
    }
  }

  lemma DayMonotone(a: int, b: int, offset: int)
    requires a <= b
    ensures LocalDay(a, offset) <= LocalDay(b, offset)
  {
  }

  /** The days `lo` to `hi`. */
  function Span(lo: int, hi: int): (r: set<int>)
    ensures forall k :: k in r <==> lo <= k <= hi
    ensures lo <= hi + 1 ==> |r| == hi - lo + 1
    decreases hi - lo
  {
    if lo > hi then {} else Span(lo, hi - 1) + {hi}
  }

  lemma {:induction false} SubsetSize(a: set<int>, b: set<int>)
    requires a <= b
    ensures |a| <= |b|
  {
    assert b == a + (b - a);
    assert a * (b - a) == {};
  }

  /** No dated session lies after `now`. */
  predicate NoFutureSessions(studies: seq<Study>, now: int)
  {
    forall s :: s in studies && s.date.At? ==> s.date.stamp <= now
  }

  /** Every studied day of the corrected score lies between the first day and today. */
  lemma KeysWithinSpan(studies: seq<Study>, now: int, tz: int)
    requires NoFutureSessions(studies, now)
    requires DatedStamps(studies) != []
    ensures var stamps := DatedStamps(studies);
      DayKeys(stamps, tz) <= Span(LocalDay(Earliest(stamps), tz), LocalDay(now, tz))
  {
    var stamps := DatedStamps(studies);
    var first := Earliest(stamps);
    DatedStampsMembership(studies);
    DayKeysMembership(stamps, tz);
    forall k | k in DayKeys(stamps, tz) ensures LocalDay(first, tz) <= k <= LocalDay(now, tz) {
      var t :| t in stamps && LocalDay(t, tz) == k;
      var s :| s in studies && s.date == At(t);
      DayMonotone(first, t, tz);
      DayMonotone(t, now, tz);
    }
  }

  /** With no session in the future, the corrected score is a percentage. */
  lemma CorrectedScoreBounded(studies: seq<Study>, now: int, tz: int)
    requires NoFutureSessions(studies, now)
    ensures 0 <= CorrectedScore(studies, now, tz).score <= 100
  {
    var stamps := DatedStamps(studies);
    if stamps != [] {
      var lo, hi := LocalDay(Earliest(stamps), tz), LocalDay(now, tz);
      if hi - lo + 1 > 0 {
        KeysWithinSpan(studies, now, tz);
        SubsetSize(DayKeys(stamps, tz), Span(lo, hi));
      }
    }
  }

  /** With a session on every local day from the first one to today, the corrected
      score is exactly 100. */
  lemma FullAttendanceScoresHundred(studies: seq<Study>, now: int, tz: int)
    requires NoFutureSessions(studies, now)
    requires DatedStamps(studies) != []
    requires var stamps := DatedStamps(studies);
      Span(LocalDay(Earliest(stamps), tz), LocalDay(now, tz)) <= DayKeys(stamps, tz)
    ensures CorrectedScore(studies, now, tz) == Score(100, Excellent)
  {
    var stamps := DatedStamps(studies);
    var first := Earliest(stamps);
    var lo, hi := LocalDay(first, tz), LocalDay(now, tz);
    var keys := DayKeys(stamps, tz);
    DatedStampsMembership(studies);
    var s :| s in studies && s.date == At(first);
    DayMonotone(first, now, tz);
    KeysWithinSpan(studies, now, tz);
    assert keys == Span(lo, hi);
    var r := RoundedPercent(|keys|, hi - lo + 1);
    ExactPercent(|keys|, hi - lo + 1, r);
  }

  /** In UTC the key zone and the span zone coincide, so the score as written is a
      percentage there. */
  lemma AsWrittenBoundedInUtc(studies: seq<Study>, now: int)
    requires NoFutureSessions(studies, now)
    ensures 0 <= AsWrittenScore(studies, now, 0).score <= 100
  {
    CorrectedScoreBounded(studies, now, 0);
  }

  /** Two sessions on one local day in a zone ten hours ahead of UTC, at 08:00 and at
      20:00, fall on two UTC dates: the score as written is 200, the corrected one 100. */
  lemma UtcKeysOverflow()
    ensures var tz, day := 36_000_000, 20_000;
      var early := Study("a", "u", "", "Maths", "", 30, Completed, At(day * DayMs - 7_200_000), Absent);
      var late := early.(id := "b", date := At(day * DayMs + 36_000_000));
      var now := day * DayMs + 39_600_000;
      NoFutureSessions([early, late], now)
      && AsWrittenScore([early, late], now, tz) == Score(200, Excellent)
      && CorrectedScore([early, late], now, tz) == Score(100, Excellent)
  {
    var tz, day := 36_000_000, 20_000;
    var early := Study("a", "u", "", "Maths", "", 30, Completed, At(day * DayMs - 7_200_000), Absent);
    var late := early.(id := "b", date := At(day * DayMs + 36_000_000));
    var now := day * DayMs + 39_600_000;
    var t1, t2 := early.date.stamp, late.date.stamp;
    assert [early] == [] + [early] && [early, late] == [early] + [late];
    StampsStep([], early);
    StampsStep([early], late);
    var stamps := DatedStamps([early, late]);
    assert stamps == [t1, t2];
    assert Earliest(stamps) == t1;
    assert UtcDay(t1) == day - 1 && UtcDay(t2) == day;
    assert DayKeys(stamps, 0) == {day - 1, day};
    assert LocalDay(t1, tz) == day && LocalDay(t2, tz) == day && LocalDay(now, tz) == day;
    assert Init(stamps) == [t1] && Init([t1]) == [];
    assert DayKeys([t1], tz) == DayKeys([], tz) + {LocalDay(t1, tz)} == {day};
    assert DayKeys(stamps, tz) == DayKeys([t1], tz) + {LocalDay(t2, tz)} == {day};
    var r := RoundedPercent(2, 1);
    assert -1 < 2 * (r - 200) <= 1;
  }
}
