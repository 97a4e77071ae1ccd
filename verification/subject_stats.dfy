/** Per-subject statistics of the overview (`subjectStats` in backend/routes/analytics.js)
    and the subject totals the weak/strong classifier starts from. Subjects are kept
    in the order they are first seen; a session with an empty subject is skipped. */
module SubjectStats {
  import opened Seqs
  import opened StudyModel

  datatype SubjectStat = SubjectStat(subject: string, duration: int, count: nat, completed: nat)

  /** A subject with its summed minutes: one `[subject, time]` entry of the
      `subjectDurations` object, or one row of the durable store's `$group`. */
  datatype SubjectTime = SubjectTime(subject: string, time: int)

  function CompletedDelta(s: Study): nat
  {
    if s.status == Completed then 1 else 0
  }

  /** The position of `subject` among the entries, or -1: the object lookup
      `subjectStats[s.subject]`. */
  function SubjectIndex(stats: seq<SubjectStat>, subject: string): (k: int)
    ensures -1 <= k < |stats|
    ensures 0 <= k ==> stats[k].subject == subject
    ensures forall j :: 0 <= j < |stats| && (k == -1 || j < k) ==> stats[j].subject != subject
  {
    if stats == [] then -1
    else
      var k := SubjectIndex(Init(stats), subject);
      if k != -1 then k else if Last(stats).subject == subject then |stats| - 1 else -1
  }

  /** One step of the `forEach` that fills `subjectStats`. */
  function Tally(stats: seq<SubjectStat>, s: Study): seq<SubjectStat>
  {
    if s.subject == "" then stats
    else
      var k := SubjectIndex(stats, s.subject);
      var prev := if k == -1 then SubjectStat(s.subject, 0, 0, 0) else stats[k];
      var bumped := SubjectStat(s.subject, prev.duration + s.duration, prev.count + 1, prev.completed + CompletedDelta(s));
      if k == -1 then stats + [bumped] else stats[k := bumped]
  }

  /** `subjectStats` after all sessions, in first-seen order. */
  function StatsOf(studies: seq<Study>): seq<SubjectStat>
  {
    if studies == [] then [] else Tally(StatsOf(Init(studies)), Last(studies))
  }

  // ----- The same figures, counted subject by subject -----

  function CountFor(studies: seq<Study>, subject: string): nat
  {
    if studies == [] then 0
    else CountFor(Init(studies), subject) + (if Last(studies).subject == subject then 1 else 0)
  }

  function MinutesFor(studies: seq<Study>, subject: string): int
  {
    if studies == [] then 0
    else MinutesFor(Init(studies), subject) + (if Last(studies).subject == subject then Last(studies).duration else 0)
  }

  function CompletedFor(studies: seq<Study>, subject: string): nat
  {
    if studies == [] then 0
    else CompletedFor(Init(studies), subject)
         + (if Last(studies).subject == subject then CompletedDelta(Last(studies)) else 0)
  }

  predicate Describes(studies: seq<Study>, st: SubjectStat)
  {
    && st.subject != ""
    && st.count == CountFor(studies, st.subject)
    && st.duration == MinutesFor(studies, st.subject)
    && st.completed == CompletedFor(studies, st.subject)
  }

  lemma {:induction false} CompletedForBounded(studies: seq<Study>, subject: string)
    ensures CompletedFor(studies, subject) <= CountFor(studies, subject)
    ensures CountFor(studies, subject) == 0 ==> MinutesFor(studies, subject) == 0
  {
    if studies != [] {
      CompletedForBounded(Init(studies), subject);
    }
  }

  predicate HasSubject(stats: seq<SubjectStat>, subject: string)
  {
    exists j :: 0 <= j < |stats| && stats[j].subject == subject
  }

  /** The subjects of the entries are non-empty and pairwise different. */
  lemma {:induction false} StatsSubjectsDistinct(studies: seq<Study>)
    ensures forall k :: 0 <= k < |StatsOf(studies)| ==> StatsOf(studies)[k].subject != ""
    ensures forall j, k :: 0 <= j < k < |StatsOf(studies)| ==> StatsOf(studies)[j].subject != StatsOf(studies)[k].subject
  {
    if studies != [] {
      StatsSubjectsDistinct(Init(studies));
    }
  }

  /** A non-empty subject has an entry exactly when some session names it. */
  lemma {:induction false} StatsSubjectsPresent(studies: seq<Study>)
    ensures forall subject :: subject != "" ==>
              (HasSubject(StatsOf(studies), subject) <==> CountFor(studies, subject) > 0)
  {
    if studies != [] {
      var p, x := Init(studies), Last(studies);
      StatsSubjectsPresent(p);
      var before, after := StatsOf(p), StatsOf(studies);
      assert after == Tally(before, x);
      if x.subject != "" {
        var k := SubjectIndex(before, x.subject);
        forall subject | subject != ""
          ensures HasSubject(after, subject) <==> CountFor(studies, subject) > 0
        {
          if HasSubject(before, subject) {
            var j :| 0 <= j < |before| && before[j].subject == subject;
            assert after[j].subject == subject;
          }
          if HasSubject(after, subject) {
            var j :| 0 <= j < |after| && after[j].subject == subject;
            if j < |before| {
              assert before[j].subject == subject;
            }
          }
          if subject == x.subject {
            assert after[if k == -1 then |before| else k].subject == subject;
          }
        }
      }
    }
  }

  /** Whatever the order of the sessions, each entry holds exactly the count, the
      minutes and the completed count of its own subject's sessions. */
  lemma {:induction false} StatsOfMeaning(studies: seq<Study>)
    ensures forall k :: 0 <= k < |StatsOf(studies)| ==> Describes(studies, StatsOf(studies)[k])
  {
    if studies != [] {
      var p, x := Init(studies), Last(studies);
      StatsOfMeaning(p);
      StatsSubjectsDistinct(p);
      StatsSubjectsPresent(p);
      CompletedForBounded(p, x.subject);
      var before, after := StatsOf(p), StatsOf(studies);
      assert after == Tally(before, x);
      if x.subject != "" {
        var k := SubjectIndex(before, x.subject);
        if k == -1 {
          assert !HasSubject(before, x.subject);
          forall j | 0 <= j < |after| ensures Describes(studies, after[j]) {
            if j < |before| {
              assert after[j] == before[j];
            }
          }
        } else {
          forall j | 0 <= j < |after| ensures Describes(studies, after[j]) {
            if j != k {
              assert after[j] == before[j];
            }
          }
        }
      }
    }
  }

  /** Every entry has at least one session, and no more completed sessions than sessions. */
  lemma StatsCountsBounded(studies: seq<Study>)
    ensures forall k :: 0 <= k < |StatsOf(studies)| ==>
              1 <= StatsOf(studies)[k].count && StatsOf(studies)[k].completed <= StatsOf(studies)[k].count
  {
    StatsOfMeaning(studies);
    StatsSubjectsPresent(studies);
    forall k | 0 <= k < |StatsOf(studies)|
      ensures 1 <= StatsOf(studies)[k].count && StatsOf(studies)[k].completed <= StatsOf(studies)[k].count
    {
      var subject := StatsOf(studies)[k].subject;
      CompletedForBounded(studies, subject);
      assert HasSubject(StatsOf(studies), subject);
    }
  }

  /** The `forEach` over the sessions that builds `subjectStats`. */
  method ComputeSubjectStats(studies: seq<Study>) returns (stats: seq<SubjectStat>)
    ensures stats == StatsOf(studies)
  {
    stats := [];
    for i := 0 to |studies|
      invariant stats == StatsOf(studies[..i])
    {
      var s := studies[i];
      assert Init(studies[..i + 1]) == studies[..i];
      if s.subject != "" {
        var k := 0;
        while k < |stats| && stats[k].subject != s.subject
          invariant 0 <= k <= |stats|
          invariant forall j :: 0 <= j < k ==> stats[j].subject != s.subject
        {
          k := k + 1;
        }
        if k == |stats| {
          stats := stats + [SubjectStat(s.subject, s.duration, 1, CompletedDelta(s))];
        } else {
          var prev := stats[k];
          stats := stats[k := SubjectStat(s.subject, prev.duration + s.duration, prev.count + 1, prev.completed + CompletedDelta(s))];
        }
      }
    }
    assert studies[..|studies|] == studies;
  }

  /** `subjectDurations` of the in-process path: the same grouping, minutes only. */
  function DurationsOf(studies: seq<Study>): seq<SubjectTime>
  {
    Map(StatsOf(studies), TimeOf())
  }

  function TimeOf(): SubjectStat -> SubjectTime
  {
    (st: SubjectStat) => SubjectTime(st.subject, st.duration)
  }

  function Named(): SubjectTime -> bool
  {
    (e: SubjectTime) => e.subject != ""
  }

  /** The durable-store path: `$group` rows, skipping a row whose subject is empty
      (`if (!row._id) return`). */
  function DurationsFromRows(rows: seq<SubjectTime>): seq<SubjectTime>
  {
    Filter(rows, Named())
  }
}
