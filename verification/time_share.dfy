/** The weak/strong subject classifier of backend/routes/analytics.js: a subject is
    weak when its share of the summed study time is below 20 %. */
module TimeShare {
  import opened Seqs
  import opened StudyModel
  import opened Percent
  import opened SubjectStats

  /** One classified subject; `percentTenths` is `Number(percentage.toFixed(1))`
      in tenths of a percent. */
  datatype Share = Share(subject: string, totalTime: int, percentTenths: int)

  /** `entries.reduce((acc, [, time]) => acc + time, 0)` */
  function TotalTime(entries: seq<SubjectTime>): int
  {
    if entries == [] then 0 else TotalTime(Init(entries)) + Last(entries).time
  }

  /** `(time / total) * 100 < 20`, sign by sign so that no division is needed. */
  predicate IsWeak(time: int, total: int)
  {
    if total > 0 then 5 * time < total else total < 0 && 5 * time > total
  }

  /** `(time / total) * 100` to one decimal, in tenths. */
  function PercentTenths(time: int, total: int): int
  {
    if total > 0 then RoundHalfAway(1000 * time, total)
    else if total < 0 then RoundHalfAway(-1000 * time, -total)
    else 0
  }

  function ShareOf(total: int): SubjectTime -> Share
  {
    (e: SubjectTime) => Share(e.subject, e.time, PercentTenths(e.time, total))
  }

  function Weak(total: int): Share -> bool
  {
    (sh: Share) => IsWeak(sh.totalTime, total)
  }

  function Strong(total: int): Share -> bool
  {
    (sh: Share) => !IsWeak(sh.totalTime, total)
  }

  /** Every subject with its share, in the order of the entries. */
  function Shares(entries: seq<SubjectTime>): seq<Share>
  {
    Map(entries, ShareOf(TotalTime(entries)))
  }

  function WeakOf(entries: seq<SubjectTime>): seq<Share>
  {
    var total := TotalTime(entries);
    if total == 0 then [] else Filter(Shares(entries), Weak(total))
  }

  function StrongOf(entries: seq<SubjectTime>): seq<Share>
  {
    var total := TotalTime(entries);
    if total == 0 then [] else Filter(Shares(entries), Strong(total))
  }

  /** The threshold is the exact rational test: `time / total < 1/5`, that is
      `5 * time * total < total * total` once both sides are scaled by `total²`. */
  lemma WeakMeansBelowFifth(time: int, total: int)
    requires total != 0
    ensures IsWeak(time, total) <==> 5 * time * total < total * total
  {
    if total > 0 {
      if 5 * time < total {
        MulMonotone(5 * time + 1, total, total);
      } else {
        MulMonotone(total, 5 * time, total);
      }
    } else {
      if 5 * time > total {
        MulMonotone(total + 1, 5 * time, -total);
        assert (5 * time) * (-total) == -(5 * time * total);
        assert total * (-total) == -(total * total);
      } else {
        MulMonotone(5 * time, total, -total);
        assert (5 * time) * (-total) == -(5 * time * total);
        assert total * (-total) == -(total * total);
      }
    }
  }

  /** With some time logged, every subject lands in exactly one list, by the 20 %
      test, and each list keeps the order of the entries. */
  lemma {:induction false} ClassifiedExactlyOnce(entries: seq<SubjectTime>)
    requires TotalTime(entries) != 0
    ensures forall sh :: sh in WeakOf(entries) <==> sh in Shares(entries) && IsWeak(sh.totalTime, TotalTime(entries))
    ensures forall sh :: sh in StrongOf(entries) <==> sh in Shares(entries) && !IsWeak(sh.totalTime, TotalTime(entries))
    ensures |WeakOf(entries)| + |StrongOf(entries)| == |entries|
    ensures IsSubsequence(WeakOf(entries), Shares(entries)) && IsSubsequence(StrongOf(entries), Shares(entries))
  {
    var total := TotalTime(entries);
    FilterMembership(Shares(entries), Weak(total));
    FilterMembership(Shares(entries), Strong(total));
    FilterPartition(Shares(entries), Weak(total), Strong(total));
    FilterIsSubsequence(Shares(entries), Weak(total));
    FilterIsSubsequence(Shares(entries), Strong(total));
  }

  /** `classifySubjectsByTimeShare(subjectDurations)` */
  method ClassifySubjectsByTimeShare(entries: seq<SubjectTime>) returns (weak: seq<Share>, strong: seq<Share>)
    ensures TotalTime(entries) == 0 ==> weak == [] && strong == []
    ensures weak == WeakOf(entries) && strong == StrongOf(entries)
  {
    var total := 0;
    for i := 0 to |entries|
      invariant total == TotalTime(entries[..i])
    {
      assert Init(entries[..i + 1]) == entries[..i];
      total := total + entries[i].time;
    }
    assert entries[..|entries|] == entries;
    weak, strong := [], [];
    if total == 0 {
      return;
    }
    for i := 0 to |entries|
      invariant weak == Filter(Map(entries[..i], ShareOf(total)), Weak(total))
      invariant strong == Filter(Map(entries[..i], ShareOf(total)), Strong(total))
    {
      var e := entries[i];
      var payload := Share(e.subject, e.time, PercentTenths(e.time, total));
      assert entries[..i + 1] == entries[..i] + [e];
      MapAppend(entries[..i], e, ShareOf(total));
      FilterAppend(Map(entries[..i], ShareOf(total)), payload, Weak(total));
      FilterAppend(Map(entries[..i], ShareOf(total)), payload, Strong(total));
      if IsWeak(e.time, total) {
        weak := weak + [payload];
      } else {
        strong := strong + [payload];
      }
    }
  }

  /** `computeWeakAndStrongSubjects`: the durable store's `$group` rows when it
      answered (`rows` is `None` when the owner id is not of the durable shape or the
      aggregation failed), otherwise the owner's sessions grouped by subject. */
  method ComputeWeakAndStrongSubjects(rows: Option<seq<SubjectTime>>, studies: seq<Study>)
    returns (weak: seq<Share>, strong: seq<Share>)
    ensures var entries := if rows.Some? then DurationsFromRows(rows.value) else DurationsOf(studies);
      weak == WeakOf(entries) && strong == StrongOf(entries)
  {
    if rows.Some? {
      weak, strong := ClassifySubjectsByTimeShare(DurationsFromRows(rows.value));
    } else {
      var stats := ComputeSubjectStats(studies);
      var entries := [];
      for i := 0 to |stats|
        invariant entries == Map(stats[..i], TimeOf())
      {
        assert stats[..i + 1] == stats[..i] + [stats[i]];
        MapAppend(stats[..i], stats[i], TimeOf());
        entries := entries + [SubjectTime(stats[i].subject, stats[i].duration)];
      }
      assert stats[..|stats|] == stats;
      weak, strong := ClassifySubjectsByTimeShare(entries);
    }
  }
}
