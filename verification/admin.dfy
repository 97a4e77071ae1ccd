/** The admin handlers of backend/controllers/adminController.js: the user list, the
    unrestricted study delete and the all-users rollup. */
module Admin {
  import opened Seqs
  import opened StudyModel
  import opened Identifiers
  import opened Percent
  import opened DailyBuckets
  import MemoryStore
  import DurableStore
  import opened StudyRoutes

  /** One row of the durable store's `$group` by owner. */
  datatype AggregateRow = AggregateRow(user: string, totalMinutes: int, totalSessions: nat, completedSessions: nat)

  /** One entry of `perUser`; `totalHoursTenths` is `totalHours` in tenths of an hour. */
  datatype UserTotals = UserTotals(user: UserView, totalHoursTenths: int, totalSessions: nat, completedSessions: nat, completionRate: int)

  /** `global`, with `totalHours` in tenths of an hour. */
  datatype GlobalTotals = GlobalTotals(totalHoursTenths: int, totalSessions: nat, completedSessions: nat, completionRate: int)

  datatype Rollup = Rollup(global: GlobalTotals, perUser: seq<UserTotals>)

  function Hide(): User -> UserView
  {
    (u: User) => WithoutPassword(u)
  }

  /** `getAllUsers`: the durable store's users (`users` is `None` when it did not
      answer), otherwise the in-process users with the password dropped. */
  method ListUsers(users: Option<seq<UserView>>, memory: MemoryStore.Store) returns (r: seq<UserView>)
    ensures users.Some? ==> r == users.value
    ensures users.None? ==> |r| == |memory.users|
    ensures users.None? ==> forall i :: 0 <= i < |r| ==>
              r[i].id == memory.users[i].id && r[i].email == memory.users[i].email
              && r[i].name == memory.users[i].name && r[i].role == memory.users[i].role
  {
    if users.Some? {
      return users.value;
    }
    r := Map(memory.users, Hide());
    forall i | 0 <= i < |r| ensures r[i] == WithoutPassword(memory.users[i]) {
      MapAt(memory.users, Hide(), i);
    }
  }

  /** `deleteAnyStudy`: no owner check. An id of the durable shape is looked up in the
      durable store only, so a miss or an unreachable store is a 404 and the in-process
      store is never consulted for it; any other id goes to the in-process store. */
  method DeleteAnyStudy(id: string, durable: DurableStore.Store, memory: MemoryStore.Store) returns (resp: Response)
    requires durable.Valid()
    modifies durable, memory
    ensures durable.Valid()
    ensures durable.available == old(durable.available) && memory.users == old(memory.users)
    ensures IsMongoId(id) ==>
              memory.studies == old(memory.studies)
              && if old(durable.available) && DurableStore.ObjectIdKey(id) in old(durable.docs)
                 then resp == Removed(id) && durable.docs == old(durable.docs) - {DurableStore.ObjectIdKey(id)}
                 else resp == NotFound && durable.docs == old(durable.docs)
    ensures !IsMongoId(id) ==>
              var k := MemoryStore.StudyIndex(old(memory.studies), id);
              durable.docs == old(durable.docs)
              && if k == -1 then resp == NotFound && memory.studies == old(memory.studies)
                 else resp == Removed(id) && memory.studies == MemoryStore.RemoveAt(old(memory.studies), k)
  {
    if IsMongoId(id) {
      var study := durable.FindById(id);
      if study.None? {
        return NotFound;
      }
      var _ := durable.Delete(id);
      return Removed(id);
    }
    var deleted := memory.DeleteStudy(id);
    if deleted {
      return Removed(id);
    }
    return NotFound;
  }

  // ----- The rollup -----

  /** `byUser` after the `forEach`: a later row for the same owner replaces an earlier one. */
  function IndexRows(rows: seq<AggregateRow>): map<string, AggregateRow>
  {
    if rows == [] then map[] else IndexRows(Init(rows))[Last(rows).user := Last(rows)]
  }

  /** An owner is indexed exactly when some row names it, and holds the last such row. */
  lemma {:induction false} IndexRowsMeaning(rows: seq<AggregateRow>)
    ensures forall u :: u in IndexRows(rows) <==> exists i :: 0 <= i < |rows| && rows[i].user == u
    ensures forall u :: u in IndexRows(rows) ==>
              exists i :: 0 <= i < |rows| && rows[i] == IndexRows(rows)[u]
                          && forall j :: i < j < |rows| ==> rows[j].user != u
  {
    if rows != [] {
      var p, last := Init(rows), Last(rows);
      IndexRowsMeaning(p);
      assert forall i :: 0 <= i < |p| ==> rows[i] == p[i];
      forall u | u in IndexRows(rows)
        ensures exists i :: 0 <= i < |rows| && rows[i] == IndexRows(rows)[u]
                            && forall j :: i < j < |rows| ==> rows[j].user != u
      {
        if u == last.user {
          assert rows[|rows| - 1] == IndexRows(rows)[u];
        } else {
          var i :| 0 <= i < |p| && p[i] == IndexRows(p)[u] && forall j :: i < j < |p| ==> p[j].user != u;
          assert rows[i] == IndexRows(rows)[u];
        }
      }
      forall u | (exists i :: 0 <= i < |rows| && rows[i].user == u) ensures u in IndexRows(rows) {
        var i :| 0 <= i < |rows| && rows[i].user == u;
        if i < |p| {
          assert p[i].user == u;
        }
      }
    }
  }

  /** `(rows || []).forEach((r) => byUser.set(r._id.toString(), r))` */
  method IndexRowsByUser(rows: Option<seq<AggregateRow>>) returns (byUser: map<string, AggregateRow>)
    ensures byUser == IndexRows(GetOr(rows, []))
  {
    var list := GetOr(rows, []);
    byUser := map[];
    for i := 0 to |list|
      invariant byUser == IndexRows(list[..i])
    {
      assert Init(list[..i + 1]) == list[..i] && Last(list[..i + 1]) == list[i];
      byUser := byUser[list[i].user := list[i]];
    }
    assert list[..|list|] == list;
  }

  /** One `perUser` entry from an owner's figures. */
  function TotalsOf(u: UserView, row: AggregateRow): (t: UserTotals)
    ensures row.completedSessions <= row.totalSessions ==> 0 <= t.completionRate <= 100
  {
    UserTotals(u, TenthsOfHours(row.totalMinutes), row.totalSessions, row.completedSessions,
               CompletionRate(row.totalSessions, row.completedSessions))
  }

  /** The durable path: the owner's row, or zeros when the grouping has none. */
  function DurableTotals(byUser: map<string, AggregateRow>): UserView -> UserTotals
  {
    (u: UserView) => TotalsOf(u, if u.id in byUser then byUser[u.id] else AggregateRow(u.id, 0, 0, 0))
  }

  /** The in-process path: the figures of the owner's own records. */
  function MemoryRow(studies: seq<Study>, owner: string): AggregateRow
  {
    var owned := Filter(studies, OwnedBy(owner));
    AggregateRow(owner, TotalMinutes(owned), |owned|, |Filter(owned, IsCompleted())|)
  }

  function MemoryTotals(studies: seq<Study>): UserView -> UserTotals
  {
    (u: UserView) => TotalsOf(u, MemoryRow(studies, u.id))
  }

  /** In the in-process path an owner never has more completed sessions than
      sessions, so every rate there is a percentage. */
  lemma MemoryRowConsistent(studies: seq<Study>, owner: string)
    ensures MemoryRow(studies, owner).completedSessions <= MemoryRow(studies, owner).totalSessions
    ensures MemoryRow(studies, owner).totalSessions == |Filter(studies, OwnedBy(owner))|
  {
    FilterShorter(Filter(studies, OwnedBy(owner)), IsCompleted());
  }

  function SumTenths(perUser: seq<UserTotals>): int
  {
    if perUser == [] then 0 else SumTenths(Init(perUser)) + Last(perUser).totalHoursTenths
  }

  function SumSessions(perUser: seq<UserTotals>): nat
  {
    if perUser == [] then 0 else SumSessions(Init(perUser)) + Last(perUser).totalSessions
  }

  function SumCompleted(perUser: seq<UserTotals>): nat
  {
    if perUser == [] then 0 else SumCompleted(Init(perUser)) + Last(perUser).completedSessions
  }

  /** `global`: the sums of the entries, and the completion rate of the sums. */
  function GlobalOf(perUser: seq<UserTotals>): GlobalTotals
  {
    var sessions, completed := SumSessions(perUser), SumCompleted(perUser);
    GlobalTotals(SumTenths(perUser), sessions, completed, CompletionRate(sessions, completed))
  }

  /** Entries that are each consistent add up to consistent totals, so the global
      rate is a percentage too. */
  lemma {:induction false} GlobalConsistent(perUser: seq<UserTotals>)
    requires forall i :: 0 <= i < |perUser| ==> perUser[i].completedSessions <= perUser[i].totalSessions
    ensures GlobalOf(perUser).completedSessions <= GlobalOf(perUser).totalSessions
    ensures 0 <= GlobalOf(perUser).completionRate <= 100
  {
    if perUser != [] {
      GlobalConsistent(Init(perUser));
    }
  }

  /** The `reduce` that sums the entries, then the rate of the sums. */
  method SumUp(perUser: seq<UserTotals>) returns (g: GlobalTotals)
    ensures g == GlobalOf(perUser)
  {
    var tenths, sessions, completed := 0, 0, 0;
    for i := 0 to |perUser|
      invariant tenths == SumTenths(perUser[..i])
      invariant sessions == SumSessions(perUser[..i])
      invariant completed == SumCompleted(perUser[..i])
    {
      assert Init(perUser[..i + 1]) == perUser[..i] && Last(perUser[..i + 1]) == perUser[i];
      tenths := tenths + perUser[i].totalHoursTenths;
      sessions := sessions + perUser[i].totalSessions;
      completed := completed + perUser[i].completedSessions;
    }
    assert perUser[..|perUser|] == perUser;
    g := GlobalTotals(tenths, sessions, completed, CompletionRate(sessions, completed));
  }

  /** `getAllUsersAnalytics`. `users` is the durable store's user list (`None` when it
      did not answer; an empty list still takes the durable path) and `rows` its
      grouping by owner (`None` when the grouping failed). */
  method AllUsersAnalytics(users: Option<seq<UserView>>, rows: Option<seq<AggregateRow>>, memory: MemoryStore.Store)
    returns (r: Rollup)
    ensures users.Some? ==> r.perUser == Map(users.value, DurableTotals(IndexRows(GetOr(rows, []))))
    ensures users.None? ==> r.perUser == Map(Map(memory.users, Hide()), MemoryTotals(memory.studies))
    ensures r.global == GlobalOf(r.perUser)
  {
    var perUser;
    if users.Some? {
      var byUser := IndexRowsByUser(rows);
      perUser := Map(users.value, DurableTotals(byUser));
    } else {
      var memoryUsers := Map(memory.users, Hide());
      perUser := Map(memoryUsers, MemoryTotals(memory.studies));
    }
    var global := SumUp(perUser);
    r := Rollup(global, perUser);
  }

  /** On the in-process path every rate, per user and global, is a percentage. */
  lemma MemoryRollupRatesBounded(users: seq<User>, studies: seq<Study>)
    ensures var perUser := Map(Map(users, Hide()), MemoryTotals(studies));
      (forall i :: 0 <= i < |perUser| ==> 0 <= perUser[i].completionRate <= 100)
      && 0 <= GlobalOf(perUser).completionRate <= 100
  {
    var views := Map(users, Hide());
    var perUser := Map(views, MemoryTotals(studies));
    forall i | 0 <= i < |perUser|
      ensures perUser[i].completedSessions <= perUser[i].totalSessions
      ensures 0 <= perUser[i].completionRate <= 100
    {
      MapAt(views, MemoryTotals(studies), i);
      MemoryRowConsistent(studies, views[i].id);
    }
    GlobalConsistent(perUser);
  }
}
