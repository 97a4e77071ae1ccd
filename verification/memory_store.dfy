/** The in-process fallback store: two process-wide lists, one of users and one of
    study sessions, changed by push, by assignment at an index and by splice. */
module MemoryStore {
  import opened Seqs
  import opened StudyModel
  import opened Identifiers

  /** The fields handed to `addUser`; a present `id` overrides the generated one. */
  datatype UserFields = UserFields(id: Option<string>, name: string, email: string, password: string, role: Option<Role>)

  /** `{ _id: Date.now().toString(), ...user }` */
  function NewUser(fields: UserFields, now: Clock): User
  {
    User(GetOr(fields.id, DecimalString(now)), fields.name, fields.email, fields.password, fields.role)
  }

  /** `{ _id: Date.now().toString(), createdAt: new Date(), ...study }`: the generated
      fields come first, so the caller's own `_id` or `createdAt` wins. */
  function NewStudy(fields: StudyPatch, now: Clock): Study
  {
    Merge(Study(DecimalString(now), "", "", "", "", 0, Unset, Absent, At(now)), fields)
  }

  function HasId(id: string): Study -> bool
  {
    (s: Study) => s.id == id
  }

  /** `findIndex(s => s._id === id)`: the first position holding `id`, or -1. */
  function StudyIndex(studies: seq<Study>, id: string): int
  {
    FirstIndex(studies, HasId(id))
  }

  /** The value `getStudies` compares owners against with `===`. The id of a user
      loaded from the durable store is an object id object, made afresh for every
      request, which `===` finds equal to nothing stored earlier; any other id is a
      string. */
  datatype OwnerRef = Text(id: string) | FreshObject(hex: string)

  /** `list` without the element at `k`, as `splice(k, 1)` leaves it. */
  function RemoveAt<T>(list: seq<T>, k: int): (r: seq<T>)
    requires 0 <= k < |list|
    ensures |r| == |list| - 1
    ensures forall j :: 0 <= j < k ==> r[j] == list[j]
    ensures forall j :: k <= j < |r| ==> r[j] == list[j + 1]
  {
    list[..k] + list[k + 1..]
  }

  class Store {
    var users: seq<User>
    var studies: seq<Study>

    /** The lists start empty when the process starts. */
    constructor ()
      ensures users == [] && studies == []
    {
      users := [];
      studies := [];
    }

    method AddUser(fields: UserFields, now: Clock) returns (u: User)
      modifies this
      ensures u == NewUser(fields, now)
      ensures u.id == (if fields.id.Some? then fields.id.value else DecimalString(now))
      ensures users == old(users) + [u]
      ensures studies == old(studies)
    {
      u := NewUser(fields, now);
      users := users + [u];
    }

    /** `mockUsers.find(u => u.email === email)` */
    method FindUser(email: string) returns (r: Option<User>)
      ensures r.None? <==> forall i :: 0 <= i < |users| ==> users[i].email != email
      ensures r.Some? ==> exists k :: 0 <= k < |users| && users[k] == r.value && r.value.email == email
                                      && forall j :: 0 <= j < k ==> users[j].email != email
    {
      var i := 0;
      while i < |users|
        invariant 0 <= i <= |users|
        invariant forall j :: 0 <= j < i ==> users[j].email != email
      {
        if users[i].email == email {
          return Some(users[i]);
        }
        i := i + 1;
      }
      return None;
    }

    /** `mockUsers.find(u => u._id === id)` */
    method FindUserById(id: string) returns (r: Option<User>)
      ensures r.None? <==> forall i :: 0 <= i < |users| ==> users[i].id != id
      ensures r.Some? ==> exists k :: 0 <= k < |users| && users[k] == r.value && r.value.id == id
                                      && forall j :: 0 <= j < k ==> users[j].id != id
    {
      var i := 0;
      while i < |users|
        invariant 0 <= i <= |users|
        invariant forall j :: 0 <= j < i ==> users[j].id != id
      {
        if users[i].id == id {
          return Some(users[i]);
        }
        i := i + 1;
      }
      return None;
    }

    method AddStudy(fields: StudyPatch, now: Clock) returns (s: Study)
      modifies this
      ensures s == NewStudy(fields, now)
      ensures s.id == (if fields.id.Some? then fields.id.value else DecimalString(now))
      ensures s.createdAt == (if fields.createdAt.Some? then fields.createdAt.value else At(now))
      ensures studies == old(studies) + [s]
      ensures users == old(users)
    {
      s := NewStudy(fields, now);
      studies := studies + [s];
    }

    /** `mockStudies.filter(s => s.user === userId)` */
    method GetStudies(owner: OwnerRef) returns (r: seq<Study>)
      ensures owner.Text? ==> r == Filter(studies, OwnedBy(owner.id))
      ensures owner.FreshObject? ==> r == []
    {
      r := [];
      var i := 0;
      while i < |studies|
        invariant 0 <= i <= |studies|
        invariant owner.Text? ==> r == Filter(studies[..i], OwnedBy(owner.id))
        invariant owner.FreshObject? ==> r == []
      {
        assert studies[..i + 1] == studies[..i] + [studies[i]];
        if owner.Text? {
          FilterAppend(studies[..i], studies[i], OwnedBy(owner.id));
        }
        if owner.Text? && studies[i].user == owner.id {
          r := r + [studies[i]];
        }
        i := i + 1;
      }
      assert studies[..i] == studies;
    }

    /** `mockStudies.findIndex(s => s._id === id)` */
    method FindStudyIndex(id: string) returns (k: int)
      ensures k == StudyIndex(studies, id)
    {
      k := FindFirst(studies, HasId(id));
    }

    method UpdateStudy(id: string, data: StudyPatch) returns (r: Option<Study>)
      modifies this
      ensures var k := StudyIndex(old(studies), id);
        if k == -1 then r == None && studies == old(studies)
        else r == Some(Merge(old(studies)[k], data)) && studies == old(studies)[k := r.value]
      ensures users == old(users)
    {
      var k := FindStudyIndex(id);
      if k != -1 {
        studies := studies[k := Merge(studies[k], data)];
        return Some(studies[k]);
      }
      return None;
    }

    method DeleteStudy(id: string) returns (deleted: bool)
      modifies this
      ensures var k := StudyIndex(old(studies), id);
        deleted == (k != -1) &&
        studies == if k == -1 then old(studies) else RemoveAt(old(studies), k)
      ensures users == old(users)
    {
      var k := FindStudyIndex(id);
      if k != -1 {
        studies := RemoveAt(studies, k);
        return true;
      }
      return false;
    }
  }

  /** What `getStudies` returns is exactly the owner's records, in insertion order. */
  lemma {:induction false} OwnedStudiesExact(studies: seq<Study>, user: string)
    ensures forall s :: s in Filter(studies, OwnedBy(user)) <==> s in studies && s.user == user
    ensures IsSubsequence(Filter(studies, OwnedBy(user)), studies)
  {
    FilterMembership(studies, OwnedBy(user));
    FilterIsSubsequence(studies, OwnedBy(user));
  }

  /** A delete that finds its record removes exactly one occurrence, and the
      records that remain keep their order. */
  lemma {:induction false} DeleteRemovesFirstOnly(before: seq<Study>, id: string)
    requires StudyIndex(before, id) != -1
    ensures var k := StudyIndex(before, id);
      var after := RemoveAt(before, k);
      multiset(after) + multiset{before[k]} == multiset(before) &&
      IsSubsequence(after, before)
  {
    var k := StudyIndex(before, id);
    var after := RemoveAt(before, k);
    assert before == before[..k] + [before[k]] + before[k + 1..];
    RemovalIsSubsequence(before, k);
  }

  lemma {:induction false} RemovalIsSubsequence<T>(list: seq<T>, k: int)
    requires 0 <= k < |list|
    ensures IsSubsequence(RemoveAt(list, k), list)
  {
    if k == |list| - 1 {
      assert RemoveAt(list, k) == Init(list);
      IdentityIsSubsequence(Init(list));
      SubsequenceExtend(Init(list), list);
    } else {
      RemovalIsSubsequence(Init(list), k);
      assert Init(RemoveAt(list, k)) == RemoveAt(Init(list), k);
      assert Last(RemoveAt(list, k)) == Last(list);
    }
  }

  lemma {:induction false} IdentityIsSubsequence<T>(list: seq<T>)
    ensures IsSubsequence(list, list)
  {
    if list != [] {
      IdentityIsSubsequence(Init(list));
    }
  }
}
