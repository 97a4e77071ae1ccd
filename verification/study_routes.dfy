/** The study-session handlers: each one picks the durable store for ids of the
    durable shape and falls back to the in-process store, and writes at most one
    of the two. */
module StudyRoutes {
  import opened Seqs
  import opened StudyModel
  import opened Identifiers
  import MemoryStore
  import DurableStore

  /** Where a listing came from. The durable store's order (`sort({ date: -1 })`)
      is the store's business, so its answer is a set. */
  datatype Listing = FromDurable(docs: set<Study>) | FromMemory(studies: seq<Study>)

  /** The status tags the handlers answer with, and the payload that goes with them. */
  datatype Response = Ok(study: Study) | Created(study: Study) | Removed(id: string) | NotFound | NotAuthorized

  /** The fields a create request destructures from its body; missing text is "". */
  datatype StudyInput = StudyInput(title: string, subject: string, description: string, duration: int, status: Status, date: DateField)

  /** `date || Date.now()` */
  function DateOrNow(date: DateField, now: Clock): DateField
  {
    if date == Absent then At(now) else date
  }

  /** The document `Study.create` stores: schema default for the status, timestamps. */
  function DurableRecord(newId: string, userId: string, input: StudyInput, now: Clock): Study
  {
    Study(newId, userId, input.title, input.subject, input.description, input.duration,
          DefaultStatus(input.status), DateOrNow(input.date, now), At(now))
  }

  /** The object handed to `MemoryStore.addStudy`: every destructured key is present. */
  function MemoryFields(userId: string, input: StudyInput, now: Clock): StudyPatch
  {
    StudyPatch(None, Some(userId), Some(input.title), Some(input.subject), Some(input.description),
               Some(input.duration), Some(input.status), Some(DateOrNow(input.date, now)), None)
  }

  /** How the caller's `req.user._id || req.user.id` reaches the in-process store.
      An id of the durable shape only authenticates through the durable store (the
      in-process store never issues one), so it is that user's object id; any other
      id is the string the in-process store issued. */
  function CallerRef(userId: string): MemoryStore.OwnerRef
  {
    if IsMongoId(userId) then MemoryStore.FreshObject(userId) else MemoryStore.Text(userId)
  }

  /** GET: the durable store only for an owner id of the durable shape; when that is
      skipped or the store does not answer, the in-process records the `===` filter
      matches, which for a durable user are none, even those saved for them when a
      create fell back. The analytics views fetch their sessions by the same rule. */
  method GetStudies(userId: string, durable: DurableStore.Store, memory: MemoryStore.Store) returns (r: Listing)
    ensures r.FromDurable? <==> IsMongoId(userId) && durable.available
    ensures r.FromDurable? ==> r.docs == DurableStore.OwnedDocs(durable.docs, userId)
    ensures r.FromMemory? ==> r.studies == if IsMongoId(userId) then [] else Filter(memory.studies, OwnedBy(userId))
  {
    var found: Option<set<Study>> := None;
    if IsMongoId(userId) {
      found := durable.FindByOwner(userId);
    }
    if found.Some? {
      return FromDurable(found.value);
    }
    var studies := memory.GetStudies(CallerRef(userId));
    return FromMemory(studies);
  }

  /** POST: the durable store is tried only for an owner id of the durable shape;
      the in-process store is written only when that was skipped or failed. `newId`
      is the object id the durable store would assign, printed in lower case. */
  method CreateStudy(userId: string, input: StudyInput, newId: string, now: Clock,
                     durable: DurableStore.Store, memory: MemoryStore.Store) returns (resp: Response)
    requires durable.Valid() && LowerCase(newId) == newId
    modifies durable, memory
    ensures durable.Valid()
    ensures durable.available == old(durable.available) && memory.users == old(memory.users)
    ensures resp.Created?
    ensures durable.docs == old(durable.docs) || memory.studies == old(memory.studies)
    ensures if IsMongoId(userId) && old(durable.available) && newId !in old(durable.docs)
            then resp.study == DurableRecord(newId, userId, input, now)
                 && durable.docs == old(durable.docs)[newId := resp.study]
                 && memory.studies == old(memory.studies)
            else resp.study == MemoryStore.NewStudy(MemoryFields(userId, input, now), now)
                 && durable.docs == old(durable.docs)
                 && memory.studies == old(memory.studies) + [resp.study]
  {
    var study: Option<Study> := None;
    if IsMongoId(userId) {
      study := durable.Create(DurableRecord(newId, userId, input, now));
    }
    if study.None? {
      var stored := memory.AddStudy(MemoryFields(userId, input, now), now);
      study := Some(stored);
    }
    return Created(study.value);
  }

  /** PUT: a durable hit is checked against the caller and changed in the durable
      store only; anything else goes to the in-process store, with no owner check. */
  method UpdateStudy(id: string, userId: string, patch: StudyPatch,
                     durable: DurableStore.Store, memory: MemoryStore.Store) returns (resp: Response)
    requires durable.Valid()
    modifies durable, memory
    ensures durable.Valid()
    ensures durable.available == old(durable.available) && memory.users == old(memory.users)
    ensures var hit := IsMongoId(id) && old(durable.available) && DurableStore.ObjectIdKey(id) in old(durable.docs);
      if hit && old(durable.docs)[DurableStore.ObjectIdKey(id)].user != userId then
        resp == NotAuthorized && durable.docs == old(durable.docs) && memory.studies == old(memory.studies)
      else if hit then
        resp == Ok(Merge(old(durable.docs)[DurableStore.ObjectIdKey(id)], patch.(id := None)))
        && durable.docs == old(durable.docs)[DurableStore.ObjectIdKey(id) := resp.study]
        && memory.studies == old(memory.studies)
      else
        var k := MemoryStore.StudyIndex(old(memory.studies), id);
        durable.docs == old(durable.docs) &&
        if k == -1 then resp == NotFound && memory.studies == old(memory.studies)
        else resp == Ok(Merge(old(memory.studies)[k], patch)) && memory.studies == old(memory.studies)[k := resp.study]
  {
    if IsMongoId(id) {
      var study := durable.FindById(id);
      if study.Some? {
        if study.value.user != userId {
          return NotAuthorized;
        }
        var updated := durable.Update(id, patch);
        return Ok(updated.value);
      }
    }
    var updatedMock := memory.UpdateStudy(id, patch);
    if updatedMock.Some? {
      return Ok(updatedMock.value);
    }
    return NotFound;
  }

  /** DELETE: the same dispatch as PUT. */
  method DeleteStudy(id: string, userId: string,
                     durable: DurableStore.Store, memory: MemoryStore.Store) returns (resp: Response)
    requires durable.Valid()
    modifies durable, memory
    ensures durable.Valid()
    ensures durable.available == old(durable.available) && memory.users == old(memory.users)
    ensures var hit := IsMongoId(id) && old(durable.available) && DurableStore.ObjectIdKey(id) in old(durable.docs);
      if hit && old(durable.docs)[DurableStore.ObjectIdKey(id)].user != userId then
        resp == NotAuthorized && durable.docs == old(durable.docs) && memory.studies == old(memory.studies)
      else if hit then
        resp == Removed(id) && durable.docs == old(durable.docs) - {DurableStore.ObjectIdKey(id)} && memory.studies == old(memory.studies)
      else
        var k := MemoryStore.StudyIndex(old(memory.studies), id);
        durable.docs == old(durable.docs) &&
        if k == -1 then resp == NotFound && memory.studies == old(memory.studies)
        else resp == Removed(id) && memory.studies == MemoryStore.RemoveAt(old(memory.studies), k)
  {
    if IsMongoId(id) {
      var study := durable.FindById(id);
      if study.Some? {
        if study.value.user != userId {
          return NotAuthorized;
        }
        var _ := durable.Delete(id);
        return Removed(id);
      }
    }
    var deleted := memory.DeleteStudy(id);
    if deleted {
      return Removed(id);
    }
    return NotFound;
  }
}
