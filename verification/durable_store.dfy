/** The durable document store, seen from the backend: a map from object id to
    record that may be unreachable. Every call the backend makes through
    `.catch(() => null)` reads "unreachable" as "no result". */
module DurableStore {
  import opened StudyModel
  import opened Identifiers

  /** The records of one owner: `Study.find({ user })`. */
  function OwnedDocs(docs: map<string, Study>, owner: string): set<Study>
  {
    set id | id in docs && docs[id].user == owner :: docs[id]
  }

  /** The object id a hexadecimal string is cast to, in its printed form. The cast
      reads either letter case, and an object id prints in lower case. */
  function ObjectIdKey(id: string): string
  {
    LowerCase(id)
  }

  class Store {
    var docs: map<string, Study>
    var available: bool

    /** Every record sits under its own id, and ids are kept in printed (lower-case)
        form, so two keys never hold the same record. */
    predicate Valid()
      reads this
    {
      forall k :: k in docs ==> docs[k].id == k && LowerCase(k) == k
    }

    constructor (available: bool)
      ensures Valid()
      ensures docs == map[] && this.available == available
    {
      docs := map[];
      this.available := available;
    }

    /** `Study.findById(id).catch(() => null)`: the id is cast first, so the case of
        its letters does not matter. */
    method FindById(id: string) returns (r: Option<Study>)
      ensures r.Some? <==> available && ObjectIdKey(id) in docs
      ensures r.Some? ==> r.value == docs[ObjectIdKey(id)]
    {
      var key := ObjectIdKey(id);
      if available && key in docs {
        r := Some(docs[key]);
      } else {
        r := None;
      }
    }

    /** `Study.find({ user: owner }).catch(() => null)`: an empty answer is still an
        answer; only an unreachable store gives none. */
    method FindByOwner(owner: string) returns (r: Option<set<Study>>)
      ensures r.Some? <==> available
      ensures r.Some? ==> forall s :: s in r.value <==> exists id :: id in docs && docs[id] == s && s.user == owner
    {
      if available {
        r := Some(OwnedDocs(docs, owner));
      } else {
        r := None;
      }
    }

    /** `Study.create(record).catch(() => null)`; a taken id is a duplicate-key error.
        The record carries an id the store generated, in printed form. */
    method Create(s: Study) returns (r: Option<Study>)
      requires Valid() && LowerCase(s.id) == s.id
      modifies this
      ensures Valid()
      ensures available == old(available)
      ensures r.Some? <==> old(available) && s.id !in old(docs)
      ensures r.Some? ==> r.value == s && docs == old(docs)[s.id := s]
      ensures r.None? ==> docs == old(docs)
    {
      if available && s.id !in docs {
        docs := docs[s.id := s];
        r := Some(s);
      } else {
        r := None;
      }
    }

    /** `Study.findByIdAndUpdate(id, patch, { new: true })`; the stored `_id` is kept. */
    method Update(id: string, patch: StudyPatch) returns (r: Option<Study>)
      requires Valid()
      modifies this
      ensures Valid()
      ensures available == old(available)
      ensures r.Some? <==> old(available) && ObjectIdKey(id) in old(docs)
      ensures r.Some? ==> r.value == Merge(old(docs)[ObjectIdKey(id)], patch.(id := None))
                          && docs == old(docs)[ObjectIdKey(id) := r.value]
      ensures r.None? ==> docs == old(docs)
    {
      var key := ObjectIdKey(id);
      if available && key in docs {
        var updated := Merge(docs[key], patch.(id := None));
        docs := docs[key := updated];
        r := Some(updated);
      } else {
        r := None;
      }
    }

    /** `study.deleteOne()` on the record found under `id`. */
    method Delete(id: string) returns (deleted: bool)
      requires Valid()
      modifies this
      ensures Valid()
      ensures available == old(available)
      ensures deleted <==> old(available) && ObjectIdKey(id) in old(docs)
      ensures docs == if deleted then old(docs) - {ObjectIdKey(id)} else old(docs)
    {
      var key := ObjectIdKey(id);
      deleted := available && key in docs;
      if deleted {
        docs := docs - {key};
      }
    }
  }

  /** The records held under `keys`. */
  function RecordsUnder(keys: set<string>, docs: map<string, Study>): set<Study>
  {
    set k | k in keys && k in docs :: docs[k]
  }

  /** Keys that each hold the record with their own id hold that many records. */
  lemma {:induction false} RecordsUnderCount(keys: set<string>, docs: map<string, Study>)
    requires forall k :: k in keys ==> k in docs && docs[k].id == k
    ensures |RecordsUnder(keys, docs)| == |keys|
  {
    if keys != {} {
      var k :| k in keys;
      var rest := keys - {k};
      RecordsUnderCount(rest, docs);
      assert RecordsUnder(keys, docs) == RecordsUnder(rest, docs) + {docs[k]};
      assert docs[k] !in RecordsUnder(rest, docs);
    }
  }

  /** Because every record sits under its own id, an owner's listing has one record
      per key that holds one of theirs: no two keys collapse into one record. */
  lemma OwnedDocsOnePerKey(store: Store, owner: string)
    requires store.Valid()
    ensures |OwnedDocs(store.docs, owner)| == |set id | id in store.docs && store.docs[id].user == owner|
  {
    var docs := store.docs;
    var keys := set id | id in docs && docs[id].user == owner;
    assert OwnedDocs(docs, owner) == RecordsUnder(keys, docs);
    RecordsUnderCount(keys, docs);
  }
}
