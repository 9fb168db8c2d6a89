/**
 * The record-level operations of `DatabaseService`: findById, update, create
 * and delete, over an in-memory stand-in for the backend collection.
 *
 * A stored record is an identifier plus a document, the document being a map
 * from dotted field path to leaf value (the shape `doc.set(path, value)`
 * writes).  The collection is a sequence of records in the backend's natural
 * order, with distinct, non-empty identifiers.
 */
module Database {
  import opened Wrappers
  import opened Flatten
  import Pagination

  type Fields = map<string, Scalar>

  datatype Record = Record(id: string, fields: Fields)

  ghost predicate UniqueIds(records: seq<Record>)
  {
    forall i, j :: 0 <= i < j < |records| ==> records[i].id != records[j].id
  }

  /** Some record of the collection carries identifier `id`. */
  predicate Stored(records: seq<Record>, id: string)
  {
    exists i :: 0 <= i < |records| && records[i].id == id
  }

  /** The condition `{_id: id}` that findById hands to find. */
  function IdIs(id: string): Record -> bool
  {
    (rec: Record) => rec.id == id
  }

  lemma StoredIffMatches(records: seq<Record>, id: string)
    ensures Stored(records, id) <==> |Pagination.Filter(records, IdIs(id))| > 0
  {
  }

  /**
   * findById: an empty id is rejected; otherwise `find` with the condition
   * `_id == id`, page 1 and 10 per page, and the first record of the page is
   * the answer, or NotFound when the page is empty.
   */
  function FindById(records: seq<Record>, id: string): (r: Result<Record, Error>)
    ensures id == "" ==> r == Failure(InvalidId)
    ensures id != "" && !Stored(records, id) ==> r == Failure(NotFound(id))
    ensures id != "" && Stored(records, id) ==> r.Success?
    ensures r.Success? ==> r.value in records && r.value.id == id
  {
    if id == "" then Failure(InvalidId)
    else
      var found := Pagination.Find(records, IdIs(id), 1, 10).0;
      StoredIffMatches(records, id);
      match found
      case Failure(e) => Failure(e)
      case Success(page) =>
        if |page.data| == 0 then Failure(NotFound(id))
        else
          assert page.data[0] in Pagination.Filter(records, IdIs(id));
          Success(page.data[0])
  }

  /** `if (!existing) existing = await this.findById(Id)`: the document update and delete act on. */
  function Loaded(records: seq<Record>, id: string, existing: Option<Record>): (r: Result<Record, Error>)
    ensures existing.Some? ==> r == Success(existing.value)
    ensures existing.None? && id == "" ==> r == Failure(InvalidId)
    ensures existing.None? && id != "" && !Stored(records, id) ==> r == Failure(NotFound(id))
    ensures existing.None? && id != "" && Stored(records, id) ==> r.Success?
    ensures existing.None? && r.Success? ==> r.value in records && r.value.id == id
  {
    match existing
    case Some(doc) => Success(doc)
    case None => FindById(records, id)
  }

  /**
   * The loop `for (const k of keys) existing.set(k, myrecord[k])`: every
   * flattened path is set to its new value, every other field is left as it was.
   */
  method SetFields(fields: Fields, flat: Fields) returns (updated: Fields)
    ensures updated.Keys == fields.Keys + flat.Keys
    ensures forall k :: k in flat ==> updated[k] == flat[k]
    ensures forall k :: k in fields && k !in flat ==> updated[k] == fields[k]
  {
    updated := fields;
    var pending := flat.Keys;
    while pending != {}
      invariant pending <= flat.Keys
      invariant updated.Keys == fields.Keys + (flat.Keys - pending)
      invariant forall k :: k in flat && k !in pending ==> updated[k] == flat[k]
      invariant forall k :: k in fields && k !in flat ==> updated[k] == fields[k]
      invariant forall k :: k in pending && k in fields ==> updated[k] == fields[k]
      decreases pending
    {
      var k :| k in pending;
      updated := updated[k := flat[k]];
      pending := pending - {k};
    }
  }

  /** The collection after `save()` of the document `id` with the paths of `flat` set. */
  function SetPaths(records: seq<Record>, id: string, flat: Fields): (updated: seq<Record>)
    ensures |updated| == |records|
    ensures forall i :: 0 <= i < |records| ==> updated[i].id == records[i].id
    ensures forall i :: 0 <= i < |records| && records[i].id != id ==> updated[i] == records[i]
    ensures forall i :: 0 <= i < |records| && records[i].id == id ==> updated[i].fields == records[i].fields + flat
  {
    seq(|records|, i requires 0 <= i < |records| =>
      if records[i].id == id then Record(id, records[i].fields + flat) else records[i])
  }

  lemma SetPathsKeepsIds(records: seq<Record>, id: string, flat: Fields)
    requires UniqueIds(records) && !Stored(records, "")
    ensures UniqueIds(SetPaths(records, id, flat)) && !Stored(SetPaths(records, id, flat), "")
  {
  }

  /** The collection after `remove()` of the document `id`. */
  function Without(records: seq<Record>, id: string): (rest: seq<Record>)
    ensures forall rec :: rec in rest <==> rec in records && rec.id != id
  {
    Pagination.Filter(records, (rec: Record) => rec.id != id)
  }

  /** With distinct identifiers, findById returns the one record carrying the identifier. */
  lemma FindByIdFindsStored(records: seq<Record>, rec: Record)
    requires UniqueIds(records)
    requires rec in records && rec.id != ""
    ensures FindById(records, rec.id) == Success(rec)
  {
  }

  /** A record inserted under a fresh identifier is what findById then returns. */
  lemma CreateThenFind(records: seq<Record>, rec: Record)
    requires UniqueIds(records) && !Stored(records, rec.id) && rec.id != ""
    ensures UniqueIds(records + [rec])
    ensures FindById(records + [rec], rec.id) == Success(rec)
    ensures forall other :: other in records && other.id != "" ==> FindById(records + [rec], other.id) == Success(other)
  {
    var all := records + [rec];
    assert UniqueIds(all) by {
      forall i, j | 0 <= i < j < |all| ensures all[i].id != all[j].id {
        if j == |records| { assert all[i] == records[i]; }
      }
    }
    FindByIdFindsStored(all, rec);
    forall other | other in records && other.id != "" ensures FindById(all, other.id) == Success(other) {
      FindByIdFindsStored(all, other);
    }
  }

  /**
   * After an update of record `rec`, findById returns it with exactly the
   * flattened paths replaced and every other field as before; every other
   * record is found unchanged.
   */
  lemma UpdateThenFind(records: seq<Record>, rec: Record, flat: Fields)
    requires UniqueIds(records) && rec in records && rec.id != ""
    ensures UniqueIds(SetPaths(records, rec.id, flat))
    ensures FindById(SetPaths(records, rec.id, flat), rec.id) == Success(Record(rec.id, rec.fields + flat))
    ensures forall other :: other in records && other.id != rec.id && other.id != "" ==>
              FindById(SetPaths(records, rec.id, flat), other.id) == Success(other)
  {
  }

  /** After a delete of `id`, findById fails with NotFound for it and finds every other record as before. */
  lemma DeleteThenNotFound(records: seq<Record>, id: string)
    requires UniqueIds(records) && id != ""
    ensures UniqueIds(Without(records, id))
    ensures FindById(Without(records, id), id) == Failure(NotFound(id))
    ensures forall other :: other in records && other.id != id && other.id != "" ==>
              FindById(Without(records, id), other.id) == Success(other)
  {
    var rest := Without(records, id);
    SubsequenceKeepsUniqueIds(records, (rec: Record) => rec.id != id);
    forall other | other in records && other.id != id && other.id != ""
      ensures FindById(rest, other.id) == Success(other)
    {
      FindByIdFindsStored(rest, other);
    }
  }

  lemma {:induction false} SubsequenceKeepsUniqueIds(records: seq<Record>, cond: Record -> bool)
    requires UniqueIds(records)
    ensures UniqueIds(Pagination.Filter(records, cond))
  {
    if records != [] {
      SubsequenceKeepsUniqueIds(records[1..], cond);
      var rest := Pagination.Filter(records[1..], cond);
      var head := if cond(records[0]) then [records[0]] else [];
      assert Pagination.Filter(records, cond) == head + rest;
      forall rec | rec in rest ensures rec.id != records[0].id {
        var j :| 0 <= j < |records[1..]| && records[1..][j] == rec;
        assert records[j + 1] == rec;
      }
    }
  }

  /**
   * DatabaseService bound to one collection.  The backend's state is the
   * `records` field; the methods change it the way the backend calls in
   * update, create and delete do.
   */
  class DatabaseService {
    var records: seq<Record>

    ghost predicate Valid()
      reads this
    {
      UniqueIds(records) && !Stored(records, "")
    }

    constructor(records: seq<Record>)
      requires UniqueIds(records) && !Stored(records, "")
      ensures Valid() && this.records == records
    {
      this.records := records;
    }

    /**
     * update: load the document unless one is supplied, set every flattened
     * path of the payload on it, save it.  Saving a document that is no longer
     * stored fails with NotFound.
     */
    method Update(id: string, payload: Entries, existing: Option<Record>) returns (r: Result<Record, Error>)
      requires Valid()
      modifies this
      ensures Valid()
      ensures Loaded(old(records), id, existing).Failure? ==>
                r == Loaded(old(records), id, existing) && records == old(records)
      ensures Loaded(old(records), id, existing).Success? ==>
                var doc := Loaded(old(records), id, existing).value;
                && (!Stored(old(records), doc.id) ==> r == Failure(NotFound(doc.id)) && records == old(records))
                && (Stored(old(records), doc.id) ==>
                      && r == Success(Record(doc.id, doc.fields + Flat(payload)))
                      && records == SetPaths(old(records), doc.id, Flat(payload)))
    {
      var loaded := Loaded(records, id, existing);
      if loaded.Failure? {
        return loaded;
      }
      var doc := loaded.value;
      var flat := Flat(payload);
      var fields := SetFields(doc.fields, flat);
      if !Stored(records, doc.id) {
        return Failure(NotFound(doc.id));
      }
      assert fields == doc.fields + flat;
      SetPathsKeepsIds(records, doc.id, flat);
      records := SetPaths(records, doc.id, flat);
      r := Success(Record(doc.id, fields));
    }

    /**
     * create: a new document with identifier `newId` (the identifier the
     * backend assigns), every flattened path of the payload set on it, inserted.
     */
    method Create(payload: Entries, newId: string) returns (r: Record)
      requires Valid() && newId != "" && !Stored(records, newId)
      modifies this
      ensures Valid()
      ensures r.id == newId && r.fields == Flat(payload)
      ensures records == old(records) + [r]
    {
      var fields := SetFields(map[], Flat(payload));
      r := Record(newId, fields);
      CreateThenFind(records, r);
      records := records + [r];
    }

    /** delete: load the document unless one is supplied, remove it, return it. */
    method Delete(id: string, existing: Option<Record>) returns (r: Result<Record, Error>)
      requires Valid()
      modifies this
      ensures Valid()
      ensures Loaded(old(records), id, existing).Failure? ==>
                r == Loaded(old(records), id, existing) && records == old(records)
      ensures Loaded(old(records), id, existing).Success? ==>
                r == Loaded(old(records), id, existing) && records == Without(old(records), r.value.id)
    {
      r := Loaded(records, id, existing);
      if r.Success? {
        SubsequenceKeepsUniqueIds(records, (rec: Record) => rec.id != r.value.id);
        records := Without(records, r.value.id);
      }
    }
  }
}
