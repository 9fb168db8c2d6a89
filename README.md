# DatabaseService: probe-based pagination and flattened field updates

This project models the generic data-access class `DatabaseService<TData, TDoc>`
of a sales-records CRUD service (`src/service/database.ts`). The class wraps one
document collection and offers paginated `find`, `findById`, `create`, `update`
and `delete`. Two parts of it have invariants worth proving:

- **Pagination** (`find` + `applyPagination`). `find` counts the matching
  records. It then fetches one window of them with `skip`/`limit`. The window
  takes one extra "probe" record after the page and, from page 2 on, one probe
  record before it. From the number of documents that come back it derives
  `hasPrevious` and `hasNext`, then slices the probes away. Module `Pagination`
  (`pagination.dfy`) models this as pure functions over an ordered sequence of
  records. The main results are:
  - the returned data is exactly records `[(page-1)*perPage, min(page*perPage, T))`;
  - `hasNext` holds exactly when records exist past the page;
  - consecutive pages tile the collection.
- **Flattening** (`isPlainObj`, `flattenObj`). A partial, possibly nested
  payload becomes a map from dotted path to leaf value. `update` and `create`
  then set each of those paths on a document. Module `Flatten` (`flatten.dfy`)
  models a value as `Leaf(scalar)` or `Obj(entries)`; only `Obj` is a plain
  object. Module `Database` (`database.dfy`) models the rest:
  - a document is a map from dotted path to scalar;
  - the set loop is the method `SetFields`;
  - the collection is the `records` field of class `DatabaseService`, which
    `Update`, `Create` and `Delete` change.

`wrappers.dfy` holds `Option`, `Result` and the service's error kinds. There is
one error per message the source throws (plus a failed save, see `Wrappers.Error`): `PageTooSmall`, `PerPageTooSmall`,
`InvalidId`, `NotFound(id)`.

Two behaviours of the code that a reader might not expect:
- `hasPrevious` is `page > 1 && docsCount > 0` (src/service/database.ts:65). It
  is therefore true when the record just before the page exists, i.e.
  `page > 1 && (page-1)*perPage <= T`. A page that starts two or more records
  past the end reports no previous page, even though earlier pages hold
  records (`Pagination.HasPreviousPastEnd`).
- `findById` calls `find` with page 1 and a page size of 10
  (src/service/database.ts:100) and takes the first record.

## Model

| member | source | states |
|---|---|---|
| `Pagination.Filter` | src/service/database.ts:31-35 | the records the condition selects: each one is in the collection and satisfies the condition, every record that satisfies it is included, and a one-record collection gives that record exactly when it matches (order and multiplicity: `FilterAppend`, `FilterCounts`) |
| `Pagination.FilterAppend` | src/service/database.ts:31-35 | the matches of a concatenation are the matches of the first part followed by those of the second, so the matching records keep collection order |
| `Pagination.FilterCounts` | src/service/database.ts:31-35 | each matching record occurs as often among the matches as in the collection, and a non-matching record does not occur |
| `Pagination.SkipFor` | src/service/database.ts:55-56 | for `page, perPage >= 1`, `skip` is non-negative and equals the page's first position, less one from page 2 on; on page 1 it is 0 |
| `Pagination.LimitFor` | src/service/database.ts:57 | `skip + limit == page*perPage + 1`, so the fetch ends one record past the page; `limit > perPage` |
| `Pagination.Fetch` | src/service/database.ts:58-63 | `skip(s).limit(l)` returns the records at positions `[s, min(s+l, T))`, at most `l` of them, and nothing when `s >= T` |
| `Pagination.Slice` | src/service/database.ts:71 | `docs.slice(lower, upper)` with in-range bounds is exactly that subsequence |
| `Pagination.Bounds` | src/service/database.ts:64-69 | `0 <= lower <= upper <= docsCount` and `upper - lower <= perPage`; `lower` is 1 exactly when `hasPrevious`; `hasPrevious` iff `page > 1` and some document came back |
| `Pagination.SliceIsPage` | src/service/database.ts:55-71 | slicing the fetched window gives exactly records `[(page-1)*perPage, min(page*perPage, T))`, with both bounds clamped to T; `hasNext` iff `T > page*perPage`; `hasPrevious` iff `page > 1 && (page-1)*perPage <= T` |
| `Pagination.ApplyPagination` | src/service/database.ts:47-86 | the result is that page (`IsPageOf`): at most `perPage` records and flags as above; it echoes `page`, `perPage` and the given `totalCount`, and `next`/`previous` are empty |
| `Pagination.Find` | src/service/database.ts:17-45 | `page < 1` fails with PageTooSmall and issues no backend query; `perPage < 1` fails with PerPageTooSmall and issues no query; otherwise it issues one count, then one fetch with non-negative skip, and returns the page of the matching records with `totalCount` equal to their number |
| `Pagination.PagesTile` | src/service/database.ts:55-71 | pages 1..n concatenated equal the first `min(n*perPage, T)` records, so no record is skipped or repeated |
| `Pagination.LastPageCoversAll` | src/service/database.ts:68-69 | once page n reports no next page, pages 1..n together are the whole collection |
| `Pagination.WorkedExample` | src/service/database.ts:55-71 | with 25 records and 10 per page, the pages hold 10, 10 and 5 records; skips are 9 and 19; the flags are (no previous, next), (previous, next), (previous, no next) |
| `Pagination.HasPreviousPastEnd` | src/service/database.ts:65-66 | with 5 records, page 3 of size 2 has a previous page and no next page; page 4 of size 2 and page 2 of size 10 are empty and report no previous page |
| `Flatten.IsPlainObj` | src/service/database.ts:160-168 | a value is plain exactly when it is an object of key/value pairs; arrays and every other leaf (null, scalars, dates, ObjectIds) are not |
| `Flatten.Join` | src/service/database.ts:176 | joining a path of one key gives that key; extending a path by one key appends a dot and the key to the joined path |
| `Flatten.FlattenObj` | src/service/database.ts:170-179 | under a non-empty prefix every flattened path starts with the joined prefix and a dot (its full meaning: `FlattenIsLastWins`) |
| `Flatten.FlattenEntry` | src/service/database.ts:171-177 | every path one key contributes starts with the joined prefix extended by that key |
| `Flatten.FlattenIsLastWins` | src/service/database.ts:170-179 | flattenObj equals the depth-first list of all leaves, each keyed by its dot-joined path, read so that a later path overwrites an earlier equal one; only plain objects are descended into |
| `Flatten.EntryIsLastWins` | src/service/database.ts:171-177 | one reduce step merges in either the flattening of a nested plain object under the extended prefix, or the single leaf at the joined path |
| `Flatten.FlattenFlatPayload` | src/service/database.ts:170-179 | a payload with only leaves at the top level flattens to its own pairs, keyed by their top-level keys |
| `Flatten.FlatPayloadMapsToItself` | src/service/database.ts:170-179 | an already-flat payload with distinct keys maps each of its keys to its own value, and yields no other key |
| `Flatten.FlattenIdempotent` | src/service/database.ts:170-179 | flattening the flattened leaves again gives the same map |
| `Flatten.FlattenAppend` | src/service/database.ts:171-178 | the reduce over two runs of entries is the merge of the two, the later run winning on shared paths |
| `Flatten.EmptyObjectAddsNothing` | src/service/database.ts:174-175 | a nested empty plain object contributes no key, wherever it sits among its siblings |
| `Flatten.NestedExample` | src/service/database.ts:170-179 | `{a: {b: 1, c: {d: 2}}}` flattens to `{"a.b": 1, "a.c.d": 2}` |
| `Database.StoredIffMatches` | src/service/database.ts:97-100 | some record carries the id iff the `{_id: id}` condition matches at least one record |
| `Database.FindById` | src/service/database.ts:88-107 | an empty id fails with InvalidId; an id no record carries fails with NotFound; otherwise it succeeds with a stored record carrying that id |
| `Database.Loaded` | src/service/database.ts:110-112 | a supplied `existing` is used as is; otherwise the document is loaded by findById: an empty id fails with InvalidId, an id no record carries fails with NotFound, and a stored non-empty id loads a stored record with that id |
| `Database.SetFields` | src/service/database.ts:116-119 | after setting each flattened path, the document has every old field plus the flattened paths; each flattened path holds its new value; every other field keeps its old value |
| `Database.SetPaths` | src/service/database.ts:117-121 | saving the updated document keeps every record's id and position; the record carrying the id gets its old fields with the flattened paths set; every other record is unchanged |
| `Database.Without` | src/service/database.ts:146 | removing a document leaves exactly the records with other ids |
| `Database.FindByIdFindsStored` | src/service/database.ts:88-107 | when ids are distinct, findById of a stored record's non-empty id returns that record |
| `Database.CreateThenFind` | src/service/database.ts:125-140 | after inserting a record under a fresh id, ids stay distinct; findById returns the new record; every earlier record is still found |
| `Database.UpdateThenFind` | src/service/database.ts:109-123 | after an update, ids stay distinct; findById returns the record with exactly the flattened paths replaced and all other fields as before; every other record is found unchanged |
| `Database.DeleteThenNotFound` | src/service/database.ts:142-148 | after a delete, ids stay distinct; findById of the deleted id fails with NotFound; every other record is found unchanged |
| `Database.DatabaseService.constructor` | src/service/database.ts:13-15 | the service starts over the given collection |
| `Database.DatabaseService.Update` | src/service/database.ts:109-123 | a failed load is returned and nothing changes; a loaded document that is no longer stored fails with NotFound; otherwise the stored record gets the flattened paths set, and the result is the loaded document with them set |
| `Database.DatabaseService.Create` | src/service/database.ts:125-140 | the new record has the given fresh id and exactly the flattened payload as fields, and it is appended to the collection |
| `Database.DatabaseService.Delete` | src/service/database.ts:142-148 | a failed load is returned and nothing changes; otherwise the loaded document is removed and returned; `Id` is ignored when `existing` is supplied |

## Left out

- Query building is opaque and not modelled: `populate`, `select` and `sort`. The record sequence is taken to be in the requested sort order already.
- Pagination.PagesTile: the tiling, like Pagination.LastPageCoversAll, assumes that every request sees the same total order of the collection. Each page is a separate count-and-fetch. The default `sort` is empty, and the controller passes none. Without a sort on a unique key, MongoDB promises no stable order across queries, so in the source consecutive pages can skip or repeat records. A sort on the non-unique `date` index has the same gap. The model fixes one sequence for all calls.
- The `page` and `perPage` numbers are modelled as integers. Fractional JavaScript numbers are not modelled.
- Pagination.ApplyPagination: requires `page >= 1` and `perPage >= 1`. Its one caller, `find`, guarantees this. A direct call outside that range is not modelled. With `page < 1` and `perPage >= 1` the source hands a negative `skip` to the driver. With `page == 1` and `perPage < 1`, `skip` is 0 and `limit` is at most 1. For `perPage == 0` that means an empty `data`, with `hasNext` set whenever a record exists.
- `new ID(Id)` ObjectId parsing is not modelled. Every non-empty string is accepted as an id, so the "malformed id" failure is absent.
- The backend assigns the identifier of a created record. `Create` takes it as a parameter that must be fresh and non-empty.
- `deleteByCond` is not modelled. It is a single pass-through to `model.remove(cond)`.
- Backend failures are not modelled: schema validation (required fields), schema defaults on `new this.model()`, connection errors. `save`, `model.create` and `remove` are modelled as always succeeding, except that saving a document that is no longer stored fails with NotFound.
- A document is a flat map from dotted path to scalar. Mongoose's nested sub-document semantics for `set("a.b", …)` are not modelled, so a path and its prefix (such as `a` and `a.b`) are independent fields. A payload key `_id` is treated as an ordinary field.
- Database.SetFields: JavaScript `undefined` values are not represented. In the source, a payload leaf that is `undefined` is not a plain object, so `flattenObj` emits its path with the value `undefined`. `existing.set(path, undefined)` then makes `save` unset that field, so `update(id, {x: undefined})` removes `x`; in `create`, such a path sets nothing. The model has no `undefined` leaf and so no field removal.
- Database.DatabaseService.Update: a supplied `existing` is treated as a value and is never changed. In the source, `existing.set` updates the caller's document object in place, so that object carries the new paths even when `save` then fails. On success, the result is that same object. The model does not capture this aliasing.
- Database.DatabaseService.Update: `save` is modelled as writing every flattened path. Mongoose writes only the paths whose value actually changed. The two differ only when a stale `existing` is supplied.
- `isPlainObj`'s prototype test becomes the `Obj` variant test (`Flatten.IsPlainObj`). Class instances other than arrays, dates and ObjectIds are not represented. Cyclic payloads cannot be built.
- Flatten.IsPlainObj: every nested object is plain. In the source, an object with an own `constructor` key, such as `{a: {constructor: "x"}}`, is not plain (`o.constructor.prototype` is undefined), so it stays one leaf under `a`. The model yields the path `"a.constructor"` instead.
- The entries of an object are taken in `Object.keys` order. JavaScript's rule that integer-like keys come first is not modelled.
- Database.SetFields: every flattened path is stored exactly as given. Mongoose's default strict schema (src/models/sales.ts:16) makes `doc.set` ignore paths outside the schema and cast values to the schema's types; the model represents neither.
- Database.DatabaseService.Create: the new record holds every flattened path uncast. The strict-schema filtering and casting of `obj.set` are not modelled (see `Database.SetFields`).
- Database.DatabaseService.Update: the stored record gets every flattened path uncast. The strict-schema filtering and casting of `existing.set` are not modelled (see `Database.SetFields`).
- Flatten.FlattenObj: a key `"__proto__"` is kept as an ordinary path. In the source, `Object.assign` writes that key through the prototype setter, so a top-level leaf under it never reaches the flattened result.
- The `options` argument of `create` and `delete` is passed to `model.create` and `remove` (sessions, write options). It is not modelled.
- `async`/`await` sequencing is not modelled, and neither is concurrency between callers (last write wins).
- The sales aggregation reports, the HTTP controllers, the routes, the Mongoose schema and the process bootstrap are not part of this model.
