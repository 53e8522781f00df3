# Book registry store

A model of the record store behind a small HTTP book registry (`server.js`).
The service keeps one collection of book records in process memory, seeded
with three records (ids 1, 2, 3), and offers five operations on it: list all,
get by id, create, update by id and delete by id. This project models the
collection and those five operations with the HTTP layer removed, and proves
what each operation does to the collection and what it answers.

- `books.dfy`, module `Books`: the record, payload and answer types, and each
  operation as a function from the old collection to the new one and the
  answer (`Lookup`, `Created`, `Updated`, `Deleted`), with lemmas that relate
  several operations.
- `store.dfy`, module `Server`: class `BookStore`, whose field `books` is the
  mutable collection. `List` and `Get` read it; `Create`, `Update` and
  `Delete` change it in place and are proved equal to the functions above.
  `DeleteThenCreate` is a caller that uses only those method contracts.

Modelling choices:

- A path id arrives already parsed, as `Option<int>`; `None` stands for a
  segment `parseInt` cannot read (NaN), which matches no record.
- Payload fields are `Option<string>` and `Option<int>`, `None` meaning the
  field is absent. A text field counts as given ("truthy") when it is present
  and not `""`.
- Answers are `Ok(value)` (200, 201 or 204), `NotFound` (404, "Book not
  found") and `MissingFields` (400, "Missing required fields").
- Lookups pick the FIRST record with the id, as `find` and `findIndex` do.
- Records are values: an update replaces the record at its position with the
  patched copy.
- Ids are not unique. Create numbers a record `length + 1`, so after a
  delete a new record can take an id that is still in use. The model proves
  this collision (`IdsCanCollide`). It proves ids dense (record k has id
  k + 1), and so unique, only while no delete has happened.
- `copiesAvailable` is not checked to be non-negative, in the code or the
  model.

## Model

| member | source | states |
|---|---|---|
| `Books.Seed` | server.js:8-30 | the start-up collection holds three records with ids 1, 2, 3 in that order |
| `Books.FindIndex` | server.js:90-91 | the result is -1 exactly when no record has the id; otherwise it is the position of a record with the id, and no earlier record has it |
| `Books.Lookup` | server.js:42-47 | get answers NotFound exactly when no record has the id (an unparsable id included); an Ok answer is a record of the collection with the requested id, and no earlier record has that id; get never answers MissingFields |
| `Books.OrZero` | server.js:65 | the create default gives the supplied count when one is given (0 stays 0) and 0 when it is absent |
| `Books.Created` | server.js:54-70 | MissingFields exactly when title, author or genre is absent or empty, and then the collection is unchanged; otherwise the collection is the old one plus exactly one record at the end, that record is the answer, its id is the old length + 1, its text fields are the payload's and its count is the supplied one or 0 |
| `Books.Patch` | server.js:78-84 | the id never changes; each of title, author and genre takes the payload's value exactly when that value is present and non-empty, and keeps the old one otherwise; the count takes the payload's value exactly when present, 0 included |
| `Books.Updated` | server.js:73-85 | NotFound exactly when no record has the id, and then nothing changes; otherwise only the first record with the id is patched, every other record and the length stay the same, and the answer is the patched record |
| `Books.Deleted` | server.js:88-95 | NotFound exactly when no record has the id, and then nothing changes; otherwise the length drops by one, the records before the first match stay where they were and the records after it move up one place |
| `Books.DeleteRemovesOne` | server.js:93 | after a successful delete the collection is the old one less one copy of the removed record |
| `Books.DeleteKeepsIds` | server.js:93 | delete keeps the ids and the relative order of the remaining records: the id list loses exactly the entry at the removed position |
| `Books.DeleteThenLookupNotFound` | server.js:89-94 | after deleting the only record with an id, get on that id answers NotFound |
| `Books.DeleteExposesDuplicate` | server.js:90-93 | when the id was carried by a later record too, get on it after the delete answers that next record |
| `Books.CreateThenLookup` | server.js:60-68 | after a successful create, get on the new id answers the new record, provided no older record already carries that id |
| `Books.UpdateKeepsIds` | server.js:78-84 | update never changes the ids, their order or the number of records |
| `Books.PatchIdempotent` | server.js:79-82 | applying the same update payload twice gives the same record as applying it once |
| `Books.PatchWithoutFields` | server.js:79-82 | a payload with no non-empty text field and no count leaves the record unchanged (empty strings are ignored) |
| `Books.SeedIsDense` | server.js:8-30 | in the seed, record k has id k + 1 |
| `Books.DenseLookup` | server.js:43-46 | while record k has id k + 1 for every k, get on id k answers record k - 1 |
| `Books.CreatePreservesDense` | server.js:60-68 | create keeps the ids dense |
| `Books.UpdatePreservesDense` | server.js:78-84 | update keeps the ids dense |
| `Books.DenseIdsUnique` | server.js:61 | while ids are dense, no two records share an id |
| `Books.IdsCanCollide` | server.js:54-95 | from the seed, deleting id 2 and then creating a record gives ids 1, 3, 3, and get on id 3 answers the older record |
| `Books.ApiTestScenario` | tests/api.test.js:19-74 | the request sequence of the API tests: list answers a non-empty collection, get 1 finds id 1, get 999 is NotFound, the create answers id 4 with the given title, the update of 1 changes the title and keeps the author, update and delete of 999 are NotFound and change nothing, delete of 2 succeeds; beyond the tests, a later get of 2 is NotFound |
| `Server.BookStore.constructor` | server.js:8-30 | a new store holds the seed records |
| `Server.BookStore.List` | server.js:37-39 | list answers the whole collection in its current order |
| `Server.BookStore.Get` | server.js:42-47 | an Ok answer is the first record of the collection that carries the requested id; NotFound exactly when no record carries it |
| `Server.BookStore.Create` | server.js:54-70 | the new collection and the answer are those of `Books.Created` on the old collection |
| `Server.BookStore.Update` | server.js:73-85 | the new collection and the answer are those of `Books.Updated` on the old collection |
| `Server.BookStore.Delete` | server.js:88-95 | the new collection and the answer are those of `Books.Deleted` on the old collection |
| `Server.DeleteThenCreate` | server.js:61-93 | on a fresh store, deleting id 2 succeeds, the record created next gets id 3, get on id 3 then answers the older seed record, and the ids listed are 1, 3, 3 |

## Left out

- The HTTP layer: the framework application, JSON body parsing, route
  registration and status codes; answers are values of `Outcome`.
- Starting the server on port 3000, the main-module check, the console
  message and the exports: process I/O.
- `parseInt` itself (prefix parsing such as "12abc", NaN): ids arrive parsed.
- JavaScript's dynamic typing: payload values of other types (a `copiesAvailable`
  string stored as is, `null`, `false`, `NaN`) are outside the model, which
  has only strings, integers and absence.
- Object identity: in the source the record returned by create or update is
  the same object as the one in the collection; here records are values.
- Concurrency: handlers run one at a time to completion, so the operations
  are sequential methods.
- The test harness (supertest, Jest, listening on port 4000): the request
  sequence of its tests is stated by `Books.ApiTestScenario` instead.
