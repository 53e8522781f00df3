/** Book records, request payloads and the behaviour of the book registry's
    five operations, stated as functions on the collection (a sequence of
    records in insertion order). The class in store.dfy changes a collection
    in place and is proved against these functions. */
module Books {

  datatype Option<T> = None | Some(value: T)

  /** One book record. */
  datatype Book = Book(id: int, title: string, author: string, genre: string, copiesAvailable: int)

  /** A request body for create or update: every field may be absent. */
  datatype Payload = Payload(
    title: Option<string>,
    author: Option<string>,
    genre: Option<string>,
    copiesAvailable: Option<int>)

  /** What an operation reports: the 200/201/204 answer carries a value,
      404 is NotFound, 400 is MissingFields. */
  datatype Outcome<T> = Ok(value: T) | NotFound | MissingFields

  /** The collection after an operation, with the operation's answer. */
  datatype Step<T> = Step(books: seq<Book>, response: Outcome<T>)

  /** A text field that JavaScript treats as true: present and not "". */
  predicate Truthy(s: Option<string>) {
    s.Some? && s.value != ""
  }

  /** `b.id === id`, where `id` is the parsed path segment; a segment that
      does not parse (None) matches no record. */
  predicate Matches(b: Book, id: Option<int>) {
    id.Some? && b.id == id.value
  }

  /** The three records the collection holds at start-up. */
  function Seed(): (r: seq<Book>)
    ensures Ids(r) == [1, 2, 3]
  {
    [ Book(1, "The Great Gatsby", "F. Scott Fitzgerald", "Fiction", 5),
      Book(2, "To Kill a Mockingbird", "Harper Lee", "Fiction", 3),
      Book(3, "1984", "George Orwell", "Dystopian Fiction", 7) ]
  }

  /** The ids of the records, in order. */
  function Ids(books: seq<Book>): (r: seq<int>)
    ensures |r| == |books|
    ensures forall i :: 0 <= i < |books| ==> r[i] == books[i].id
  {
    if books == [] then [] else [books[0].id] + Ids(books[1..])
  }

  // ---------------------------------------------------------------------
  // Lookup (GET /api/books/:id, and the search in PUT and DELETE)
  // ---------------------------------------------------------------------

  /** `findIndex`: the position of the first record with that id, or -1. */
  function FindIndex(books: seq<Book>, id: Option<int>): (r: int)
    ensures -1 <= r < |books|
    ensures r == -1 <==> forall i :: 0 <= i < |books| ==> !Matches(books[i], id)
    ensures 0 <= r ==> Matches(books[r], id)
    ensures 0 <= r ==> forall i :: 0 <= i < r ==> !Matches(books[i], id)
  {
    if books == [] then -1
    else if Matches(books[0], id) then 0
    else
      var k := FindIndex(books[1..], id);
      if k == -1 then -1 else k + 1
  }

  /** Get by id: the first record whose id is the requested one. */
  function Lookup(books: seq<Book>, id: Option<int>): (r: Outcome<Book>)
    ensures !r.MissingFields?
    ensures r.NotFound? <==> forall i :: 0 <= i < |books| ==> !Matches(books[i], id)
    ensures r.Ok? ==> id.Some? && r.value.id == id.value
    ensures r.Ok? ==> exists i :: 0 <= i < |books| && books[i] == r.value &&
                                  forall j :: 0 <= j < i ==> !Matches(books[j], id)
  {
    var i := FindIndex(books, id);
    if i == -1 then NotFound else Ok(books[i])
  }

  // ---------------------------------------------------------------------
  // Create (POST /api/books)
  // ---------------------------------------------------------------------

  /** `!title || !author || !genre` is false. */
  predicate HasRequiredFields(p: Payload) {
    Truthy(p.title) && Truthy(p.author) && Truthy(p.genre)
  }

  /** `copiesAvailable || 0`: a falsy (absent or zero) count becomes 0. */
  function OrZero(c: Option<int>): (r: int)
    ensures c.None? ==> r == 0
    ensures c.Some? ==> r == c.value
  {
    if c.Some? && c.value != 0 then c.value else 0
  }

  /** Create: reject a payload without title, author or genre; otherwise
      append a record numbered one past the current length. */
  function Created(books: seq<Book>, p: Payload): (r: Step<Book>)
    ensures r.response.MissingFields? <==> !HasRequiredFields(p)
    ensures !HasRequiredFields(p) ==> r.books == books
    ensures HasRequiredFields(p) ==> r.response.Ok? && r.books == books + [r.response.value]
    ensures HasRequiredFields(p) ==>
      var b := r.response.value;
      && b.id == |books| + 1
      && Some(b.title) == p.title && Some(b.author) == p.author && Some(b.genre) == p.genre
      && (p.copiesAvailable.Some? ==> b.copiesAvailable == p.copiesAvailable.value)
      && (p.copiesAvailable.None? ==> b.copiesAvailable == 0)
  {
    if !Truthy(p.title) || !Truthy(p.author) || !Truthy(p.genre) then
      Step(books, MissingFields)
    else
      var b := Book(|books| + 1, p.title.value, p.author.value, p.genre.value, OrZero(p.copiesAvailable));
      Step(books + [b], Ok(b))
  }

  // ---------------------------------------------------------------------
  // Update (PUT /api/books/:id)
  // ---------------------------------------------------------------------

  /** The four assignments of the update handler, in order: a text field is
      taken from the payload when truthy, the count whenever it is present. */
  function Patch(b: Book, p: Payload): (r: Book)
    ensures r.id == b.id
    ensures Truthy(p.title) ==> r.title == p.title.value
    ensures !Truthy(p.title) ==> r.title == b.title
    ensures Truthy(p.author) ==> r.author == p.author.value
    ensures !Truthy(p.author) ==> r.author == b.author
    ensures Truthy(p.genre) ==> r.genre == p.genre.value
    ensures !Truthy(p.genre) ==> r.genre == b.genre
    ensures p.copiesAvailable.Some? ==> r.copiesAvailable == p.copiesAvailable.value
    ensures p.copiesAvailable.None? ==> r.copiesAvailable == b.copiesAvailable
  {
    var b1 := if Truthy(p.title) then b.(title := p.title.value) else b;
    var b2 := if Truthy(p.author) then b1.(author := p.author.value) else b1;
    var b3 := if Truthy(p.genre) then b2.(genre := p.genre.value) else b2;
    if p.copiesAvailable.Some? then b3.(copiesAvailable := p.copiesAvailable.value) else b3
  }

  /** Update: patch the first record with that id, or report NotFound. */
  function Updated(books: seq<Book>, id: Option<int>, p: Payload): (r: Step<Book>)
    ensures |r.books| == |books|
    ensures r.response.NotFound? <==> FindIndex(books, id) == -1
    ensures FindIndex(books, id) == -1 ==> r.books == books
    ensures FindIndex(books, id) >= 0 ==>
      var i := FindIndex(books, id);
      && r.books[i] == Patch(books[i], p)
      && r.response == Ok(r.books[i])
      && forall j :: 0 <= j < |books| && j != i ==> r.books[j] == books[j]
  {
    var i := FindIndex(books, id);
    if i == -1 then Step(books, NotFound)
    else
      var b := Patch(books[i], p);
      Step(books[i := b], Ok(b))
  }

  // ---------------------------------------------------------------------
  // Delete (DELETE /api/books/:id)
  // ---------------------------------------------------------------------

  /** Delete: `splice` out the first record with that id, or report NotFound. */
  function Deleted(books: seq<Book>, id: Option<int>): (r: Step<()>)
    ensures r.response.NotFound? <==> FindIndex(books, id) == -1
    ensures FindIndex(books, id) == -1 ==> r.books == books
    ensures FindIndex(books, id) >= 0 ==>
      var i := FindIndex(books, id);
      && r.response == Ok(())
      && |r.books| == |books| - 1
      && (forall j :: 0 <= j < i ==> r.books[j] == books[j])
      && (forall j :: i <= j < |r.books| ==> r.books[j] == books[j + 1])
  {
    var i := FindIndex(books, id);
    if i == -1 then Step(books, NotFound)
    else Step(books[..i] + books[i + 1..], Ok(()))
  }

  // ---------------------------------------------------------------------
  // Properties relating several operations
  // ---------------------------------------------------------------------

  /** Delete removes exactly one copy of the record it found: what is left is
      the old collection less that one record. */
  lemma DeleteRemovesOne(books: seq<Book>, id: Option<int>)
    requires FindIndex(books, id) >= 0
    ensures multiset(Deleted(books, id).books) == multiset(books) - multiset{books[FindIndex(books, id)]}
  {
    var i := FindIndex(books, id);
    assert Deleted(books, id).books == books[..i] + books[i + 1..];
    SpliceMultiset(books, i);
  }

  /** Cutting one element out of a sequence removes one copy of it. */
  lemma SpliceMultiset<T>(s: seq<T>, i: nat)
    requires i < |s|
    ensures multiset(s[..i] + s[i + 1..]) == multiset(s) - multiset{s[i]}
  {
    var front, back := s[..i], s[i + 1..];
    assert s == front + [s[i]] + back;
    assert multiset(s) == multiset(front) + multiset{s[i]} + multiset(back);
  }

  /** The surviving records keep their relative order and their ids: the id
      list loses the one entry at the deleted position. */
  lemma DeleteKeepsIds(books: seq<Book>, id: Option<int>)
    requires FindIndex(books, id) >= 0
    ensures var i := FindIndex(books, id);
            Ids(Deleted(books, id).books) == Ids(books)[..i] + Ids(books)[i + 1..]
  {
  }

  /** After deleting the only record with an id, get on that id is NotFound. */
  lemma DeleteThenLookupNotFound(books: seq<Book>, id: Option<int>)
    requires FindIndex(books, id) >= 0
    requires forall j :: 0 <= j < |books| && j != FindIndex(books, id) ==> !Matches(books[j], id)
    ensures Lookup(Deleted(books, id).books, id) == NotFound
  {
  }

  /** When the id was duplicated, the same get after the delete finds the
      next record that carries it. */
  lemma DeleteExposesDuplicate(books: seq<Book>, id: Option<int>, k: int)
    requires 0 <= FindIndex(books, id) < k < |books|
    requires Matches(books[k], id)
    requires forall j :: FindIndex(books, id) < j < k ==> !Matches(books[j], id)
    ensures Lookup(Deleted(books, id).books, id) == Ok(books[k])
  {
    var i := FindIndex(books, id);
    var after := Deleted(books, id).books;
    assert after[k - 1] == books[k];
    forall j | 0 <= j < k - 1 ensures !Matches(after[j], id) {
      if j >= i { assert after[j] == books[j + 1]; }
    }
    assert FindIndex(after, id) == k - 1;
  }

  /** A successful create is visible to get on the new id, unless an older
      record already carries that id (possible after a delete). */
  lemma CreateThenLookup(books: seq<Book>, p: Payload)
    requires HasRequiredFields(p)
    requires forall j :: 0 <= j < |books| ==> books[j].id != |books| + 1
    ensures Lookup(Created(books, p).books, Some(|books| + 1)) == Created(books, p).response
  {
    var after := Created(books, p).books;
    assert after[|books|] == Created(books, p).response.value;
    assert FindIndex(after, Some(|books| + 1)) == |books|;
  }

  /** Update never changes an id, the order of the records or their number;
      and a payload with no usable field leaves the record as it was. */
  lemma UpdateKeepsIds(books: seq<Book>, id: Option<int>, p: Payload)
    ensures Ids(Updated(books, id, p).books) == Ids(books)
  {
  }

  /** Applying the same update twice is the same as applying it once. */
  lemma PatchIdempotent(b: Book, p: Payload)
    ensures Patch(Patch(b, p), p) == Patch(b, p)
  {
  }

  /** An update whose payload supplies no usable field returns the record
      unchanged, and so does one whose text fields are all "". */
  lemma PatchWithoutFields(b: Book, p: Payload)
    requires !Truthy(p.title) && !Truthy(p.author) && !Truthy(p.genre)
    requires p.copiesAvailable.None?
    ensures Patch(b, p) == b
  {
  }

  // ---------------------------------------------------------------------
  // Ids
  // ---------------------------------------------------------------------

  /** Record k (counting from 0) has id k + 1: true of the seed and kept by
      creates and updates, not by deletes. */
  predicate DenseIds(books: seq<Book>) {
    forall i :: 0 <= i < |books| ==> books[i].id == i + 1
  }

  lemma SeedIsDense()
    ensures DenseIds(Seed())
  {
  }

  /** Dense ids are unique. */
  lemma DenseIdsUnique(books: seq<Book>)
    requires DenseIds(books)
    ensures forall i, j :: 0 <= i < j < |books| ==> books[i].id != books[j].id
  {
  }

  /** While the ids are dense, get on id k finds record k - 1. */
  lemma DenseLookup(books: seq<Book>, k: int)
    requires DenseIds(books)
    requires 1 <= k <= |books|
    ensures Lookup(books, Some(k)) == Ok(books[k - 1])
  {
  }

  lemma CreatePreservesDense(books: seq<Book>, p: Payload)
    requires DenseIds(books)
    ensures DenseIds(Created(books, p).books)
  {
  }

  lemma UpdatePreservesDense(books: seq<Book>, id: Option<int>, p: Payload)
    requires DenseIds(books)
    ensures DenseIds(Updated(books, id, p).books)
  {
  }

  /** Ids are not unique: from the seed, deleting id 2 and then creating a
      record numbers the new record 3, the id the third seed record still has. */
  lemma IdsCanCollide(p: Payload)
    requires HasRequiredFields(p)
    ensures var afterDelete := Deleted(Seed(), Some(2)).books;
            var afterCreate := Created(afterDelete, p).books;
            && Ids(afterCreate) == [1, 3, 3]
            && Lookup(afterCreate, Some(3)) == Ok(Seed()[2])
  {
  }

  /** The sequence of requests in the repository's API tests, run against the
      seed, with the answers those tests expect: list is not empty, get 1 finds
      id 1, get 999 is NotFound, the create answers id 4, the update of 1
      changes only the title, update and delete of 999 are NotFound, delete of
      2 succeeds. One step goes beyond the tests: a get of 2 after that delete
      answers NotFound. */
  lemma ApiTestScenario()
    ensures var s0 := Seed();
            && |s0| > 0
            && Lookup(s0, Some(1)).Ok? && Lookup(s0, Some(1)).value.id == 1
            && Lookup(s0, Some(999)) == NotFound
            && var post := Created(s0, Payload(Some("Brave New World"), Some("Aldous Huxley"),
                                               Some("Dystopian Fiction"), Some(4)));
               var s1 := post.books;
               && post.response.Ok? && post.response.value.id == 4
               && post.response.value.title == "Brave New World"
               && var put := Updated(s1, Some(1), Payload(Some("The Great Gatsby (Updated)"), None, None, None));
                  var s2 := put.books;
                  && put.response.Ok?
                  && put.response.value.title == "The Great Gatsby (Updated)"
                  && put.response.value.author == "F. Scott Fitzgerald"
                  && Updated(s2, Some(999), Payload(Some("Nonexistent"), None, None, None)) == Step(s2, NotFound)
                  && var del := Deleted(s2, Some(2));
                     var s3 := del.books;
                     && del.response == Ok(())
                     && Deleted(s3, Some(999)) == Step(s3, NotFound)
                     && Lookup(s3, Some(2)) == NotFound
  {
  }
}
