/** The registry's process-wide collection: one mutable sequence of records,
    read by list and get and changed in place by create, update and delete.
    Each method is proved against the matching function of module Books. */
module Server {
  import opened Books

  class BookStore {
    /** The records, in insertion order. */
    var books: seq<Book>

    /** The collection as the process starts: the three seed records. */
    constructor ()
      ensures books == Seed()
    {
      books := Seed();
    }

    /** GET /api/books: the whole collection, in its current order. */
    function List(): (r: seq<Book>)
      reads this
      ensures r == books
    {
      books
    }

    /** GET /api/books/:id: the first record carrying the requested id, or
        NotFound when none does. */
    function Get(id: Option<int>): (r: Outcome<Book>)
      reads this
      ensures r.Ok? ==> Matches(r.value, id)
      ensures r.Ok? ==> exists i :: 0 <= i < |books| && books[i] == r.value &&
                                    forall j :: 0 <= j < i ==> !Matches(books[j], id)
      ensures r.NotFound? <==> forall b :: b in books ==> !Matches(b, id)
      ensures !r.MissingFields?
    {
      Lookup(books, id)
    }

    /** POST /api/books. */
    method Create(p: Payload) returns (r: Outcome<Book>)
      modifies this
      ensures books == Created(old(books), p).books
      ensures r == Created(old(books), p).response
    {
      if !Truthy(p.title) || !Truthy(p.author) || !Truthy(p.genre) {
        return MissingFields;
      }
      var copies := if p.copiesAvailable.Some? && p.copiesAvailable.value != 0
                    then p.copiesAvailable.value else 0;
      var newBook := Book(|books| + 1, p.title.value, p.author.value, p.genre.value, copies);
      books := books + [newBook];
      r := Ok(newBook);
    }

    /** PUT /api/books/:id: assign the payload's usable fields to the first
        record with that id. */
    method Update(id: Option<int>, p: Payload) returns (r: Outcome<Book>)
      modifies this
      ensures books == Updated(old(books), id, p).books
      ensures r == Updated(old(books), id, p).response
    {
      var i := FindIndex(books, id);
      if i == -1 {
        return NotFound;
      }
      var book := books[i];
      if Truthy(p.title) { book := book.(title := p.title.value); }
      if Truthy(p.author) { book := book.(author := p.author.value); }
      if Truthy(p.genre) { book := book.(genre := p.genre.value); }
      if p.copiesAvailable.Some? { book := book.(copiesAvailable := p.copiesAvailable.value); }
      books := books[i := book];
      r := Ok(book);
    }

    /** DELETE /api/books/:id: splice out the first record with that id. */
    method Delete(id: Option<int>) returns (r: Outcome<()>)
      modifies this
      ensures books == Deleted(old(books), id).books
      ensures r == Deleted(old(books), id).response
    {
      var index := FindIndex(books, id);
      if index == -1 {
        return NotFound;
      }
      books := books[..index] + books[index + 1..];
      r := Ok(());
    }
  }

  /** A caller of the store relies on the method contracts alone: deleting a
      record and creating one reuses the id of the record numbered after it,
      and get on that id then answers the older record. */
  method DeleteThenCreate(p: Payload)
      returns (first: Outcome<()>, second: Outcome<Book>, third: Outcome<Book>, listed: seq<Book>)
    requires HasRequiredFields(p)
    ensures first == Ok(())
    ensures second.Ok? && second.value.id == 3
    ensures third == Ok(Seed()[2])
    ensures Ids(listed) == [1, 3, 3]
  {
    var store := new BookStore();
    first := store.Delete(Some(2));
    second := store.Create(p);
    third := store.Get(Some(3));
    listed := store.List();
    IdsCanCollide(p);
  }
}
