/** The book collection's state and its reducer: how each outcome of an
    asynchronous request (fetch, add, update, delete, toggle status) changes
    the in-memory collection and the request lifecycle status. */
module BooksSlice {
  import opened Wrappers
  import opened Seqs
  import opened Books

  /** Lifecycle of the collection fetch. */
  datatype Status = Idle | Loading | Succeeded | Failed

  datatype BooksState = BooksState(books: seq<Book>, status: Status)

  /** An empty collection that has not been fetched yet. */
  const InitialState := BooksState([], Idle)

  /** The request whose lifecycle an action reports. */
  datatype Thunk = FetchBooks | AddBook | UpdateBook | DeleteBook | ToggleBookStatus

  /** One request outcome, delivered to the reducer with the server's payload. */
  datatype Action =
    | Pending(thunk: Thunk)
    | Rejected(thunk: Thunk)
    | FetchFulfilled(fetched: seq<Book>)
    | AddFulfilled(added: Book)
    | UpdateFulfilled(updated: Book)
    | DeleteFulfilled(deletedId: nat)
    | ToggleFulfilled(toggled: Book)
  {
    /** The identifier an outcome can overwrite or remove; none for outcomes
        that touch no existing book. */
    function IdTouched(): Option<nat> {
      match this
      case UpdateFulfilled(b) => Some(b.id)
      case DeleteFulfilled(id) => Some(id)
      case ToggleFulfilled(b) => Some(b.id)
      case _ => None
    }

    /** An outcome of one of the four mutating requests. */
    predicate IsMutationOutcome() {
      match this
      case Pending(t) => t != FetchBooks
      case Rejected(t) => t != FetchBooks
      case FetchFulfilled(_) => false
      case _ => true
    }
  }

  // ---------------------------------------------------------------------
  // List operations used by the case handlers
  // ---------------------------------------------------------------------

  /** `findIndex` by id: the position of the first book with identifier `id`. */
  function IndexOfId(books: seq<Book>, id: nat): (r: Option<nat>)
    ensures r.Some? ==> r.value < |books| && books[r.value].id == id
    ensures r.Some? ==> forall j :: 0 <= j < r.value ==> books[j].id != id
    ensures r.None? ==> forall j :: 0 <= j < |books| ==> books[j].id != id
  {
    if books == [] then None
    else if books[0].id == id then Some(0)
    else
      match IndexOfId(books[1..], id)
      case None => None
      case Some(i) => Some(i + 1)
  }

  /** Number of books whose identifier is `id`. */
  function Occurrences(books: seq<Book>, id: nat): (n: nat)
    ensures n <= |books|
    ensures n == 0 <==> forall j :: 0 <= j < |books| ==> books[j].id != id
  {
    if books == [] then 0
    else (if books[0].id == id then 1 else 0) + Occurrences(books[1..], id)
  }

  /** No two books share an identifier. */
  predicate UniqueIds(books: seq<Book>) {
    forall i, j :: 0 <= i < |books| && 0 <= j < |books| && books[i].id == books[j].id ==> i == j
  }

  /** The update handler's list step: the first book with the payload's id is
      overwritten by the payload; with no such book the list is returned as is. */
  function ReplaceFirstId(books: seq<Book>, updated: Book): (r: seq<Book>)
    ensures |r| == |books|
    ensures forall i :: 0 <= i < |r| ==> r[i].id == books[i].id
    ensures (forall i :: 0 <= i < |books| ==> books[i].id != updated.id) ==> r == books
    ensures (exists i :: 0 <= i < |books| && books[i].id == updated.id) ==> updated in r
  {
    match IndexOfId(books, updated.id)
    case None => books
    case Some(i) => books[i := updated]
  }

  /** The delete handler's list step: `filter` out every book with identifier `id`. */
  function WithoutId(books: seq<Book>, id: nat): (r: seq<Book>)
    ensures forall b :: b in r <==> b in books && b.id != id
  {
    Keep(books, (b: Book) => b.id != id)
  }

  /** The toggle handler's list step: `map` every book with the payload's id
      to the payload, every other book to itself. */
  function ReplaceEveryId(books: seq<Book>, toggled: Book): (r: seq<Book>)
    ensures |r| == |books|
    ensures forall i :: 0 <= i < |r| ==> r[i] == if books[i].id == toggled.id then toggled else books[i]
  {
    if books == [] then []
    else [if books[0].id == toggled.id then toggled else books[0]] + ReplaceEveryId(books[1..], toggled)
  }

  // ---------------------------------------------------------------------
  // The reducer
  // ---------------------------------------------------------------------

  /** The slice reducer: the new state after one request outcome. Outcomes that
      have no case handler (pending and rejected for the mutating requests)
      return the state unchanged. */
  function Reduce(s: BooksState, a: Action): (r: BooksState)
    ensures r.status != s.status ==> a == Pending(FetchBooks) || a == Rejected(FetchBooks) || a.FetchFulfilled?
    ensures a.AddFulfilled? ==> |r.books| == |s.books| + 1
    ensures !a.FetchFulfilled? && !a.AddFulfilled? ==> |r.books| <= |s.books|
    ensures !a.FetchFulfilled? ==> forall b :: b in s.books && a.IdTouched() != Some(b.id) ==> b in r.books
  {
    match a
    case Pending(t) => if t == FetchBooks then s.(status := Loading) else s
    case Rejected(t) => if t == FetchBooks then s.(status := Failed) else s
    case FetchFulfilled(fetched) => BooksState(fetched, Succeeded)
    case AddFulfilled(added) => s.(books := s.books + [added])
    case UpdateFulfilled(updated) => s.(books := ReplaceFirstId(s.books, updated))
    case DeleteFulfilled(id) => s.(books := WithoutId(s.books, id))
    case ToggleFulfilled(toggled) => s.(books := ReplaceEveryId(s.books, toggled))
  }

  /** The state after a sequence of outcomes, applied one at a time in arrival order. */
  function ReduceAll(s: BooksState, actions: seq<Action>): (r: BooksState)
    ensures (forall i :: 0 <= i < |actions| ==> actions[i].IsMutationOutcome()) ==> r.status == s.status
    ensures (forall i :: 0 <= i < |actions| ==> !actions[i].FetchFulfilled? && !actions[i].AddFulfilled?)
            ==> |r.books| <= |s.books|
    decreases |actions|
  {
    if actions == [] then s else ReduceAll(Reduce(s, actions[0]), actions[1..])
  }

  // ---------------------------------------------------------------------
  // Properties of the reducer
  // ---------------------------------------------------------------------

  lemma InitialStateIsEmptyAndIdle()
    ensures InitialState.books == [] && InitialState.status == Idle
    ensures Reduce(InitialState, Pending(FetchBooks)).status == Loading
  {
  }

  /** A fetch that starts or fails only moves the status; the collection stays. */
  lemma FetchPendingAndRejectedKeepBooks(s: BooksState)
    ensures Reduce(s, Pending(FetchBooks)) == BooksState(s.books, Loading)
    ensures Reduce(s, Rejected(FetchBooks)) == BooksState(s.books, Failed)
  {
  }

  /** A successful fetch overwrites the collection: nothing of the old one survives. */
  lemma FetchFulfilledOverwrites(s: BooksState, fetched: seq<Book>)
    ensures Reduce(s, FetchFulfilled(fetched)).books == fetched
    ensures Reduce(s, FetchFulfilled(fetched)).status == Succeeded
  {
  }

  /** Add appends at the end and moves nothing that was already there. */
  lemma AddAppends(s: BooksState, added: Book)
    ensures |Reduce(s, AddFulfilled(added)).books| == |s.books| + 1
    ensures forall i :: 0 <= i < |s.books| ==> Reduce(s, AddFulfilled(added)).books[i] == s.books[i]
    ensures Reduce(s, AddFulfilled(added)).books[|s.books|] == added
    ensures Reduce(s, AddFulfilled(added)).status == s.status
  {
  }

  /** Update overwrites, in place, the first book with the payload's id and no
      other position; with no such book the state is untouched. */
  lemma UpdateReplacesFirstMatch(s: BooksState, updated: Book)
    ensures var r := Reduce(s, UpdateFulfilled(updated));
      |r.books| == |s.books| && r.status == s.status
    ensures var r := Reduce(s, UpdateFulfilled(updated));
      (forall j :: 0 <= j < |s.books| ==> s.books[j].id != updated.id) ==> r == s
    ensures var r := Reduce(s, UpdateFulfilled(updated));
      forall k :: (0 <= k < |s.books| && s.books[k].id == updated.id &&
                   forall j :: 0 <= j < k ==> s.books[j].id != updated.id) ==>
        r.books[k] == updated &&
        forall j :: 0 <= j < |s.books| && j != k ==> r.books[j] == s.books[j]
  {
  }

  /** Delete filters out every book with the id: the new length is the old one
      minus the matches, no survivor has the id, every other book survives
      (each occurrence of it), and survivors keep their relative order. */
  lemma {:induction false} DeleteRemovesEveryMatch(s: BooksState, id: nat)
    ensures var r := Reduce(s, DeleteFulfilled(id));
      |r.books| == |s.books| - Occurrences(s.books, id) && r.status == s.status
    ensures var r := Reduce(s, DeleteFulfilled(id));
      forall b :: b in r.books ==> b.id != id
    ensures var r := Reduce(s, DeleteFulfilled(id));
      forall b :: b in s.books && b.id != id ==> multiset(r.books)[b] == multiset(s.books)[b]
    ensures IsSubsequence(Reduce(s, DeleteFulfilled(id)).books, s.books)
  {
    var r := WithoutId(s.books, id);
    assert Reduce(s, DeleteFulfilled(id)) == BooksState(r, s.status);
    WithoutIdLength(s.books, id);
    KeepIsSubsequence(s.books, (b: Book) => b.id != id);
    KeepMultiset(s.books, (b: Book) => b.id != id);
    forall b | b in s.books && b.id != id ensures multiset(r)[b] == multiset(s.books)[b] {
    }
  }

  lemma {:induction false} WithoutIdLength(books: seq<Book>, id: nat)
    ensures |WithoutId(books, id)| == |books| - Occurrences(books, id)
  {
    if books != [] {
      WithoutIdLength(books[1..], id);
    }
  }

  /** With unique identifiers, deleting a present id removes exactly one book,
      and deleting an absent id changes nothing. */
  lemma {:induction false} DeleteOnUniqueIds(books: seq<Book>, id: nat)
    requires UniqueIds(books)
    ensures (exists k :: 0 <= k < |books| && books[k].id == id) ==> |WithoutId(books, id)| == |books| - 1
    ensures (forall k :: 0 <= k < |books| ==> books[k].id != id) ==> WithoutId(books, id) == books
  {
    WithoutIdLength(books, id);
    if exists k :: 0 <= k < |books| && books[k].id == id {
      var k :| 0 <= k < |books| && books[k].id == id;
      OccurrencesOfUnique(books, id, k);
    } else {
      KeepEverything(books, (b: Book) => b.id != id);
    }
  }

  lemma {:induction false} OccurrencesOfUnique(books: seq<Book>, id: nat, k: nat)
    requires UniqueIds(books)
    requires k < |books| && books[k].id == id
    ensures Occurrences(books, id) == 1
  {
    assert books != [];
    var tail := books[1..];
    assert UniqueIds(tail) by {
      forall i, j | 0 <= i < |tail| && 0 <= j < |tail| && tail[i].id == tail[j].id
        ensures i == j
      {
        assert books[i + 1].id == books[j + 1].id;
      }
    }
    if k == 0 {
      forall j | 0 <= j < |tail| ensures tail[j].id != id {
        assert books[j + 1].id != books[0].id;
      }
    } else {
      assert books[0].id != id by {
        assert books[0].id != books[k].id;
      }
      OccurrencesOfUnique(tail, id, k - 1);
    }
  }

  /** Toggle replaces every book with the payload's id and keeps every other
      position and the length. */
  lemma ToggleReplacesEveryMatch(s: BooksState, toggled: Book)
    ensures var r := Reduce(s, ToggleFulfilled(toggled));
      |r.books| == |s.books| && r.status == s.status
    ensures var r := Reduce(s, ToggleFulfilled(toggled));
      forall i :: 0 <= i < |s.books| ==>
        (s.books[i].id == toggled.id ==> r.books[i] == toggled) &&
        (s.books[i].id != toggled.id ==> r.books[i] == s.books[i])
  {
  }

  /** Delivering the same toggle response twice has the effect of delivering it once. */
  lemma ToggleIsIdempotent(s: BooksState, toggled: Book)
    ensures Reduce(Reduce(s, ToggleFulfilled(toggled)), ToggleFulfilled(toggled))
         == Reduce(s, ToggleFulfilled(toggled))
  {
  }

  /** Update and toggle differ only when an id occurs more than once: on a
      collection with unique identifiers they produce the same list. */
  lemma UpdateAgreesWithToggleOnUniqueIds(books: seq<Book>, b: Book)
    requires UniqueIds(books)
    ensures ReplaceFirstId(books, b) == ReplaceEveryId(books, b)
  {
  }

  /** Update and toggle leave the identifier at every position as it was, so
      they keep identifiers unique; so does delete. */
  lemma {:induction false} MutationsKeepIdsUnique(s: BooksState, a: Action)
    requires UniqueIds(s.books)
    requires a.UpdateFulfilled? || a.ToggleFulfilled? || a.DeleteFulfilled?
    ensures UniqueIds(Reduce(s, a).books)
  {
    match a
    case UpdateFulfilled(u) =>
      var r := Reduce(s, a).books;
      assert forall i :: 0 <= i < |r| ==> r[i].id == s.books[i].id;
    case ToggleFulfilled(t) =>
      var r := Reduce(s, a).books;
      assert forall i :: 0 <= i < |r| ==> r[i].id == s.books[i].id;
    case DeleteFulfilled(id) =>
      KeepKeepsIdsUnique(s.books, (b: Book) => b.id != id);
  }

  lemma {:induction false} KeepKeepsIdsUnique(books: seq<Book>, p: Book -> bool)
    requires UniqueIds(books)
    ensures UniqueIds(Keep(books, p))
  {
    if books != [] {
      var tail := books[1..];
      assert UniqueIds(tail) by {
        forall i, j | 0 <= i < |tail| && 0 <= j < |tail| && tail[i].id == tail[j].id
          ensures i == j
        {
          assert books[i + 1].id == books[j + 1].id;
        }
      }
      KeepKeepsIdsUnique(tail, p);
      var rest := Keep(tail, p);
      if p(books[0]) {
        forall b | b in rest ensures b.id != books[0].id {
          var j :| 0 <= j < |tail| && tail[j] == b;
          assert books[j + 1] == b;
        }
        var r := Keep(books, p);
        assert r == [books[0]] + rest;
        forall i, j | 0 <= i < |r| && 0 <= j < |r| && r[i].id == r[j].id
          ensures i == j
        {
          if i > 0 && j > 0 {
            assert rest[i - 1].id == rest[j - 1].id;
          }
        }
      }
    }
  }

  /** None of the four mutating requests ever moves `status`, whatever its outcome. */
  lemma MutationOutcomesKeepStatus(s: BooksState, a: Action)
    requires a.IsMutationOutcome()
    ensures Reduce(s, a).status == s.status
  {
  }

  /** A mutating request that is pending or rejected leaves the state exactly as it was. */
  lemma FailedMutationIsNoOp(s: BooksState, t: Thunk)
    requires t != FetchBooks
    ensures Reduce(s, Pending(t)) == s
    ensures Reduce(s, Rejected(t)) == s
  {
  }

  /** Consecutive successful adds grow the collection by one book each, in arrival order. */
  lemma {:induction false} AddsAppendInOrder(s: BooksState, added: seq<Book>)
    ensures ReduceAll(s, seq(|added|, i requires 0 <= i < |added| => AddFulfilled(added[i])))
         == s.(books := s.books + added)
    decreases |added|
  {
    var actions := seq(|added|, i requires 0 <= i < |added| => AddFulfilled(added[i]));
    if added != [] {
      var next := Reduce(s, actions[0]);
      assert actions[1..] == seq(|added[1..]|, i requires 0 <= i < |added[1..]| => AddFulfilled(added[1..][i]));
      AddsAppendInOrder(next, added[1..]);
      assert next.books + added[1..] == s.books + added;
    }
  }

  /** Whichever of two fetch responses arrives last determines the collection. */
  lemma LastFetchWins(s: BooksState, first: seq<Book>, second: seq<Book>)
    ensures ReduceAll(s, [FetchFulfilled(first), FetchFulfilled(second)]) == BooksState(second, Succeeded)
  {
    var actions := [FetchFulfilled(first), FetchFulfilled(second)];
    assert actions[1..] == [FetchFulfilled(second)] && actions[1..][1..] == [];
    assert ReduceAll(s, actions) == ReduceAll(BooksState(first, Succeeded), [FetchFulfilled(second)]);
  }

  // ---------------------------------------------------------------------
  // The store: the case handlers as in-place updates of one state object
  // ---------------------------------------------------------------------

  class BooksStore {
    var books: seq<Book>
    var status: Status

    function State(): BooksState
      reads this
    {
      BooksState(books, status)
    }

    constructor ()
      ensures State() == InitialState
    {
      books := [];
      status := Idle;
    }

    method OnFetchPending()
      modifies this
      ensures status == Loading && books == old(books)
    {
      status := Loading;
    }

    method OnFetchFulfilled(fetched: seq<Book>)
      modifies this
      ensures status == Succeeded && books == fetched
    {
      status := Succeeded;
      books := fetched;
    }

    method OnFetchRejected()
      modifies this
      ensures status == Failed && books == old(books)
    {
      status := Failed;
    }

    /** `push` of the created book. */
    method OnAddFulfilled(added: Book)
      modifies this
      ensures books == old(books) + [added] && status == old(status)
    {
      books := books + [added];
    }

    /** `findIndex`, then an indexed write when something was found. */
    method OnUpdateFulfilled(updated: Book)
      modifies this
      ensures books == ReplaceFirstId(old(books), updated) && status == old(status)
    {
      var index := IndexOfId(books, updated.id);
      if index.Some? {
        books := books[index.value := updated];
      }
    }

    method OnDeleteFulfilled(id: nat)
      modifies this
      ensures books == WithoutId(old(books), id) && status == old(status)
    {
      books := WithoutId(books, id);
    }

    method OnToggleFulfilled(toggled: Book)
      modifies this
      ensures books == ReplaceEveryId(old(books), toggled) && status == old(status)
    {
      books := ReplaceEveryId(books, toggled);
    }

    /** Routes an outcome to its case handler; outcomes without one are ignored. */
    method Dispatch(a: Action)
      modifies this
      ensures State() == Reduce(old(State()), a)
    {
      match a
      case Pending(t) =>
        if t == FetchBooks { OnFetchPending(); }
      case Rejected(t) =>
        if t == FetchBooks { OnFetchRejected(); }
      case FetchFulfilled(fetched) => OnFetchFulfilled(fetched);
      case AddFulfilled(added) => OnAddFulfilled(added);
      case UpdateFulfilled(updated) => OnUpdateFulfilled(updated);
      case DeleteFulfilled(id) => OnDeleteFulfilled(id);
      case ToggleFulfilled(toggled) => OnToggleFulfilled(toggled);
    }
  }
}
