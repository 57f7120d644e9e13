/** The dashboard's projection of the collection: the filter selected in the
    drop-down, the actions offered on each row, the placeholder for missing
    timestamps, and the messages shown instead of the table while the fetch is
    in flight or after it failed. Everything here is a pure function of the
    store's state and the selected filter. */
module Dashboard {
  import opened Wrappers
  import opened Seqs
  import opened Books
  import opened BooksSlice

  /** The three options of the filter drop-down. */
  const ShowAll: string := "Show All"
  const ShowActive: string := "Show Active"
  const ShowDeactivated: string := "Show Deactivated"

  /** What a timestamp cell shows when the timestamp is absent or empty. */
  const Placeholder: string := "--"

  const LoadingText: string := "Loading..."
  const ErrorText: string := "Error loading books"

  /** Whether a book passes the selected filter; any label other than the two
      restrictive ones lets every book through. */
  predicate Shows(filter: string, b: Book): (passes: bool)
    ensures passes <==> (filter == ShowActive ==> b.active) && (filter == ShowDeactivated ==> !b.active)
  {
    if filter == ShowActive then b.active
    else if filter == ShowDeactivated then !b.active
    else true
  }

  /** The books listed in the table, in collection order. */
  function FilteredBooks(books: seq<Book>, filter: string): (r: seq<Book>)
    ensures |r| <= |books|
    ensures forall b :: b in r <==> b in books && Shows(filter, b)
  {
    Keep(books, (b: Book) => Shows(filter, b))
  }

  /** "Show Active" lists exactly the active books, every occurrence of each,
      in their original relative order. */
  lemma ActiveView(books: seq<Book>)
    ensures forall b :: multiset(FilteredBooks(books, ShowActive))[b] == if b.active then multiset(books)[b] else 0
    ensures IsSubsequence(FilteredBooks(books, ShowActive), books)
  {
    KeepMultiset(books, (b: Book) => Shows(ShowActive, b));
    KeepIsSubsequence(books, (b: Book) => Shows(ShowActive, b));
  }

  /** "Show Deactivated" lists exactly the deactivated books, every occurrence
      of each, in their original relative order. */
  lemma DeactivatedView(books: seq<Book>)
    ensures forall b :: multiset(FilteredBooks(books, ShowDeactivated))[b] == if b.active then 0 else multiset(books)[b]
    ensures IsSubsequence(FilteredBooks(books, ShowDeactivated), books)
  {
    KeepMultiset(books, (b: Book) => Shows(ShowDeactivated, b));
    KeepIsSubsequence(books, (b: Book) => Shows(ShowDeactivated, b));
  }

  /** Every other filter label, "Show All" included, lists the collection unchanged. */
  lemma OtherFiltersShowEverything(books: seq<Book>, filter: string)
    requires filter != ShowActive && filter != ShowDeactivated
    ensures FilteredBooks(books, filter) == books
  {
    KeepEverything(books, (b: Book) => Shows(filter, b));
  }

  /** "Show All" lists the collection unchanged. */
  lemma AllFilterShowsEverything(books: seq<Book>)
    ensures FilteredBooks(books, ShowAll) == books
  {
    OtherFiltersShowEverything(books, ShowAll);
  }

  /** The active and the deactivated views split the collection between them:
      together they hold every book exactly as often as the collection does,
      so no filtered count exceeds the total. */
  lemma ViewsPartitionCollection(books: seq<Book>)
    ensures |FilteredBooks(books, ShowActive)| + |FilteredBooks(books, ShowDeactivated)| == |books|
    ensures multiset(FilteredBooks(books, ShowActive)) + multiset(FilteredBooks(books, ShowDeactivated))
         == multiset(books)
  {
    KeepComplement(books, (b: Book) => Shows(ShowActive, b), (b: Book) => Shows(ShowDeactivated, b));
  }

  /** What a row's controls request. */
  datatype RowAction =
    | Edit(id: nat)                        // link to the edit page of the book
    | Toggle(id: nat, nextActive: bool)    // status toggle request
    | Delete(id: nat)                      // delete request

  /** The controls of one row: an edit link, a status toggle asking for the
      opposite of the current flag, and a delete button only on deactivated books. */
  function RowActions(b: Book): (r: seq<RowAction>)
    ensures Edit(b.id) in r && Toggle(b.id, !b.active) in r
    ensures Delete(b.id) in r <==> !b.active
    ensures forall a :: a in r ==> a.id == b.id
    ensures forall a :: a in r && a.Toggle? ==> a.nextActive == !b.active
  {
    [Edit(b.id), Toggle(b.id, !b.active)] + (if b.active then [] else [Delete(b.id)])
  }

  /** Caption of the toggle button. */
  function ToggleLabel(b: Book): (caption: string)
    ensures caption == "Deactivate" <==> b.active
    ensures caption == "Re-Activate" <==> !b.active
  {
    if b.active then "Deactivate" else "Re-Activate"
  }

  /** Text of a timestamp cell. `format` stands for the date library's
      conversion to the local time zone and display pattern. */
  function TimestampText(t: Option<string>, format: string -> string): (text: string)
    ensures t.None? || t.value == "" ==> text == Placeholder
    ensures t.Some? && t.value != "" ==> text == format(t.value)
  {
    match t
    case None => Placeholder
    case Some(iso) => if iso == "" then Placeholder else format(iso)
  }

  datatype Row = Row(book: Book, created: string, modified: string, toggleLabel: string, actions: seq<RowAction>)

  /** One table row: the book's texts, its two timestamp cells, the toggle
      caption and the controls. */
  function RowOf(b: Book, format: string -> string): (row: Row)
    ensures row.book == b
    ensures b.createdAt == "" ==> row.created == Placeholder
    ensures b.modifiedAt.None? || b.modifiedAt == Some("") ==> row.modified == Placeholder
    ensures Delete(b.id) in row.actions <==> !b.active
    ensures Toggle(b.id, !b.active) in row.actions
    ensures row.created == TimestampText(Some(b.createdAt), format)
    ensures row.modified == TimestampText(b.modifiedAt, format)
    ensures row.toggleLabel == ToggleLabel(b) && row.actions == RowActions(b)
  {
    Row(b, TimestampText(Some(b.createdAt), format), TimestampText(b.modifiedAt, format),
        ToggleLabel(b), RowActions(b))
  }

  /** What the page shows: a message, or the table with its record count. */
  datatype Screen =
    | Message(text: string)
    | BookTable(shown: nat, total: nat, rows: seq<Row>)

  /** The page for a store state and a selected filter. While the fetch is in
      flight or after it failed a message replaces the table; otherwise (idle
      included) the table lists the filtered books and "Showing shown of total". */
  function Render(state: BooksState, filter: string, format: string -> string): (v: Screen)
    ensures v == Message(LoadingText) <==> state.status == Loading
    ensures v == Message(ErrorText) <==> state.status == Failed
    ensures v.BookTable? <==> state.status == Idle || state.status == Succeeded
    ensures v.BookTable? ==> v.shown == |v.rows| <= v.total == |state.books|
    ensures v.BookTable? ==> v.shown == |FilteredBooks(state.books, filter)|
    ensures v.BookTable? ==> forall i :: 0 <= i < |v.rows| ==>
      v.rows[i] == RowOf(FilteredBooks(state.books, filter)[i], format)
    ensures v.BookTable? ==> forall row :: row in v.rows ==> row.book in state.books && Shows(filter, row.book)
    ensures v.BookTable? ==> forall row :: row in v.rows ==> (Delete(row.book.id) in row.actions <==> !row.book.active)
  {
    match state.status
    case Loading => Message(LoadingText)
    case Failed => Message(ErrorText)
    case _ =>
      var shown := FilteredBooks(state.books, filter);
      BookTable(|shown|, |state.books|, seq(|shown|, i requires 0 <= i < |shown| => RowOf(shown[i], format)))
  }

  /** After a toggle response for a listed book, the returned book appears in
      the view matching its new flag and not in the other one. */
  lemma ToggledBookChangesView(s: BooksState, toggled: Book)
    requires exists k :: 0 <= k < |s.books| && s.books[k].id == toggled.id
    ensures var after := Reduce(s, ToggleFulfilled(toggled)).books;
      toggled in FilteredBooks(after, if toggled.active then ShowActive else ShowDeactivated) &&
      toggled !in FilteredBooks(after, if toggled.active then ShowDeactivated else ShowActive)
  {
  }

  /** A one-book collection whose book is deactivated by a toggle response:
      the active view becomes empty and the deactivated view holds the response. */
  lemma DeactivatingOnlyBook(b: Book, toggled: Book)
    requires b.active && toggled.id == b.id && !toggled.active
    ensures var after := Reduce(BooksState([b], Succeeded), ToggleFulfilled(toggled)).books;
      FilteredBooks(after, ShowActive) == [] && FilteredBooks(after, ShowDeactivated) == [toggled]
  {
  }

  /** After a delete response no view lists a book with the deleted id. */
  lemma DeletedBookLeavesEveryView(s: BooksState, id: nat, filter: string)
    ensures forall b :: b in FilteredBooks(Reduce(s, DeleteFulfilled(id)).books, filter) ==> b.id != id
  {
  }
}
