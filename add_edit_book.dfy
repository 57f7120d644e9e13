/** The add/edit form: an edit buffer seeded with defaults or from the
    collection, single-field edits, required-field validation with per-field
    error flags, and the create or update request a valid submission produces.
    Clock reads are parameters. */
module AddEditBook {
  import opened Wrappers
  import opened Books
  import opened BooksSlice

  /** The form's edit buffer: a book without its identifier. */
  datatype Draft = Draft(
    title: string,
    author: string,
    category: string,
    isbn: string,
    active: bool,
    createdAt: string,
    modifiedAt: Option<string>)
  {
    /** The value of one of the text inputs. */
    function Text(f: Field): string {
      match f
      case Title => title
      case Author => author
      case Category => category
      case Isbn => isbn
    }
  }

  /** The inputs whose change handler writes into the buffer by input name. */
  datatype Field = Title | Author | Category | Isbn

  /** The buffer of a fresh form: empty texts and timestamps, active. */
  const DefaultDraft := Draft("", "", "", "", true, "", Some(""))

  /** One error flag per required field. */
  datatype Errors = Errors(title: bool, author: bool, category: bool, isbn: bool) {
    function Flag(f: Field): bool {
      match f
      case Title => title
      case Author => author
      case Category => category
      case Isbn => isbn
    }

    /** The flags in declaration order, as `Object.values` lists them. */
    function Values(): (values: seq<bool>)
      ensures (true in values) <==> exists f :: Flag(f)
    {
      assert Flag(Title) == title && Flag(Author) == author;
      assert Flag(Category) == category && Flag(Isbn) == isbn;
      [title, author, category, isbn]
    }
  }

  const NoErrors := Errors(false, false, false, false)

  /** The buffer seeded from a book of the collection: every field but the id. */
  function DraftOf(b: Book): (d: Draft)
    ensures forall f :: d.Text(f) == (match f
                                      case Title => b.title
                                      case Author => b.author
                                      case Category => b.category
                                      case Isbn => b.isbn)
    ensures d.active == b.active && d.createdAt == b.createdAt && d.modifiedAt == b.modifiedAt
  {
    Draft(b.title, b.author, b.category, b.isbn, b.active, b.createdAt, b.modifiedAt)
  }

  /** `find` by id: the first book of the collection with identifier `id`. */
  function FindBook(books: seq<Book>, id: nat): (r: Option<Book>)
    ensures r.None? <==> forall j :: 0 <= j < |books| ==> books[j].id != id
    ensures r.Some? ==> exists k :: 0 <= k < |books| && books[k] == r.value && r.value.id == id &&
                                    forall j :: 0 <= j < k ==> books[j].id != id
  {
    match IndexOfId(books, id)
    case None => None
    case Some(k) => Some(books[k])
  }

  /** The change handler: the named input takes the new value, nothing else moves. */
  function WithText(d: Draft, f: Field, value: string): (r: Draft)
    ensures r.Text(f) == value
    ensures forall g :: g != f ==> r.Text(g) == d.Text(g)
    ensures r.active == d.active && r.createdAt == d.createdAt && r.modifiedAt == d.modifiedAt
  {
    match f
    case Title => d.(title := value)
    case Author => d.(author := value)
    case Category => d.(category := value)
    case Isbn => d.(isbn := value)
  }

  /** The error flags of a buffer: a field is flagged exactly when it is empty.
      The `active` flag and the timestamps are not validated. */
  function Validation(d: Draft): (e: Errors)
    ensures forall f :: e.Flag(f) <==> d.Text(f) == ""
  {
    Errors(d.title == "", d.author == "", d.category == "", d.isbn == "")
  }

  /** The form is valid when none of the error flags is raised. */
  function IsValid(d: Draft): (ok: bool)
    ensures ok <==> forall f :: d.Text(f) != ""
    ensures ok <==> Validation(d) == NoErrors
  {
    var e := Validation(d);
    assert e.Flag(Title) == e.title && e.Flag(Author) == e.author;
    assert e.Flag(Category) == e.category && e.Flag(Isbn) == e.isbn;
    true !in e.Values()
  }

  /** The `active` flag never affects validation. */
  lemma ActiveIsNotValidated(d: Draft, active: bool)
    ensures Validation(d.(active := active)) == Validation(d)
    ensures IsValid(d.(active := active)) == IsValid(d)
  {
  }

  /** The three clock reads of one submission, in program order: the update
      stamp, then the creation stamp and the modification stamp of a new book. */
  datatype SubmitTimes = SubmitTimes(updateStamp: string, createStamp: string, modifyStamp: string)

  /** The body of a new book: the buffer with both timestamps stamped. */
  function CreateDraft(d: Draft, t: SubmitTimes): (r: Draft)
    ensures forall f :: r.Text(f) == d.Text(f)
    ensures r.active == d.active
    ensures r.createdAt == t.createStamp && r.modifiedAt == Some(t.modifyStamp)
  {
    d.(createdAt := t.createStamp, modifiedAt := Some(t.modifyStamp))
  }

  /** The body of an update: the buffer with its creation time kept and only
      the modification time restamped. */
  function UpdateDraft(d: Draft, t: SubmitTimes): (r: Draft)
    ensures forall f :: r.Text(f) == d.Text(f)
    ensures r.active == d.active && r.createdAt == d.createdAt
    ensures r.modifiedAt == Some(t.updateStamp)
  {
    d.(modifiedAt := Some(t.updateStamp))
  }

  /** What a submission dispatches. */
  datatype Submission =
    | Aborted                              // validation failed: nothing is sent
    | SendCreate(draft: Draft)             // add request
    | SendUpdate(id: nat, draft: Draft)    // update request for the routed id

  /** The outcome of submitting buffer `d` on a page routed with `routeId`. */
  function Submit(routeId: Option<nat>, d: Draft, t: SubmitTimes): (s: Submission)
    ensures s.Aborted? <==> !IsValid(d)
    ensures s.SendUpdate? <==> IsValid(d) && routeId.Some?
    ensures s.SendCreate? <==> IsValid(d) && routeId.None?
    ensures s.SendUpdate? ==> s.id == routeId.value && s.draft == UpdateDraft(d, t)
    ensures s.SendCreate? ==> s.draft == CreateDraft(d, t)
  {
    if !IsValid(d) then Aborted
    else if routeId.Some? then SendUpdate(routeId.value, UpdateDraft(d, t))
    else SendCreate(CreateDraft(d, t))
  }

  /** A submission with an empty required field sends nothing, whatever the route. */
  lemma InvalidFormNeverDispatches(routeId: Option<nat>, d: Draft, t: SubmitTimes, f: Field)
    requires d.Text(f) == ""
    ensures Submit(routeId, d, t) == Aborted
  {
  }

  /** Editing a book seeded from the collection and submitting it without
      changes sends that book's fields back with only `modifiedAt` restamped. */
  lemma {:induction false} UnchangedEditKeepsBook(books: seq<Book>, id: nat, t: SubmitTimes)
    requires FindBook(books, id).Some?
    requires IsValid(DraftOf(FindBook(books, id).value))
    ensures var b := FindBook(books, id).value;
      Submit(Some(id), DraftOf(b), t) ==
        SendUpdate(id, DraftOf(b.(modifiedAt := Some(t.updateStamp))))
  {
  }

  /** The page's form state: the edit buffer and the error flags, for a page
      routed to `routeId` (absent on the add page). */
  class FormSession {
    const routeId: Option<nat>
    var buffer: Draft
    var errors: Errors

    constructor (routeId: Option<nat>)
      ensures this.routeId == routeId
      ensures buffer == DefaultDraft && errors == NoErrors
    {
      this.routeId := routeId;
      buffer := DefaultDraft;
      errors := NoErrors;
    }

    /** The seeding effect: on the edit page, copy in the first book of the
        collection with the routed id; when there is none, or on the add page,
        keep the buffer as it is. */
    method Seed(books: seq<Book>)
      modifies this`buffer
      ensures routeId.Some? && FindBook(books, routeId.value).Some? ==>
        buffer == DraftOf(FindBook(books, routeId.value).value)
      ensures routeId.None? || FindBook(books, routeId.value).None? ==> buffer == old(buffer)
    {
      if routeId.Some? {
        var found := FindBook(books, routeId.value);
        if found.Some? {
          buffer := DraftOf(found.value);
        }
      }
    }

    /** A text input or the category select changed. */
    method HandleChange(f: Field, value: string)
      modifies this`buffer
      ensures buffer == WithText(old(buffer), f, value)
    {
      buffer := WithText(buffer, f, value);
    }

    /** The `active` checkbox changed. */
    method HandleActiveChange(checked: bool)
      modifies this`buffer
      ensures buffer == old(buffer).(active := checked)
    {
      buffer := buffer.(active := checked);
    }

    /** Recomputes and stores the error flags; reports whether none is raised. */
    method ValidateForm() returns (ok: bool)
      modifies this`errors
      ensures errors == Validation(buffer)
      ensures ok == IsValid(buffer)
      ensures ok <==> forall f :: buffer.Text(f) != ""
    {
      var newErrors := Validation(buffer);
      errors := newErrors;
      ok := true !in newErrors.Values();
    }

    /** Validates, then builds the request to dispatch; the buffer is not
        touched. */
    method HandleSubmit(t: SubmitTimes) returns (s: Submission)
      modifies this`errors
      ensures errors == Validation(buffer)
      ensures s == Submit(routeId, buffer, t)
    {
      var ok := ValidateForm();
      if !ok {
        return Aborted;
      }
      var updatedBook := UpdateDraft(buffer, t);
      if routeId.Some? {
        s := SendUpdate(routeId.value, updatedBook);
      } else {
        s := SendCreate(CreateDraft(buffer, t));
      }
    }
  }
}
