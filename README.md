# Book list: collection reducer, dashboard projection and add/edit form

A Dafny model of the client side of a small book-catalogue application. It has three parts:

- **The books slice.** It holds the in-memory collection of books and the fetch status (`idle`, `loading`, `succeeded`, `failed`). Each outcome of an asynchronous request is delivered to it with the server's payload:
  - fetch: pending, fulfilled or rejected;
  - add, update, delete and toggle-status: fulfilled.

  `BooksSlice.Reduce` is the reducer as a pure function from state and outcome to state. `BooksSlice.BooksStore` is the same reducer as an object whose fields the case handlers update in place, one method per outcome. `Dispatch` is proved to agree with `Reduce`.
- **The dashboard.** It shows the collection through a filter (`Show All`, `Show Active`, `Show Deactivated`). Each row offers an edit link, a status toggle and, for deactivated books only, a delete button. An absent or empty timestamp is shown as `--`. While the fetch is loading, or after it failed, a message replaces the table.
- **The add/edit form.** It has an edit buffer with defaults, or seeded from the collection on the edit page, and single-field edits. On submit, each of title, author, category and isbn is flagged exactly when it is empty. A valid submission produces a create or an update request. Clock reads are parameters.

Module layout:
- `wrappers.dfy`: `Option`.
- `seqs.dfy`: the stable filter `Keep` that both the delete handler and the dashboard use, and the subsequence order it preserves.
- `books.dfy`: the `Book` record.
- `books_slice.dfy`, `dashboard.dfy`, `add_edit_book.dfy`: one module per source file.

Identifiers are `nat` everywhere. The source types them as strings in some places (the update thunk, the route parameter) and as numbers in others (the record, the delete and toggle thunks). The edit page's lookup (src/pages/AddEditBook.tsx:32) compares a book's id with the route parameter, which is always a string, using strict equality. That is never true for a numeric id, so in the code the edit form is seeded only when the server returns string ids. `AddEditBook.FindBook` compares identifiers as equal numbers instead, which is the seeding the page evidently means to do.

Three behaviours of the code worth knowing:
- The edit page seeds its buffer from the store's collection, not from a request to the server.
- Every valid submission first reads the clock for the update body (src/pages/AddEditBook.tsx:72), on the add page as well. Creating a book then reads it twice more, once for `createdAt` and once for `modifiedAt` (lines 87-88), so a create reads the clock three times. `AddEditBook.SubmitTimes` carries the three reads, in that order. The two stamps of a new book are equal only when its last two clock reads agree.
- Delete and toggle never check that the id is present. A delete of an absent id leaves the collection unchanged, and so do an update or a toggle whose id is absent.

## Model

| member | source | states |
|---|---|---|
| `Seqs.Keep` | src/redux/booksSlice.ts:77 | the stable filter keeps only elements satisfying the predicate, and every element that satisfies it |
| `Seqs.KeepIsSubsequence` | src/redux/booksSlice.ts:77 | the filter's result is a subsequence of its input: survivors keep their relative order |
| `Seqs.KeepMultiset` | src/pages/Dashboard.tsx:139-143 | the filter keeps every occurrence of a satisfying element and no occurrence of any other |
| `Seqs.KeepEverything` | src/pages/Dashboard.tsx:142 | a predicate true of every element returns the input unchanged |
| `Seqs.KeepComplement` | src/pages/Dashboard.tsx:139-143 | filtering by a predicate and by its negation splits the input: lengths add up and multisets add up |
| `BooksSlice.IndexOfId` | src/redux/booksSlice.ts:71 | `findIndex` yields the first position holding the id, or nothing exactly when no position does |
| `BooksSlice.Occurrences` | src/redux/booksSlice.ts:76-78 | the number of matches is at most the length, and is zero exactly when no book has the id |
| `BooksSlice.ReplaceFirstId` | src/redux/booksSlice.ts:71-74 | the update handler keeps the length and every position's id, leaves the collection unchanged when no book has the payload's id, and otherwise puts the payload into it |
| `BooksSlice.WithoutId` | src/redux/booksSlice.ts:77 | the delete filter keeps exactly the books whose id differs from the deleted one |
| `BooksSlice.Reduce` | src/redux/booksSlice.ts:55-82 | only the fetch outcomes can change the status; an add grows the collection by one; no other outcome but fetch-fulfilled grows it; every outcome but fetch-fulfilled keeps each book whose id it does not name |
| `BooksSlice.ReduceAll` | src/redux/booksSlice.ts:55-82 | a sequence of outcomes made only of mutation outcomes keeps the status; one without fetch-fulfilled or add outcomes never grows the collection |
| `BooksSlice.ReplaceEveryId` | src/redux/booksSlice.ts:79-81 | the toggle `map` keeps the length, puts the payload at every matching position and leaves every other position alone |
| `BooksSlice.InitialStateIsEmptyAndIdle` | src/redux/booksSlice.ts:9-12 | the initial state has no books and status idle, and a fetch start moves it to loading |
| `BooksSlice.FetchPendingAndRejectedKeepBooks` | src/redux/booksSlice.ts:57-66 | fetch-pending sets loading and fetch-rejected sets failed; both keep the books |
| `BooksSlice.FetchFulfilledOverwrites` | src/redux/booksSlice.ts:60-63 | fetch-fulfilled sets succeeded and replaces the books with the payload (overwrite, not merge) |
| `BooksSlice.AddAppends` | src/redux/booksSlice.ts:67-69 | add grows the list by exactly one: the payload at the end, every earlier index unchanged, status unchanged |
| `BooksSlice.UpdateReplacesFirstMatch` | src/redux/booksSlice.ts:70-75 | update keeps the length and status and overwrites only the first match, in place; with no match the state is untouched |
| `BooksSlice.DeleteRemovesEveryMatch` | src/redux/booksSlice.ts:76-78 | delete removes every match: the new length is the old one minus the matches, no survivor has the id, every other book keeps its multiplicity, and order is kept |
| `BooksSlice.WithoutIdLength` | src/redux/booksSlice.ts:77 | the filter's length is the input length minus the number of matches |
| `BooksSlice.DeleteOnUniqueIds` | src/redux/booksSlice.ts:76-78 | with unique ids, deleting a present id removes exactly one book and deleting an absent id changes nothing |
| `BooksSlice.OccurrencesOfUnique` | src/redux/booksSlice.ts:76-78 | with unique ids, a present id occurs exactly once |
| `BooksSlice.ToggleReplacesEveryMatch` | src/redux/booksSlice.ts:79-81 | toggle replaces every match with the payload and keeps every other entry, the length and the status |
| `BooksSlice.ToggleIsIdempotent` | src/redux/booksSlice.ts:79-81 | delivering the same toggle response twice equals delivering it once |
| `BooksSlice.UpdateAgreesWithToggleOnUniqueIds` | src/redux/booksSlice.ts:70-81 | with unique ids, update (first match) and toggle (every match) produce the same list |
| `BooksSlice.MutationsKeepIdsUnique` | src/redux/booksSlice.ts:70-81 | update, delete and toggle keep the identifiers unique |
| `BooksSlice.KeepKeepsIdsUnique` | src/redux/booksSlice.ts:77 | filtering a list with unique ids yields a list with unique ids |
| `BooksSlice.MutationOutcomesKeepStatus` | src/redux/booksSlice.ts:55-82 | no outcome of add, update, delete or toggle changes the status |
| `BooksSlice.FailedMutationIsNoOp` | src/redux/booksSlice.ts:55-82 | mutations have no pending or rejected handler, so those outcomes leave the state exactly as it was |
| `BooksSlice.AddsAppendInOrder` | src/redux/booksSlice.ts:67-69 | a run of successful adds appends the payloads in arrival order |
| `BooksSlice.LastFetchWins` | src/redux/booksSlice.ts:60-63 | of two fetch responses, the one applied last determines the collection |
| `BooksSlice.BooksStore.constructor` | src/redux/booksSlice.ts:9-12 | the store starts empty and idle |
| `BooksSlice.BooksStore.OnFetchPending` | src/redux/booksSlice.ts:57-59 | status becomes loading; books unchanged |
| `BooksSlice.BooksStore.OnFetchFulfilled` | src/redux/booksSlice.ts:60-63 | status becomes succeeded; books become the payload |
| `BooksSlice.BooksStore.OnFetchRejected` | src/redux/booksSlice.ts:64-66 | status becomes failed; books unchanged |
| `BooksSlice.BooksStore.OnAddFulfilled` | src/redux/booksSlice.ts:67-69 | the payload is pushed at the end; status unchanged |
| `BooksSlice.BooksStore.OnUpdateFulfilled` | src/redux/booksSlice.ts:70-75 | `findIndex` and then an indexed write yield the first-match replacement; status unchanged |
| `BooksSlice.BooksStore.OnDeleteFulfilled` | src/redux/booksSlice.ts:76-78 | books become the filtered list; status unchanged |
| `BooksSlice.BooksStore.OnToggleFulfilled` | src/redux/booksSlice.ts:79-81 | books become the mapped list; status unchanged |
| `BooksSlice.BooksStore.Dispatch` | src/redux/booksSlice.ts:55-82 | applying an outcome in place gives exactly the reducer's new state |
| `Dashboard.Shows` | src/pages/Dashboard.tsx:139-143 | "Show Active" passes exactly the active books, "Show Deactivated" exactly the deactivated ones, and any other label every book |
| `Dashboard.FilteredBooks` | src/pages/Dashboard.tsx:139-143 | the listed books are exactly the collection's books that pass the selected filter, and there are no more of them than in the collection |
| `Dashboard.ActiveView` | src/pages/Dashboard.tsx:139-140 | "Show Active" lists exactly the active books, each with its multiplicity, in original order |
| `Dashboard.DeactivatedView` | src/pages/Dashboard.tsx:139-141 | "Show Deactivated" lists exactly the deactivated books, each with its multiplicity, in original order |
| `Dashboard.AllFilterShowsEverything` | src/pages/Dashboard.tsx:142 | "Show All" lists the collection unchanged |
| `Dashboard.OtherFiltersShowEverything` | src/pages/Dashboard.tsx:142 | any other label, "Show All" included, lists the collection unchanged |
| `Dashboard.ViewsPartitionCollection` | src/pages/Dashboard.tsx:139-143 | the active and deactivated views partition the collection: lengths sum to the total and multisets to the collection's |
| `Dashboard.RowActions` | src/pages/Dashboard.tsx:220-232 | every row has an edit link and a toggle requesting the negated flag; delete is offered exactly for deactivated books |
| `Dashboard.ToggleLabel` | src/pages/Dashboard.tsx:222-224 | the toggle reads "Deactivate" exactly for active books and "Re-Activate" exactly for the others |
| `Dashboard.TimestampText` | src/pages/Dashboard.tsx:207-218 | an absent or empty timestamp shows "--"; a present one shows its formatted value |
| `Dashboard.RowOf` | src/pages/Dashboard.tsx:194-234 | a row shows its own book, its creation and modification cells as `TimestampText` renders them (formatted when present, "--" when absent or empty), the toggle caption of `ToggleLabel`, and exactly the controls of `RowActions`: an edit link, a toggle asking for the opposite flag, and a delete button exactly when the book is deactivated |
| `Dashboard.Render` | src/pages/Dashboard.tsx:135-234 | loading and failed show their messages instead of the table; idle and succeeded show the table: "Showing shown of total" counts the filtered books and the collection, and row i is the row of the i-th filtered book, so rows are books passing the filter and delete buttons sit only on deactivated rows |
| `Dashboard.ToggledBookChangesView` | src/pages/Dashboard.tsx:222 | after a toggle response for a listed book, the response appears in the view of its new flag and not in the other |
| `Dashboard.DeactivatingOnlyBook` | src/pages/Dashboard.tsx:139-143 | deactivating the only book leaves the active view empty and the deactivated view holding it |
| `Dashboard.DeletedBookLeavesEveryView` | src/pages/Dashboard.tsx:149-156 | after a delete response no view lists a book with the deleted id |
| `AddEditBook.DraftOf` | src/pages/AddEditBook.tsx:34-42 | the seeded buffer copies every field of the book except its id |
| `AddEditBook.FindBook` | src/pages/AddEditBook.tsx:32 | `find` yields the first book with the id, or nothing exactly when there is none |
| `AddEditBook.WithText` | src/pages/AddEditBook.tsx:47-49 | a change sets the named field to the new value and leaves every other field as it was |
| `AddEditBook.Validation` | src/pages/AddEditBook.tsx:51-57 | each of title, author, category and isbn is flagged exactly when it is empty |
| `AddEditBook.IsValid` | src/pages/AddEditBook.tsx:58-60 | the form is valid exactly when no field is flagged, that is, when all four are non-empty |
| `AddEditBook.Errors.Values` | src/pages/AddEditBook.tsx:60 | the values validation inspects contain `true` exactly when some field is flagged |
| `AddEditBook.ActiveIsNotValidated` | src/pages/AddEditBook.tsx:51-60 | the `active` flag never affects the flags or the verdict |
| `AddEditBook.CreateDraft` | src/pages/AddEditBook.tsx:85-89 | the create body copies the buffer and stamps `createdAt` and `modifiedAt` with the submit-time clock reads |
| `AddEditBook.UpdateDraft` | src/pages/AddEditBook.tsx:70-73 | the update body copies the buffer, keeps its `createdAt`, and restamps only `modifiedAt` |
| `AddEditBook.Submit` | src/pages/AddEditBook.tsx:63-99 | an invalid form sends nothing; a valid one sends an update for the routed id on the edit page and a create on the add page, with the matching body |
| `AddEditBook.InvalidFormNeverDispatches` | src/pages/AddEditBook.tsx:66-68 | one empty required field is enough to abort the submission |
| `AddEditBook.UnchangedEditKeepsBook` | src/pages/AddEditBook.tsx:30-76 | submitting an untouched seeded buffer sends the book back with only `modifiedAt` restamped |
| `AddEditBook.FormSession.constructor` | src/pages/AddEditBook.tsx:13-28 | the buffer starts with empty texts and timestamps and `active` true; no flag is raised |
| `AddEditBook.FormSession.Seed` | src/pages/AddEditBook.tsx:30-45 | on the edit page the buffer takes the first book with the routed id; with no such book, or on the add page, the buffer is kept |
| `AddEditBook.FormSession.HandleChange` | src/pages/AddEditBook.tsx:47-49 | the buffer becomes the single-field update of the old buffer |
| `AddEditBook.FormSession.HandleActiveChange` | src/pages/AddEditBook.tsx:167-169 | only the `active` flag of the buffer changes |
| `AddEditBook.FormSession.ValidateForm` | src/pages/AddEditBook.tsx:51-61 | the stored flags become the buffer's validation flags; the result is true exactly when all four fields are non-empty |
| `AddEditBook.FormSession.HandleSubmit` | src/pages/AddEditBook.tsx:63-99 | the flags are stored and the request is the submission outcome for the buffer; the buffer is not changed |

## Left out

- Network I/O. The REST helper and its calls are not modelled. A request's effect reaches the model only as the outcome delivered to the reducer: the server's payload, or a rejection.
- The async-thunk plumbing and the store configuration. Outcomes are applied directly with `Reduce` or `BooksStore.Dispatch`.
- Concurrency and out-of-order responses. Each outcome is one atomic step, applied in arrival order, so last-writer-wins follows from that order (`LastFetchWins`).
- The dashboard's mount effect, which dispatches a fetch. It appears only as the `Pending(FetchBooks)` outcome it causes.
- Date formatting with the local time zone. It is the parameter `format` of `Dashboard.TimestampText`; only the placeholder rule is modelled.
- The ISBN digit pattern on the input element. The browser enforces it, not `validateForm`, so validation here checks emptiness only.
- Alerts, navigation, console logging and the row background colour: user-interface side effects and styling.
- What the form does after dispatching. The dispatched promise resolves even when the request fails, with the rejected outcome. So after every dispatched submission the page reports success and navigates to "/" (src/pages/AddEditBook.tsx:77-80, 91-94). The `.catch` handlers (81-83, 95-97) and the dashboard's delete `try`/`catch` (src/pages/Dashboard.tsx:150-155) are never reached. The model stops at the request `AddEditBook.Submit` produces.
- Header, footer, application shell and router: rendering and routing only.
- The commented-out first version of the dashboard: dead code.
- The server's PATCH body for a toggle, which sets `active` and a fresh `modifiedAt`. The model takes whatever book the server returns.
- Uniqueness of identifiers is not an invariant of the store. An add whose response repeats an existing id would break it, and the reducer does not check. Only update, delete and toggle are proved to preserve it.
- Timestamps are opaque strings, so `createdAt <= modifiedAt` is not modelled.
