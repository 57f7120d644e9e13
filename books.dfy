/** The one entity of the system: a book record as the REST resource returns it. */
module Books {
  import opened Wrappers

  /** A book. The identifier is assigned by the remote store; `modifiedAt` may be
      absent (an optional property), every other field is always present.
      Timestamps are ISO-8601 strings and are never parsed by the client. */
  datatype Book = Book(
    id: nat,
    title: string,
    author: string,
    category: string,
    isbn: string,
    active: bool,
    createdAt: string,
    modifiedAt: Option<string>)
}
