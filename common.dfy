/** Shared vocabulary of the model: optional values, the errors the API helpers
    throw, and the store calls a table can be made to reject. */
module Common {

  datatype Option<T> = None | Some(value: T)

  /** JavaScript truthiness of a possibly missing string: present and non-empty. */
  predicate Truthy(s: Option<string>) {
    s.Some? && s.value != ""
  }

  /** The kinds of store call the helpers make. A table's `rejects` set names the
      kinds it currently answers with an error (network failure, a row-level
      security refusal, ...). */
  datatype Op =
    | SelectById
    | SelectByUsername
    | SelectPair
    | SelectByUser
    | SelectAll
    | Insert
    | Update
    | Delete

  datatype Error =
    | NotLoggedIn            // the explicit "Not logged in" guard
    | NullUser               // reading `user.id` when there is no session user (a TypeError)
    | ProfileNotFound        // "Profile not found"
    | UnableToCreateProfile  // "Unable to create profile"
    | NoRows                 // `.single()` on a query that matched no row
    | DuplicateKey           // a primary-key or uniqueness constraint refused a write
    | Rejected(op: Op)       // the store answered this call with an error

  datatype Result<T> = Ok(value: T) | Err(error: Error)
}
