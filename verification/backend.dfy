/**
 * The shapes the app reads from its authentication backend client. The
 * backend itself is not modelled: every call's result is an input.
 */
module Backend {
  import opened Wrappers

  /** An error object, as far as the app reads one: its `message`. */
  datatype Fault = Fault(message: string)

  /** An awaited call: it resolves to a value, or it rejects with a thrown error. */
  datatype Completion<T> = Returned(value: T) | Threw(fault: Fault)

  /** `user.user_metadata`; a field is None when it is absent or falsy. */
  datatype UserMetadata = UserMetadata(fullName: Option<string>, name: Option<string>)

  /** A backend user: its id, `email` and `user_metadata`. */
  datatype User = User(id: string, email: Option<string>, metadata: Option<UserMetadata>)

  /** A backend session: the signed-in user (tokens are not read by the app). */
  datatype Session = Session(user: User)
}
