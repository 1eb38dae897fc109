/** Outcomes of the request handlers: a value, or the error the handler raises. */
module Results {

  /** The HTTP errors raised by the modelled handlers. */
  datatype Error =
    | Unauthorized     // the authenticated user no longer exists (401)
    | NotFound         // no active quest with that id owned by the user (404)
    | EmailTaken       // registration with an e-mail already in use (400)
    | UsernameTaken    // registration with a user name already in use (400)

  datatype Result<+T> = Ok(value: T) | Err(error: Error)

  datatype Option<+T> = None | Some(value: T)
}
