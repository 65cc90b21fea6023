/** Optional values, results, and the exceptions that escape to the action's top-level handler. */
module Results {

  /** A value that may be absent (JavaScript `undefined`). */
  datatype Option<+T> = None | Some(value: T)

  /** The outcome of a step that can throw. */
  datatype Result<+T, +E> = Success(value: T) | Failure(error: E)

  /** Errors thrown inside `run()` that reach its outer `catch`, which reports them with `setFailed`. */
  datatype Exception =
    | EventPayloadUnreadable   // reading `githubEvent.review._links.html.href` when the event file
                               // failed to load or its payload has no `review._links.html`
    | CommitAuthorMissing      // reading the git author's `name` when the commit has no git author record
    | AuthorMissing            // reading `author.login` when the commit has no linked author
    | CommitLookupFailed(message: string)  // the commit request was rejected
    | ResponseMissing          // reading `response.status` of a request that got no response
}
