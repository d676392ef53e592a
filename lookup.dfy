/** The error handling of `called_once_a_day`: what the handler does with the
    result of the Riot account lookup. The lookup itself (an HTTP call) is an
    input; only its outcome is modelled. */
module RiotLookup {

  /** What `riot_watcher.account.by_riot_id` produced: an account; an
      `HTTPError` carrying the response's status code and whether the
      response has a `Retry-After` header; or a failure of another kind (a
      connection error or a timeout, say), which `except HTTPError` does not
      catch. */
  datatype Lookup =
    | Found(gameName: string)
    | HttpError(status: int, hasRetryAfter: bool)
    | OtherError

  /** The branch of the `except HTTPError` clause taken for a status code. */
  datatype ErrorBranch =
    | RetryLogged     // 429: the Retry-After advice is logged
    | NotFoundLogged  // 404: "not found" is logged
    | Quit            // 400: logged, then `quit()`
    | Reraise         // any other status: the error is raised again

  /** The statuses the handler logs and then falls through on. */
  const LoggedStatuses: set<int> := {429, 404}

  /** The if/elif chain over `err.response.status_code`. */
  function Classify(status: int): (b: ErrorBranch)
    ensures b == RetryLogged <==> status == 429
    ensures b == NotFoundLogged <==> status == 404
    ensures b == Quit <==> status == 400
    ensures b == Reraise <==> status !in LoggedStatuses + {400}
  {
    if status == 429 then RetryLogged
    else if status == 404 then NotFoundLogged
    else if status == 400 then Quit
    else Reraise
  }

  /** How one call of the handler ends. */
  datatype Outcome =
    | Sent(gameName: string)             // the account's game name is posted
    | MissingRetryAfter                  // a 429 without `Retry-After`: KeyError while logging
    | UnboundPlayer(logged: ErrorBranch) // logged, fell through, then read the unassigned `player`
    | Exited                             // `quit()` raised SystemExit
    | Reraised(status: int)              // the HTTPError propagated to the caller
    | Escaped                            // a non-HTTP failure passed the `except` clause

  /** Only a handler that posted its message returns to its caller. */
  predicate Returns(o: Outcome) {
    o.Sent?
  }

  /** `called_once_a_day` for a given lookup result. Only the path on which no
      error was raised binds `player`; a 429 or 404 that is logged reaches the
      send with `player` unbound, which Python reports as UnboundLocalError.
      Logging a 429 reads the `Retry-After` header, which raises KeyError
      when the response has none. */
  function CalledOnceADay(lookup: Lookup): (o: Outcome)
    ensures Returns(o) <==> lookup.Found?
    ensures o.Sent? ==> o.gameName == lookup.gameName
    ensures o.MissingRetryAfter? <==> lookup.HttpError? && lookup.status == 429 && !lookup.hasRetryAfter
    ensures o.UnboundPlayer? <==>
      lookup.HttpError? && (lookup.status == 404 || (lookup.status == 429 && lookup.hasRetryAfter))
    ensures o.UnboundPlayer? ==> o.logged == Classify(lookup.status) && o.logged in {RetryLogged, NotFoundLogged}
    ensures o.Exited? <==> lookup.HttpError? && lookup.status == 400
    ensures o.Reraised? <==> lookup.HttpError? && lookup.status !in LoggedStatuses + {400}
    ensures o.Reraised? ==> lookup.HttpError? && o.status == lookup.status
    ensures o.Escaped? <==> lookup.OtherError?
  {
    match lookup
    case Found(name) => Sent(name)
    case OtherError => Escaped
    case HttpError(status, hasRetryAfter) =>
      match Classify(status)
      case RetryLogged => if hasRetryAfter then UnboundPlayer(RetryLogged) else MissingRetryAfter
      case NotFoundLogged => UnboundPlayer(NotFoundLogged)
      case Quit => Exited
      case Reraise => Reraised(status)
  }
}
