/** The editor password check (app/api/admin/auth/route.ts). */
module AdminAuth {
  import opened Wrappers

  /** The request body: not JSON (or `null`, which cannot be destructured), or the
      `password` field, `None` when absent or not a string. */
  datatype Body = Unparseable | Parsed(password: Option<string>)

  datatype Response =
    | Authenticated     // 200, `success: true`
    | Unauthorized      // 401, "Invalid password"
    | NotConfigured     // 500, "Editor password not configured"
    | BadRequest        // 400, "Invalid request"

  function HttpStatus(r: Response): int {
    match r
    case Authenticated => 200
    case Unauthorized => 401
    case NotConfigured => 500
    case BadRequest => 400
  }

  /** `POST`: `configured` is `EDITOR_PASSWORD` (`None` when unset). The body is
      read first, so an unreadable body is a 400 even when no password is set. */
  function Post(body: Body, configured: Option<string>): (r: Response)
    ensures body.Unparseable? ==> r == BadRequest
    ensures body.Parsed? && (configured.None? || configured.value == "") ==> r == NotConfigured
    ensures r == Authenticated <==>
      body.Parsed? && configured.Some? && configured.value != "" && body.password == Some(configured.value)
    ensures r == Unauthorized <==>
      body.Parsed? && configured.Some? && configured.value != "" && body.password != Some(configured.value)
  {
    match body
    case Unparseable => BadRequest
    case Parsed(password) =>
      if configured.None? || configured.value == "" then NotConfigured
      else if password == Some(configured.value) then Authenticated
      else Unauthorized
  }

  /** No password opens an editor that has no password configured, and only the
      configured password opens one that has. */
  lemma OnlyExactPassword(body: Body, configured: Option<string>, guess: string)
    ensures Post(Parsed(Some(guess)), configured) == Authenticated <==>
      configured == Some(guess) && guess != ""
    ensures (configured.None? || configured == Some("")) ==> HttpStatus(Post(body, configured)) != 200
  {
  }
}
