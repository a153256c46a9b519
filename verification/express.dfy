/**
 * The Express server's CORS setup: the same allowlist and Vercel pattern as
 * the middleware (the file repeats both definitions verbatim, so the model
 * reuses Cors.ParseAllowlist, whose result the callback takes, and
 * Cors.IsVercel), an origin callback for the
 * `cors` package, and the methods and headers it advertises. Registering the
 * handler on the app and the `cors` package's own header handling are not
 * modelled.
 */
module ExpressApp {
  import opened Wrappers
  import opened Text
  import opened Cors
  import NextMiddleware

  const RejectionMessage := "Not allowed by CORS"
  const AdvertisedMethods: seq<string> := ["GET", "POST", "PUT", "DELETE", "OPTIONS"]
  const AdvertisedHeaders: seq<string> := ["Content-Type", "Authorization"]

  /** What the origin callback reports to `cors`: allow, or an Error with a message. */
  datatype Verdict = Allow | Deny(error: string)

  /**
   * The `origin` callback: a falsy origin (absent or empty) is allowed, so is
   * an allowlist entry or a Vercel origin; anything else is refused with
   * "Not allowed by CORS".
   */
  function OriginCallback(allowlist: seq<string>, origin: Option<string>): (v: Verdict)
    ensures v.Deny? ==> v.error == RejectionMessage
    ensures v == Allow <==>
      origin.None? || origin.value == "" || origin.value in allowlist || IsVercel(origin.value)
  {
    if origin.None? || origin.value == "" then Allow
    else if origin.value in allowlist || IsVercel(origin.value) then Allow
    else Deny(RejectionMessage)
  }

  /** On every non-empty origin the Express callback and `getAllowedOrigin` agree. */
  lemma AgreesOnNonEmptyOrigins(allowlist: seq<string>, origin: string, httpMethod: string)
    requires origin != ""
    ensures OriginCallback(allowlist, Some(origin)) == Allow
        <==> GetAllowedOrigin(allowlist, Some(origin)) == Some(origin)
    ensures OriginCallback(allowlist, Some(origin)) == Allow
        <==> !NextMiddleware.Blocked(allowlist, NextMiddleware.Request(Some(origin), httpMethod))
  {
  }

  /**
   * The one origin on which the two gates part: an empty Origin header is let
   * through by Express but blocked by the middleware. An absent one passes both.
   */
  lemma DiffersOnlyOnEmptyOrigin(allowlist: seq<string>, httpMethod: string)
    ensures OriginCallback(allowlist, Some("")) == Allow
    ensures NextMiddleware.Blocked(allowlist, NextMiddleware.Request(Some(""), httpMethod))
    ensures OriginCallback(allowlist, None) == Allow
    ensures !NextMiddleware.Blocked(allowlist, NextMiddleware.Request(None, httpMethod))
  {
  }

  /** The advertised methods, joined with ", ", are the middleware's CORS_METHODS. */
  lemma AdvertisedMethodsMatch()
    ensures Join(AdvertisedMethods, ", ") == CorsMethods
  {
  }

  /** The advertised headers, joined with ", ", are the middleware's CORS_ALLOWED_HEADERS. */
  lemma AdvertisedHeadersMatch()
    ensures Join(AdvertisedHeaders, ", ") == CorsAllowedHeaders
  {
  }
}
