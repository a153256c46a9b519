/**
 * The Next.js middleware that guards every route with the CORS policy:
 * block a disallowed Origin with 403, answer a preflight with 204, and
 * otherwise let the request through with the CORS headers attached.
 */
module NextMiddleware {
  import opened Wrappers
  import opened Cors

  const BlockedBody := "Not allowed by CORS"
  const AllowOriginHeader := "Access-Control-Allow-Origin"
  const AllowMethodsHeader := "Access-Control-Allow-Methods"
  const AllowHeadersHeader := "Access-Control-Allow-Headers"

  /** What the middleware reads of a request: the Origin header (None when absent) and the method. */
  datatype Request = Request(origin: Option<string>, httpMethod: string)

  /** A response the middleware answers itself, or the pass-through with the headers it set on it. */
  datatype Response =
    | Reply(status: int, body: Option<string>, headers: map<string, string>)
    | Next(headers: map<string, string>)

  /** The three CORS headers granted to an allowed origin. */
  function GrantedHeaders(origin: string): (h: map<string, string>)
    ensures h.Keys == {AllowOriginHeader, AllowMethodsHeader, AllowHeadersHeader}
    ensures h[AllowOriginHeader] == origin
    ensures h[AllowMethodsHeader] == CorsMethods && h[AllowHeadersHeader] == CorsAllowedHeaders
  {
    map[AllowOriginHeader := origin, AllowMethodsHeader := CorsMethods, AllowHeadersHeader := CorsAllowedHeaders]
  }

  /** The CORS headers for an origin the policy does not block: the three granted ones, or none when no origin is sent. */
  function CorsHeadersFor(origin: Option<string>): (h: map<string, string>)
    ensures origin.None? ==> h == map[]
    ensures origin.Some? ==> h.Keys == {AllowOriginHeader, AllowMethodsHeader, AllowHeadersHeader}
    ensures origin.Some? ==> h[AllowOriginHeader] == origin.value
    ensures origin.Some? ==> h[AllowMethodsHeader] == CorsMethods && h[AllowHeadersHeader] == CorsAllowedHeaders
  {
    if origin.Some? then GrantedHeaders(origin.value) else map[]
  }

  /** An Origin header is present and the policy does not allow it. */
  predicate Blocked(allowlist: seq<string>, request: Request): (b: bool)
    ensures b <==>
      && request.origin.Some?
      && (request.origin.value == [] || (request.origin.value !in allowlist && !IsVercel(request.origin.value)))
  {
    request.origin.Some? && GetAllowedOrigin(allowlist, request.origin).None?
  }

  /** The header set of the pass-through response, changed one entry at a time. */
  class HeaderBag {
    var entries: map<string, string>

    constructor ()
      ensures entries == map[]
    {
      entries := map[];
    }

    method Set(key: string, value: string)
      modifies this
      ensures entries == old(entries)[key := value]
    {
      entries := entries[key := value];
    }

    /** Copies every entry of `h` in, one `Set` per key; entries `h` does not name are kept. */
    method SetAll(h: map<string, string>)
      modifies this
      ensures entries == old(entries) + h
    {
      var pending := h.Keys;
      while pending != {}
        invariant pending <= h.Keys
        invariant entries == old(entries) + map k | k in h.Keys - pending :: h[k]
        decreases pending
      {
        var k :| k in pending;
        Set(k, h[k]);
        pending := pending - {k};
      }
      assert h.Keys - pending == h.Keys;
    }
  }

  /**
   * `middleware`: the block check comes first, so any request (a preflight
   * included) from a present but disallowed origin, the empty one included,
   * gets 403. An allowed origin gets exactly the three CORS headers, an
   * absent one none; OPTIONS is answered with 204 and no body, anything else
   * passes through.
   */
  method Middleware(allowlist: seq<string>, request: Request) returns (response: Response)
    ensures Blocked(allowlist, request) ==> response == Reply(403, Some(BlockedBody), map[])
    ensures !Blocked(allowlist, request) && request.httpMethod == "OPTIONS" ==>
      response == Reply(204, None, CorsHeadersFor(request.origin))
    ensures !Blocked(allowlist, request) && request.httpMethod != "OPTIONS" ==>
      response == Next(CorsHeadersFor(request.origin))
  {
    var origin := request.origin;
    var allowedOrigin := if origin.Some? then GetAllowedOrigin(allowlist, origin) else None;

    if origin.Some? && allowedOrigin.None? {
      return Reply(403, Some(BlockedBody), map[]);
    }

    var corsHeaders: map<string, string> := map[];
    if allowedOrigin.Some? && allowedOrigin.value != "" {
      corsHeaders := corsHeaders[AllowOriginHeader := allowedOrigin.value];
      corsHeaders := corsHeaders[AllowMethodsHeader := CorsMethods];
      corsHeaders := corsHeaders[AllowHeadersHeader := CorsAllowedHeaders];
    }

    assert corsHeaders == CorsHeadersFor(origin);

    if request.httpMethod == "OPTIONS" {
      return Reply(204, None, corsHeaders);
    }

    var next := new HeaderBag();
    next.SetAll(corsHeaders);
    assert next.entries == corsHeaders by {
      assert map[] + corsHeaders == corsHeaders;
    }
    return Next(next.entries);
  }
}
