# CORS gate and API client of the study-tracker web front end

This project models, in Dafny, the two pieces of decision logic in the
front end of a parent/child study-task tracker:

- **The CORS origin gate.** The allowlist comes from the `CORS_ORIGINS`
  environment variable: it is split on commas, each piece is trimmed and
  empty pieces are dropped. The Vercel preview-domain pattern
  `^https://[-a-z0-9]+\.vercel\.app$` is matched case-insensitively.
  `getAllowedOrigin` decides whether an origin is allowed. The Next.js
  middleware maps the request's Origin and method to one of three
  outcomes: a 403 block, a 204 preflight answer, or pass-through with
  the CORS headers set. The Express server's `origin` callback is
  modelled as well, with the one input on which it parts from the
  middleware.
- **The HTTP client `apiFetch`.** It checks the base URL, cuts trailing
  slashes and appends the path. It builds the header map (caller headers,
  a Bearer token, the JSON content type) and defaults the method to
  "GET". It then turns the settled response into a value or an error:
  `ApiError` with status, details and a message chosen by a fixed
  precedence, a network error, or the 204 / JSON / text dispatch of a
  successful response.

Modules, one per file: `Wrappers` (Option), `Text` (the JavaScript string
primitives the code relies on: `trim`, `split`, `includes`, ASCII case
folding, decimal rendering), `Cors` (src/lib/cors.ts),
`NextMiddleware` (src/middleware.ts), `Api` (src/lib/api.ts) and
`ExpressApp` (src/index.ts).

Environment variables are parameters of type `Option<string>`, where None
means unset. The gates take the allowlist that `Cors.ParseAllowlist` computes
from CORS_ORIGINS when the module loads. `fetch` is not modelled. `Api.ApiFetch` returns the request it
hands to `fetch` (None when it sends none) and takes as a parameter the way
`fetch` settles. The response record carries what `res.json()` and
`res.text()` resolve to, with None when they reject.

## Model

| member | source | states |
|---|---|---|
| `Text.TrimStart` | src/lib/cors.ts:3 | the result is the longest suffix of the input that does not start with a JavaScript whitespace or line-terminator character; everything cut is such a character |
| `Text.TrimEnd` | src/lib/cors.ts:3 | the result is the longest prefix that does not end in a trimmable character; everything cut is trimmable |
| `Text.Trim` | src/lib/cors.ts:3 | `trim()`: the result is one contiguous slice of the input, everything before and after that slice is trimmable, and the slice neither starts nor ends with a trimmable character (so it is the longest such slice) |
| `Text.TrimEmptyIff` | src/lib/cors.ts:3-4 | a piece trims to the empty string exactly when every character of it is trimmable, so blank pieces are the ones `filter(Boolean)` drops |
| `Text.TrimIdempotent` | src/lib/cors.ts:3 | trimming a trimmed string changes nothing, so allowlist entries are already trimmed |
| `Text.Split` | src/lib/cors.ts:2 | `split(",")`: at least one piece, no piece holds the separator, and joining the pieces with the separator gives the input back |
| `Text.SplitJoin` | src/lib/cors.ts:2 | the other direction of the round trip: splitting a join of separator-free pieces gives those pieces back |
| `Text.Contains` | src/lib/api.ts:60 | `includes`: true exactly when the needle occurs at some index of the string |
| `Text.LowerChar` | src/lib/cors.ts:7 | the `i` flag folds exactly the ASCII letters A-Z onto a-z and leaves every other character unchanged |
| `Text.DecimalString` | src/lib/api.ts:56 | the status in the default message is written in decimal digits, without leading zeros, and denotes the status |
| `Cors.TrimAll` | src/lib/cors.ts:3 | `map(trim)`: same length, each element the trimmed piece at the same index |
| `Cors.DropEmpty` | src/lib/cors.ts:4 | `filter(Boolean)`: keeps exactly the non-empty pieces, never adds any |
| `Cors.ParseAllowlist` | src/lib/cors.ts:1-4 | every allowlist entry is non-empty, already trimmed and free of commas |
| `Cors.UnsetAllowlistIsEmpty` | src/lib/cors.ts:1 | an unset CORS_ORIGINS gives the empty allowlist |
| `Cors.PieceIsAllowed` | src/lib/cors.ts:1-4 | every comma-separated piece that is not blank gives an entry, namely the piece trimmed |
| `Cors.AllowedIsPiece` | src/lib/cors.ts:1-4 | every entry is the trimmed form of some comma-separated piece; nothing else enters the allowlist |
| `Cors.SingleEntryAllowlist` | src/lib/cors.ts:1-4 | a value with one entry, no comma and no surrounding blanks gives exactly that entry |
| `Cors.VercelAccepts` | src/lib/cors.ts:6-7 | every origin equal, up to ASCII case, to `https://` + a non-empty run of `[-a-zA-Z0-9]` + `.vercel.app` matches |
| `Cors.IsVercel` | src/lib/cors.ts:6-7 | `isVercel`: "https://" and ".vercel.app" in any ASCII case around a non-empty run of `[-a-zA-Z0-9]`; `VercelAccepts` and `VercelShape` give the two directions, both up to ASCII case, and `VercelIgnoresCase` relates an origin to its lower-case form |
| `Cors.VercelShape` | src/lib/cors.ts:6-7 | every match is, up to ASCII case, `https://<host>.vercel.app` with a non-empty host made only of `[-a-zA-Z0-9]`, so it holds no '.', ':' or '/' (no sub-domains, ports or paths); with `VercelAccepts`, which takes the same up-to-case form, this is exactly the regular expression |
| `Cors.VercelIgnoresCase` | src/lib/cors.ts:7 | an origin matches exactly when its ASCII lower-case form matches |
| `Cors.VercelRefusesSubdomain` | src/lib/cors.ts:7 | `https://a.b.vercel.app` does not match |
| `Cors.VercelRefusesPort` | src/lib/cors.ts:7 | `https://app.vercel.app:443` does not match |
| `Cors.VercelRefusesPath` | src/lib/cors.ts:7 | `https://app.vercel.app/` does not match |
| `Cors.VercelRefusesHttp` | src/lib/cors.ts:7 | `http://app.vercel.app` does not match |
| `Cors.VercelAcceptsUpperCase` | src/lib/cors.ts:7 | `HTTPS://Foo.VERCEL.APP` matches |
| `Cors.GetAllowedOrigin` | src/lib/cors.ts:10-14 | the result is null or the input origin itself, never another string; it is non-null exactly when the origin is non-empty and is an allowlist entry or a Vercel origin (so null for a missing or empty origin) |
| `Cors.AllowlistIsCaseSensitive` | src/lib/cors.ts:12 | with CORS_ORIGINS holding one entry, that entry is returned unchanged and any variant of it that differs only in case (and is not a Vercel origin) is refused |
| `NextMiddleware.Blocked` | src/middleware.ts:10-14 | a request is blocked exactly when an Origin header is present and it is empty or neither an allowlist entry nor a Vercel origin |
| `NextMiddleware.CorsHeadersFor` | src/middleware.ts:18-23 | an absent origin gets no CORS headers; a present one gets exactly the three keys, with Allow-Origin set to that origin, Allow-Methods to CORS_METHODS and Allow-Headers to CORS_ALLOWED_HEADERS |
| `NextMiddleware.GrantedHeaders` | src/middleware.ts:18-23 | an allowed origin gets exactly three headers: Allow-Origin set to the origin, Allow-Methods set to CORS_METHODS, Allow-Headers set to CORS_ALLOWED_HEADERS |
| `NextMiddleware.HeaderBag.constructor` | src/middleware.ts:30 | the pass-through response starts with no headers set by the middleware |
| `NextMiddleware.HeaderBag.Set` | src/middleware.ts:32 | one `headers.set` replaces or adds that key and leaves the others |
| `NextMiddleware.HeaderBag.SetAll` | src/middleware.ts:31-33 | after the loop the headers are the old ones overridden by the CORS headers, nothing else changed |
| `NextMiddleware.Middleware` | src/middleware.ts:9-35 | a present but disallowed origin gets 403 "Not allowed by CORS" whatever the method, so the block check comes before the preflight check; otherwise OPTIONS gets 204 with no body and exactly the granted headers (none for an absent origin), and any other method passes through with exactly those headers set |
| `Api.HasToken` | src/lib/api.ts:32 | the token is added exactly when `opts.token` is truthy: present and not the empty string |
| `Api.IsOk` | src/lib/api.ts:54 | `res.ok`: the status lies in 200-299 |
| `Api.IsJsonType` | src/lib/api.ts:59-60 | the response is treated as JSON exactly when "application/json" occurs somewhere in its Content-Type, a missing header counting as "" |
| `Api.DefaultFailureMessage` | src/lib/api.ts:56 | the default message is "Request failed with status " followed by decimal digits, without leading zeros, that denote the status |
| `Api.StripTrailingSlashes` | src/lib/api.ts:29 | the result is the longest prefix of the base URL that does not end in '/', and only slashes are cut |
| `Api.StripIdempotent` | src/lib/api.ts:29 | stripping twice is stripping once |
| `Api.UrlExample` | src/lib/api.ts:29 | `http://x//` with `/children` gives `http://x/children` |
| `Api.HeadersForUnique` | src/lib/api.ts:30-40 | the header rule (caller headers; a Bearer token and the JSON content type added and overriding) determines the header map uniquely |
| `Api.StringField` | src/lib/api.ts:62-76 | a field is taken as a message exactly when the details are an object holding that key with a string value |
| `Api.ApiFetch` | src/lib/api.ts:20-100 | a missing or empty base URL throws "NEXT_PUBLIC_API_BASE_URL is not set" and no request is sent; otherwise exactly one request is sent: stripped base URL + path, method defaulting to "GET", headers as the header rule says, body iff one was given. A network failure throws "Network error while requesting <path>: <message or Unknown error>". A non-ok response throws an ApiError whose status is the response status, whose details are the parsed JSON (undefined for a non-JSON type or a body that does not parse), and whose message is `FailureMessage` of the response. An ok response gives undefined for 204, the parsed JSON for a JSON content type, the text otherwise |
| `Api.FailureMessage` | src/lib/api.ts:54-82 | the message of a failed response: for a JSON type a string `error` field, else a string `message` field, else the default (also when the body does not parse); otherwise the text when non-empty, else the default (also when it cannot be read) |
| `Api.EmptyErrorFieldIsKept` | src/lib/api.ts:60-82 | a JSON `error` field that is the empty string becomes the message and beats `message`, while an empty text body leaves the default |
| `Api.DefaultMessageExample` | src/lib/api.ts:56 | status 404 gives "Request failed with status 404" |
| `ExpressApp.OriginCallback` | src/index.ts:16-24 | an absent or empty origin is allowed, so is an allowlist entry or a Vercel origin; anything else is refused with "Not allowed by CORS" |
| `ExpressApp.AgreesOnNonEmptyOrigins` | src/index.ts:16-24 | on every non-empty origin and for every method the Express callback allows exactly what `getAllowedOrigin` returns and what the middleware does not block |
| `ExpressApp.DiffersOnlyOnEmptyOrigin` | src/index.ts:17-18 | the empty origin is allowed by Express and blocked (403) by the middleware, whatever the method, because `getAllowedOrigin("")` is null; an absent origin passes both |
| `ExpressApp.AdvertisedMethodsMatch` | src/index.ts:25 | the advertised methods, joined with ", ", are CORS_METHODS |
| `ExpressApp.AdvertisedHeadersMatch` | src/index.ts:26 | the advertised headers, joined with ", ", are CORS_ALLOWED_HEADERS |

## Left out

- Environment reads (`process.env`) are parameters. The allowlist is computed from CORS_ORIGINS once, at load (`Cors.ParseAllowlist`), and the gates take that parsed allowlist as a parameter.
- src/index.ts repeats the allowlist pipeline and `isVercel` of src/lib/cors.ts verbatim. The model defines each once (`Cors.ParseAllowlist`, `Cors.IsVercel`) and the Express module uses them.
- The network call: `fetch`, `res.json()`, `res.text()` and `JSON.stringify` are foreign calls. Their results are inputs, and a sent body is the JSON value whose serialisation is sent. The error object raised when reading a successful response's body fails is kept abstract (`BodyReadFailure`).
- JSON numbers are kept as their literal text; floating point is not modelled.
- `NextResponse`, the `Headers` class and the `express`/`cors` libraries are not modelled. This includes the case-insensitive header names of `Headers`, the order `Object.entries` visits keys, how `cors` turns a verdict into response headers, and the registration of the handler with `app.use`.
- The request method is taken as given; the platform's normalisation of method names is not modelled.
- `ApiError`'s `name` field (always "ApiError") and its inheritance from `Error` are not modelled. An `ApiError` is a variant carrying message, status and details.
- The pages, components and the auth-token helper are user-interface glue and are not part of this model. That includes the trimmed-name check, the token-length check in the login callback and the display-name fallback.
- The week and month range helpers and the weekday-mask helpers that live inside the pages go with the pages and are not modelled.
