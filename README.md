# Capstone casting API: a verified model of its authorization and request handling

This Dafny project models the two decision-making parts of a small Flask CRUD
API for actors and movies:

* **The bearer-token pipeline** (`auth/auth.py`). `get_token_auth_header`
  takes the `Authorization` header apart. `verify_decode_jwt` picks
  the signing key from the key set (JWKS) by the token's `kid` and maps the
  outcome of `jwt.decode` to an `AuthError`. `check_permissions` looks the required
  scope up in the `permissions` claim. `requires_auth` runs these three in
  order, and the first exception decides the error.
* **The request handlers** (`flaskr/__init__.py`) over an in-memory store
  that holds the `actors` and `movies` tables as sequences of rows in
  storage order. The model covers the permission each route demands, the create, delete and
  update handlers, the two listings, and the error handlers that turn
  exceptions into responses.

Python exceptions are values: `Auth.Exc` is an `AuthError`, a
`flask.abort(status)`, or any other exception (`Unexpected`: a `KeyError`,
a `TypeError`, a jose parse error, a database error). Every stage returns
`Ok(value)` or `Raise(exc)`. `Api.HandleException` is what Flask does with
an exception that leaves a handler. The `AuthError` handler answers with the
error's own status and description. A status with a registered handler (401,
404, 405, 422, 500) gets that handler's JSON body. A status without one
(400) gets werkzeug's default error page. Any other exception goes to the
500 handler.

Things the code does that the model keeps:

* PATCH on a missing id answers **400**, not 404. The `abort(404)` is raised
  inside the `try`, and the `except Exception` around it re-aborts with 400.
  No handler is registered for 400, so the body is werkzeug's default page.
* POST /movies returns the new movie under the key `"actor"`.
* PATCH changes a field only when the body's value for it is truthy. An
  empty name or title, age 0, or an absent or null entry leaves the field as
  it was.
* `permission in payload['permissions']` follows Python's `in`. On a list it
  tests membership. On a string it tests for a substring. On an object it
  tests for a key. On a number, boolean or null it raises `TypeError`, which
  becomes a 500.
* A JWKS entry without `kid`, or a matching entry without one of `kty`,
  `kid`, `use`, `n`, `e`, raises `KeyError` outside any `try`, which becomes
  a 500. Among matching entries, the last one wins.
* A token whose header jose cannot parse raises outside any `try`, which
  becomes a 500.

Inputs that stand for code outside the model:

* `Auth.Jose` is the jose library: `unverifiedHeader` is
  `jwt.get_unverified_header` (None when it raises) and `decode` is
  `jwt.decode`, which returns one of four outcomes: decoded claims,
  expired, wrong claims, or any other failure.
* The key set that `urlopen` fetches is the `keys` argument.
* The database supplies the new row's key (`newId`) and its verdict on an
  insert or commit (`dbAccepts`). The verdict covers constraints that are
  not visible in the code.

Module layout: `wrappers.dfy` (Option), `json.dfy` (JSON values),
`text.dfy` (Python's `str.split()`, `lower()` and `in` between strings),
`auth.dfy` (auth/auth.py), `models.dfy` (the records of models.py and their
`format()`), `table.dfy` (row lookup, removal and listing), `api.dfy`
(flaskr/__init__.py).

## Model

| member | source | states |
|---|---|---|
| `Text.Split` | auth/auth.py:36 | every piece `split()` returns is non-empty and free of whitespace |
| `Text.SplitConcat` | auth/auth.py:36 | splitting words joined by whitespace runs gives back exactly those words, in order |
| `Text.SplitSeparators` | auth/auth.py:36 | every header is its `split()` pieces joined by whitespace runs, with non-empty runs between pieces |
| `Text.Lower` | auth/auth.py:41 | `lower()` keeps the length and lowers each character |
| `Text.IsSubstring` | auth/auth.py:55 | Python's `in` between two strings: the empty string is in every string, and a string is in another only if it is no longer |
| `Text.SubstringAt` | auth/auth.py:55 | a string occurring at some position of another is `in` it (Python's substring test) |
| `Text.SubstringWitness` | auth/auth.py:55 | conversely, a string `in` another occurs at some position of it |
| `Auth.GetTokenAuthHeader` | auth/auth.py:31-43 | every failure is `abort(401)`, a missing header fails, and a returned token is non-empty with no whitespace |
| `Auth.BearerHeaderAccepted` | auth/auth.py:35-43 | header = whitespace, a scheme that lowers to "bearer", whitespace, a token, whitespace: the token returned is exactly that token |
| `Auth.AcceptedHeaderShape` | auth/auth.py:35-43 | conversely, a header that yields a token has exactly that shape around it |
| `Auth.WrongWordCountRefused` | auth/auth.py:39-40 | a header that is not exactly two words gets abort(401) |
| `Auth.ContainsPermission` | auth/auth.py:55 | Python's `in` on the `permissions` value: list membership for a list, a substring test for a string, key membership for an object, TypeError for a number, boolean or null |
| `Auth.CheckPermissions` | auth/auth.py:47-61 | missing `permissions` claim gives 400 `invalid_claims` (checked first); for a list, success exactly when the permission is listed, otherwise 403 `unauthorized`; whatever the claim's type, a positive `in` gives True, a negative `in` gives 403 and a `TypeError` from `in` gives a 500 |
| `Auth.ListedPermissionGranted` | auth/auth.py:55-61 | a permission listed in the claim is granted |
| `Auth.StringClaimIsSubstringTest` | auth/auth.py:55 | a string-valued claim grants any permission that occurs in it as a substring |
| `Auth.RsaKeyOf` | auth/auth.py:82-88 | the key built from a match has exactly the fields kty, kid, use, n, e, copied unchanged |
| `Auth.LastMatch` | auth/auth.py:80-81 | the index of the last entry whose `kid` equals the token's; none when no entry matches |
| `Auth.AnyFaulty` | auth/auth.py:80-87 | holds exactly when some entry lacks `kid`, or matches and lacks one of the copied fields |
| `Auth.KeyChoice` | auth/auth.py:73-88 | KeyError exactly when some entry is faulty; no key exactly when no entry matches; otherwise the fields of the last matching entry |
| `Auth.SelectKey` | auth/auth.py:73-88 | the loop over the key set ends with exactly `KeyChoice` (the invariant: the last match so far) |
| `Auth.DecodeOutcome` | auth/auth.py:92-118 | decoded gives the payload unchanged; expired gives 401 token_expired; wrong claims give 401 invalid_claims; any other failure gives 400 invalid_header |
| `Auth.Verify` | auth/auth.py:65-123 | each branch of the function: an unparsable header or a KeyError in the key loop raises (500); no `kid` gives 401 invalid_header; no matching key gives 400 invalid_header; with a selected key the outcome is exactly `DecodeOutcome` of `jwt.decode` with that key; and a payload is returned only via that decode |
| `Auth.VerifyDecodeJwt` | auth/auth.py:65-123 | the method computes `Verify` |
| `Auth.NoKidIsMalformed` | auth/auth.py:74-78 | a token header without `kid` gives 401 invalid_header "Authorization malformed." |
| `Auth.NoKeyNoDecode` | auth/auth.py:91-123 | with no matching key the result is 400 "Unable to find the appropriate key." and does not depend on the decoder |
| `Auth.Authorize` | auth/auth.py:130-134 | the handler's payload is the verified payload and has passed the permission check; a header failure gives 401; a verification failure, or else a permission failure, is passed on unchanged |
| `Auth.RequiresAuth` | auth/auth.py:127-134 | the method computes `Authorize`: header check, then verification, then permission check |
| `Auth.AuthorizedOnlyIfAllStagesPass` | auth/auth.py:130-134 | the handler runs exactly when all three stages succeed, and it receives the verified payload |
| `Auth.HeaderCheckedFirst` | auth/auth.py:131-132 | a bad or missing header gives 401 whatever the key set and the token |
| `Auth.VerificationBeforePermission` | auth/auth.py:132-133 | a verification failure is the result whatever permission is asked for |
| `Auth.MissingScopeForbidden` | auth/auth.py:55-59 | a verified payload whose permission list lacks the scope gives 403 unauthorized |
| `Auth.ExpiredTokenRefused` | auth/auth.py:102-106 | an expired token gives 401 token_expired whatever the permission |
| `Models.ParseGender` | models.py:30-34 | a gender string is accepted exactly when it is MALE, FEMALE, NON_BINARY or OTHER |
| `Models.GenderRoundTrip` | models.py:30-50 | parsing a gender's stored value gives it back, and only that value parses to it |
| `Models.FormatActor` | models.py:63-69 | `format()` of an actor has exactly the keys id, name, age, gender, with id the row's key |
| `Models.FormatMovie` | models.py:96-101 | `format()` of a movie has exactly the keys id, title, release_date, with id the row's key |
| `Models.FormatActorInjective` | models.py:63-69 | two actors with the same formatted dictionary are the same row |
| `Models.FormatMovieInjective` | models.py:96-101 | two movies with the same formatted dictionary are the same row |
| `Table.IndexOf` | flaskr/__init__.py:132 | `one_or_none()`: a position holding that key, or none exactly when no row has it |
| `Table.RemoveById` | flaskr/__init__.py:132-135 | removing the found row keeps keys unique, removes the key, and keeps every row with another key |
| `Table.AppendFresh` | models.py:47 | appending a row under an unused key keeps keys unique |
| `Table.Listing` | flaskr/__init__.py:51 | the list comprehension formats every row, in order |
| `Api.HandlerMessage` | flaskr/__init__.py:239-286 | handlers are registered for exactly 401, 404, 405, 422 and 500 |
| `Api.HandleException` | flaskr/__init__.py:239-296 | an AuthError answers with its own status and description; an abort answers with its status; any other exception answers 500; every JSON error body has success false and error equal to the status |
| `Api.StatusHandlers` | flaskr/__init__.py:239-286 | 422 "unprocessable", 500 "Internal Server Error", 404 "Not Found", 405 "Method Not Allowed", 401 "Unauthorized"; 400 gets the default page |
| `Api.Gate` | flaskr/__init__.py:70-210 | each protected route runs `requires_auth` with its own permission: a payload it passes has that permission, and a request without a header gets abort(401) |
| `Api.Scope` | flaskr/__init__.py:46-210 | exactly the two GET routes demand no permission |
| `Api.ScopesDistinct` | flaskr/__init__.py:70-210 | no two protected routes share a permission |
| `Api.ForbiddenWithoutScope` | flaskr/__init__.py:288-296 | on every protected route, a token lacking its scope gets 403 "Permission not found." |
| `Api.NoHeaderUnauthorized` | flaskr/__init__.py:279-286 | on every protected route, a request without an Authorization header gets 401 "Unauthorized" |
| `Api.ExpiredTokenResponse` | auth/auth.py:102-106 | on every protected route, an expired token gets 401 "Token expired." |
| `Api.NewActor` | flaskr/__init__.py:75-80 | a new actor carries the supplied name and age and the assigned key; it stores the supplied gender parsed into the enum, or none when none is supplied; it cannot be built exactly when a gender is supplied that is not an enum member |
| `Api.NewMovie` | flaskr/__init__.py:106-110 | a new movie carries the supplied title and release date under the assigned key |
| `Api.MergeActor` | flaskr/__init__.py:184-193 | the key is kept; a field changes only to a truthy supplied value, and every truthy supplied value is taken; an invalid gender fails the commit |
| `Api.MergeMovie` | flaskr/__init__.py:219-225 | the key is kept; title and release date change only to, and always to, truthy supplied values |
| `Api.MergeActorIdempotent` | flaskr/__init__.py:184-193 | applying the same body a second time changes nothing more |
| `Api.FalsyBodyKeepsActor` | flaskr/__init__.py:184-193 | a body with no truthy entry leaves the actor unchanged |
| `Api.FalsyBodyKeepsMovie` | flaskr/__init__.py:219-225 | a body with no truthy entry leaves the movie unchanged |
| `Api.Insert` | flaskr/__init__.py:79-93 | the row is appended and returned with success true exactly when it can be built, its key is free and the database accepts it; otherwise 422 and nothing changes |
| `Api.Delete` | flaskr/__init__.py:132-145 | a missing id gives 422 and changes nothing; otherwise the found row goes and the body is success true with the requested id |
| `Api.DeleteRemovesExactly` | flaskr/__init__.py:132-141 | a successful delete removes exactly the rows with that key and keeps keys unique |
| `Api.SecondDeleteUnprocessable` | flaskr/__init__.py:132-145 | after a delete, deleting the same id again gives 422 "unprocessable" and changes nothing |
| `Api.CreatedIsListed` | flaskr/__init__.py:48-52 | after a successful create, the listing is the old listing followed by the new row |
| `Api.App.constructor` | flaskr/__init__.py:14-17 | the app opens the tables as the database already holds them (`db.create_all()` empties nothing), given that each table's keys are unique |
| `Api.App.GetActors` | flaskr/__init__.py:46-52 | 200 with success true and every actor formatted, in storage order; no token is read |
| `Api.App.GetMovies` | flaskr/__init__.py:57-63 | 200 with success true and every movie formatted, in storage order; no token is read |
| `Api.App.CreateActor` | flaskr/__init__.py:70-93 | requires `create:actor`; an auth failure answers through the handlers and changes nothing; otherwise `Insert` under the key "actor" |
| `Api.App.CreateMovie` | flaskr/__init__.py:101-122 | requires `create:movie`; otherwise `Insert`, returning the movie under the key "actor" |
| `Api.App.DeleteActor` | flaskr/__init__.py:129-145 | requires `delete:actor`; otherwise `Delete` on the actors; the movies are untouched |
| `Api.App.DeleteMovie` | flaskr/__init__.py:152-167 | requires `delete:movie`; otherwise `Delete` on the movies; the actors are untouched |
| `Api.App.PatchActor` | flaskr/__init__.py:174-202 | requires `patch:actor`; a missing id answers 400 with the default page; otherwise only that actor becomes `MergeActor` of it and 200 returns it; a failed commit answers 400 and changes nothing |
| `Api.App.PatchMovie` | flaskr/__init__.py:209-234 | requires `patch:movie`; a missing id answers 400; otherwise only that movie becomes `MergeMovie` of it and 200 returns it under "movie" |

## Left out

- Network I/O. The JWKS fetch with `urlopen` (auth/auth.py:67-68) is not modelled: the key list is an input, and a failed fetch or a malformed JWKS document is not modelled.
- The jose library. Signature, expiry, audience and issuer checks inside `jwt.decode`, and header parsing in `get_unverified_header`, are the `Jose` oracle.
- Configuration. `load_dotenv` and `os.getenv` (auth/auth.py:10-15) are not modelled, and neither are the algorithm list, audience and issuer they supply.
- The ORM. SQLAlchemy sessions, `commit`, `db.create_all` and the rollback on teardown become the in-memory tables. The database's key assignment and its constraint checks are the `newId` and `dbAccepts` inputs.
- Api.App.DeleteActor, Api.App.DeleteMovie: a database failure during `delete()` also gives 422 in the code; the model has no verdict input for deletes, so a found row is always removed.
- Driver coercion. Conversion of a string age such as "47" to an integer, and of date strings to `DateTime`, is not modelled. Body entries arrive already typed, and a release date is kept in its serialised form.
- Request parsing. A body that is missing or is not a JSON object (`body.get` raising) is not modelled, and neither are entries of the wrong JSON type.
- Storage order. Postgres gives no order for `query.all()` without ORDER BY. The model uses the order of insertion, with updates in place.
- Python equality between JSON values is modelled structurally. Python's `1 == True` conflation, which could matter only for a non-string `kid`, is not modelled.
- `Text.Lower` lowers ASCII letters only. It is used only to compare against "bearer", and no non-ASCII character lowers to one of its letters, so the comparison agrees with Python's.
- The header lookup in `request.headers` is case-insensitive in werkzeug. The model receives the value already looked up, or None.
- The index route `GET /` (flaskr/__init__.py:37-41) returns a fixed greeting and has no logic.
- CORS. `CORS(app)` and the `after_request` headers (flaskr/__init__.py:18-29) are framework configuration.
- Logging. The `print(e)` in every `except` branch of the handlers (flaskr/__init__.py:89, 119, 144, 166, 196, 228) writes to standard output only and does not affect the response or the store.
