/**
 * The request handling of flaskr/__init__.py over an in-memory store: the
 * permission each route demands, the create, delete and update handlers,
 * the two listings, and the error handlers that turn exceptions into
 * responses.
 */
module Api {
  import opened Wrappers
  import opened Json
  import opened Auth
  import opened Models
  import opened Table

  // ---------------------------------------------------------------------
  // Responses and error handlers

  /** A body: a JSON document, or werkzeug's own page for a status no handler is registered for. */
  datatype Page = JsonPage(json: Json) | DefaultErrorPage

  datatype Response = Response(status: int, page: Page)

  function ErrorBody(status: int, message: string): Json
  {
    JObj(map["success" := JBool(false), "error" := JInt(status), "message" := JStr(message)])
  }

  function SuccessBody(key: string, value: Json): Json
  {
    JObj(map["success" := JBool(true), key := value])
  }

  /** The messages of the handlers registered with `@app.errorhandler(status)`. */
  function HandlerMessage(status: int): (m: Option<string>)
    ensures m.Some? <==> status in {401, 404, 405, 422, 500}
  {
    if status == 422 then Some("unprocessable")
    else if status == 500 then Some("Internal Server Error")
    else if status == 404 then Some("Not Found")
    else if status == 405 then Some("Method Not Allowed")
    else if status == 401 then Some("Unauthorized")
    else None
  }

  /**
   * The response Flask produces for an exception leaving a handler: the
   * `AuthError` handler answers with the error's own status and description,
   * an `abort(status)` goes to the handler registered for that status, and
   * any other exception goes to the handler for 500.
   */
  function HandleException(e: Exc): (r: Response)
    ensures e.AuthFailure? ==>
              r == Response(e.error.statusCode, JsonPage(ErrorBody(e.error.statusCode, e.error.description)))
    ensures e.HttpAbort? ==> r.status == e.code
    ensures e.HttpAbort? ==> (r.page.JsonPage? <==> e.code in {401, 404, 405, 422, 500})
    ensures e.Unexpected? ==> r == Response(500, JsonPage(ErrorBody(500, "Internal Server Error")))
    ensures r.page.JsonPage? ==>
              && r.page.json.JObj?
              && r.page.json.fields.Keys == {"success", "error", "message"}
              && r.page.json.fields["success"] == JBool(false)
              && r.page.json.fields["error"] == JInt(r.status)
  {
    match e
    case AuthFailure(err) => Response(err.statusCode, JsonPage(ErrorBody(err.statusCode, err.description)))
    case HttpAbort(code) =>
      (match HandlerMessage(code)
       case Some(message) => Response(code, JsonPage(ErrorBody(code, message)))
       case None => Response(code, DefaultErrorPage))
    case Unexpected => Response(500, JsonPage(ErrorBody(500, "Internal Server Error")))
  }

  /** The fixed responses of the five status handlers. */
  lemma StatusHandlers()
    ensures HandleException(HttpAbort(422)) == Response(422, JsonPage(ErrorBody(422, "unprocessable")))
    ensures HandleException(HttpAbort(500)) == Response(500, JsonPage(ErrorBody(500, "Internal Server Error")))
    ensures HandleException(HttpAbort(404)) == Response(404, JsonPage(ErrorBody(404, "Not Found")))
    ensures HandleException(HttpAbort(405)) == Response(405, JsonPage(ErrorBody(405, "Method Not Allowed")))
    ensures HandleException(HttpAbort(401)) == Response(401, JsonPage(ErrorBody(401, "Unauthorized")))
    ensures HandleException(HttpAbort(400)) == Response(400, DefaultErrorPage)
  {
  }

  // ---------------------------------------------------------------------
  // Routes and the permission each demands

  datatype Route =
    | ActorsGet     // GET /actors
    | MoviesGet     // GET /movies
    | ActorsPost    // POST /actors
    | MoviesPost    // POST /movies
    | ActorDelete   // DELETE /actors/<id>
    | MovieDelete   // DELETE /movies/<id>
    | ActorPatch    // PATCH /actors/<id>
    | MoviePatch    // PATCH /movies/<id>

  /** The argument of the route's `@requires_auth`, or None for a route without one. */
  function Scope(route: Route): (r: Option<string>)
    ensures r.None? <==> route in {ActorsGet, MoviesGet}
  {
    match route
    case ActorsGet => None
    case MoviesGet => None
    case ActorsPost => Some("create:actor")
    case MoviesPost => Some("create:movie")
    case ActorDelete => Some("delete:actor")
    case MovieDelete => Some("delete:movie")
    case ActorPatch => Some("patch:actor")
    case MoviePatch => Some("patch:movie")
  }

  /** No two protected routes share a permission. */
  lemma ScopesDistinct(r1: Route, r2: Route)
    requires Scope(r1).Some? && Scope(r1) == Scope(r2)
    ensures r1 == r2
  {
  }

  /** What `requires_auth` reads besides the permission: the `Authorization` header, the fetched key set and the jose library. */
  datatype AuthContext = AuthContext(authorization: Option<string>, keys: seq<Jwk>, jose: Jose)

  /** The outcome of the route's `requires_auth`. */
  function Gate(route: Route, ctx: AuthContext): (r: Outcome<Claims>)
    requires Scope(route).Some?
    ensures r.Ok? ==> CheckPermissions(Scope(route).value, r.value) == Ok(true)
    ensures ctx.authorization.None? ==> r == Raise(HttpAbort(401))
  {
    Authorize(Scope(route).value, ctx.authorization, ctx.keys, ctx.jose)
  }

  /** A token whose `permissions` list lacks the route's permission gets 403 "Permission not found.". */
  lemma ForbiddenWithoutScope(route: Route, ctx: AuthContext)
    requires Scope(route).Some?
    requires GetTokenAuthHeader(ctx.authorization).Ok?
    requires var v := Verify(GetTokenAuthHeader(ctx.authorization).value, ctx.keys, ctx.jose);
             && v.Ok? && "permissions" in v.value && v.value["permissions"].JList?
             && JStr(Scope(route).value) !in v.value["permissions"].items
    ensures Gate(route, ctx).Raise?
    ensures HandleException(Gate(route, ctx).exc) == Response(403, JsonPage(ErrorBody(403, "Permission not found.")))
  {
    MissingScopeForbidden(Scope(route).value, ctx.authorization, ctx.keys, ctx.jose);
  }

  /** A request without an `Authorization` header gets the 401 handler's "Unauthorized". */
  lemma NoHeaderUnauthorized(route: Route, ctx: AuthContext)
    requires Scope(route).Some? && ctx.authorization.None?
    ensures Gate(route, ctx).Raise?
    ensures HandleException(Gate(route, ctx).exc) == Response(401, JsonPage(ErrorBody(401, "Unauthorized")))
  {
  }

  /** An expired token gets 401 "Token expired.". */
  lemma ExpiredTokenResponse(route: Route, ctx: AuthContext)
    requires Scope(route).Some?
    requires GetTokenAuthHeader(ctx.authorization).Ok?
    requires var token := GetTokenAuthHeader(ctx.authorization).value;
             var h := ctx.jose.unverifiedHeader(token);
             && h.Some? && "kid" in h.value
             && KeyChoice(ctx.keys, h.value["kid"]).Ok? && KeyChoice(ctx.keys, h.value["kid"]).value.Some?
             && ctx.jose.decode(token, KeyChoice(ctx.keys, h.value["kid"]).value.value) == Expired
    ensures Gate(route, ctx).Raise?
    ensures HandleException(Gate(route, ctx).exc) == Response(401, JsonPage(ErrorBody(401, "Token expired.")))
  {
    ExpiredTokenRefused(Scope(route).value, ctx.authorization, ctx.keys, ctx.jose);
  }

  // ---------------------------------------------------------------------
  // Request bodies and the records they make

  /** The `name`, `age` and `gender` entries of a JSON body, None when absent or null. */
  datatype ActorFields = ActorFields(name: Option<string>, age: Option<int>, gender: Option<string>)

  /** The `title` and `release_date` entries of a JSON body. */
  datatype MovieFields = MovieFields(title: Option<string>, releaseDate: Option<string>)

  /** Python truthiness of `body.get(...)` for a string entry. */
  predicate TruthyString(v: Option<string>)
  {
    v.Some? && v.value != ""
  }

  /** Python truthiness of `body.get(...)` for an integer entry. */
  predicate TruthyInt(v: Option<int>)
  {
    v.Some? && v.value != 0
  }

  /** `Actor(name=..., age=..., gender=...)` under the key the database assigns; None when the gender string is not a member of the enum. */
  function NewActor(body: ActorFields, id: int): (r: Option<Actor>)
    ensures r.None? <==> body.gender.Some? && ParseGender(body.gender.value).None?
    ensures r.Some? ==> r.value.id == id && r.value.name == body.name && r.value.age == body.age
    ensures r.Some? && r.value.gender.Some? ==> body.gender == Some(GenderValue(r.value.gender.value))
    ensures r.Some? ==> r.value.gender == (if body.gender.Some? then ParseGender(body.gender.value) else None)
  {
    match body.gender
    case None => Some(Actor(id, body.name, body.age, None))
    case Some(s) =>
      match ParseGender(s)
      case None => None
      case Some(g) => Some(Actor(id, body.name, body.age, Some(g)))
  }

  /** `Movie(title=..., release_date=...)` under the key the database assigns: both entries are stored as supplied. */
  function NewMovie(body: MovieFields, id: int): (m: Movie)
    ensures MovieId(m) == id && m.title == body.title && m.releaseDate == body.releaseDate
  {
    Movie(id, body.title, body.releaseDate)
  }

  /**
   * The actor after PATCH's assignments: a field takes the body's value
   * exactly when the body supplies a truthy one. None when the gender string
   * is not a member of the enum, so the commit fails.
   */
  function MergeActor(a: Actor, body: ActorFields): (r: Option<Actor>)
    ensures r.None? <==> TruthyString(body.gender) && ParseGender(body.gender.value).None?
    ensures r.Some? ==> r.value.id == a.id
    ensures r.Some? && r.value.name != a.name ==> TruthyString(body.name) && r.value.name == body.name
    ensures r.Some? && TruthyString(body.name) ==> r.value.name == body.name
    ensures r.Some? && r.value.age != a.age ==> TruthyInt(body.age) && r.value.age == body.age
    ensures r.Some? && TruthyInt(body.age) ==> r.value.age == body.age
    ensures r.Some? && r.value.gender != a.gender ==>
              && TruthyString(body.gender) && r.value.gender.Some?
              && body.gender == Some(GenderValue(r.value.gender.value))
    ensures r.Some? && TruthyString(body.gender) ==> r.value.gender == ParseGender(body.gender.value)
  {
    var name := if TruthyString(body.name) then body.name else a.name;
    var age := if TruthyInt(body.age) then body.age else a.age;
    if !TruthyString(body.gender) then Some(Actor(a.id, name, age, a.gender))
    else
      match ParseGender(body.gender.value)
      case None => None
      case Some(g) => Some(Actor(a.id, name, age, Some(g)))
  }

  /** The movie after PATCH's assignments. */
  function MergeMovie(m: Movie, body: MovieFields): (r: Movie)
    ensures r.id == m.id
    ensures r.title != m.title ==> TruthyString(body.title) && r.title == body.title
    ensures TruthyString(body.title) ==> r.title == body.title
    ensures r.releaseDate != m.releaseDate ==> TruthyString(body.releaseDate) && r.releaseDate == body.releaseDate
    ensures TruthyString(body.releaseDate) ==> r.releaseDate == body.releaseDate
  {
    Movie(m.id,
          if TruthyString(body.title) then body.title else m.title,
          if TruthyString(body.releaseDate) then body.releaseDate else m.releaseDate)
  }

  /** Applying the same PATCH body twice changes nothing the first did not. */
  lemma MergeActorIdempotent(a: Actor, body: ActorFields)
    requires MergeActor(a, body).Some?
    ensures MergeActor(MergeActor(a, body).value, body) == MergeActor(a, body)
  {
  }

  /** A body whose entries are all falsy (absent, null, "", 0) leaves the actor as it is. */
  lemma FalsyBodyKeepsActor(a: Actor, body: ActorFields)
    requires !TruthyString(body.name) && !TruthyInt(body.age) && !TruthyString(body.gender)
    ensures MergeActor(a, body) == Some(a)
  {
  }

  lemma FalsyBodyKeepsMovie(m: Movie, body: MovieFields)
    requires !TruthyString(body.title) && !TruthyString(body.releaseDate)
    ensures MergeMovie(m, body) == m
  {
  }

  // ---------------------------------------------------------------------
  // Insert and delete on a table

  /**
   * `new_row.insert()` and the response around it: the row is appended when
   * it could be built, its key is free and the database accepts it; any
   * failure aborts with 422. `key` is the response entry holding the row.
   */
  function Insert<T>(rows: seq<T>, idOf: T -> int, row: Option<T>, dbAccepts: bool,
                     key: string, format: T -> Json): (r: (seq<T>, Response))
    ensures UniqueIds(rows, idOf) ==> UniqueIds(r.0, idOf)
    ensures r.1.status == 200 <==> row.Some? && dbAccepts && IndexOf(rows, idOf, idOf(row.value)).None?
    ensures r.1.status == 200 ==>
              r.0 == rows + [row.value] && r.1.page == JsonPage(SuccessBody(key, format(row.value)))
    ensures r.1.status != 200 ==> r.0 == rows && r.1 == HandleException(HttpAbort(422))
  {
    if row.Some? && dbAccepts && IndexOf(rows, idOf, idOf(row.value)).None? then
      AppendFresh(rows, idOf, row.value);
      (rows + [row.value], Response(200, JsonPage(SuccessBody(key, format(row.value)))))
    else (rows, HandleException(HttpAbort(422)))
  }

  /**
   * `row.delete()` on the row found for `id`: the row goes and the response
   * echoes the requested id; when there is no such row, calling `delete` on
   * None raises and the handler aborts with 422.
   */
  function Delete<T>(rows: seq<T>, idOf: T -> int, id: nat): (r: (seq<T>, Response))
    ensures IndexOf(rows, idOf, id).None? ==> r == (rows, HandleException(HttpAbort(422)))
    ensures IndexOf(rows, idOf, id).Some? ==>
              && r.0 == RemoveAt(rows, IndexOf(rows, idOf, id).value)
              && r.1 == Response(200, JsonPage(JObj(map["success" := JBool(true), "id" := JInt(id)])))
  {
    match IndexOf(rows, idOf, id)
    case None => (rows, HandleException(HttpAbort(422)))
    case Some(i) => (RemoveAt(rows, i), Response(200, JsonPage(JObj(map["success" := JBool(true), "id" := JInt(id)]))))
  }

  /** A successful delete removes exactly the rows with that key and keeps keys unique. */
  lemma DeleteRemovesExactly<T>(rows: seq<T>, idOf: T -> int, id: nat)
    requires UniqueIds(rows, idOf)
    requires Delete(rows, idOf, id).1.status == 200
    ensures UniqueIds(Delete(rows, idOf, id).0, idOf)
    ensures forall x :: x in Delete(rows, idOf, id).0 <==> x in rows && idOf(x) != id
  {
    RemoveById(rows, idOf, id);
  }

  /** Deleting the same id twice: the second delete fails with 422 and changes nothing. */
  lemma SecondDeleteUnprocessable<T>(rows: seq<T>, idOf: T -> int, id: nat)
    requires UniqueIds(rows, idOf)
    ensures var once := Delete(rows, idOf, id).0;
            Delete(once, idOf, id) == (once, Response(422, JsonPage(ErrorBody(422, "unprocessable"))))
  {
    if IndexOf(rows, idOf, id).Some? {
      RemoveById(rows, idOf, id);
    }
  }

  /** A created row is listed afterwards, after the rows that were there. */
  lemma CreatedIsListed<T>(rows: seq<T>, idOf: T -> int, row: Option<T>, dbAccepts: bool,
                           key: string, format: T -> Json)
    requires Insert(rows, idOf, row, dbAccepts, key, format).1.status == 200
    ensures Listing(Insert(rows, idOf, row, dbAccepts, key, format).0, format) == Listing(rows, format) + [format(row.value)]
  {
    var after := Insert(rows, idOf, row, dbAccepts, key, format).0;
    assert |Listing(after, format)| == |Listing(rows, format) + [format(row.value)]|;
    forall k | 0 <= k < |after|
      ensures Listing(after, format)[k] == (Listing(rows, format) + [format(row.value)])[k]
    {
      if k < |rows| { assert after[k] == rows[k]; }
    }
  }

  // ---------------------------------------------------------------------
  // The application

  /** The app returned by `create_app()`, with its two tables in storage order. */
  class App {
    var actors: seq<Actor>
    var movies: seq<Movie>

    ghost predicate Valid()
      reads this
    {
      UniqueIds(actors, ActorId) && UniqueIds(movies, MovieId)
    }

    /** The app over whatever the two tables already hold; each table's keys are unique. */
    constructor (actors0: seq<Actor>, movies0: seq<Movie>)
      requires UniqueIds(actors0, ActorId) && UniqueIds(movies0, MovieId)
      ensures Valid() && actors == actors0 && movies == movies0
    {
      actors, movies := actors0, movies0;
    }

    /** GET /actors: every actor, formatted, in storage order; no token needed. */
    function GetActors(): (r: Response)
      reads this
      ensures r.status == 200 && r.page.JsonPage? && r.page.json.JObj?
      ensures r.page.json.fields.Keys == {"success", "actors"} && r.page.json.fields["success"] == JBool(true)
      ensures var listed := r.page.json.fields["actors"];
              listed.JList? && |listed.items| == |actors|
              && forall k :: 0 <= k < |actors| ==> listed.items[k] == FormatActor(actors[k])
    {
      Response(200, JsonPage(SuccessBody("actors", JList(Listing(actors, FormatActor)))))
    }

    /** GET /movies. */
    function GetMovies(): (r: Response)
      reads this
      ensures r.status == 200 && r.page.JsonPage? && r.page.json.JObj?
      ensures r.page.json.fields.Keys == {"success", "movies"} && r.page.json.fields["success"] == JBool(true)
      ensures var listed := r.page.json.fields["movies"];
              listed.JList? && |listed.items| == |movies|
              && forall k :: 0 <= k < |movies| ==> listed.items[k] == FormatMovie(movies[k])
    {
      Response(200, JsonPage(SuccessBody("movies", JList(Listing(movies, FormatMovie)))))
    }

    /** POST /actors with permission `create:actor`; `newId` is the key the database assigns. */
    method CreateActor(ctx: AuthContext, body: ActorFields, newId: int, dbAccepts: bool) returns (resp: Response)
      requires Valid()
      modifies this
      ensures Valid() && movies == old(movies)
      ensures Gate(ActorsPost, ctx).Raise? ==>
                resp == HandleException(Gate(ActorsPost, ctx).exc) && actors == old(actors)
      ensures Gate(ActorsPost, ctx).Ok? ==>
                (actors, resp) == Insert(old(actors), ActorId, NewActor(body, newId), dbAccepts, "actor", FormatActor)
    {
      var auth := RequiresAuth(Scope(ActorsPost).value, ctx.authorization, ctx.keys, ctx.jose);
      if auth.Raise? {
        return HandleException(auth.exc);
      }
      var step := Insert(actors, ActorId, NewActor(body, newId), dbAccepts, "actor", FormatActor);
      actors, resp := step.0, step.1;
    }

    /** POST /movies with permission `create:movie`; the created movie is returned under the key "actor". */
    method CreateMovie(ctx: AuthContext, body: MovieFields, newId: int, dbAccepts: bool) returns (resp: Response)
      requires Valid()
      modifies this
      ensures Valid() && actors == old(actors)
      ensures Gate(MoviesPost, ctx).Raise? ==>
                resp == HandleException(Gate(MoviesPost, ctx).exc) && movies == old(movies)
      ensures Gate(MoviesPost, ctx).Ok? ==>
                (movies, resp) == Insert(old(movies), MovieId, Some(NewMovie(body, newId)), dbAccepts, "actor", FormatMovie)
    {
      var auth := RequiresAuth(Scope(MoviesPost).value, ctx.authorization, ctx.keys, ctx.jose);
      if auth.Raise? {
        return HandleException(auth.exc);
      }
      var step := Insert(movies, MovieId, Some(NewMovie(body, newId)), dbAccepts, "actor", FormatMovie);
      movies, resp := step.0, step.1;
    }

    /** DELETE /actors/<id> with permission `delete:actor`. */
    method DeleteActor(ctx: AuthContext, id: nat) returns (resp: Response)
      requires Valid()
      modifies this
      ensures Valid() && movies == old(movies)
      ensures Gate(ActorDelete, ctx).Raise? ==>
                resp == HandleException(Gate(ActorDelete, ctx).exc) && actors == old(actors)
      ensures Gate(ActorDelete, ctx).Ok? ==> (actors, resp) == Delete(old(actors), ActorId, id)
    {
      var auth := RequiresAuth(Scope(ActorDelete).value, ctx.authorization, ctx.keys, ctx.jose);
      if auth.Raise? {
        return HandleException(auth.exc);
      }
      var step := Delete(actors, ActorId, id);
      if IndexOf(actors, ActorId, id).Some? {
        RemoveById(actors, ActorId, id);
      }
      actors, resp := step.0, step.1;
    }

    /** DELETE /movies/<id> with permission `delete:movie`. */
    method DeleteMovie(ctx: AuthContext, id: nat) returns (resp: Response)
      requires Valid()
      modifies this
      ensures Valid() && actors == old(actors)
      ensures Gate(MovieDelete, ctx).Raise? ==>
                resp == HandleException(Gate(MovieDelete, ctx).exc) && movies == old(movies)
      ensures Gate(MovieDelete, ctx).Ok? ==> (movies, resp) == Delete(old(movies), MovieId, id)
    {
      var auth := RequiresAuth(Scope(MovieDelete).value, ctx.authorization, ctx.keys, ctx.jose);
      if auth.Raise? {
        return HandleException(auth.exc);
      }
      var step := Delete(movies, MovieId, id);
      if IndexOf(movies, MovieId, id).Some? {
        RemoveById(movies, MovieId, id);
      }
      movies, resp := step.0, step.1;
    }

    /**
     * PATCH /actors/<id> with permission `patch:actor`. A missing id answers
     * 400: the `abort(404)` is raised inside the `try` and its
     * `except Exception` aborts with 400. `dbAccepts` is the verdict of the
     * commit in `actor.update()`.
     */
    method PatchActor(ctx: AuthContext, id: nat, body: ActorFields, dbAccepts: bool) returns (resp: Response)
      requires Valid()
      modifies this
      ensures Valid() && movies == old(movies)
      ensures Gate(ActorPatch, ctx).Raise? ==>
                resp == HandleException(Gate(ActorPatch, ctx).exc) && actors == old(actors)
      ensures Gate(ActorPatch, ctx).Ok? && IndexOf(old(actors), ActorId, id).None? ==>
                resp == Response(400, DefaultErrorPage) && actors == old(actors)
      ensures Gate(ActorPatch, ctx).Ok? && IndexOf(old(actors), ActorId, id).Some? ==>
                var i := IndexOf(old(actors), ActorId, id).value;
                var merged := MergeActor(old(actors)[i], body);
                if merged.Some? && dbAccepts then
                  && actors == old(actors)[i := merged.value]
                  && resp == Response(200, JsonPage(SuccessBody("actor", FormatActor(merged.value))))
                else
                  actors == old(actors) && resp == Response(400, DefaultErrorPage)
    {
      var auth := RequiresAuth(Scope(ActorPatch).value, ctx.authorization, ctx.keys, ctx.jose);
      if auth.Raise? {
        return HandleException(auth.exc);
      }
      var found := IndexOf(actors, ActorId, id);
      if found.None? {
        return HandleException(HttpAbort(400));
      }
      var i := found.value;
      var actor := actors[i];
      var genderAccepted := true;
      if TruthyString(body.name) {
        actor := actor.(name := body.name);
      }
      if TruthyInt(body.age) {
        actor := actor.(age := body.age);
      }
      if TruthyString(body.gender) {
        var gender := ParseGender(body.gender.value);
        if gender.Some? {
          actor := actor.(gender := gender);
        } else {
          genderAccepted := false;
        }
      }
      if genderAccepted && dbAccepts {
        ReplaceKeepsKeys(actors, ActorId, i, actor);
        actors := actors[i := actor];
        resp := Response(200, JsonPage(SuccessBody("actor", FormatActor(actor))));
      } else {
        resp := HandleException(HttpAbort(400));
      }
    }

    /** PATCH /movies/<id> with permission `patch:movie`; a missing id answers 400 as for actors. */
    method PatchMovie(ctx: AuthContext, id: nat, body: MovieFields, dbAccepts: bool) returns (resp: Response)
      requires Valid()
      modifies this
      ensures Valid() && actors == old(actors)
      ensures Gate(MoviePatch, ctx).Raise? ==>
                resp == HandleException(Gate(MoviePatch, ctx).exc) && movies == old(movies)
      ensures Gate(MoviePatch, ctx).Ok? && IndexOf(old(movies), MovieId, id).None? ==>
                resp == Response(400, DefaultErrorPage) && movies == old(movies)
      ensures Gate(MoviePatch, ctx).Ok? && IndexOf(old(movies), MovieId, id).Some? ==>
                var i := IndexOf(old(movies), MovieId, id).value;
                var merged := MergeMovie(old(movies)[i], body);
                if dbAccepts then
                  && movies == old(movies)[i := merged]
                  && resp == Response(200, JsonPage(SuccessBody("movie", FormatMovie(merged))))
                else
                  movies == old(movies) && resp == Response(400, DefaultErrorPage)
    {
      var auth := RequiresAuth(Scope(MoviePatch).value, ctx.authorization, ctx.keys, ctx.jose);
      if auth.Raise? {
        return HandleException(auth.exc);
      }
      var found := IndexOf(movies, MovieId, id);
      if found.None? {
        return HandleException(HttpAbort(400));
      }
      var i := found.value;
      var movie := movies[i];
      if TruthyString(body.title) {
        movie := movie.(title := body.title);
      }
      if TruthyString(body.releaseDate) {
        movie := movie.(releaseDate := body.releaseDate);
      }
      if dbAccepts {
        ReplaceKeepsKeys(movies, MovieId, i, movie);
        movies := movies[i := movie];
        resp := Response(200, JsonPage(SuccessBody("movie", FormatMovie(movie))));
      } else {
        resp := HandleException(HttpAbort(400));
      }
    }
  }
}
