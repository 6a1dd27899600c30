/**
 * The two record kinds of models.py, `Actor` and `Movie`, and their
 * `format()` dictionaries.
 */
module Models {
  import opened Wrappers
  import opened Json

  /** `GenderChoices`: the values the `gender` column accepts. */
  datatype Gender = Male | Female | NonBinary | Other

  function GenderValue(g: Gender): string
  {
    match g
    case Male => "MALE"
    case Female => "FEMALE"
    case NonBinary => "NON_BINARY"
    case Other => "OTHER"
  }

  /** How the enum column reads a string: by member name (here equal to the value). */
  function ParseGender(s: string): (r: Option<Gender>)
    ensures r.Some? <==> s in {"MALE", "FEMALE", "NON_BINARY", "OTHER"}
  {
    if s == "MALE" then Some(Male)
    else if s == "FEMALE" then Some(Female)
    else if s == "NON_BINARY" then Some(NonBinary)
    else if s == "OTHER" then Some(Other)
    else None
  }

  /** Parsing and the stored value are inverse to each other. */
  lemma GenderRoundTrip(g: Gender, s: string)
    ensures ParseGender(GenderValue(g)) == Some(g)
    ensures ParseGender(s) == Some(g) <==> GenderValue(g) == s
  {
  }

  /** A row of the `actors` table; every column but the key may be NULL. */
  datatype Actor = Actor(id: int, name: Option<string>, age: Option<int>, gender: Option<Gender>)

  /** A row of the `movies` table. The release date is kept in its serialised form. */
  datatype Movie = Movie(id: int, title: Option<string>, releaseDate: Option<string>)

  function ActorId(a: Actor): int { a.id }

  function MovieId(m: Movie): int { m.id }

  function OptString(v: Option<string>): Json
  {
    if v.Some? then JStr(v.value) else JNull
  }

  function OptInt(v: Option<int>): Json
  {
    if v.Some? then JInt(v.value) else JNull
  }

  /** `Actor.format()`. */
  function FormatActor(a: Actor): (j: Json)
    ensures j.JObj? && j.fields.Keys == {"id", "name", "age", "gender"}
    ensures j.fields["id"] == JInt(a.id)
  {
    JObj(map["id" := JInt(a.id), "name" := OptString(a.name), "age" := OptInt(a.age),
             "gender" := if a.gender.Some? then JStr(GenderValue(a.gender.value)) else JNull])
  }

  /** `Movie.format()`. */
  function FormatMovie(m: Movie): (j: Json)
    ensures j.JObj? && j.fields.Keys == {"id", "title", "release_date"}
    ensures j.fields["id"] == JInt(m.id)
  {
    JObj(map["id" := JInt(m.id), "title" := OptString(m.title), "release_date" := OptString(m.releaseDate)])
  }

  /** `format()` loses nothing: two actors with the same dictionary are the same row. */
  lemma FormatActorInjective(a: Actor, b: Actor)
    requires FormatActor(a) == FormatActor(b)
    ensures a == b
  {
    var fa, fb := FormatActor(a).fields, FormatActor(b).fields;
    assert fa["name"] == fb["name"] && fa["age"] == fb["age"] && fa["gender"] == fb["gender"];
    if a.gender.Some? && b.gender.Some? {
      GenderRoundTrip(a.gender.value, GenderValue(b.gender.value));
    }
  }

  lemma FormatMovieInjective(m: Movie, n: Movie)
    requires FormatMovie(m) == FormatMovie(n)
    ensures m == n
  {
    var fm, fn := FormatMovie(m).fields, FormatMovie(n).fields;
    assert fm["title"] == fn["title"] && fm["release_date"] == fn["release_date"];
  }
}
