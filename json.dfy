/**
 * JSON values as Python's `json` module and Flask's `jsonify` see them:
 * decoded token claims, JWKS entries and response bodies are all objects
 * of this kind.
 */
module Json {
  datatype Json =
    | JNull
    | JBool(b: bool)
    | JInt(i: int)
    | JStr(s: string)
    | JList(items: seq<Json>)
    | JObj(fields: map<string, Json>)

  /** A decoded JSON object such as a token payload or header. */
  type Claims = map<string, Json>
}
