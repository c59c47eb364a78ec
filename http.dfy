/**
 * The part of the HTTP layer the core touches: status codes, JSON documents
 * and replies. A reply is the pair of its status and its JSON body; the wire
 * encoding of the body is not modelled.
 */
module Http {
  import opened Wrappers

  /** An unsigned 16-bit integer (Rust's u16). */
  type u16 = x: int | 0 <= x < 0x1_0000

  /** http::StatusCode: a u16 with three decimal digits. */
  type StatusCode = c: u16 | 100 <= c <= 999 witness 200

  const OK: StatusCode := 200
  const BAD_REQUEST: StatusCode := 400
  const UNAUTHORIZED: StatusCode := 401
  const NOT_FOUND: StatusCode := 404
  const INTERNAL_SERVER_ERROR: StatusCode := 500

  /** A JSON document, as serde produces it for a reply body. */
  datatype Json =
    | JNull
    | JBool(b: bool)
    | JNumber(n: int)
    | JString(s: string)
    | JArray(items: seq<Json>)
    | JObject(members: seq<(string, Json)>)

  /** The value of the first member named `key` in `members`, if any. */
  function Lookup(members: seq<(string, Json)>, key: string): (r: Option<Json>)
    ensures r.None? <==> forall i :: 0 <= i < |members| ==> members[i].0 != key
    ensures r.Some? ==> exists i :: 0 <= i < |members| && members[i] == (key, r.value)
                                  && forall j :: 0 <= j < i ==> members[j].0 != key
  {
    if members == [] then None
    else if members[0].0 == key then Some(members[0].1)
    else Lookup(members[1..], key)
  }

  /** The member `key` of a JSON object; None for a missing key or a non-object. */
  function Member(j: Json, key: string): Option<Json> {
    if j.JObject? then Lookup(j.members, key) else None
  }

  /** A warp reply: the status it is sent with and the JSON it carries. */
  datatype Reply = Reply(status: StatusCode, body: Json)
}
