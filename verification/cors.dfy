/**
 * The cross-origin gate installed in front of every route (app.js:13-34):
 * an origin is let through when it is one of four fixed strings, or when the
 * request carries no origin at all (an absent or empty header).
 */
module Cors {

  import opened Wrappers

  const ACCEPTED_ORIGINS: seq<string> := [
    "http://localhost:8080",
    "http://localhost:1234",
    "http://movies.com",
    "http://midu.dev"
  ]

  /** What the origin callback reports: allow, or an error that fails the request. */
  datatype Decision = Allow | Reject(message: string)

  /** `list.includes(x)`; an absent `x` (undefined) is never included in a list of strings. */
  function Includes(list: seq<string>, x: Option<string>): (r: bool)
    ensures r <==> x.Some? && exists k :: 0 <= k < |list| && list[k] == x.value
  {
    if list == [] then false
    else (x.Some? && list[0] == x.value) || Includes(list[1..], x)
  }

  /** JavaScript falsiness of a header value: undefined or the empty string. */
  predicate Falsy(origin: Option<string>)
    ensures Falsy(origin) <==> origin == None || origin == Some("")
  {
    origin.None? || origin.value == ""
  }

  /** The `origin` option of the cors middleware. */
  function CheckOrigin(origin: Option<string>): (d: Decision)
    ensures d.Allow? <==>
      || origin.None?
      || origin.value == ""
      || origin.value == "http://localhost:8080"
      || origin.value == "http://localhost:1234"
      || origin.value == "http://movies.com"
      || origin.value == "http://midu.dev"
    ensures d.Reject? ==> d.message == "Not allowed by CORS"
  {
    if Includes(ACCEPTED_ORIGINS, origin) then Allow
    else if Falsy(origin) then Allow
    else Reject("Not allowed by CORS")
  }

  /** A listed origin, a missing origin and a foreign origin. */
  lemma CheckOriginExamples()
    ensures CheckOrigin(None) == Allow
    ensures CheckOrigin(Some("http://midu.dev")) == Allow
    ensures CheckOrigin(Some("http://evil.com")).Reject?
  {
  }

  /** Any non-empty origin that is not in the list is refused. */
  lemma UnlistedOriginRejected(origin: string)
    requires origin != ""
    requires forall k :: 0 <= k < |ACCEPTED_ORIGINS| ==> ACCEPTED_ORIGINS[k] != origin
    ensures CheckOrigin(Some(origin)) == Reject("Not allowed by CORS")
  {
  }
}
