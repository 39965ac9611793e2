/** Shared vocabulary: optional values, HTTP-style error results, and the
    JavaScript notion of a "truthy" request field. */
module Common {

  /** Database identifiers (Mongo ObjectIds), abstracted to naturals. */
  type Id = nat

  datatype Option<+T> = None | Some(value: T)

  /** An HTTP error response: status code and the `message` of its JSON body. */
  datatype Error = Error(status: nat, message: string)

  /** Either the success value of a handler or the error response it sends. */
  datatype Result<+T> = Ok(value: T) | Err(error: Error)

  /** A pass/fail decision of a gate that produces no value of its own. */
  datatype Outcome = Pass | Fail(error: Error)

  /** Any handler whose database call throws answers 500 with this message. */
  const ServerError := Error(500, "Server error")

  /** A request field as JavaScript's `if (field)` sees it: absent and the
      empty string are falsy, every other string is truthy. */
  predicate Truthy(f: Option<string>) {
    f.Some? && f.value != ""
  }

  /** The position of the first element satisfying `p`, as a scan of the
      collection in insertion order (Mongo's `findOne`) finds it. */
  function FirstIndex<T>(s: seq<T>, p: T -> bool): (r: Option<nat>)
    ensures r.Some? ==> r.value < |s| && p(s[r.value])
    ensures r.Some? ==> forall j :: 0 <= j < r.value ==> !p(s[j])
    ensures r.None? ==> forall j :: 0 <= j < |s| ==> !p(s[j])
    decreases |s|
  {
    if |s| == 0 then None
    else if p(s[0]) then Some(0)
    else
      match FirstIndex(s[1..], p)
      case None => None
      case Some(k) => Some(k + 1)
  }
}
