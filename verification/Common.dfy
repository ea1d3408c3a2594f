/** Shared value types: optional values, JSON documents, outcomes and run statuses. */
module Common {

  datatype Option<+T> = None | Some(value: T)

  /** A JSON value. Numbers are exact reals; objects are finite maps (a JSON map
      keeps its keys unique). */
  datatype Json =
    | Null
    | Bool(b: bool)
    | Number(n: real)
    | String(s: string)
    | Array(items: seq<Json>)
    | Object(fields: map<string, Json>)
  {
    /** Field lookup; only an object has fields. */
    function Get(key: string): Option<Json> {
      if Object? && key in fields then Some(fields[key]) else None
    }
  }

  /** What a finished node execution reports. */
  datatype Outcome = Success(value: Json) | Failed(error: string)

  datatype RunStatus = Pending | Running | Completed | Failed | Cancelled | Interrupted

  /** The elements of a sequence as a set. */
  function Elements<T(==,!new)>(s: seq<T>): (r: set<T>)
    ensures forall x :: x in r <==> x in s
  {
    set x | x in s
  }

  ghost predicate Distinct<T>(s: seq<T>) {
    forall i, j :: 0 <= i < j < |s| ==> s[i] != s[j]
  }

  function Reversed<T>(s: seq<T>): (r: seq<T>)
    ensures |r| == |s| && forall i :: 0 <= i < |s| ==> r[i] == s[|s| - 1 - i]
  {
    seq(|s|, i requires 0 <= i < |s| => s[|s| - 1 - i])
  }
}
