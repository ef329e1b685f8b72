/** Result types shared by every module. */
module Wrappers {

  datatype Option<+T> = None | Some(value: T)

  /** A value, or the error with which the operation gave up. */
  datatype Result<+T, +E> = Ok(value: T) | Err(error: E)

  /** The gRPC status codes on which some caller branches. */
  datatype Code = InvalidArgument | FailedPrecondition | AlreadyExists | NotFound | Aborted | Unavailable | Internal | Canceled | Other

  /** What is left of a script after its first n entries. */
  function Later<T>(turns: seq<T>, n: nat): seq<T> {
    if |turns| <= n then [] else turns[n..]
  }

  /** Reading a missing key of a Go map of strings gives the empty string. */
  function Lookup(m: map<string, string>, key: string): string {
    if key in m then m[key] else ""
  }
}
