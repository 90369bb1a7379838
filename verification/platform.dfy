/**
  The few pieces of the Java platform the plugin relies on, stated as values:
  nullable references, exceptions, the outcome of opening a stream, and the
  `String` operations `startsWith` and `indexOf`.
 */
module Platform {

  /** A Java reference that may be `null`. */
  datatype Option<+T> = None | Some(value: T)

  /** An exception in flight. `IOError` is `java.io.IOException` and its
      subclasses (the only kind `copyFromUri` catches); `NotIO` is every
      other exception, checked or not, named by its class. */
  datatype Exc = IOError(message: string) | NotIO(name: string)

  /** Dereferencing `null`. */
  const NullDeref: Exc := NotIO("NullPointerException")

  /** The JSON argument array held fewer entries than were read from it. */
  const MissingArgument: Exc := NotIO("JSONException")

  /** What a call that opens a stream can do: hand back a stream, hand back
      `null`, or throw. */
  datatype Attempt<+S> = Ok(stream: S) | Null | Threw(error: Exc)

  /** `s.startsWith(p)`, for strings and any other sequence. */
  predicate StartsWith<T(==)>(s: seq<T>, p: seq<T>)
  {
    |p| <= |s| && s[..|p|] == p
  }

  /** `s.indexOf(c)`: the position of the first `c` in `s`, or -1. */
  function IndexOf(s: string, c: char): (r: int)
    ensures -1 <= r < |s|
    ensures r == -1 <==> c !in s
    ensures r >= 0 ==> s[r] == c && c !in s[..r]
  {
    if s == [] then -1
    else if s[0] == c then 0
    else
      var k := IndexOf(s[1..], c);
      if k == -1 then -1 else k + 1
  }
}
