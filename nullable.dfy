/** Java's nullable references and thrown exceptions, as values. */
module Nullable {

  /** A reference that may be `null` (`None`). */
  datatype Option<+T> = None | Some(value: T)

  /** The runtime exceptions the modelled code can raise. */
  datatype JavaException =
    | StringIndexOutOfBounds(begin: int, end: int, length: int)

  /** The outcome of an expression that either yields a value or throws. */
  datatype Result<+T> = Ok(value: T) | Thrown(error: JavaException)

  /** `String.substring(begin, end)`: throws unless `0 <= begin <= end <= length`. */
  function Substring(s: string, begin: int, end: int): (r: Result<string>)
    ensures r.Ok? <==> 0 <= begin <= end <= |s|
    ensures r.Ok? ==> |r.value| == end - begin && s == s[..begin] + r.value + s[end..]
    ensures r.Thrown? ==> r.error == StringIndexOutOfBounds(begin, end, |s|)
  {
    if 0 <= begin <= end <= |s| then Ok(s[begin..end])
    else Thrown(StringIndexOutOfBounds(begin, end, |s|))
  }
}
