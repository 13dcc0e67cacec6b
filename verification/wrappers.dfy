/** Option stands for a C# reference that may be null. */
module Wrappers {

  datatype Option<+T> = None | Some(value: T)

  /** C#'s `string.IsNullOrEmpty`: a null string and the empty string are treated alike. */
  predicate IsNullOrEmpty(s: Option<string>)
  {
    s.None? || s.value == []
  }

  /** What C# string interpolation renders for a possibly-null string: null renders as nothing. */
  function OrEmpty(s: Option<string>): (r: string)
    ensures r == [] <==> IsNullOrEmpty(s)
    ensures !IsNullOrEmpty(s) ==> r == s.value
  {
    match s
    case None => []
    case Some(v) => v
  }
}
