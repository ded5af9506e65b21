/** The one string test the client performs on a topic: `string.IsNullOrWhiteSpace`.
    Which characters count as white space (`Char.IsWhiteSpace`) is a parameter. */
module Strings {
  import opened Wrappers

  /** Reference definition: null, or every character is white space (so the
      empty string is blank too). */
  ghost predicate Blank(s: Option<string>, isWhiteSpace: char -> bool)
  {
    s.None? || forall i :: 0 <= i < |s.value| ==> isWhiteSpace(s.value[i])
  }

  /** Scans the string left to right, stopping at the first visible character. */
  function AllWhiteSpace(s: string, isWhiteSpace: char -> bool): (r: bool)
    ensures r <==> forall i :: 0 <= i < |s| ==> isWhiteSpace(s[i])
  {
    if |s| == 0 then true
    else isWhiteSpace(s[0]) && AllWhiteSpace(s[1..], isWhiteSpace)
  }

  function IsNullOrWhiteSpace(s: Option<string>, isWhiteSpace: char -> bool): (r: bool)
    ensures r <==> Blank(s, isWhiteSpace)
    ensures !r ==> s.Some? && |s.value| > 0
  {
    match s
    case None => true
    case Some(text) => AllWhiteSpace(text, isWhiteSpace)
  }
}
