/** String helpers of the web client and of the server. */
module TextUtils {

  /** The white space and line terminators removed by ECMAScript `trim`. */
  predicate IsSpace(c: char) {
    || c == ' ' || '\t' <= c <= '\r'
    || c == '\U{A0}' || c == '\U{FEFF}' || c == '\U{1680}' || '\U{2000}' <= c <= '\U{200A}'
    || c == '\U{2028}' || c == '\U{2029}' || c == '\U{202F}' || c == '\U{205F}' || c == '\U{3000}'
  }

  function TrimStart(s: string): (r: string)
    ensures r != [] ==> !IsSpace(r[0])
  {
    if s != [] && IsSpace(s[0]) then TrimStart(s[1..]) else s
  }

  function TrimEnd(s: string): (r: string)
    ensures r != [] ==> !IsSpace(r[|r| - 1]) && s != [] && r[0] == s[0]
  {
    if s != [] && IsSpace(s[|s| - 1]) then TrimEnd(s[..|s| - 1]) else s
  }

  function Trim(s: string): (r: string)
    ensures r != [] ==> !IsSpace(r[0]) && !IsSpace(r[|r| - 1])
  {
    TrimEnd(TrimStart(s))
  }

  /** A string trims to itself exactly when it has no space at either end. */
  lemma TrimFixed(s: string)
    ensures Trim(s) == s <==> s == [] || (!IsSpace(s[0]) && !IsSpace(s[|s| - 1]))
  {
  }

  lemma TrimIdempotent(s: string)
    ensures Trim(Trim(s)) == Trim(s)
  {
    TrimFixed(Trim(s));
  }
}
