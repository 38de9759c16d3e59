/** Whitespace trimming as ECMAScript's String.prototype.trim does it: the code
    points of the WhiteSpace and LineTerminator productions are removed from both
    ends of the string and nothing else is touched. */
module JsText {

  /** WhiteSpace (TAB, VT, FF, ZWNBSP and every space separator of category Zs)
      and LineTerminator (LF, CR, LS, PS). */
  predicate IsWhitespace(c: char) {
    c == '\t' || c == '\U{000B}' || c == '\U{000C}' || c == ' ' || c == '\U{00A0}' ||
    c == '\U{FEFF}' || c == '\U{1680}' || ('\U{2000}' <= c <= '\U{200A}') ||
    c == '\U{202F}' || c == '\U{205F}' || c == '\U{3000}' ||
    c == '\n' || c == '\r' || c == '\U{2028}' || c == '\U{2029}'
  }

  /** True when every character of `s` is whitespace (so the empty string is blank). */
  predicate AllWhitespace(s: string) {
    forall i :: 0 <= i < |s| ==> IsWhitespace(s[i])
  }

  /** Index of the first character that is not whitespace, |s| when there is none. */
  function TrimStartIndex(s: string): (k: nat)
    ensures k <= |s| && AllWhitespace(s[..k])
    ensures k < |s| ==> !IsWhitespace(s[k])
  {
    if s == [] || !IsWhitespace(s[0]) then 0 else 1 + TrimStartIndex(s[1..])
  }

  /** Index just past the last character that is not whitespace, 0 when there is none. */
  function TrimEndIndex(s: string): (e: nat)
    ensures e <= |s| && AllWhitespace(s[e..])
    ensures e > 0 ==> !IsWhitespace(s[e - 1])
  {
    if s == [] || !IsWhitespace(s[|s| - 1]) then |s| else TrimEndIndex(s[..|s| - 1])
  }

  /** `s.trim()`: the piece of `s` between its leading and its trailing whitespace. */
  function Trim(s: string): (r: string)
    ensures r == [] || (!IsWhitespace(r[0]) && !IsWhitespace(r[|r| - 1]))
    ensures r == [] <==> AllWhitespace(s)
  {
    var a, e := TrimStartIndex(s), TrimEndIndex(s);
    if e <= a then
      TrimBlank(s, a, e);
      []
    else
      TrimNonBlank(s, a, e);
      s[a..e]
  }

  /** Trimming cuts only whitespace, and only from the two ends. */
  lemma TrimCutsOnlyWhitespace(s: string)
    ensures var r := Trim(s);
      exists k :: 0 <= k <= |s| - |r| && r == s[k..k + |r|]
                  && AllWhitespace(s[..k]) && AllWhitespace(s[k + |r|..])
  {
    var a, e := TrimStartIndex(s), TrimEndIndex(s);
    if e <= a {
      TrimBlank(s, a, e);
    } else {
      TrimNonBlank(s, a, e);
    }
  }

  /** When the whitespace prefix and suffix overlap, the whole text is blank and
      trims to nothing. */
  lemma TrimBlank(s: string, a: nat, e: nat)
    requires e <= a <= |s| && AllWhitespace(s[..a]) && AllWhitespace(s[e..])
    ensures AllWhitespace(s)
    ensures exists k :: 0 <= k <= |s| && [] == s[k..k]
                        && AllWhitespace(s[..k]) && AllWhitespace(s[k..])
  {
    forall i | 0 <= i < |s| ensures IsWhitespace(s[i]) {
      if i < a {
        assert s[i] == s[..a][i];
      } else {
        assert s[i] == s[e..][i - e];
      }
    }
    assert s[..|s|] == s && s[|s|..|s|] == [];
  }

  /** Otherwise the text trims to the piece between the two. */
  lemma TrimNonBlank(s: string, a: nat, e: nat)
    requires a < e <= |s| && AllWhitespace(s[..a]) && AllWhitespace(s[e..])
    requires !IsWhitespace(s[a]) && !IsWhitespace(s[e - 1])
    ensures var r := s[a..e]; !IsWhitespace(r[0]) && !IsWhitespace(r[|r| - 1])
    ensures !AllWhitespace(s)
    ensures exists k :: 0 <= k <= |s| - (e - a) && s[a..e] == s[k..k + (e - a)]
                        && AllWhitespace(s[..k]) && AllWhitespace(s[k + (e - a)..])
  {
  }

  /** A text that neither starts nor ends with whitespace trims to itself. */
  lemma TrimUnpadded(s: string)
    requires s == [] || (!IsWhitespace(s[0]) && !IsWhitespace(s[|s| - 1]))
    ensures Trim(s) == s
  {
  }

  /** Trimming an already trimmed text changes nothing. */
  lemma TrimIdempotent(s: string)
    ensures Trim(Trim(s)) == Trim(s)
  {
  }
}
