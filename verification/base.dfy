/** Shared vocabulary: optional values, JSON fields as a schema validator sees
    them, and the two JavaScript string behaviours the gates depend on
    (truthiness and `String.prototype.trim`). */
module Base {

  datatype Option<+T> = None | Some(value: T)

  /** One property of a parsed JSON object: missing (`undefined`), a string,
      or present with some other JSON type (number, null, object, ...). */
  datatype Field = Absent | Str(s: string) | NotString

  /** JavaScript truthiness of a string: only the empty string is falsy. */
  predicate Truthy(s: string)
  {
    |s| > 0
  }

  /** The characters `String.prototype.trim` removes: the WhiteSpace and
      LineTerminator productions of ECMAScript (section 12.2 and 12.3 of
      ECMA-262), with the space separators of Unicode category Zs. */
  predicate IsJsSpace(c: char)
  {
    || c == '\t' || c == '\U{000B}' || c == '\U{000C}' || c == ' '
    || c == '\U{00A0}' || c == '\U{FEFF}' || c == '\U{1680}'
    || ('\U{2000}' <= c <= '\U{200A}')
    || c == '\U{202F}' || c == '\U{205F}' || c == '\U{3000}'
    || c == '\n' || c == '\r' || c == '\U{2028}' || c == '\U{2029}'
  }

  predicate AllSpace(s: string)
  {
    forall i :: 0 <= i < |s| ==> IsJsSpace(s[i])
  }

  /** The first position at or after `i` that does not hold whitespace
      (`|s|` when there is none). */
  function SkipLeading(s: string, i: nat): (j: nat)
    requires i <= |s|
    ensures i <= j <= |s|
    ensures forall k :: i <= k < j ==> IsJsSpace(s[k])
    ensures j < |s| ==> !IsJsSpace(s[j])
    decreases |s| - i
  {
    if i < |s| && IsJsSpace(s[i]) then SkipLeading(s, i + 1) else i
  }

  /** The end of `s[lo..j]` once its trailing whitespace is dropped. */
  function SkipTrailing(s: string, lo: nat, j: nat): (e: nat)
    requires lo <= j <= |s|
    ensures lo <= e <= j
    ensures forall k :: e <= k < j ==> IsJsSpace(s[k])
    ensures lo < e ==> !IsJsSpace(s[e - 1])
    decreases j
  {
    if lo < j && IsJsSpace(s[j - 1]) then SkipTrailing(s, lo, j - 1) else j
  }

  /** `s.trim()`: a contiguous slice of `s` that neither starts nor ends
      with whitespace, everything around it being whitespace. */
  function Trim(s: string): (r: string)
    ensures exists i :: 0 <= i <= |s| - |r| && r == s[i..i + |r|]
                          && AllSpace(s[..i]) && AllSpace(s[i + |r|..])
    ensures r == [] || (!IsJsSpace(r[0]) && !IsJsSpace(r[|r| - 1]))
  {
    var i := SkipLeading(s, 0);
    var e := SkipTrailing(s, i, |s|);
    var r := s[i..e];
    assert r == s[i..i + |r|] && s[i + |r|..] == s[e..];
    assert AllSpace(s[..i]) by {
      forall k | 0 <= k < i
        ensures IsJsSpace(s[..i][k])
      {
        assert s[..i][k] == s[k];
      }
    }
    assert AllSpace(s[e..]) by {
      forall k | 0 <= k < |s| - e
        ensures IsJsSpace(s[e..][k])
      {
        assert s[e..][k] == s[e + k];
      }
    }
    assert r != [] ==> r[0] == s[i] && r[|r| - 1] == s[e - 1];
    r
  }

  /** A trimmed string is empty exactly when the input is all whitespace. */
  lemma TrimEmptyIffAllSpace(s: string)
    ensures Trim(s) == [] <==> AllSpace(s)
  {
  }
}
