/** Small shared vocabulary: optional values, the outcome of a call that may
    raise, Python's `str.strip()` and `"".join(...)`. */
module Support {

  datatype Option<+T> = None | Some(value: T)

  /** What a call into code outside the model does: return normally, or raise
      an exception whose `str(e)` is `message`. */
  datatype Outcome = Returns | Raises(message: string)

  /** Python's `str.isspace()` for a single character, the set `str.strip()`
      with no argument removes: the ASCII controls TAB..CR and FS..US, SPACE,
      NEL, NO-BREAK SPACE and the Unicode space separators, LINE SEPARATOR and
      PARAGRAPH SEPARATOR. */
  predicate IsSpace(c: char) {
    || '\t' <= c <= '\r'
    || '\U{1C}' <= c <= '\U{1F}'
    || c == ' '
    || c == '\U{85}'
    || c == '\U{A0}'
    || c == '\U{1680}'
    || '\U{2000}' <= c <= '\U{200A}'
    || c == '\U{2028}'
    || c == '\U{2029}'
    || c == '\U{202F}'
    || c == '\U{205F}'
    || c == '\U{3000}'
  }

  predicate AllSpace(s: string) {
    forall k :: 0 <= k < |s| ==> IsSpace(s[k])
  }

  /** `r` is `s[a..]` up to trailing whitespace, after the whitespace
      prefix `s[..a]`. */
  predicate StripsAt(s: string, r: string, a: nat) {
    a + |r| <= |s| && r == s[a..a + |r|] && AllSpace(s[..a]) && AllSpace(s[a + |r|..])
  }

  /** `s.lstrip()`: drops the longest all-whitespace prefix. */
  function StripLeft(s: string): (r: string)
    ensures |r| <= |s| && r == s[|s| - |r|..]
    ensures AllSpace(s[..|s| - |r|])
    ensures r == [] || !IsSpace(r[0])
  {
    if |s| > 0 && IsSpace(s[0]) then
      var t := s[1..];
      var r := StripLeft(t);
      assert t[|t| - |r|..] == s[|s| - |r|..];
      assert forall k :: 1 <= k < |s| - |r| ==> s[k] == t[..|t| - |r|][k - 1];
      r
    else s
  }

  /** `s.rstrip()`: drops the longest all-whitespace suffix. */
  function StripRight(s: string): (r: string)
    ensures |r| <= |s| && r == s[..|r|]
    ensures AllSpace(s[|r|..])
    ensures r == [] || !IsSpace(r[|r| - 1])
  {
    if |s| > 0 && IsSpace(s[|s| - 1]) then
      var t := s[..|s| - 1];
      var r := StripRight(t);
      assert t[..|r|] == s[..|r|];
      assert forall k :: |r| <= k < |s| - 1 ==> s[k] == t[|r|..][k - |r|];
      r
    else s
  }

  /** `s.strip()`: the slice of `s` between its leading and trailing
      whitespace. */
  function Strip(s: string): (r: string)
    ensures exists a :: StripsAt(s, r, a)
    ensures r == [] || (!IsSpace(r[0]) && !IsSpace(r[|r| - 1]))
  {
    var l := StripLeft(s);
    var r := StripRight(l);
    StripSlice(s, l, r);
    r
  }

  /** The witness for `Strip`: `l` drops a whitespace prefix of `s` and `r`
      a whitespace suffix of `l`. */
  lemma StripSlice(s: string, l: string, r: string)
    requires |l| <= |s| && l == s[|s| - |l|..] && AllSpace(s[..|s| - |l|])
    requires |r| <= |l| && r == l[..|r|] && AllSpace(l[|r|..])
    requires (l == [] || !IsSpace(l[0])) && (r == [] || !IsSpace(r[|r| - 1]))
    ensures r == [] || (!IsSpace(r[0]) && !IsSpace(r[|r| - 1]))
    ensures exists a :: StripsAt(s, r, a)
  {
    var a := |s| - |l|;
    assert r != [] ==> r[0] == l[0];
    assert s[a + |r|..] == l[|r|..];
    assert r == s[a..a + |r|];
    assert StripsAt(s, r, a);
  }

  /** `s.strip()` is empty exactly when `s` is whitespace only, as the
      "empty request" test `not content.strip()` relies on. */
  lemma StripEmptyIff(s: string)
    ensures Strip(s) == [] <==> AllSpace(s)
  {
    var l := StripLeft(s);
    var r := StripRight(l);
    if r == [] {
      assert l == [];
      assert s[..|s|] == s;
    } else {
      assert !IsSpace(r[0]) && r[0] == l[0] && l[0] == s[|s| - |l|];
    }
  }

  /** Stripping leaves a text without outer whitespace unchanged. */
  lemma StripNoOuterSpace(s: string)
    requires s == [] || (!IsSpace(s[0]) && !IsSpace(s[|s| - 1]))
    ensures Strip(s) == s
  {
  }

  /** `"".join(parts)`. */
  function Join(parts: seq<string>): (r: string)
    ensures r == "" <==> forall k :: 0 <= k < |parts| ==> parts[k] == ""
    ensures |parts| == 1 ==> r == parts[0]
  {
    if parts == [] then "" else Join(parts[..|parts| - 1]) + parts[|parts| - 1]
  }

  /** Joining is compatible with splitting the list of parts anywhere. */
  lemma {:induction false} JoinAppend(a: seq<string>, b: seq<string>)
    ensures Join(a + b) == Join(a) + Join(b)
    decreases |b|
  {
    if b == [] {
      assert a + b == a;
    } else {
      var b', x := b[..|b| - 1], b[|b| - 1];
      assert (a + b)[..|a + b| - 1] == a + b' && (a + b)[|a + b| - 1] == x;
      assert Join(a + b) == Join(a + b') + x;
      assert Join(b) == Join(b') + x;
      JoinAppend(a, b');
    }
  }
}
