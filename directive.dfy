/** The inline tool directive `[[TOOLS:TRUE|FALSE][payload]]` that assistant
    text carries, and `ToolsProcessor.extract_tools_content`, which finds it
    with the pattern `\[\[TOOLS:(TRUE|FALSE)\]\[(.*?)\]\]` under DOTALL.
    The pattern is modelled by a hand-written matcher: it is tried at each
    position from the left (`re.search`), the token is exactly `TRUE` or
    `FALSE`, and the lazy payload is the shortest text, newlines included,
    that is followed by `]]`. */
module ToolDirective {
  import opened Support

  /** A directive: its boolean token and its payload. */
  datatype Directive = Directive(active: bool, payload: string)

  /** The three results of `extract_tools_content`, in its order. */
  datatype Extraction = Extraction(cleaned: string, active: bool, payload: string)

  const OpenTrue: string := "[[TOOLS:TRUE]["
  const OpenFalse: string := "[[TOOLS:FALSE]["
  const Close: string := "]]"

  function Head(active: bool): string {
    if active then OpenTrue else OpenFalse
  }

  /** The text of a directive: `[[TOOLS:`, the token, `][`, the payload
      between the head and the closing `]]`. */
  function Encode(d: Directive): (r: string)
    ensures |Head(d.active)| + 2 <= |r| && r[..8] == "[[TOOLS:" && r[|r| - 2..] == Close
    ensures d.active ==> r[8..14] == "TRUE]["
    ensures !d.active ==> r[8..15] == "FALSE]["
    ensures r[|Head(d.active)|..|r| - 2] == d.payload
  {
    Head(d.active) + d.payload + Close
  }

  predicate IsPrefix(p: string, t: string) {
    |p| <= |t| && t[..|p|] == p
  }

  /** `]]` starts at position `k` of `t`. */
  predicate CloseAt(t: string, k: nat) {
    k + 1 < |t| && t[k] == ']' && t[k + 1] == ']'
  }

  /** A payload the lazy group `(.*?)` can capture: `payload + "]]"` holds
      `]]` only at its end (so no `]]` inside, and no trailing `]`). Newlines
      and every other character are allowed. */
  predicate WellFormedPayload(p: string) {
    forall k :: 0 <= k < |p| ==> !CloseAt(p + Close, k)
  }

  /** No directive text starts at any position before `i`. */
  ghost predicate NoDirectiveBefore(s: string, i: nat)
    requires i <= |s| + 1
  {
    forall j, d :: 0 <= j < i ==> !IsPrefix(Encode(d), s[j..])
  }

  /** No directive text starts anywhere in `s`. */
  ghost predicate NoDirective(s: string) {
    NoDirectiveBefore(s, |s| + 1)
  }

  /** The first `]]` at or after `from`. */
  function FindClose(t: string, from: nat): (r: Option<nat>)
    requires from <= |t|
    decreases |t| - from
    ensures r.Some? ==> from <= r.value && CloseAt(t, r.value)
    ensures r.Some? ==> forall k :: from <= k < r.value ==> !CloseAt(t, k)
    ensures r.None? ==> forall k :: from <= k ==> !CloseAt(t, k)
  {
    if from + 1 >= |t| then None
    else if CloseAt(t, from) then Some(from)
    else FindClose(t, from + 1)
  }

  /** The pattern tried at the start of `t`, after the token alternative has
      matched the head `Head(active)`. */
  function Delimit(t: string, active: bool): (r: Option<Directive>)
    requires IsPrefix(Head(active), t)
    ensures r.Some? ==> r.value.active == active && IsPrefix(Encode(r.value), t)
    ensures r.Some? ==> WellFormedPayload(r.value.payload)
    ensures r.None? ==> forall p :: !IsPrefix(Encode(Directive(active, p)), t)
  {
    var h := |Head(active)|;
    match FindClose(t, h)
    case None =>
      assert forall p :: !IsPrefix(Encode(Directive(active, p)), t) by {
        forall p | IsPrefix(Encode(Directive(active, p)), t) ensures false {
          ClosesEncoding(t, Directive(active, p));
        }
      }
      None
    case Some(q) =>
      DelimitsPayload(t, active, q);
      Some(Directive(active, t[h..q]))
  }

  /** The text between the head and the first `]]` after it is a well-formed
      payload, and with the head and the `]]` it is a prefix of `t`. */
  lemma DelimitsPayload(t: string, active: bool, q: nat)
    requires IsPrefix(Head(active), t) && |Head(active)| <= q
    requires CloseAt(t, q) && forall k :: |Head(active)| <= k < q ==> !CloseAt(t, k)
    ensures IsPrefix(Encode(Directive(active, t[|Head(active)|..q])), t)
    ensures WellFormedPayload(t[|Head(active)|..q])
  {
    var h := |Head(active)|;
    var p := t[h..q];
    assert t[..q + 2] == t[..h] + p + t[q..q + 2];
    forall k | 0 <= k < |p| ensures !CloseAt(p + Close, k) {
      if CloseAt(p + Close, k) {
        assert t[h + k] == (p + Close)[k];
        assert t[h + k + 1] == (p + Close)[k + 1];
        assert CloseAt(t, h + k);
      }
    }
  }

  /** An encoded directive that is a prefix of `t` puts a `]]` in `t` right
      after its payload. */
  lemma ClosesEncoding(t: string, d: Directive)
    requires IsPrefix(Encode(d), t)
    ensures CloseAt(t, |Head(d.active)| + |d.payload|)
  {
    var h := |Head(d.active)|;
    var e := Encode(d);
    assert e[h + |d.payload|] == ']' && e[h + |d.payload| + 1] == ']';
    assert t[h + |d.payload|] == e[h + |d.payload|];
    assert t[h + |d.payload| + 1] == e[h + |d.payload| + 1];
  }

  /** The heads of a TRUE and a FALSE directive cannot both start `t`. */
  lemma HeadsExclusive(t: string)
    ensures IsPrefix(OpenTrue, t) ==> !IsPrefix(OpenFalse, t)
  {
    if IsPrefix(OpenTrue, t) {
      assert t[8] == OpenTrue[8] == 'T' != OpenFalse[8];
    }
  }

  /** The head of a directive that starts `t` starts `t`. */
  lemma HeadOfEncoding(t: string, d: Directive)
    requires IsPrefix(Encode(d), t)
    ensures IsPrefix(Head(d.active), t)
  {
    assert Encode(d)[..|Head(d.active)|] == Head(d.active);
  }

  /** The pattern tried at the start of `t`: the directive that a match at
      this position yields, or `None` when no directive text starts here. */
  function MatchHere(t: string): (r: Option<Directive>)
    ensures r.Some? ==> IsPrefix(Encode(r.value), t) && WellFormedPayload(r.value.payload)
    ensures r.None? ==> forall d :: !IsPrefix(Encode(d), t)
  {
    if IsPrefix(OpenTrue, t) then
      var r := Delimit(t, true);
      assert r.None? ==> forall d :: !IsPrefix(Encode(d), t) by {
        forall d | IsPrefix(Encode(d), t) ensures r.Some? {
          HeadOfEncoding(t, d);
          HeadsExclusive(t);
        }
      }
      r
    else if IsPrefix(OpenFalse, t) then
      var r := Delimit(t, false);
      assert r.None? ==> forall d :: !IsPrefix(Encode(d), t) by {
        forall d | IsPrefix(Encode(d), t) ensures r.Some? {
          HeadOfEncoding(t, d);
        }
      }
      r
    else
      assert forall d :: !IsPrefix(Encode(d), t) by {
        forall d | IsPrefix(Encode(d), t) ensures false {
          HeadOfEncoding(t, d);
        }
      }
      None
  }

  /** The pattern tried at position `j` of `s`; it depends on `s[j..]` only. */
  function MatchAt(s: string, j: nat): (r: Option<Directive>)
    requires j <= |s|
    ensures r.Some? ==> IsPrefix(Encode(r.value), s[j..]) && WellFormedPayload(r.value.payload)
    ensures r.None? ==> forall d :: !IsPrefix(Encode(d), s[j..])
  {
    MatchHere(s[j..])
  }

  /** `re.search` from position `from`: the leftmost position at which the
      pattern matches. */
  function Search(s: string, from: nat): (r: Option<nat>)
    requires from <= |s|
    decreases |s| - from
    ensures r.Some? ==> from <= r.value <= |s| && MatchAt(s, r.value).Some?
    ensures r.Some? ==> forall j :: from <= j < r.value ==> MatchAt(s, j).None?
    ensures r.None? ==> forall j :: from <= j <= |s| ==> MatchAt(s, j).None?
  {
    if MatchAt(s, from).Some? then Some(from)
    else if from == |s| then None
    else Search(s, from + 1)
  }

  /** `re.sub(pattern, '', s, flags=re.DOTALL)`: every non-overlapping match,
      found left to right, is removed. Scanning resumes right after each
      removed match; since the pattern has no anchors, searching the rest of
      the string and searching its suffix find the same matches. */
  function RemoveAll(s: string): (r: string)
    ensures |r| <= |s|
    decreases |s|
  {
    match Search(s, 0)
    case None => s
    case Some(i) =>
      var d := MatchHere(s[i..]).value;
      s[..i] + RemoveAll(s[i + |Encode(d)|..])
  }

  /** `ToolsProcessor.extract_tools_content(message)` with the global
      `HIDE_TOOLS_CONTENT` passed in as `hideTools`. */
  function Extract(message: string, hideTools: bool): (r: Extraction)
    ensures !hideTools ==> r.cleaned == message
    ensures NoDirective(message) ==> r == Extraction(message, false, "")
  {
    match Search(message, 0)
    case None => Extraction(message, false, "")
    case Some(i) =>
      var d := MatchHere(message[i..]).value;
      Extraction(if hideTools then Strip(RemoveAll(message)) else message, d.active, d.payload)
  }

  /** Two well-formed directives that both start `t` are the same: the token
      decides the head, and the first `]]` after the head ends the payload. */
  lemma {:induction false} EncodingUnique(t: string, d1: Directive, d2: Directive)
    requires IsPrefix(Encode(d1), t) && WellFormedPayload(d1.payload)
    requires IsPrefix(Encode(d2), t) && WellFormedPayload(d2.payload)
    ensures d1 == d2
  {
    HeadOfEncoding(t, d1);
    HeadOfEncoding(t, d2);
    HeadsExclusive(t);
    assert d1.active == d2.active;
    var h := |Head(d1.active)|;
    var p1, p2 := d1.payload, d2.payload;
    if |p1| < |p2| {
      ShorterPayloadCloses(t, d1, d2);
    } else if |p2| < |p1| {
      ShorterPayloadCloses(t, d2, d1);
    } else {
      SharedPayloadPrefix(t, d1, d2);
      assert p2[..|p1|] == p2;
    }
  }

  /** A directive with a shorter payload starting `t` puts a `]]` inside the
      longer payload of a second one with the same token. */
  lemma ShorterPayloadCloses(t: string, d1: Directive, d2: Directive)
    requires d1.active == d2.active && |d1.payload| < |d2.payload|
    requires IsPrefix(Encode(d1), t) && IsPrefix(Encode(d2), t)
    ensures !WellFormedPayload(d2.payload)
  {
    var h := |Head(d1.active)|;
    var k := |d1.payload|;
    ClosesEncoding(t, d1);
    var e2 := Encode(d2);
    assert t[h + k] == e2[h + k] && t[h + k + 1] == e2[h + k + 1];
    assert e2[h + k] == (d2.payload + Close)[k];
    assert e2[h + k + 1] == (d2.payload + Close)[k + 1];
    assert CloseAt(d2.payload + Close, k);
  }

  /** The lazy payload: whenever some directive text, well-formed or not,
      starts `t`, the match at the start of `t` has the same token and its
      payload is the shortest prefix of that text's payload followed by `]]`. */
  lemma LazyPayload(t: string, d: Directive)
    requires IsPrefix(Encode(d), t)
    ensures MatchHere(t).Some? && MatchHere(t).value.active == d.active
    ensures |MatchHere(t).value.payload| <= |d.payload|
    ensures MatchHere(t).value.payload == d.payload[..|MatchHere(t).value.payload|]
  {
    var m := MatchHere(t).value;
    SameToken(t, d, m);
    if |d.payload| < |m.payload| {
      ShorterPayloadCloses(t, d, m);
    } else {
      SharedPayloadPrefix(t, m, d);
    }
  }

  /** Two directive texts that start `t` have the same token. */
  lemma SameToken(t: string, d1: Directive, d2: Directive)
    requires IsPrefix(Encode(d1), t) && IsPrefix(Encode(d2), t)
    ensures d1.active == d2.active
  {
    HeadOfEncoding(t, d1);
    HeadOfEncoding(t, d2);
    HeadsExclusive(t);
  }

  /** Of two directive texts with the same token that start `t`, the shorter
      payload is a prefix of the longer. */
  lemma SharedPayloadPrefix(t: string, d1: Directive, d2: Directive)
    requires d1.active == d2.active && |d1.payload| <= |d2.payload|
    requires IsPrefix(Encode(d1), t) && IsPrefix(Encode(d2), t)
    ensures d1.payload == d2.payload[..|d1.payload|]
  {
    var h, n := |Head(d1.active)|, |d1.payload|;
    var e1, e2 := Encode(d1), Encode(d2);
    assert |e1| == h + n + 2 && h + n + 2 <= |e2|;
    assert e2[h..h + n] == d2.payload[..n];
    assert e1[h..h + n] == d1.payload;
    SliceOfPrefix(t, |e1|, h, h + n);
    SliceOfPrefix(t, |e2|, h, h + n);
  }

  /** A slice of a prefix is the same slice of the whole. */
  lemma SliceOfPrefix(t: string, m: nat, a: nat, b: nat)
    requires a <= b <= m <= |t|
    ensures t[..m][a..b] == t[a..b]
  {
    assert |t[..m][a..b]| == b - a;
    forall k | 0 <= k < b - a ensures t[..m][a..b][k] == t[a..b][k] {
      assert t[..m][a..b][k] == t[..m][a + k];
    }
  }

  /** With no directive anywhere, `extract_tools_content` returns the message
      unchanged, `False` and `""`. */
  lemma ExtractWithoutDirective(message: string, hideTools: bool)
    requires NoDirective(message)
    ensures Extract(message, hideTools) == Extraction(message, false, "")
  {
  }

  /** `re.search` finds the first directive: when a well-formed directive
      starts at `i` and none starts earlier, its token and its payload are
      what `extract_tools_content` returns. */
  lemma {:induction false} ExtractFirst(s: string, i: nat, d: Directive, hideTools: bool)
    requires i <= |s| && IsPrefix(Encode(d), s[i..]) && WellFormedPayload(d.payload)
    requires NoDirectiveBefore(s, i)
    ensures Search(s, 0) == Some(i) && MatchAt(s, i) == Some(d)
    ensures Extract(s, hideTools).active == d.active && Extract(s, hideTools).payload == d.payload
  {
    SearchFindsFirst(s, i, d);
    ExtractFound(s, hideTools);
  }

  /** The leftmost directive start is where `re.search` stops, and the match
      there is that directive. */
  lemma SearchFindsFirst(s: string, i: nat, d: Directive)
    requires i <= |s| && IsPrefix(Encode(d), s[i..]) && WellFormedPayload(d.payload)
    requires NoDirectiveBefore(s, i)
    ensures Search(s, 0) == Some(i) && MatchAt(s, i) == Some(d)
  {
    var m := MatchAt(s, i);
    assert m.Some?;
    EncodingUnique(s[i..], m.value, d);
    assert forall j :: 0 <= j < i ==> MatchAt(s, j).None?;
    SearchStopsAt(s, 0, i);
  }

  /** `re.search` from `from` stops at the first position where the pattern
      matches. */
  lemma {:induction false} SearchStopsAt(s: string, from: nat, i: nat)
    requires from <= i <= |s| && MatchAt(s, i).Some?
    requires forall j :: from <= j < i ==> MatchAt(s, j).None?
    ensures Search(s, from) == Some(i)
    decreases i - from
  {
    if from < i {
      SearchStopsAt(s, from + 1, i);
    }
  }

  /** On a match, the token and payload of `extract_tools_content` are the
      ones of the match `re.search` found. */
  lemma ExtractFound(s: string, hideTools: bool)
    requires Search(s, 0).Some?
    ensures Extract(s, hideTools).active == MatchAt(s, Search(s, 0).value).value.active
    ensures Extract(s, hideTools).payload == MatchAt(s, Search(s, 0).value).value.payload
  {
  }

  /** `re.sub` removes a directive wherever it starts first, whatever its
      token, and goes on removing in the rest of the text. */
  lemma {:induction false} RemoveFirst(pre: string, d: Directive, post: string)
    requires WellFormedPayload(d.payload)
    requires NoDirectiveBefore(pre + Encode(d) + post, |pre|)
    ensures RemoveAll(pre + Encode(d) + post) == pre + RemoveAll(post)
  {
    var s := pre + Encode(d) + post;
    assert s[|pre|..] == Encode(d) + post;
    assert IsPrefix(Encode(d), s[|pre|..]);
    ExtractFirst(s, |pre|, d, true);
    assert s[..|pre|] == pre;
    assert s[|pre| + |Encode(d)|..] == post;
  }

  /** Without any directive, `re.sub` changes nothing. */
  lemma RemoveWithoutDirective(s: string)
    requires NoDirective(s)
    ensures RemoveAll(s) == s
  {
  }

  /** Text without `[` cannot hold the start of a directive. */
  lemma NoDirectiveInBracketFreeText(pre: string, rest: string)
    requires forall k :: 0 <= k < |pre| ==> pre[k] != '['
    ensures NoDirectiveBefore(pre + rest, |pre|)
  {
    forall j, d | 0 <= j < |pre| ensures !IsPrefix(Encode(d), (pre + rest)[j..]) {
      assert Encode(d)[0] == '[';
      assert (pre + rest)[j..][0] == pre[j];
    }
  }

  /** Decoding an encoded directive gives it back: the text is kept, or, in
      hideTools mode, removed entirely. */
  lemma RoundTrip(d: Directive, hideTools: bool)
    requires WellFormedPayload(d.payload)
    ensures Extract(Encode(d), hideTools)
         == Extraction(if hideTools then "" else Encode(d), d.active, d.payload)
  {
    var s := Encode(d);
    assert s[0..] == s;
    ExtractFirst(s, 0, d, hideTools);
    if hideTools {
      RemoveEncoding(d);
      StripNoOuterSpace("");
    }
  }

  /** `re.sub` removes a lone directive text entirely. */
  lemma RemoveEncoding(d: Directive)
    requires WellFormedPayload(d.payload)
    ensures RemoveAll(Encode(d)) == ""
  {
    assert "" + Encode(d) + "" == Encode(d);
    RemoveFirst("", d, "");
    assert NoDirective("");
    RemoveWithoutDirective("");
  }

  /** A reply ending in a directive, after text without `[`: its token and
      payload are extracted, and hide mode leaves the stripped text before
      it. */
  lemma ExtractTrailing(pre: string, d: Directive, hideTools: bool)
    requires forall k :: 0 <= k < |pre| ==> pre[k] != '['
    requires WellFormedPayload(d.payload)
    ensures Extract(pre + Encode(d), hideTools)
         == Extraction(if hideTools then Strip(pre) else pre + Encode(d), d.active, d.payload)
  {
    var s := pre + Encode(d);
    NoDirectiveInBracketFreeText(pre, Encode(d));
    assert s[|pre|..] == Encode(d);
    ExtractFirst(s, |pre|, d, hideTools);
    if hideTools {
      RemoveTrailing(pre, d);
    }
  }

  /** `re.sub` removes a trailing directive after text without `[`. */
  lemma RemoveTrailing(pre: string, d: Directive)
    requires forall k :: 0 <= k < |pre| ==> pre[k] != '['
    requires WellFormedPayload(d.payload)
    ensures RemoveAll(pre + Encode(d)) == pre
  {
    var e := Encode(d);
    assert pre + e + "" == pre + e;
    NoDirectiveInBracketFreeText(pre, e);
    RemoveFirst(pre, d, "");
    assert NoDirective("");
    RemoveWithoutDirective("");
  }

  /** Every directive text starts with `[[`. */
  lemma NoDirectiveWithoutDoubleBracket(t: string)
    requires |t| < 2 || t[0] != '[' || t[1] != '['
    ensures forall d :: !IsPrefix(Encode(d), t)
  {
  }

  /** A text on which hide mode is not idempotent: a FALSE directive wrapped
      in the two halves of a TRUE one. */
  const NotIdempotentWitness: string := "[[TOOLS:TR" + Encode(Directive(false, "x")) + "UE][a]]"

  /** In the witness, no directive starts inside the leading `[[TOOLS:TR`. */
  lemma WitnessStartsLate()
    ensures NoDirectiveBefore(NotIdempotentWitness, 10)
  {
    var s := NotIdempotentWitness;
    forall j, d | 0 <= j < 10 ensures !IsPrefix(Encode(d), s[j..]) {
      if j > 0 {
        NoDirectiveWithoutDoubleBracket(s[j..]);
      } else if d.active {
        assert Encode(d)[10] == 'U' != s[10];
      } else {
        assert Encode(d)[8] == 'F' != s[8];
      }
    }
  }

  /** The text after the witness's inner directive holds no directive. */
  lemma WitnessTailClean()
    ensures NoDirective("UE][a]]")
  {
    var t := "UE][a]]";
    forall j | 0 <= j <= |t| ensures forall d :: !IsPrefix(Encode(d), t[j..]) {
      NoDirectiveWithoutDoubleBracket(t[j..]);
    }
  }

  lemma ShortPayloadsWellFormed()
    ensures WellFormedPayload("x") && WellFormedPayload("a")
  {
    assert !CloseAt("x" + Close, 0) && !CloseAt("a" + Close, 0);
  }

  /** The witness is a FALSE directive between `[[TOOLS:TR` and `UE][a]]`. */
  lemma WitnessSplit()
    ensures NotIdempotentWitness == "[[TOOLS:TR" + Encode(Directive(false, "x")) + "UE][a]]"
    ensures "[[TOOLS:TR" + "UE][a]]" == Encode(Directive(true, "a"))
  {
  }

  /** `re.sub` on the witness removes the inner FALSE directive only. */
  lemma WitnessRemoved()
    ensures RemoveAll(NotIdempotentWitness) == Encode(Directive(true, "a"))
  {
    var pre, d, post := "[[TOOLS:TR", Directive(false, "x"), "UE][a]]";
    WitnessSplit();
    ShortPayloadsWellFormed();
    WitnessStartsLate();
    assert |pre| == 10;
    RemoveFirst(pre, d, post);
    WitnessTailClean();
    RemoveWithoutDirective(post);
  }

  /** Removing the witness's inner FALSE directive leaves a TRUE one. */
  lemma WitnessCleaned()
    ensures Extract(NotIdempotentWitness, true).cleaned == Encode(Directive(true, "a"))
  {
    var d := Directive(false, "x");
    assert NotIdempotentWitness[10..] == Encode(d) + "UE][a]]";
    ShortPayloadsWellFormed();
    WitnessStartsLate();
    SearchFindsFirst(NotIdempotentWitness, 10, d);
    WitnessRemoved();
    StripNoOuterSpace(Encode(Directive(true, "a")));
  }

  /** Hide mode is not idempotent: removing an inner directive can join the
      text around it into a fresh directive, which a second extraction finds
      (here a FALSE directive inside is removed and a TRUE one appears). */
  lemma HideModeNotIdempotent()
    ensures Extract(NotIdempotentWitness, true).cleaned == Encode(Directive(true, "a"))
    ensures Extract(Extract(NotIdempotentWitness, true).cleaned, true).active
  {
    WitnessCleaned();
    ShortPayloadsWellFormed();
    RoundTrip(Directive(true, "a"), true);
  }
}
