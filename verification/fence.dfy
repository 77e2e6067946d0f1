/** The fenced-block search of `analyzeStock`: the regular expression
    `/```json\n([\s\S]*?)\n```/` applied with `String.prototype.match`.
    A backtracking engine tries start positions left to right and, at the first
    position where the opening fence is followed somewhere by a closing fence,
    takes the lazy (shortest) body, i.e. the one ending at the first closing
    fence after the opener. */
module Fence {
  import opened Wrappers
  import opened Strings

  /** The opening fence: three backticks, `json`, and a line feed. */
  const Opener: string := "```json\n"

  /** The closing fence: a line feed and three backticks. */
  const Closer: string := "\n```"

  /** Where a match lies: the opener starts at `start`, the body ends at `end`
      (where the closer starts). */
  datatype Span = Span(start: nat, end: nat)

  /** The regular expression can match with the opener at `i` and the closer at `j`. */
  predicate IsBlockAt(s: string, i: int, j: int) {
    OccursAt(s, Opener, i) && i + |Opener| <= j && OccursAt(s, Closer, j)
  }

  /** The match `String.prototype.match` reports: no match starts further left,
      and the lazy body stops at the first closer after the opener. */
  ghost predicate IsFirstShortest(s: string, sp: Span) {
    && IsBlockAt(s, sp.start, sp.end)
    && (forall k, j :: 0 <= k < sp.start ==> !IsBlockAt(s, k, j))
    && (forall j :: sp.start + |Opener| <= j < sp.end ==> !OccursAt(s, Closer, j))
  }

  /** The engine's scan from start position `i` onwards. */
  function MatchFrom(s: string, i: nat): (r: Option<Span>)
    ensures r.Some? ==> i <= r.value.start && IsBlockAt(s, r.value.start, r.value.end)
    ensures r.Some? ==> forall k, j :: i <= k < r.value.start ==> !IsBlockAt(s, k, j)
    ensures r.Some? ==> forall j :: r.value.start + |Opener| <= j < r.value.end ==> !OccursAt(s, Closer, j)
    ensures r.None? ==> forall k, j :: i <= k ==> !IsBlockAt(s, k, j)
    decreases |s| + 1 - i
  {
    if i + |Opener| > |s| then None
    else if OccursAt(s, Opener, i) then
      match IndexOfFrom(s, Closer, i + |Opener|)
      case Some(j) => Some(Span(i, j))
      case None => MatchFrom(s, i + 1)
    else MatchFrom(s, i + 1)
  }

  /** `text.match(regex)`: the span of the reported match, if any. */
  function FindBlock(text: string): (r: Option<Span>)
    ensures r.Some? ==> IsFirstShortest(text, r.value)
    ensures r.None? <==> forall i, j :: !IsBlockAt(text, i, j)
  {
    MatchFrom(text, 0)
  }

  /** `jsonMatch[1]`: the captured body of the match, if any. */
  function JsonBlock(text: string): (r: Option<string>)
    ensures r.None? <==> forall i, j :: !IsBlockAt(text, i, j)
  {
    match FindBlock(text)
    case None => None
    case Some(sp) => Some(text[sp.start + |Opener|..sp.end])
  }

  /** The captured body never contains a closing fence. */
  lemma BodyHasNoCloser(text: string)
    requires JsonBlock(text).Some?
    ensures forall k :: !OccursAt(JsonBlock(text).value, Closer, k)
  {
    var sp := FindBlock(text).value;
    var lo := sp.start + |Opener|;
    var body := text[lo..sp.end];
    assert JsonBlock(text).value == body;
    forall k | 0 <= k && k + |Closer| <= |body|
      ensures !OccursAt(body, Closer, k)
    {
      assert body[k..k + |Closer|] == text[lo + k..lo + k + |Closer|];
      assert !OccursAt(text, Closer, lo + k);
    }
  }

  /** The match starts at the first opening fence of the whole text: if the
      first opener has no closer after it, neither has any later one. */
  lemma {:induction false} BlockStartsAtFirstOpener(text: string)
    requires FindBlock(text).Some?
    ensures IndexOfFrom(text, Opener, 0) == Some(FindBlock(text).value.start)
  {
    var sp := FindBlock(text).value;
    var first := IndexOfFrom(text, Opener, 0);
    assert first.Some? && first.value <= sp.start;
    if first.value < sp.start {
      assert IsBlockAt(text, first.value, sp.end);
      assert false;
    }
  }

  /** Text without an opening fence (an untagged fence, or `json` followed by
      CR LF) has no block. */
  lemma NoOpenerNoBlock(text: string)
    requires forall k :: !OccursAt(text, Opener, k)
    ensures JsonBlock(text) == None
  {
  }

  /** Text whose first opening fence has no closing fence after it has no block. */
  lemma {:induction false} NoCloserNoBlock(text: string, i: nat)
    requires IndexOfFrom(text, Opener, 0) == Some(i)
    requires IndexOfFrom(text, Closer, i + |Opener|) == None
    ensures JsonBlock(text) == None
  {
    if FindBlock(text).Some? {
      BlockStartsAtFirstOpener(text);
    }
  }

  /** No occurrence of the opener can straddle the end of a text that itself
      contains no opener and the opener appended to it: the opener has no
      proper border (only its last character is a line feed). */
  lemma NoStraddlingOpener(p: string, rest: string, k: int)
    requires forall m :: !OccursAt(p, Opener, m)
    requires 0 <= k < |p|
    ensures !OccursAt(p + Opener + rest, Opener, k)
  {
    var t := p + Opener + rest;
    if k + |Opener| <= |p| {
      assert t[k..k + |Opener|] == p[k..k + |Opener|];
      assert !OccursAt(p, Opener, k);
    } else if k + |Opener| <= |t| {
      var d := |p| - k;
      assert t[k..k + |Opener|][|Opener| - 1] == Opener[|Opener| - 1 - d];
    }
  }

  /** No closer can straddle the end of a body that contains no closer and the
      closer appended to it: the closer starts with a line feed, the rest of it
      is backticks. */
  lemma NoStraddlingCloser(b: string, rest: string, k: int)
    requires forall m :: !OccursAt(b, Closer, m)
    requires 0 <= k < |b|
    ensures !OccursAt(b + Closer + rest, Closer, k)
  {
    var t := b + Closer + rest;
    if k + |Closer| <= |b| {
      assert t[k..k + |Closer|] == b[k..k + |Closer|];
      assert !OccursAt(b, Closer, k);
    } else if k + |Closer| <= |t| {
      var d := |b| - k;
      assert t[k..k + |Closer|][d] == Closer[0];
    }
  }

  /** An occurrence in the second part of a concatenation is an occurrence
      in that part, shifted by the length of the first. */
  lemma OccursShift(a: string, b: string, pat: string, k: nat)
    ensures OccursAt(a + b, pat, |a| + k) <==> OccursAt(b, pat, k)
  {
    if k + |pat| <= |b| {
      assert (a + b)[|a| + k..|a| + k + |pat|] == b[k..k + |pat|];
    }
  }

  /** After a prefix without an opener, the appended opener is the first one. */
  lemma FirstOpenerAfter(p: string, rest: string)
    requires forall m :: !OccursAt(p, Opener, m)
    ensures OccursAt(p + Opener + rest, Opener, |p|)
    ensures forall k :: 0 <= k < |p| ==> !OccursAt(p + Opener + rest, Opener, k)
  {
    var t := p + Opener + rest;
    assert t[|p|..|p| + |Opener|] == Opener;
    forall k | 0 <= k < |p|
      ensures !OccursAt(t, Opener, k)
    {
      NoStraddlingOpener(p, rest, k);
    }
  }

  /** After a body without a closer, the appended closer is the first one. */
  lemma FirstCloserAfter(b: string, rest: string)
    requires forall m :: !OccursAt(b, Closer, m)
    ensures OccursAt(b + Closer + rest, Closer, |b|)
    ensures forall k :: 0 <= k < |b| ==> !OccursAt(b + Closer + rest, Closer, k)
  {
    var t := b + Closer + rest;
    assert t[|b|..|b| + |Closer|] == Closer;
    forall k | 0 <= k < |b|
      ensures !OccursAt(t, Closer, k)
    {
      NoStraddlingCloser(b, rest, k);
    }
  }

  /** The reported span is pinned down by the first opener and the first
      closer after it. */
  lemma SpanDetermined(t: string, i: nat, j: nat)
    requires OccursAt(t, Opener, i) && forall k :: 0 <= k < i ==> !OccursAt(t, Opener, k)
    requires i + |Opener| <= j && OccursAt(t, Closer, j)
    requires forall k :: i + |Opener| <= k < j ==> !OccursAt(t, Closer, k)
    ensures FindBlock(t) == Some(Span(i, j))
  {
    assert IsBlockAt(t, i, j);
    var sp := FindBlock(t).value;
    assert sp.start == i;
  }

  /** The span of a wrapped body: from the end of the prefix to the end of the body. */
  lemma WrappedSpan(p: string, body: string, q: string)
    requires forall m :: !OccursAt(p, Opener, m)
    requires forall m :: !OccursAt(body, Closer, m)
    ensures FindBlock(p + Opener + (body + Closer + q)) == Some(Span(|p|, |p| + |Opener| + |body|))
  {
    var tail := body + Closer + q;
    var t := p + Opener + tail;
    var i := |p|;
    var j := |p| + |Opener| + |body|;
    FirstOpenerAfter(p, tail);
    FirstCloserAfter(body, q);
    OccursShift(p + Opener, tail, Closer, |body|);
    forall k | i + |Opener| <= k < j
      ensures !OccursAt(t, Closer, k)
    {
      OccursShift(p + Opener, tail, Closer, k - i - |Opener|);
    }
    SpanDetermined(t, i, j);
  }

  /** Round trip: wrapping a body without a closer in fences, after a prefix
      without an opener, is extracted back exactly, whatever follows. */
  lemma WrapThenExtract(p: string, body: string, q: string)
    requires forall m :: !OccursAt(p, Opener, m)
    requires forall m :: !OccursAt(body, Closer, m)
    ensures JsonBlock(p + Opener + body + Closer + q) == Some(body)
  {
    var t := p + Opener + (body + Closer + q);
    assert t == p + Opener + body + Closer + q;
    WrappedSpan(p, body, q);
    var lo := |p| + |Opener|;
    assert t[lo..lo + |body|] == body;
  }
}
