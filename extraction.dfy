/**
 * The text handling inside `callAI` (server.js:238-241): the regular
 * expression that cuts the JSON out of a model's raw reply, then
 * `JSON.parse` and findArrayInJson.
 *
 * The expression is
 *   /```json\s*([\s\S]*?)\s*```|(\[.*\]|\{.*\})/s
 * and `match` tries it at position 0, 1, 2, ... of the text and keeps the
 * first position where some alternative matches. Its meaning is spelled out
 * here position by position: a capture is a pair of indices [lo, hi) into the
 * raw text.
 */
module Extraction {
  import opened Wrappers
  import opened JsonValues

  /** The characters that `\s` matches in a JavaScript regular expression. */
  predicate IsSpace(c: char) {
    c == '\t' || c == '\n' || c == '\U{B}' || c == '\U{C}' || c == '\r' || c == ' ' ||
    c == '\U{A0}' || c == '\U{1680}' || ('\U{2000}' <= c <= '\U{200A}') ||
    c == '\U{2028}' || c == '\U{2029}' || c == '\U{202F}' || c == '\U{205F}' ||
    c == '\U{3000}' || c == '\U{FEFF}'
  }

  const OpenFence: string := "```json"
  const CloseFence: string := "```"

  predicate OccursAt(t: string, i: nat, p: string) {
    i + |p| <= |t| && t[i..i + |p|] == p
  }

  /** Where a greedy `\s*` that starts at i stops. */
  function SkipSpaces(t: string, i: nat): (e: nat)
    requires i <= |t|
    ensures i <= e <= |t|
    ensures forall k :: i <= k < e ==> IsSpace(t[k])
    ensures e == |t| || !IsSpace(t[e])
    decreases |t| - i
  {
    if i < |t| && IsSpace(t[i]) then SkipSpaces(t, i + 1) else i
  }

  /** The first position at or after i where p occurs. */
  function FindFrom(t: string, p: string, i: nat): (r: Option<nat>)
    requires i <= |t|
    ensures r.Some? ==> i <= r.value && OccursAt(t, r.value, p)
    ensures r.Some? ==> forall k :: i <= k < r.value ==> !OccursAt(t, k, p)
    ensures r.None? ==> forall k :: i <= k <= |t| ==> !OccursAt(t, k, p)
    decreases |t| - i
  {
    if OccursAt(t, i, p) then Some(i)
    else if i == |t| then None
    else FindFrom(t, p, i + 1)
  }

  /**
   * Where the run of spaces that ends at hi begins, not going below lo: where
   * a lazy group followed by `\s*` stops.
   */
  function TrimSpacesBack(t: string, lo: nat, hi: nat): (e: nat)
    requires lo <= hi <= |t|
    ensures lo <= e <= hi
    ensures forall k :: e <= k < hi ==> IsSpace(t[k])
    ensures e == lo || !IsSpace(t[e - 1])
    decreases hi
  {
    if lo < hi && IsSpace(t[hi - 1]) then TrimSpacesBack(t, lo, hi - 1) else hi
  }

  /** The last position after i that holds c. */
  function LastIndexAfter(t: string, c: char, i: nat): (r: Option<nat>)
    requires i <= |t|
    ensures r.Some? ==> i < r.value < |t| && t[r.value] == c
    ensures r.Some? ==> forall k :: r.value < k < |t| ==> t[k] != c
    ensures r.None? ==> forall k :: i < k < |t| ==> t[k] != c
    decreases |t|
  {
    if |t| == 0 || |t| - 1 <= i then None
    else if t[|t| - 1] == c then Some(|t| - 1)
    else LastIndexAfter(t[..|t| - 1], c, i)
  }

  /**
   * The capture of a match attempt that starts at i. The first alternative
   * skips the spaces after "```json", then takes the shortest text that is
   * followed by spaces and "```"; the other two take everything from a '['
   * (or '{') up to the last ']' (or '}') of the text.
   */
  function MatchAt(t: string, i: nat): (r: Option<(nat, nat)>)
    requires i < |t|
    ensures r.Some? ==> i <= r.value.0 <= r.value.1 <= |t|
  {
    if OccursAt(t, i, OpenFence) then
      var q := SkipSpaces(t, i + |OpenFence|);
      match FindFrom(t, CloseFence, q)
      case Some(j) => Some((q, TrimSpacesBack(t, q, j)))
      case None => None
    else if t[i] == '[' then
      match LastIndexAfter(t, ']', i)
      case Some(k) => Some((i, k + 1))
      case None => None
    else if t[i] == '{' then
      match LastIndexAfter(t, '}', i)
      case Some(k) => Some((i, k + 1))
      case None => None
    else None
  }

  /** The first position at or after i where the expression matches. */
  function LeftmostMatch(t: string, i: nat): (r: Option<nat>)
    requires i <= |t|
    ensures r.Some? ==> i <= r.value < |t| && MatchAt(t, r.value).Some?
    ensures r.Some? ==> forall k :: i <= k < r.value ==> MatchAt(t, k).None?
    ensures r.None? ==> forall k :: i <= k < |t| ==> MatchAt(t, k).None?
    decreases |t| - i
  {
    if i == |t| then None
    else if MatchAt(t, i).Some? then Some(i)
    else LeftmostMatch(t, i + 1)
  }

  /**
   * The string handed to `JSON.parse`: the whole raw text when nothing
   * matches, otherwise the capture of the leftmost match. An empty fenced
   * capture is falsy, so `match[1] || match[2]` is then `undefined`; that is
   * the None result, on which `JSON.parse` throws.
   */
  function Extract(t: string): (r: Option<string>)
    ensures (forall k :: 0 <= k < |t| ==> MatchAt(t, k).None?) ==> r == Some(t)
    ensures r.Some? ==> exists lo, hi :: 0 <= lo <= hi <= |t| && r.value == t[lo..hi]
  {
    match LeftmostMatch(t, 0)
    case None =>
      assert t == t[0..|t|];
      Some(t)
    case Some(i) =>
      var (lo, hi) := MatchAt(t, i).value;
      if lo == hi then None else Some(t[lo..hi])
  }

  /** How the call to the model ends: a returned value (possibly null) or a thrown error. */
  datatype AiReply = Returned(value: Option<Json>) | Threw

  /**
   * `callAI` once the vendor has answered: `raw` is the reply text, or None
   * when the request or the access to the reply's fields failed; `parse`
   * stands for `JSON.parse`, None meaning that it throws. Every failure comes
   * out as Threw, as the catch at server.js:242-244 rethrows.
   */
  function CallAI(raw: Option<string>, parse: string -> Option<Json>): (r: AiReply)
    ensures r.Returned? && r.value.Some? ==> r.value.value.JArray?
    ensures r.Threw? <==>
      raw.None? || Extract(raw.value).None? || parse(Extract(raw.value).value).None?
    ensures r.Returned? ==> r.value == FindArray(parse(Extract(raw.value).value).value)
  {
    match raw
    case None => Threw
    case Some(t) =>
      match Extract(t)
      case None => Threw
      case Some(s) =>
        match parse(s)
        case None => Threw
        case Some(v) => Returned(FindArray(v))
  }

  /** No position of s can start a match: no backquote, '[' or '{'. */
  predicate NoMarkers(s: string) {
    forall k :: 0 <= k < |s| ==> s[k] != '`' && s[k] != '[' && s[k] != '{'
  }

  /**
   * A position that starts neither "```json" nor a '[' or '{' starts no
   * match: in particular a closing "```", or a backquote followed by
   * anything but "``json".
   */
  lemma NoMarkerNoMatch(t: string, k: nat)
    requires k < |t| && !OccursAt(t, k, OpenFence) && t[k] != '[' && t[k] != '{'
    ensures MatchAt(t, k).None?
  {
  }

  /** "```json" can only start at a backquote. */
  lemma OpenFenceStartsWithBackquote(t: string, k: nat)
    requires k < |t|
    ensures t[k] != '`' ==> !OccursAt(t, k, OpenFence)
  {
    if k + |OpenFence| <= |t| {
      assert t[k..k + |OpenFence|][0] == t[k];
    }
  }

  /** When the first match is at a and captures a non-empty [lo, hi), that span is parsed. */
  lemma FirstMatchIsExtracted(t: string, a: nat, lo: nat, hi: nat)
    requires a < |t| && lo < hi
    requires forall k :: 0 <= k < a ==> MatchAt(t, k).None?
    requires MatchAt(t, a) == Some((lo, hi))
    ensures hi <= |t| && Extract(t) == Some(t[lo..hi])
  {
    assert LeftmostMatch(t, 0) == Some(a);
  }

  /** With neither a fence nor a bracket in it, the whole raw text is parsed. */
  lemma PlainTextIsParsedWhole(t: string, parse: string -> Option<Json>)
    requires forall k :: 0 <= k < |t| ==> !OccursAt(t, k, OpenFence) && t[k] != '[' && t[k] != '{'
    ensures Extract(t) == Some(t)
    ensures CallAI(Some(t), parse) == if parse(t).Some? then Returned(FindArray(parse(t).value)) else Threw
  {
    forall k | 0 <= k < |t| ensures MatchAt(t, k).None? {
      NoMarkerNoMatch(t, k);
    }
  }

  /** A lone backquote and a bare "```" start no match: such a reply is parsed whole. */
  lemma StrayBackquotesAreParsedWhole()
    ensures Extract("a`b") == Some("a`b")
    ensures Extract("```x```") == Some("```x```")
  {
    PlainTextIsParsedWhole("a`b", _ => None);
    var t := "```x```";
    forall k | 0 <= k < |t| ensures !OccursAt(t, k, OpenFence) {
      if k + |OpenFence| <= |t| {
        assert t[k..k + |OpenFence|][3] == t[k + 3] != OpenFence[3];
      }
    }
    PlainTextIsParsedWhole(t, _ => None);
  }

  /** Positions before |pre| cannot start a match when pre has no markers. */
  lemma NoMatchInPrefix(pre: string, rest: string)
    requires NoMarkers(pre)
    ensures forall k :: 0 <= k < |pre| ==> MatchAt(pre + rest, k).None?
  {
    var t := pre + rest;
    forall k | 0 <= k < |pre| ensures MatchAt(t, k).None? {
      assert t[k] == pre[k];
      OpenFenceStartsWithBackquote(t, k);
      NoMarkerNoMatch(t, k);
    }
  }

  /**
   * The fence alternative at a: "```json" at a, one run of spaces ending at
   * b, the first "```" after b at c + 1 preceded by spaces from c on, and a
   * non-space at c - 1: the capture is [b, c).
   */
  lemma FenceCapture(t: string, a: nat, b: nat, c: nat)
    requires a + |OpenFence| < b < c < |t|
    requires OccursAt(t, a, OpenFence)
    requires forall k :: a + |OpenFence| <= k < b ==> IsSpace(t[k])
    requires !IsSpace(t[b]) && !IsSpace(t[c - 1]) && IsSpace(t[c])
    requires OccursAt(t, c + 1, CloseFence)
    requires forall k :: b <= k <= c ==> !OccursAt(t, k, CloseFence)
    ensures MatchAt(t, a) == Some((b, c))
  {
    assert SkipSpaces(t, a + |OpenFence|) == b;
    assert FindFrom(t, CloseFence, b) == Some(c + 1);
    assert TrimSpacesBack(t, b, c + 1) == c;
  }

  /**
   * The fence alternative for every text: after "```json" at i, the capture
   * starts where the spaces end; the alternative matches iff a "```" follows
   * there; and the lazy body ends at the first position g from which spaces
   * and then "```" follow, so no earlier g qualifies.
   */
  lemma FenceMatch(t: string, i: nat)
    requires i < |t| && OccursAt(t, i, OpenFence)
    ensures var lo := SkipSpaces(t, i + |OpenFence|);
      MatchAt(t, i).Some? <==> exists j :: lo <= j <= |t| && OccursAt(t, j, CloseFence)
    ensures MatchAt(t, i).Some? ==>
      var (lo, hi) := MatchAt(t, i).value;
      lo == SkipSpaces(t, i + |OpenFence|) &&
      OccursAt(t, SkipSpaces(t, hi), CloseFence) &&
      forall g :: lo <= g < hi ==> !OccursAt(t, SkipSpaces(t, g), CloseFence)
  {
    var lo := SkipSpaces(t, i + |OpenFence|);
    var found := FindFrom(t, CloseFence, lo);
    if found.Some? {
      assert MatchAt(t, i) == Some((lo, TrimSpacesBack(t, lo, found.value)));
      LazyEnd(t, lo, found.value);
    }
  }

  /**
   * With the first "```" at or after lo at j, the lazy body ends at hi, from
   * which spaces lead to j, and from no earlier position do spaces lead to a
   * "```".
   */
  lemma LazyEnd(t: string, lo: nat, j: nat)
    requires lo <= j <= |t| && OccursAt(t, j, CloseFence)
    requires forall k :: lo <= k < j ==> !OccursAt(t, k, CloseFence)
    ensures var hi := TrimSpacesBack(t, lo, j);
      SkipSpaces(t, hi) == j && forall g :: lo <= g < hi ==> !OccursAt(t, SkipSpaces(t, g), CloseFence)
  {
    var hi := TrimSpacesBack(t, lo, j);
    assert t[j] == t[j..j + 3][0] == '`';
    assert SkipSpaces(t, hi) == j;
    forall g | lo <= g < hi ensures !OccursAt(t, SkipSpaces(t, g), CloseFence) {
      assert !IsSpace(t[hi - 1]);
      assert SkipSpaces(t, g) < hi;
    }
  }

  /**
   * The bracket alternatives for every text: at a '[' (or '{') the
   * alternative matches iff a ']' (or '}') follows, and the capture runs
   * from that position to the last closing bracket of the text.
   */
  lemma SpanMatch(t: string, i: nat, open: char, close: char)
    requires i < |t| && t[i] == open
    requires (open == '[' && close == ']') || (open == '{' && close == '}')
    ensures MatchAt(t, i).Some? <==> exists k :: i < k < |t| && t[k] == close
    ensures MatchAt(t, i).Some? ==>
      var (lo, hi) := MatchAt(t, i).value;
      lo == i && i < hi - 1 && t[hi - 1] == close && forall k :: hi <= k < |t| ==> t[k] != close
  {
    assert !OccursAt(t, i, OpenFence) by {
      if i + |OpenFence| <= |t| {
        assert t[i..i + |OpenFence|][0] == t[i];
      }
    }
  }

  /**
   * Only the fence alternative can capture nothing; when the leftmost match
   * does, `JSON.parse` is handed `undefined` and the model call fails.
   */
  lemma EmptyCaptureFails(t: string, parse: string -> Option<Json>)
    requires LeftmostMatch(t, 0).Some?
    requires MatchAt(t, LeftmostMatch(t, 0).value).value.0 == MatchAt(t, LeftmostMatch(t, 0).value).value.1
    ensures OccursAt(t, LeftmostMatch(t, 0).value, OpenFence)
    ensures Extract(t) == None && CallAI(Some(t), parse) == Threw
  {
  }

  /** Where the pieces of a fenced reply sit in the text. */
  lemma FencedLayout(pre: string, body: string, post: string)
    requires body != []
    ensures var t := pre + OpenFence + "\n" + body + "\n" + CloseFence + post;
      var a, b, c := |pre|, |pre| + 8, |pre| + 8 + |body|;
      c + 4 <= |t| && t[..a] == pre && OccursAt(t, a, OpenFence) && t[a + 7] == '\n' &&
      t[b..c] == body && t[c] == '\n' && OccursAt(t, c + 1, CloseFence)
  {
  }

  /** A body free of "```", followed by a line break, has no "```" starting inside it. */
  lemma NoCloseInBody(t: string, body: string, b: nat, c: nat)
    requires b <= c < |t| && t[b..c] == body && t[c] == '\n'
    requires forall k :: 0 <= k <= |body| ==> !OccursAt(body, k, CloseFence)
    ensures forall k :: b <= k <= c ==> !OccursAt(t, k, CloseFence)
  {
    assert |body| == c - b;
    assert forall y :: 0 <= y < |body| ==> body[y] == t[b + y];
    forall k | b <= k <= c ensures !OccursAt(t, k, CloseFence) {
      if k + 3 <= c {
        assert t[k..k + 3] == body[k - b..k - b + 3];
        assert !OccursAt(body, k - b, CloseFence);
      } else if k + 3 <= |t| {
        assert t[k..k + 3][c - k] == t[c];
      }
    }
  }

  /**
   * A reply whose JSON is fenced as "```json", a line break, the JSON, a
   * line break and "```" gives exactly the fenced JSON, whatever follows,
   * provided the text before the fence holds no fence or bracket.
   */
  lemma FencedJsonIsExtracted(pre: string, body: string, post: string)
    requires NoMarkers(pre)
    requires body != [] && !IsSpace(body[0]) && !IsSpace(body[|body| - 1])
    requires forall k :: 0 <= k <= |body| ==> !OccursAt(body, k, CloseFence)
    ensures Extract(pre + OpenFence + "\n" + body + "\n" + CloseFence + post) == Some(body)
  {
    var t := pre + OpenFence + "\n" + body + "\n" + CloseFence + post;
    var a, b, c := |pre|, |pre| + 8, |pre| + 8 + |body|;
    FencedLayout(pre, body, post);
    assert forall k :: 0 <= k < a ==> MatchAt(t, k).None? by {
      NoMatchInPrefix(pre, t[a..]);
      assert t == pre + t[a..];
    }
    assert t[b] == body[0] && t[c - 1] == body[|body| - 1] by {
      assert t[b..c][0] == t[b] && t[b..c][|body| - 1] == t[c - 1];
    }
    NoCloseInBody(t, body, b, c);
    FenceCapture(t, a, b, c);
    FirstMatchIsExtracted(t, a, b, c);
  }

  /** Text without a backquote holds no closing fence. */
  lemma NoBackquoteNoFence(s: string)
    requires forall k :: 0 <= k < |s| ==> s[k] != '`'
    ensures forall k :: 0 <= k <= |s| ==> !OccursAt(s, k, CloseFence)
  {
    forall k | 0 <= k <= |s| ensures !OccursAt(s, k, CloseFence) {
      if k + 3 <= |s| {
        assert s[k..k + 3][0] == s[k];
      }
    }
  }

  /** The reply of the example: the fenced array is what gets parsed. */
  lemma FencedExample()
    ensures Extract("Here you go:\n```json\n[\"a\",\"b\"]\n```") == Some("[\"a\",\"b\"]")
  {
    var pre := "Here you go:\n";
    var body := "[\"a\",\"b\"]";
    var t := "Here you go:\n```json\n[\"a\",\"b\"]\n```";
    assert NoMarkers(pre);
    assert forall k :: 0 <= k <= |body| ==> !OccursAt(body, k, CloseFence) by {
      assert forall k :: 0 <= k < |body| ==> body[k] != '`';
      NoBackquoteNoFence(body);
    }
    assert !IsSpace(body[0]) && !IsSpace(body[|body| - 1]);
    assert pre + OpenFence + "\n" + body + "\n" + CloseFence + "" == t by {
      var s1 := pre + OpenFence;
      assert s1 == "Here you go:\n```json";
      var s2 := s1 + "\n" + body;
      assert s2 == "Here you go:\n```json\n[\"a\",\"b\"]";
      var s3 := s2 + "\n" + CloseFence;
      assert s3 == t;
      assert s3 + "" == s3;
    }
    FencedJsonIsExtracted(pre, body, "");
  }

  /**
   * Without a fence, a reply that holds one bracketed span after marker-free
   * text gives that span, from its '[' up to the last ']' of the whole reply.
   */
  lemma BracketSpanIsExtracted(pre: string, span: string, post: string)
    requires NoMarkers(pre)
    requires |span| >= 2 && span[0] == '[' && span[|span| - 1] == ']'
    requires forall k :: 0 <= k < |post| ==> post[k] != ']'
    ensures Extract(pre + span + post) == Some(span)
  {
    var t := pre + span + post;
    var a, z := |pre|, |pre| + |span| - 1;
    assert forall k :: 0 <= k < a ==> MatchAt(t, k).None? by {
      NoMatchInPrefix(pre, span + post);
      assert t == pre + (span + post);
    }
    assert t[a..z + 1] == span;
    assert t[a] == '[' && t[z] == ']';
    assert forall k :: z < k < |t| ==> t[k] == post[k - z - 1];
    assert LastIndexAfter(t, ']', a) == Some(z);
    assert !OccursAt(t, a, OpenFence) by {
      if a + |OpenFence| <= |t| {
        assert t[a..a + |OpenFence|][0] == t[a];
      }
    }
    assert MatchAt(t, a) == Some((a, z + 1));
    FirstMatchIsExtracted(t, a, a, z + 1);
  }

  /**
   * An empty fenced block captures the empty string, which is falsy, so
   * `JSON.parse` is handed `undefined` and the call fails whatever the parser.
   */
  lemma EmptyFenceFails(parse: string -> Option<Json>)
    ensures Extract(OpenFence + "\n" + CloseFence) == None
    ensures CallAI(Some(OpenFence + "\n" + CloseFence), parse) == Threw
  {
    var t := OpenFence + "\n" + CloseFence;
    assert t == "```json\n```";
    assert SkipSpaces(t, 7) == 8;
    assert FindFrom(t, CloseFence, 8) == Some(8);
    assert MatchAt(t, 0) == Some((8, 8));
  }
}
