/**
 * OneBot message segments and the text rewriting the chat plugins apply to
 * an incoming message before it reaches the model: deleting `@` segments,
 * dropping one leading trigger word, and (in the older copy) deleting
 * keywords.
 */
module Segments {
  import opened Text

  /**
   * One segment: its `type`, its `str()` (the text itself, or a CQ code such
   * as `[CQ:at,qq=123]`), and `data["url"]`, empty when absent or empty.
   */
  datatype Segment = Segment(kind: string, text: string, url: string)

  /** `str(message)`: the segments' strings one after another. */
  function Render(m: seq<Segment>): string {
    if m == [] then [] else m[0].text + Render(m[1..])
  }

  /** The segment is an image with a usable URL (`seg.type == "image" and seg.data.get("url")`). */
  predicate IsImage(seg: Segment) {
    seg.kind == "image" && seg.url != []
  }

  /** `[seg.data["url"] for seg in message if seg.type == "image" and seg.data.get("url")]` */
  function ImageUrls(m: seq<Segment>): (urls: seq<string>)
    ensures |urls| <= |m|
  {
    if m == [] then [] else (if IsImage(m[0]) then [m[0].url] else []) + ImageUrls(m[1..])
  }

  /** The URLs collected are exactly those of the image segments, and none is empty. */
  lemma {:induction false} ImageUrlsExact(m: seq<Segment>)
    ensures forall i | 0 <= i < |ImageUrls(m)| :: ImageUrls(m)[i] != [] && exists j | 0 <= j < |m| :: IsImage(m[j]) && m[j].url == ImageUrls(m)[i]
    ensures forall j | 0 <= j < |m| && IsImage(m[j]) :: m[j].url in ImageUrls(m)
  {
    if m != [] {
      ImageUrlsExact(m[1..]);
      assert forall j | 1 <= j < |m| :: m[1..][j - 1] == m[j];
    }
  }

  /** Collecting from two messages in turn is collecting from both (the `extend` with a quoted reply). */
  lemma {:induction false} ImageUrlsAppend(a: seq<Segment>, b: seq<Segment>)
    ensures ImageUrls(a + b) == ImageUrls(a) + ImageUrls(b)
  {
    if a == [] {
      assert a + b == b;
    } else {
      assert (a + b)[0] == a[0] && (a + b)[1..] == a[1..] + b;
      ImageUrlsAppend(a[1..], b);
      calc {
        ImageUrls(a + b);
        (if IsImage(a[0]) then [a[0].url] else []) + ImageUrls(a[1..] + b);
        (if IsImage(a[0]) then [a[0].url] else []) + (ImageUrls(a[1..]) + ImageUrls(b));
        ImageUrls(a) + ImageUrls(b);
      }
    }
  }

  /**
   * The `@`-removal loop: `text = text.replace(str(seg), "").strip()` for
   * each `at` segment in order.
   */
  function StripAts(t: string, m: seq<Segment>): string
    decreases |m|
  {
    if m == [] then t
    else StripAts(if m[0].kind == "at" then Strip(ReplaceAll(t, m[0].text, "")) else t, m[1..])
  }

  /** The `@`-removal loop as the handlers run it. */
  method RemoveAtSegments(t: string, m: seq<Segment>) returns (r: string)
    ensures r == StripAts(t, m)
  {
    r := t;
    var i := 0;
    while i < |m|
      invariant 0 <= i <= |m|
      invariant StripAts(r, m[i..]) == StripAts(t, m)
    {
      assert m[i..][1..] == m[i + 1..];
      if m[i].kind == "at" {
        r := Strip(ReplaceAll(r, m[i].text, ""));
      }
      i := i + 1;
    }
  }

  /** The `@`-removal loop never lengthens the text and leaves it stripped. */
  lemma {:induction false} StripAtsShape(t: string, m: seq<Segment>)
    requires IsStripped(t)
    ensures IsStripped(StripAts(t, m)) && |StripAts(t, m)| <= |t|
    decreases |m|
  {
    if m != [] {
      var next := if m[0].kind == "at" then Strip(ReplaceAll(t, m[0].text, "")) else t;
      RemoveShrinks(t, m[0].text);
      StripAtsShape(next, m[1..]);
    }
  }

  /** A message without `@` segments goes through the removal loop unchanged. */
  lemma {:induction false} StripAtsNoAt(t: string, m: seq<Segment>)
    requires forall j | 0 <= j < |m| :: m[j].kind != "at"
    ensures StripAts(t, m) == t
    decreases |m|
  {
    if m != [] {
      StripAtsNoAt(t, m[1..]);
    }
  }

  /** An `@` segment whose string does occur is deleted: the text gets shorter by at least its length. */
  lemma AtRemovalShrinks(t: string, seg: Segment)
    requires seg.kind == "at" && seg.text != [] && Contains(t, seg.text)
    ensures |StripAts(t, [seg])| + |seg.text| <= |t|
  {
    RemoveFound(t, seg.text);
  }

  /**
   * The prefix loop: `for cmd in words: if text.startswith(cmd):
   * text = text[len(cmd):].strip(); break`.
   */
  function DropLeadingWord(t: string, words: seq<string>): string
    decreases |words|
  {
    if words == [] then t
    else if StartsWith(t, words[0]) then Strip(t[|words[0]|..])
    else DropLeadingWord(t, words[1..])
  }

  /** The prefix loop as the handlers run it, leaving at the first word that matches. */
  method RemoveLeadingWord(t: string, words: seq<string>) returns (r: string)
    ensures r == DropLeadingWord(t, words)
  {
    var j := 0;
    while j < |words|
      invariant 0 <= j <= |words|
      invariant DropLeadingWord(t, words[j..]) == DropLeadingWord(t, words)
    {
      assert words[j..][1..] == words[j + 1..];
      if StartsWith(t, words[j]) {
        return Strip(t[|words[j]|..]);
      }
      j := j + 1;
    }
    r := t;
  }

  /** `words[k]` is the first entry of `words` that `t` starts with. */
  predicate FirstPrefix(t: string, words: seq<string>, k: int) {
    && 0 <= k < |words|
    && StartsWith(t, words[k])
    && forall i | 0 <= i < k :: !StartsWith(t, words[i])
  }

  /**
   * Only the first word in list order that `t` starts with is dropped, and
   * then the rest is stripped; with no such word `t` stays as it is.
   */
  lemma {:induction false} DropLeadingWordCases(t: string, words: seq<string>)
    ensures (forall i | 0 <= i < |words| :: !StartsWith(t, words[i])) ==> DropLeadingWord(t, words) == t
    ensures forall k | FirstPrefix(t, words, k) :: DropLeadingWord(t, words) == Strip(t[|words[k]|..])
    decreases |words|
  {
    if words != [] {
      DropLeadingWordCases(t, words[1..]);
      forall k | FirstPrefix(t, words, k)
        ensures DropLeadingWord(t, words) == Strip(t[|words[k]|..])
      {
        if k > 0 {
          assert FirstPrefix(t, words[1..], k - 1);
        }
      }
    }
  }

  /** Dropping the leading word keeps a stripped text stripped. */
  lemma {:induction false} DropLeadingWordStripped(t: string, words: seq<string>)
    requires IsStripped(t)
    ensures IsStripped(DropLeadingWord(t, words))
    decreases |words|
  {
    if words != [] && !StartsWith(t, words[0]) {
      DropLeadingWordStripped(t, words[1..]);
    }
  }

  /**
   * A keyword occurring after every prefix that could be dropped survives:
   * only the start of the text is cut.
   */
  lemma {:induction false} DropLeadingWordKeeps(t: string, words: seq<string>, kw: string, p: int)
    requires OccursAt(t, kw, p) && kw != [] && !IsSpace(kw[0]) && !IsSpace(kw[|kw| - 1])
    requires forall i | 0 <= i < |words| && StartsWith(t, words[i]) :: |words[i]| <= p
    ensures Contains(DropLeadingWord(t, words), kw)
    decreases |words|
  {
    if words == [] {
      ContainsIffOccurs(t, kw);
    } else if StartsWith(t, words[0]) {
      var n := |words[0]|;
      assert t[n..][p - n..p - n + |kw|] == t[p..p + |kw|];
      StripKeepsInner(t[n..], kw, p - n);
    } else {
      DropLeadingWordKeeps(t, words[1..], kw, p);
    }
  }

  /** The keyword loop of the older copy: `text = text.replace(keyword, "").strip()` for each keyword. */
  function RemoveKeywords(t: string, keywords: seq<string>): string
    decreases |keywords|
  {
    if keywords == [] then t else RemoveKeywords(Strip(ReplaceAll(t, keywords[0], "")), keywords[1..])
  }

  /** The keyword loop as the older handler runs it. */
  method RemoveKeywordsLoop(t: string, keywords: seq<string>) returns (r: string)
    ensures r == RemoveKeywords(t, keywords)
  {
    r := t;
    var k := 0;
    while k < |keywords|
      invariant 0 <= k <= |keywords|
      invariant RemoveKeywords(r, keywords[k..]) == RemoveKeywords(t, keywords)
    {
      assert keywords[k..][1..] == keywords[k + 1..];
      r := Strip(ReplaceAll(r, keywords[k], ""));
      k := k + 1;
    }
  }

  /** The keyword loop never lengthens the text and leaves a stripped text stripped. */
  lemma {:induction false} RemoveKeywordsShape(t: string, keywords: seq<string>)
    requires IsStripped(t)
    ensures IsStripped(RemoveKeywords(t, keywords)) && |RemoveKeywords(t, keywords)| <= |t|
    decreases |keywords|
  {
    if keywords != [] {
      RemoveShrinks(t, keywords[0]);
      RemoveKeywordsShape(Strip(ReplaceAll(t, keywords[0], "")), keywords[1..]);
    }
  }

  /** Keywords that do not occur leave a stripped text as it is (an empty keyword included). */
  lemma {:induction false} RemoveAbsentKeywords(t: string, keywords: seq<string>)
    requires IsStripped(t)
    requires forall i | 0 <= i < |keywords| :: keywords[i] == [] || !Contains(t, keywords[i])
    ensures RemoveKeywords(t, keywords) == t
    decreases |keywords|
  {
    if keywords != [] {
      if keywords[0] == [] {
        EmptyReplaceIsIdentity(t);
      } else {
        RemoveFixpointIff(t, keywords[0]);
      }
      StrippedIsFixpoint(t);
      RemoveAbsentKeywords(t, keywords[1..]);
    }
  }
}
