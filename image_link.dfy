/**
 * The image-link search applied to every reply of the chat plugin: the
 * pattern `https?://[^\s]+?\.(?:png|jpg|jpeg|gif|bmp|webp)` with
 * `re.IGNORECASE`, looked for with `search`, is a scheme, a lazy run of
 * non-whitespace, a dot and the first extension in list order that follows.
 */
module ImageLink {
  import opened Wrappers
  import opened Text

  /** The extensions of the pattern's alternation, in its order. */
  const Extensions: seq<string> := ["png", "jpg", "jpeg", "gif", "bmp", "webp"]

  /** `lit` (lower-case) occurs at `i`, letters compared case-insensitively. */
  predicate MatchesAt(s: string, i: int, lit: string) {
    0 <= i && i + |lit| <= |s| && forall k | 0 <= k < |lit| :: LowerChar(s[i + k]) == lit[k]
  }

  /** No whitespace in `s[a..b]`. */
  predicate NoSpaceIn(s: string, a: int, b: int)
    requires 0 <= a <= b <= |s|
  {
    forall k | a <= k < b :: !IsSpace(s[k])
  }

  /** The length of the scheme at `i`: 8 for `https://`, 7 for `http://`, 0 for neither. */
  function SchemeLen(s: string, i: int): nat {
    if MatchesAt(s, i, "https://") then 8
    else if MatchesAt(s, i, "http://") then 7
    else 0
  }

  /** The length of the first extension of `exts` at `j`, or 0. */
  function FirstExt(s: string, j: int, exts: seq<string>): (r: nat)
    ensures r > 0 ==> 0 <= j && j + r <= |s|
  {
    if exts == [] then 0
    else if MatchesAt(s, j, exts[0]) then |exts[0]|
    else FirstExt(s, j, exts[1..])
  }

  /**
   * The lazy body: the body so far is `s[..p]` from the scheme on, its last
   * character must not be whitespace, and the match ends at the first dot
   * followed by an extension.
   */
  function BodyFrom(s: string, p: nat): (r: Option<nat>)
    requires 1 <= p
    ensures r.Some? ==> p < r.value <= |s|
    decreases |s| - p
  {
    if p >= |s| then None
    else if IsSpace(s[p - 1]) then None
    else if s[p] == '.' && FirstExt(s, p + 1, Extensions) > 0 then Some(p + 1 + FirstExt(s, p + 1, Extensions))
    else BodyFrom(s, p + 1)
  }

  /** Where a match starting at `i` ends, if one does. */
  function MatchAt(s: string, i: nat): (r: Option<nat>)
    ensures r.Some? ==> i < r.value <= |s|
  {
    var n := SchemeLen(s, i);
    if n == 0 then None else BodyFrom(s, i + n + 1)
  }

  /** `pattern.search(s)` from `from` on: the leftmost start with a match, and that match's end. */
  function Search(s: string, from: nat): (r: Option<(nat, nat)>)
    ensures r.Some? ==> from <= r.value.0 < r.value.1 <= |s|
    decreases |s| - from
  {
    if from >= |s| then None
    else match MatchAt(s, from)
      case Some(e) => Some((from, e))
      case None => Search(s, from + 1)
  }

  // ---------------------------------------------------------------------------
  // The pattern as a language, independent of the search above.

  /** `s[i..e]` is the pattern with scheme length `n`, the dot at `d` and extension `x`. */
  predicate MatchVia(s: string, i: int, e: int, n: int, d: int, x: string) {
    && 0 <= i && ((n == 8 && MatchesAt(s, i, "https://")) || (n == 7 && MatchesAt(s, i, "http://")))
    && i + n < d < |s| && NoSpaceIn(s, i + n, d) && s[d] == '.'
    && x in Extensions && MatchesAt(s, d + 1, x) && e == d + 1 + |x|
  }

  /** `s[i..e]` is a text the pattern matches in full. */
  ghost predicate IsMatch(s: string, i: int, e: int) {
    exists n, d, x :: MatchVia(s, i, e, n, d, x)
  }

  /** Two extensions of the list cannot both occur at the same place. */
  lemma ExtUnique(s: string, j: int, x: string, y: string)
    requires x in Extensions && y in Extensions && MatchesAt(s, j, x) && MatchesAt(s, j, y)
    ensures x == y
  {
    assert LowerChar(s[j]) == x[0] == y[0];
    if x[0] == 'j' && y[0] == 'j' {
      assert LowerChar(s[j + 2]) == x[2] == y[2];
    }
  }

  /** A positive `FirstExt` is the length of an extension that occurs there. */
  lemma {:induction false} FirstExtSound(s: string, j: int, exts: seq<string>) returns (x: string)
    requires FirstExt(s, j, exts) > 0
    ensures x in exts && MatchesAt(s, j, x) && |x| == FirstExt(s, j, exts)
  {
    if MatchesAt(s, j, exts[0]) {
      x := exts[0];
    } else {
      x := FirstExtSound(s, j, exts[1..]);
    }
  }

  /** If an extension of the list occurs, `FirstExt` finds one. */
  lemma {:induction false} FirstExtComplete(s: string, j: int, exts: seq<string>, x: string)
    requires forall k | 0 <= k < |exts| :: exts[k] != []
    requires x in exts && MatchesAt(s, j, x)
    ensures FirstExt(s, j, exts) > 0
  {
    if !MatchesAt(s, j, exts[0]) {
      FirstExtComplete(s, j, exts[1..], x);
    }
  }

  /** What the lazy body search returns is a dot and an extension after a whitespace-free run. */
  lemma {:induction false} BodyFromSound(s: string, p: nat) returns (d: int, x: string)
    requires 1 <= p && BodyFrom(s, p).Some?
    ensures p <= d < |s| && NoSpaceIn(s, p - 1, d) && s[d] == '.'
    ensures x in Extensions && MatchesAt(s, d + 1, x) && BodyFrom(s, p).value == d + 1 + |x|
    decreases |s| - p
  {
    if s[p] == '.' && FirstExt(s, p + 1, Extensions) > 0 {
      d := p;
      x := FirstExtSound(s, p + 1, Extensions);
    } else {
      d, x := BodyFromSound(s, p + 1);
    }
  }

  /** Any dot with an extension after a whitespace-free run is found, or an earlier one is. */
  lemma {:induction false} BodyFromComplete(s: string, p: nat, d: int, x: string)
    requires 1 <= p <= d < |s| && NoSpaceIn(s, p - 1, d) && s[d] == '.'
    requires x in Extensions && MatchesAt(s, d + 1, x)
    ensures BodyFrom(s, p).Some? && BodyFrom(s, p).value <= d + 1 + |x|
    decreases d - p
  {
    if s[p] == '.' && FirstExt(s, p + 1, Extensions) > 0 {
      var y := FirstExtSound(s, p + 1, Extensions);
      if p == d {
        ExtUnique(s, d + 1, x, y);
      } else {
        assert |y| <= 4 && |x| >= 3;
      }
    } else if p == d {
      FirstExtComplete(s, d + 1, Extensions, x);
    } else {
      BodyFromComplete(s, p + 1, d, x);
    }
  }

  /** A match the search reports at `i` is a text the pattern matches. */
  lemma MatchAtSound(s: string, i: nat)
    requires MatchAt(s, i).Some?
    ensures IsMatch(s, i, MatchAt(s, i).value)
  {
    var n := SchemeLen(s, i);
    var d, x := BodyFromSound(s, i + n + 1);
    assert MatchVia(s, i, MatchAt(s, i).value, n, d, x);
  }

  /**
   * Whenever the pattern matches a text starting at `i`, the search at `i`
   * succeeds, with the shortest such text (the lazy body).
   */
  lemma MatchAtComplete(s: string, i: nat, e: int)
    requires IsMatch(s, i, e)
    ensures MatchAt(s, i).Some? && MatchAt(s, i).value <= e
  {
    var n, d, x :| MatchVia(s, i, e, n, d, x);
    if n == 7 {
      assert LowerChar(s[i + 4]) == "http://"[4] == ':' != "https://"[4];
    }
    assert SchemeLen(s, i) == n;
    BodyFromComplete(s, i + n + 1, d, x);
  }

  /** No match starts in `[a, b)`. */
  ghost predicate NoMatchBetween(s: string, a: int, b: int) {
    forall j, f | a <= j < b :: !IsMatch(s, j, f)
  }

  /** No match starts at `|s|` or later. */
  lemma NoMatchAtEnd(s: string, j: int, f: int)
    requires |s| <= j
    ensures !IsMatch(s, j, f)
  {
  }

  /** The search finds the leftmost start of a match, and there the shortest match; `None` means none exists. */
  lemma {:induction false} SearchIsLeftmostShortest(s: string, from: nat)
    ensures Search(s, from).Some? ==>
      && from <= Search(s, from).value.0 && IsMatch(s, Search(s, from).value.0, Search(s, from).value.1)
      && NoMatchBetween(s, from, Search(s, from).value.0)
      && (forall f | f < Search(s, from).value.1 :: !IsMatch(s, Search(s, from).value.0, f))
    ensures Search(s, from).None? ==> NoMatchBetween(s, from, |s|)
    decreases |s| - from
  {
    if from < |s| {
      SearchIsLeftmostShortest(s, from + 1);
      forall f | IsMatch(s, from, f)
        ensures MatchAt(s, from).Some? && MatchAt(s, from).value <= f
      {
        MatchAtComplete(s, from, f);
      }
      if MatchAt(s, from).Some? {
        MatchAtSound(s, from);
      }
    }
  }

  /** Characters that match a literal without whitespace are not whitespace either. */
  lemma MatchedNoSpace(s: string, i: int, lit: string)
    requires MatchesAt(s, i, lit) && forall k | 0 <= k < |lit| :: !IsSpace(lit[k])
    ensures NoSpaceIn(s, i, i + |lit|)
  {
    forall k | i <= k < i + |lit|
      ensures !IsSpace(s[k])
    {
      assert LowerChar(s[i + (k - i)]) == lit[k - i];
    }
  }

  /** The scheme of a match is free of whitespace. */
  lemma SchemeNoSpace(s: string, i: int, n: int)
    requires (n == 8 && MatchesAt(s, i, "https://")) || (n == 7 && MatchesAt(s, i, "http://"))
    ensures i + n <= |s| && NoSpaceIn(s, i, i + n)
  {
    MatchedNoSpace(s, i, if n == 8 then "https://" else "http://");
  }

  /** The extension of a match is free of whitespace and three or four letters long. */
  lemma ExtNoSpace(s: string, j: int, x: string)
    requires x in Extensions && MatchesAt(s, j, x)
    ensures 3 <= |x| && j + |x| <= |s| && NoSpaceIn(s, j, j + |x|)
  {
    MatchedNoSpace(s, j, x);
  }

  /** A matched link has a scheme, a body and an extension, and no whitespace anywhere. */
  lemma MatchShape(s: string, i: int, e: int)
    requires IsMatch(s, i, e)
    ensures 0 <= i && i + 12 <= e <= |s| && NoSpaceIn(s, i, e)
    ensures MatchesAt(s, i, "http://") || MatchesAt(s, i, "https://")
  {
    var n, d, x :| MatchVia(s, i, e, n, d, x);
    SchemeNoSpace(s, i, n);
    ExtNoSpace(s, d + 1, x);
    forall k | i <= k < e
      ensures !IsSpace(s[k])
    {
      if k < i + n {
        assert NoSpaceIn(s, i, i + n);
      } else if k < d {
        assert NoSpaceIn(s, i + n, d);
      } else if k > d {
        assert NoSpaceIn(s, d + 1, e);
      }
    }
  }

  /**
   * The reply split of the chat plugin: with a link found, the text with
   * every copy of the link deleted, and the link to send as an image.
   */
  function SplitImage(response: string): (string, Option<string>) {
    match Search(response, 0)
    case Some((i, e)) => (ReplaceAll(response, response[i..e], ""), Some(response[i..e]))
    case None => (response, None)
  }

  /** A reply without a link is sent as it is, and the pattern matches nowhere in it. */
  lemma SplitImageNoLink(response: string)
    requires SplitImage(response).1.None?
    ensures SplitImage(response).0 == response
    ensures forall j, f :: !IsMatch(response, j, f)
  {
    SearchIsLeftmostShortest(response, 0);
    forall j, f
      ensures !IsMatch(response, j, f)
    {
      if 0 <= j < |response| {
        assert NoMatchBetween(response, 0, |response|);
      } else if |response| <= j {
        NoMatchAtEnd(response, j, f);
      }
    }
  }

  /**
   * With a link, the link sent is `response[i..e]`, the leftmost match of
   * the pattern (and the shortest one there), at least 12 characters long
   * and free of whitespace; the text sent is the reply with every copy of
   * it deleted.
   */
  lemma SplitImageLink(response: string) returns (i: nat, e: nat)
    requires SplitImage(response).1.Some?
    ensures i + 12 <= e <= |response|
    ensures SplitImage(response) == (ReplaceAll(response, response[i..e], ""), Some(response[i..e]))
    ensures IsMatch(response, i, e) && NoMatchBetween(response, 0, i)
    ensures forall f | f < e :: !IsMatch(response, i, f)
    ensures NoSpaceIn(response, i, e)
  {
    SearchIsLeftmostShortest(response, 0);
    i, e := Search(response, 0).value.0, Search(response, 0).value.1;
    MatchShape(response, i, e);
  }

  /** The text sent is at least as much shorter than the reply as the link is long. */
  lemma SplitImageText(response: string)
    requires SplitImage(response).1.Some?
    ensures |SplitImage(response).0| + |SplitImage(response).1.value| <= |response|
  {
    var i, e := SplitImageLink(response);
    var url := response[i..e];
    assert OccursAt(response, url, i);
    ContainsIffOccurs(response, url);
    RemoveFound(response, url);
  }

}
