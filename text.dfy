/**
 * The parts of Python's `str` behaviour that the bot relies on: `strip`,
 * `startswith`, the `in` substring test, `replace`, `split`, `join`, `lower`
 * and `str()` of a non-negative integer.
 */
module Text {

  /** Python's `str.isspace()` set: what `strip()` removes and what `\s` matches. */
  predicate IsSpace(c: char) {
    || c == ' '
    || ('\t' <= c <= '\r')
    || ('\U{1C}' <= c <= '\U{1F}')
    || c == '\U{85}' || c == '\U{A0}' || c == '\U{1680}'
    || ('\U{2000}' <= c <= '\U{200A}')
    || c == '\U{2028}' || c == '\U{2029}' || c == '\U{202F}' || c == '\U{205F}'
    || c == '\U{3000}'
  }

  /** Neither end of `s` is whitespace. */
  predicate IsStripped(s: string) {
    s == [] || (!IsSpace(s[0]) && !IsSpace(s[|s| - 1]))
  }

  /** Every character of `s` is whitespace (Python: `not s.strip()`). */
  predicate IsBlank(s: string) {
    forall k | 0 <= k < |s| :: IsSpace(s[k])
  }

  /** `s.lstrip()`: the suffix left after dropping leading whitespace. */
  function LStrip(s: string): (r: string)
    ensures |r| <= |s| && r == s[|s| - |r|..]
    ensures forall k | 0 <= k < |s| - |r| :: IsSpace(s[k])
    ensures r == [] || !IsSpace(r[0])
  {
    if s != [] && IsSpace(s[0]) then LStrip(s[1..]) else s
  }

  /** `s.rstrip()`: the prefix left after dropping trailing whitespace. */
  function RStrip(s: string): (r: string)
    ensures |r| <= |s| && r == s[..|r|]
    ensures forall k | |r| <= k < |s| :: IsSpace(s[k])
    ensures r == [] || !IsSpace(r[|r| - 1])
  {
    if s != [] && IsSpace(s[|s| - 1]) then RStrip(s[..|s| - 1]) else s
  }

  /** `s.strip()` */
  function Strip(s: string): (r: string)
    ensures IsStripped(r)
    ensures |r| <= |s|
  {
    RStrip(LStrip(s))
  }

  /** A string with no whitespace at either end is its own `strip()`. */
  lemma StrippedIsFixpoint(s: string)
    requires IsStripped(s)
    ensures Strip(s) == s
  {
  }

  /** `strip()` is idempotent. */
  lemma StripIdempotent(s: string)
    ensures Strip(Strip(s)) == Strip(s)
  {
    StrippedIsFixpoint(Strip(s));
  }

  /** `s.strip()` is empty exactly when `s` is all whitespace. */
  lemma StripEmptyIffBlank(s: string)
    ensures Strip(s) == [] <==> IsBlank(s)
  {
    var t := LStrip(s);
    assert t != [] ==> t[0] == s[|s| - |t|];
    if !IsBlank(s) {
      var k :| 0 <= k < |s| && !IsSpace(s[k]);
      assert k >= |s| - |t|;
      assert t[k - (|s| - |t|)] == s[k];
    }
  }

  /** `lstrip()` keeps every occurrence of a string that does not start with whitespace. */
  lemma {:induction false} LStripKeeps(s: string, sub: string, p: int) returns (q: int)
    requires OccursAt(s, sub, p) && sub != [] && !IsSpace(sub[0])
    ensures OccursAt(LStrip(s), sub, q)
    decreases |s|
  {
    if s != [] && IsSpace(s[0]) {
      assert s[p..p + |sub|][0] == s[p];
      assert s[1..][p - 1..p - 1 + |sub|] == s[p..p + |sub|];
      q := LStripKeeps(s[1..], sub, p - 1);
    } else {
      q := p;
    }
  }

  /** `rstrip()` keeps every occurrence of a string that does not end with whitespace. */
  lemma {:induction false} RStripKeeps(s: string, sub: string, p: int)
    requires OccursAt(s, sub, p) && sub != [] && !IsSpace(sub[|sub| - 1])
    ensures OccursAt(RStrip(s), sub, p)
    decreases |s|
  {
    if s != [] && IsSpace(s[|s| - 1]) {
      assert s[p..p + |sub|][|sub| - 1] == s[p + |sub| - 1];
      assert s[..|s| - 1][p..p + |sub|] == s[p..p + |sub|];
      RStripKeeps(s[..|s| - 1], sub, p);
    }
  }

  /**
   * `strip()` keeps every occurrence of a string that neither starts nor
   * ends with whitespace.
   */
  lemma StripKeepsInner(s: string, sub: string, p: int)
    requires OccursAt(s, sub, p) && sub != []
    requires !IsSpace(sub[0]) && !IsSpace(sub[|sub| - 1])
    ensures Contains(Strip(s), sub)
  {
    var q := LStripKeeps(s, sub, p);
    RStripKeeps(LStrip(s), sub, q);
    ContainsIffOccurs(Strip(s), sub);
  }

  /** `s.startswith(prefix)`; every string starts with "". */
  predicate StartsWith(s: string, prefix: string) {
    |prefix| <= |s| && s[..|prefix|] == prefix
  }

  /** Python's `sub in s`; "" is in every string. */
  predicate Contains(s: string, sub: string)
    decreases |s|
  {
    StartsWith(s, sub) || (s != [] && Contains(s[1..], sub))
  }

  /** `sub` occurs in `s` at index `i`. */
  predicate OccursAt(s: string, sub: string, i: int) {
    0 <= i && i + |sub| <= |s| && s[i..i + |sub|] == sub
  }

  /** `sub in s` holds exactly when `sub` occurs at some index of `s`. */
  lemma {:induction false} ContainsIffOccurs(s: string, sub: string)
    ensures Contains(s, sub) <==> exists i :: OccursAt(s, sub, i)
    decreases |s|
  {
    if StartsWith(s, sub) {
      assert OccursAt(s, sub, 0);
    } else if s != [] {
      ContainsIffOccurs(s[1..], sub);
      if Contains(s[1..], sub) {
        var i :| OccursAt(s[1..], sub, i);
        assert s[1..][i..i + |sub|] == s[i + 1..i + 1 + |sub|];
        assert OccursAt(s, sub, i + 1);
      }
      if exists i :: OccursAt(s, sub, i) {
        var i :| OccursAt(s, sub, i);
        assert i != 0 && s[1..][i - 1..i - 1 + |sub|] == s[i..i + |sub|];
        assert OccursAt(s[1..], sub, i - 1);
      }
    } else {
      assert forall i :: !OccursAt(s, sub, i);
    }
  }

  /** A string occurring in `t` occurs in every string containing `t`. */
  lemma ContainsInfix(a: string, t: string, b: string, sub: string)
    requires Contains(t, sub)
    ensures Contains(a + t + b, sub)
  {
    ContainsIffOccurs(t, sub);
    var i :| OccursAt(t, sub, i);
    assert (a + t + b)[|a| + i..|a| + i + |sub|] == t[i..i + |sub|];
    assert OccursAt(a + t + b, sub, |a| + i);
    ContainsIffOccurs(a + t + b, sub);
  }

  /** A prefix of a prefix is a prefix. */
  lemma PrefixTransitive(s: string, a: string, b: string)
    requires StartsWith(s, a) && StartsWith(a, b)
    ensures StartsWith(s, b)
  {
    assert s[..|b|] == s[..|a|][..|b|];
  }

  /** `s.replace("", rep)`: `rep` before every character and once at the end. */
  function InsertEverywhere(s: string, rep: string): string {
    if s == [] then rep else rep + [s[0]] + InsertEverywhere(s[1..], rep)
  }

  /**
   * `s.replace(pat, rep)`: a left-to-right scan that rewrites each
   * non-overlapping occurrence of `pat`.
   */
  function ReplaceAll(s: string, pat: string, rep: string): string
    decreases |s|
  {
    if pat == [] then InsertEverywhere(s, rep)
    else if StartsWith(s, pat) then rep + ReplaceAll(s[|pat|..], pat, rep)
    else if s == [] then []
    else [s[0]] + ReplaceAll(s[1..], pat, rep)
  }

  /** Removing occurrences never makes a string longer. */
  lemma {:induction false} RemoveShrinks(s: string, pat: string)
    ensures |ReplaceAll(s, pat, "")| <= |s|
    decreases |s|
  {
    if pat == [] {
      EmptyReplaceIsIdentity(s);
    } else if StartsWith(s, pat) {
      RemoveShrinks(s[|pat|..], pat);
    } else if s != [] {
      RemoveShrinks(s[1..], pat);
    }
  }

  /** `s.replace("", "") == s`. */
  lemma {:induction false} EmptyReplaceIsIdentity(s: string)
    ensures ReplaceAll(s, "", "") == s
  {
    if s != [] {
      EmptyReplaceIsIdentity(s[1..]);
    }
  }

  /**
   * Removing a non-empty `pat` leaves `s` as it was exactly when `pat` does
   * not occur in `s`.
   */
  lemma {:induction false} RemoveFixpointIff(s: string, pat: string)
    requires pat != []
    ensures ReplaceAll(s, pat, "") == s <==> !Contains(s, pat)
    decreases |s|
  {
    if StartsWith(s, pat) {
      RemoveShrinks(s[|pat|..], pat);
    } else if s != [] {
      RemoveFixpointIff(s[1..], pat);
      assert ReplaceAll(s, pat, "") == [s[0]] + ReplaceAll(s[1..], pat, "");
      if ReplaceAll(s[1..], pat, "") != s[1..] {
        assert ReplaceAll(s, pat, "")[1..] == ReplaceAll(s[1..], pat, "");
      }
    }
  }

  /** A removal that finds `pat` shortens the text by at least `|pat|`. */
  lemma {:induction false} RemoveFound(s: string, pat: string)
    requires pat != [] && Contains(s, pat)
    ensures |ReplaceAll(s, pat, "")| + |pat| <= |s|
    decreases |s|
  {
    if StartsWith(s, pat) {
      RemoveShrinks(s[|pat|..], pat);
    } else {
      RemoveFound(s[1..], pat);
    }
  }

  /** `s.split(sep)` for a non-empty separator. */
  function Split(s: string, sep: string): (parts: seq<string>)
    requires sep != []
    ensures |parts| >= 1
    decreases |s|
  {
    if StartsWith(s, sep) then [[]] + Split(s[|sep|..], sep)
    else if s == [] then [[]]
    else
      var rest := Split(s[1..], sep);
      [[s[0]] + rest[0]] + rest[1..]
  }

  /** `sep.join(parts)` */
  function Join(parts: seq<string>, sep: string): string {
    if parts == [] then []
    else if |parts| == 1 then parts[0]
    else parts[0] + sep + Join(parts[1..], sep)
  }

  /** Joining the pieces of a split with the same separator gives back the string. */
  lemma {:induction false} JoinSplit(s: string, sep: string)
    requires sep != []
    ensures Join(Split(s, sep), sep) == s
    decreases |s|
  {
    ReplaceIsSplitJoin(s, sep, sep);
    ReplaceSelf(s, sep);
  }

  /** Replacing a non-empty pattern by itself changes nothing. */
  lemma {:induction false} ReplaceSelf(s: string, pat: string)
    requires pat != []
    ensures ReplaceAll(s, pat, pat) == s
    decreases |s|
  {
    if StartsWith(s, pat) {
      ReplaceSelf(s[|pat|..], pat);
      assert s == pat + s[|pat|..];
    } else if s != [] {
      ReplaceSelf(s[1..], pat);
      assert s == [s[0]] + s[1..];
    }
  }

  /** `s.replace(pat, rep) == rep.join(s.split(pat))` for a non-empty pattern. */
  lemma {:induction false} ReplaceIsSplitJoin(s: string, pat: string, rep: string)
    requires pat != []
    ensures ReplaceAll(s, pat, rep) == Join(Split(s, pat), rep)
    decreases |s|
  {
    if StartsWith(s, pat) {
      ReplaceIsSplitJoin(s[|pat|..], pat, rep);
      var rest := Split(s[|pat|..], pat);
      assert Split(s, pat) == [[]] + rest;
      assert ([[]] + rest)[1..] == rest;
    } else if s != [] {
      ReplaceIsSplitJoin(s[1..], pat, rep);
      var rest := Split(s[1..], pat);
      var parts := [[s[0]] + rest[0]] + rest[1..];
      assert Split(s, pat) == parts;
      if |rest| > 1 {
        assert parts[1..] == rest[1..];
        assert Join(rest, rep) == rest[0] + rep + Join(rest[1..], rep);
      }
    }
  }

  /** One piece of a split: everything but one character comes from the rest. */
  lemma {:induction false} SplitFirstIsPrefix(s: string, sep: string)
    requires sep != []
    ensures StartsWith(s, Split(s, sep)[0])
    decreases |s|
  {
    if !StartsWith(s, sep) && s != [] {
      SplitFirstIsPrefix(s[1..], sep);
      var p := Split(s[1..], sep)[0];
      assert s[..1 + |p|] == [s[0]] + s[1..][..|p|];
    }
  }

  /** No piece of `s.split(sep)` contains `sep`. */
  lemma {:induction false} SplitPiecesAreSeparatorFree(s: string, sep: string)
    requires sep != []
    ensures forall i | 0 <= i < |Split(s, sep)| :: !Contains(Split(s, sep)[i], sep)
    decreases |s|
  {
    var parts := Split(s, sep);
    if StartsWith(s, sep) {
      SplitPiecesAreSeparatorFree(s[|sep|..], sep);
      assert !Contains([], sep);
      assert forall i | 1 <= i < |parts| :: parts[i] == Split(s[|sep|..], sep)[i - 1];
    } else if s != [] {
      var rest := Split(s[1..], sep);
      SplitPiecesAreSeparatorFree(s[1..], sep);
      SplitFirstIsPrefix(s[1..], sep);
      var first := [s[0]] + rest[0];
      assert s[..|first|] == [s[0]] + s[1..][..|rest[0]|];
      assert StartsWith(s, first);
      if StartsWith(first, sep) {
        PrefixTransitive(s, first, sep);
      }
      assert !StartsWith(first, sep);
      assert first[1..] == rest[0];
      assert !Contains(first, sep);
      assert forall i | 1 <= i < |parts| :: parts[i] == rest[i];
    }
  }

  /** `c.lower()` for ASCII letters; other characters are left as they are. */
  function LowerChar(c: char): char {
    if 'A' <= c <= 'Z' then (c as int + 32) as char else c
  }

  /** `s.lower()`, ASCII letters only. */
  function Lower(s: string): (r: string)
    ensures |r| == |s|
    ensures forall i | 0 <= i < |s| :: r[i] == LowerChar(s[i])
  {
    if s == [] then [] else [LowerChar(s[0])] + Lower(s[1..])
  }

  /** `lower()` leaves no upper-case ASCII letter and is idempotent. */
  lemma LowerIsLower(s: string)
    ensures forall i | 0 <= i < |s| :: !('A' <= Lower(s)[i] <= 'Z')
    ensures Lower(Lower(s)) == Lower(s)
  {
  }

  /** The decimal digit `d` as a character. */
  function DigitChar(d: nat): (c: char)
    requires d < 10
    ensures '0' <= c <= '9'
  {
    ('0' as int + d) as char
  }

  /** `str(n)` for a non-negative integer: its decimal digits. */
  function Decimal(n: nat): (r: string)
    ensures |r| >= 1
    ensures forall i | 0 <= i < |r| :: '0' <= r[i] <= '9'
    ensures (|r| == 1) == (n < 10)
  {
    if n < 10 then [DigitChar(n)] else Decimal(n / 10) + [DigitChar(n % 10)]
  }

  /** Different numbers have different decimal renderings. */
  lemma {:induction false} DecimalInjective(a: nat, b: nat)
    requires Decimal(a) == Decimal(b)
    ensures a == b
  {
    if a >= 10 && b >= 10 {
      var da, db := Decimal(a), Decimal(b);
      assert da[|da| - 1] == DigitChar(a % 10);
      assert db[|db| - 1] == DigitChar(b % 10);
      assert da[..|da| - 1] == Decimal(a / 10);
      assert db[..|db| - 1] == Decimal(b / 10);
      DecimalInjective(a / 10, b / 10);
    }
  }
}
