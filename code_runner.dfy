/**
 * The code-running tool, `tools/code_runner.py`: it resolves a language
 * name such as `c++14` against the Judge0 language table, prepares the
 * Base64 payload, and shapes the submission result. The language table
 * (read from the cache file) and the Judge0 response are inputs.
 */
module CodeRunner {
  import opened Wrappers
  import opened Text
  import Utf8
  import Base64

  // ---------------------------------------------------------------------------
  // Language names and versions

  /**
   * `normalize_language_name(query_name)`: `name_mapping.get(query_name,
   * query_name)`. The mapping's entries for `objective-c`, `plain text` and
   * `visual basic.net` map those names to themselves.
   */
  function NormalizeLanguageName(queryName: string): string {
    if queryName == "c#" then "csharp"
    else if queryName == "objectivec" || queryName == "objc" then "objective-c"
    else if queryName == "visual basic net" || queryName == "vb.net" then "visual basic.net"
    else queryName
  }

  /**
   * The aliases map to their canonical names, and they are the only names
   * that change: every other name, the canonical ones included, is its own
   * normal form.
   */
  lemma NormalizeAliases(queryName: string)
    ensures NormalizeLanguageName("c#") == "csharp"
    ensures NormalizeLanguageName("objc") == "objective-c" && NormalizeLanguageName("objectivec") == "objective-c"
    ensures NormalizeLanguageName("vb.net") == "visual basic.net"
    ensures NormalizeLanguageName("visual basic net") == "visual basic.net"
    ensures NormalizeLanguageName(queryName) != queryName <==>
              queryName in {"c#", "objc", "objectivec", "vb.net", "visual basic net"}
  {
  }

  /** Normalising twice is normalising once. */
  lemma NormalizeIdempotent(queryName: string)
    ensures NormalizeLanguageName(NormalizeLanguageName(queryName)) == NormalizeLanguageName(queryName)
  {
  }

  /** The normalised names `is_name_match` treats specially. */
  const SpecialNames: set<string> := {"c++", "c", "csharp", "objective-c", "plain text", "visual basic.net"}

  /** `is_name_match(query_name, lang_name_lower)` */
  predicate IsNameMatch(queryName: string, langNameLower: string) {
    || queryName == langNameLower
    || (queryName == "c++" && Contains(langNameLower, "c++"))
    || (queryName == "c" && StartsWith(langNameLower, "c "))
    || (queryName == "csharp" && Contains(langNameLower, "c#"))
    || (queryName == "objective-c" && (Contains(langNameLower, "objective-c") || Contains(langNameLower, "Objective-C")))
    || (queryName == "plain text" && Contains(langNameLower, "plain text"))
    || (queryName == "visual basic.net" && Contains(langNameLower, "visual basic.net"))
  }

  /**
   * A name always matches itself, and a query outside the special names
   * matches nothing else.
   */
  lemma NameMatchPlain(queryName: string, langNameLower: string)
    ensures IsNameMatch(queryName, queryName)
    ensures queryName !in SpecialNames ==> (IsNameMatch(queryName, langNameLower) <==> queryName == langNameLower)
  {
  }

  /**
   * The query `c` matches `c` itself and the names starting with `c `
   * (such as `c (gcc 7.4.0)`), so never a C++ or C# entry.
   */
  lemma CQueryMatch(langNameLower: string)
    ensures IsNameMatch("c", langNameLower) <==> langNameLower == "c" || StartsWith(langNameLower, "c ")
    ensures StartsWith(langNameLower, "c++") || StartsWith(langNameLower, "c#") ==> !IsNameMatch("c", langNameLower)
  {
    if StartsWith(langNameLower, "c++") || StartsWith(langNameLower, "c#") {
      assert langNameLower[1] != ' ';
    }
  }

  /**
   * On a lower-cased name the upper-case `Objective-C` test never holds,
   * so `objective-c` matches exactly the names containing `objective-c`.
   */
  lemma ObjectiveCMatch(langName: string)
    ensures IsNameMatch("objective-c", Lower(langName)) <==> Contains(Lower(langName), "objective-c")
  {
    NoUpperInLower(langName, "Objective-C", 0);
  }

  /** A lower-cased string contains no string with an upper-case ASCII letter. */
  lemma NoUpperInLower(s: string, sub: string, k: nat)
    requires k < |sub| && 'A' <= sub[k] <= 'Z'
    ensures !Contains(Lower(s), sub)
  {
    ContainsIffOccurs(Lower(s), sub);
  }

  /** `is_version_match(query_name, query_version, lang_version)` */
  predicate IsVersionMatch(queryName: string, queryVersion: string, langVersion: string) {
    || queryVersion == []
    || queryVersion == langVersion
    || StartsWith(langVersion, queryVersion)
    || (queryName == "c++" && queryVersion == "14" && Contains(Lower(langVersion), "gcc 8"))
    || (queryName == "c" && queryVersion == "7" && Contains(Lower(langVersion), "gcc 7"))
  }

  /**
   * No version and any prefix of the entry's version match; beyond those,
   * only C++14 against a GCC 8 entry and C7 against a GCC 7 entry do.
   */
  lemma VersionMatchCases(queryName: string, queryVersion: string, langVersion: string)
    ensures queryVersion == [] ==> IsVersionMatch(queryName, queryVersion, langVersion)
    ensures StartsWith(langVersion, queryVersion) ==> IsVersionMatch(queryName, queryVersion, langVersion)
    ensures !StartsWith(langVersion, queryVersion) ==>
              (IsVersionMatch(queryName, queryVersion, langVersion) <==>
                 || (queryName == "c++" && queryVersion == "14" && Contains(Lower(langVersion), "gcc 8"))
                 || (queryName == "c" && queryVersion == "7" && Contains(Lower(langVersion), "gcc 7")))
  {
    if queryVersion == [] {
      assert StartsWith(langVersion, queryVersion);
    }
    if queryVersion == langVersion {
      assert StartsWith(langVersion, queryVersion);
    }
  }

  // ---------------------------------------------------------------------------
  // The query

  /** A character of `[a-z#\.\s]`, the name part of the query pattern. */
  predicate NameChar(c: char) {
    ('a' <= c <= 'z') || c == '#' || c == '.' || IsSpace(c)
  }

  /** A character of `\d`, taken as the ASCII digits. */
  predicate IsDigit(c: char) {
    '0' <= c <= '9'
  }

  /** The character of `\+*`. */
  predicate IsPlus(c: char) {
    c == '+'
  }

  /** How many leading characters of `s` satisfy `p`: a greedy `[...]*`. */
  function RunLength(s: string, p: char -> bool): (n: nat)
    ensures n <= |s|
    ensures forall i | 0 <= i < n :: p(s[i])
    ensures n == |s| || !p(s[n])
  {
    if s == [] || !p(s[0]) then 0 else 1 + RunLength(s[1..], p)
  }

  /** How much of `s` the greedy `\d*\.?\d*` takes. */
  function VersionLength(s: string): (n: nat)
    ensures n <= |s|
  {
    var whole := RunLength(s, IsDigit);
    if whole < |s| && s[whole] == '.' then whole + 1 + RunLength(s[whole + 1..], IsDigit) else whole
  }

  /** The three groups of `re.match(r"([a-z#\.\s]+)(\+*)(\d*\.?\d*)?", query)`. */
  datatype Groups = Groups(name: string, plusSigns: string, version: string)

  /**
   * The match on the lower-cased query: each group takes as much as it can,
   * and the match fails only when the query does not start with a name
   * character.
   */
  function MatchQuery(query: string): Option<Groups> {
    var q := Lower(query);
    var n := RunLength(q, NameChar);
    if n == 0 then None
    else
      var rest := q[n..];
      var p := RunLength(rest, IsPlus);
      Some(Groups(q[..n], rest[..p], rest[p..][..VersionLength(rest[p..])]))
  }

  /** The name and version `find_best_language_match_dict` looks for. */
  datatype LanguageQuery = LanguageQuery(name: string, version: string)

  /**
   * Steps 1 and 2: split the query, strip both parts, read `c` followed by
   * plus signs as `c++`, and normalise the name.
   */
  function ResolveQuery(query: string): Option<LanguageQuery> {
    match MatchQuery(query)
    case None => None
    case Some(g) => Some(ResolveGroups(g))
  }

  /** Step 2 on the groups of a successful match. */
  function ResolveGroups(g: Groups): LanguageQuery {
    var name := Strip(g.name);
    var version := Strip(g.version);
    LanguageQuery(NormalizeLanguageName(if name == "c" && g.plusSigns != [] then "c++" else name), version)
  }

  /** Digits with at most one dot among them: what `\d*\.?\d*` can match. */
  predicate VersionText(v: string) {
    && (forall i | 0 <= i < |v| :: IsDigit(v[i]) || v[i] == '.')
    && (forall i, j | 0 <= i < j < |v| :: v[i] != '.' || v[j] != '.')
  }

  /** The version group is a version text. */
  lemma VersionGroupShape(s: string)
    ensures VersionText(s[..VersionLength(s)])
  {
    var whole := RunLength(s, IsDigit);
    var v := s[..VersionLength(s)];
    if whole < |s| && s[whole] == '.' {
      var tail := RunLength(s[whole + 1..], IsDigit);
      assert forall i | whole + 1 <= i < |v| :: v[i] == s[whole + 1..][i - whole - 1];
    }
  }

  /** The match fails exactly on an empty query or one whose first character is outside the name class. */
  lemma MatchQueryFails(query: string)
    ensures MatchQuery(query).None? <==> query == [] || !NameChar(LowerChar(query[0]))
  {
    var q := Lower(query);
    assert query != [] ==> q[0] == LowerChar(query[0]);
  }

  /**
   * A successful match: the three groups lie one after another at the
   * start of the lower-cased query, the name group cannot be extended, the
   * plus group is plus signs only, and the version is digits with at most
   * one dot.
   */
  lemma MatchQueryShape(query: string)
    ensures MatchQuery(query).Some? ==>
              var g := MatchQuery(query).value;
              var q := Lower(query);
              && g.name != []
              && StartsWith(q, g.name + g.plusSigns + g.version)
              && (forall i | 0 <= i < |g.name| :: NameChar(g.name[i]))
              && (|g.name| == |q| || !NameChar(q[|g.name|]))
              && (forall i | 0 <= i < |g.plusSigns| :: g.plusSigns[i] == '+')
              && VersionText(g.version)
  {
    var q := Lower(query);
    var n := RunLength(q, NameChar);
    if n != 0 {
      var rest := q[n..];
      var p := RunLength(rest, IsPlus);
      var v := rest[p..];
      VersionGroupShape(v);
      Layout(q, n, p, VersionLength(v));
    }
  }

  /** Three consecutive slices from the start make up the prefix they cover. */
  lemma Layout(q: string, n: nat, p: nat, k: nat)
    requires n + p + k <= |q|
    ensures q[..n] + q[n..][..p] + q[n..][p..][..k] == q[..n + p + k]
  {
  }

  /** A run of exactly `n` characters satisfying `p` has length `n`. */
  lemma {:induction false} RunLengthIs(s: string, p: char -> bool, n: nat)
    requires n <= |s| && (forall i | 0 <= i < n :: p(s[i])) && (n == |s| || !p(s[n]))
    ensures RunLength(s, p) == n
  {
    if n > 0 {
      RunLengthIs(s[1..], p, n - 1);
    }
  }

  /** A string without upper-case ASCII letters is its own lower case. */
  lemma LowerUnchanged(s: string)
    requires forall i | 0 <= i < |s| :: !('A' <= s[i] <= 'Z')
    ensures Lower(s) == s
  {
  }

  /**
   * `c` followed by plus signs and a version (`c++14`) asks for `c++` with
   * that version.
   */
  lemma ResolveCPlus(plusSigns: string, version: string)
    requires plusSigns != [] && forall i | 0 <= i < |plusSigns| :: plusSigns[i] == '+'
    requires forall i | 0 <= i < |version| :: IsDigit(version[i])
    ensures ResolveQuery("c" + plusSigns + version) == Some(LanguageQuery("c++", version))
  {
    MatchCPlus(plusSigns, version);
    GroupsCPlus(plusSigns, version);
  }

  /** Step 2 turns the groups of `c++14` into `c++` and `14`. */
  lemma GroupsCPlus(plusSigns: string, version: string)
    requires plusSigns != []
    requires forall i | 0 <= i < |version| :: IsDigit(version[i])
    ensures ResolveGroups(Groups("c", plusSigns, version)) == LanguageQuery("c++", version)
  {
    CppIsNormal();
    StrippedIsFixpoint("c");
    DigitsStripped(version);
  }

  /** `c++` is not an alias. */
  lemma CppIsNormal()
    ensures NormalizeLanguageName("c++") == "c++"
  {
  }

  /** The groups of `c`, plus signs and a version. */
  lemma MatchCPlus(plusSigns: string, version: string)
    requires plusSigns != [] && forall i | 0 <= i < |plusSigns| :: plusSigns[i] == '+'
    requires forall i | 0 <= i < |version| :: IsDigit(version[i])
    ensures MatchQuery("c" + plusSigns + version) == Some(Groups("c", plusSigns, version))
  {
    var q := "c" + plusSigns + version;
    LowerUnchanged(q);
    CPlusRun(plusSigns, version);
    assert q[1..] == plusSigns + version;
    PlusRun(plusSigns, version);
    assert (plusSigns + version)[|plusSigns|..] == version;
    DigitsVersion(version);
    assert q[..1] == "c";
    assert (plusSigns + version)[..|plusSigns|] == plusSigns;
  }

  /** The name group of `c++14` is the `c`. */
  lemma CPlusRun(plusSigns: string, version: string)
    requires plusSigns != [] && plusSigns[0] == '+'
    ensures RunLength("c" + plusSigns + version, NameChar) == 1
  {
    var q := "c" + plusSigns + version;
    assert q[1] == '+';
    RunLengthIs(q, NameChar, 1);
  }

  /** The plus group takes exactly the plus signs before a version. */
  lemma PlusRun(plusSigns: string, version: string)
    requires forall i | 0 <= i < |plusSigns| :: plusSigns[i] == '+'
    requires forall i | 0 <= i < |version| :: IsDigit(version[i])
    ensures RunLength(plusSigns + version, IsPlus) == |plusSigns|
  {
    RunLengthIs(plusSigns + version, IsPlus, |plusSigns|);
  }

  /** A run of digits has no plus group and is all version. */
  lemma DigitsVersion(version: string)
    requires forall i | 0 <= i < |version| :: IsDigit(version[i])
    ensures RunLength(version, IsPlus) == 0
    ensures VersionLength(version) == |version|
    ensures version[0..][..|version|] == version
  {
    RunLengthIs(version, IsPlus, 0);
    RunLengthIs(version, IsDigit, |version|);
  }

  /** The name group of a lower-case name before digits is the name. */
  lemma NameRun(name: string, version: string)
    requires forall i | 0 <= i < |name| :: 'a' <= name[i] <= 'z'
    requires forall i | 0 <= i < |version| :: IsDigit(version[i])
    ensures RunLength(name + version, NameChar) == |name|
  {
    RunLengthIs(name + version, NameChar, |name|);
  }

  /**
   * A lower-case name followed by a version (`python3`, `java`) asks for
   * that name, normalised, with that version.
   */
  lemma ResolveName(name: string, version: string)
    requires name != [] && forall i | 0 <= i < |name| :: 'a' <= name[i] <= 'z'
    requires forall i | 0 <= i < |version| :: IsDigit(version[i])
    ensures ResolveQuery(name + version) == Some(LanguageQuery(NormalizeLanguageName(name), version))
  {
    MatchName(name, version);
    StrippedIsFixpoint(name);
    DigitsStripped(version);
  }

  /** The groups of a lower-case name and a version. */
  lemma MatchName(name: string, version: string)
    requires name != [] && forall i | 0 <= i < |name| :: 'a' <= name[i] <= 'z'
    requires forall i | 0 <= i < |version| :: IsDigit(version[i])
    ensures MatchQuery(name + version) == Some(Groups(name, "", version))
  {
    var q := name + version;
    LowerUnchanged(q);
    NameRun(name, version);
    assert q[|name|..] == version;
    DigitsVersion(version);
    assert q[..|name|] == name;
  }

  /** Digits have no whitespace to strip. */
  lemma DigitsStripped(v: string)
    requires forall i | 0 <= i < |v| :: IsDigit(v[i])
    ensures Strip(v) == v
  {
    if v != [] {
      assert IsDigit(v[0]) && IsDigit(v[|v| - 1]);
      StrippedIsFixpoint(v);
    }
  }

  // ---------------------------------------------------------------------------
  // Candidate languages

  /** One entry of a language's version list in the cache file: its `version` text and Judge0 `id`. */
  datatype LanguageVersion = LanguageVersion(version: string, id: int)

  /** One language of the cache file's `data` dict, with its versions in file order. */
  datatype Language = Language(name: string, versions: seq<LanguageVersion>)

  /** The versions of one language that match the query version, in order. */
  function VersionMatches(q: LanguageQuery, versions: seq<LanguageVersion>): (r: seq<LanguageVersion>)
    ensures |r| <= |versions|
  {
    if versions == [] then []
    else
      var last := versions[|versions| - 1];
      VersionMatches(q, versions[..|versions| - 1]) + (if IsVersionMatch(q.name, q.version, last.version) then [last] else [])
  }

  /** Steps 3 and 4: every (language, version) pair whose name and version match, in table order. */
  function Matches(q: LanguageQuery, table: seq<Language>): seq<LanguageVersion> {
    if table == [] then []
    else
      var last := table[|table| - 1];
      Matches(q, table[..|table| - 1]) + (if IsNameMatch(q.name, Lower(last.name)) then VersionMatches(q, last.versions) else [])
  }

  /** A version is kept exactly when it is one of the list's versions and matches. */
  lemma {:induction false} VersionMatchesIff(q: LanguageQuery, versions: seq<LanguageVersion>, v: LanguageVersion)
    ensures v in VersionMatches(q, versions) <==> v in versions && IsVersionMatch(q.name, q.version, v.version)
  {
    if versions != [] {
      var front := versions[..|versions| - 1];
      VersionMatchesIff(q, front, v);
      assert versions == front + [versions[|versions| - 1]];
    }
  }

  /**
   * A match is exactly a version of some language whose lower-cased name
   * matches the query name and whose version text matches the query
   * version.
   */
  lemma {:induction false} MatchesIff(q: LanguageQuery, table: seq<Language>, v: LanguageVersion)
    ensures v in Matches(q, table) <==>
              exists i | 0 <= i < |table| ::
                IsNameMatch(q.name, Lower(table[i].name)) && v in table[i].versions && IsVersionMatch(q.name, q.version, v.version)
  {
    if table != [] {
      var front := table[..|table| - 1];
      var last := table[|table| - 1];
      MatchesIff(q, front, v);
      VersionMatchesIff(q, last.versions, v);
      assert forall i | 0 <= i < |front| :: front[i] == table[i];
    }
  }

  /** `for version_info in versions: if is_version_match(...): matches.append(...)` */
  method AppendVersionMatches(start: seq<LanguageVersion>, q: LanguageQuery, versions: seq<LanguageVersion>)
    returns (matches: seq<LanguageVersion>)
    ensures matches == start + VersionMatches(q, versions)
  {
    matches := start;
    for j := 0 to |versions|
      invariant matches == start + VersionMatches(q, versions[..j])
    {
      assert versions[..j + 1][..j] == versions[..j];
      if IsVersionMatch(q.name, q.version, versions[j].version) {
        matches := matches + [versions[j]];
      }
    }
    assert versions[..|versions|] == versions;
  }

  /** The nested loops of steps 3 and 4, collecting the matches in table order. */
  method CollectMatches(q: LanguageQuery, table: seq<Language>) returns (matches: seq<LanguageVersion>)
    ensures matches == Matches(q, table)
  {
    matches := [];
    for i := 0 to |table|
      invariant matches == Matches(q, table[..i])
    {
      assert table[..i + 1][..i] == table[..i];
      if IsNameMatch(q.name, Lower(table[i].name)) {
        matches := AppendVersionMatches(matches, q, table[i].versions);
      }
    }
    assert table[..|table|] == table;
  }

  /**
   * `find_best_language_match_dict(query)` on the given table. When several
   * versions match, the source keeps the one with the highest numeric
   * version; here `choose` picks one of them.
   */
  method FindBestLanguage(query: string, table: seq<Language>, choose: nat) returns (id: Option<int>)
    ensures ResolveQuery(query).None? ==> id == None
    ensures ResolveQuery(query).Some? ==>
              var ms := Matches(ResolveQuery(query).value, table);
              && (id.None? <==> ms == [])
              && (|ms| == 1 ==> id == Some(ms[0].id))
              && (id.Some? ==> exists k | 0 <= k < |ms| :: ms[k].id == id.value)
  {
    var q := ResolveQuery(query);
    if q.None? {
      return None;
    }
    var matches := CollectMatches(q.value, table);
    if matches == [] {
      return None;
    }
    var best := if |matches| > 1 then matches[choose % |matches|] else matches[0];
    id := Some(best.id);
  }

  // ---------------------------------------------------------------------------
  // The payload

  /**
   * The rewrite `base64_code` applies to the source before encoding it:
   * `\\` becomes `\`, `[` and `]` are replaced by themselves, and the
   * two characters `\n` become a newline, in that order.
   */
  function RewriteSource(sourceCode: string): string {
    var unescaped := ReplaceAll(sourceCode, "\\\\", "\\");
    var bracketed := ReplaceAll(ReplaceAll(unescaped, "[", "["), "]", "]");
    ReplaceAll(bracketed, "\\n", "\n")
  }

  /**
   * The bracket replacements change nothing, so the rewrite is the two
   * backslash steps; no two-character `\n` survives it, and a source
   * without backslashes goes through unchanged.
   */
  lemma RewriteSourceCases(sourceCode: string)
    ensures RewriteSource(sourceCode) == ReplaceAll(ReplaceAll(sourceCode, "\\\\", "\\"), "\\n", "\n")
    ensures !Contains(RewriteSource(sourceCode), "\\n")
    ensures (forall i | 0 <= i < |sourceCode| :: sourceCode[i] != '\\') ==> RewriteSource(sourceCode) == sourceCode
  {
    var unescaped := ReplaceAll(sourceCode, "\\\\", "\\");
    ReplaceSelf(unescaped, "[");
    ReplaceSelf(unescaped, "]");
    NoEscapedNewline(unescaped);
    if forall i | 0 <= i < |sourceCode| :: sourceCode[i] != '\\' {
      NoBackslashNoOccurrence(sourceCode, "\\\\");
      ReplaceAbsent(sourceCode, "\\\\", "\\");
      NoBackslashNoOccurrence(sourceCode, "\\n");
      ReplaceAbsent(sourceCode, "\\n", "\n");
    }
  }

  /** A string without backslashes contains no pattern starting with one. */
  lemma {:induction false} NoBackslashNoOccurrence(s: string, pat: string)
    requires pat != [] && pat[0] == '\\'
    requires forall i | 0 <= i < |s| :: s[i] != '\\'
    ensures !Contains(s, pat)
  {
    if s != [] {
      NoBackslashNoOccurrence(s[1..], pat);
    }
  }

  /** Replacing a pattern that does not occur changes nothing. */
  lemma {:induction false} ReplaceAbsent(s: string, pat: string, rep: string)
    requires pat != [] && !Contains(s, pat)
    ensures ReplaceAll(s, pat, rep) == s
    decreases |s|
  {
    if s != [] {
      ReplaceAbsent(s[1..], pat, rep);
    }
  }

  /** After turning every `\n` into a newline, none is left. */
  lemma {:induction false} NoEscapedNewline(s: string)
    ensures !Contains(ReplaceAll(s, "\\n", "\n"), "\\n")
    ensures ReplaceAll(s, "\\n", "\n") != [] && ReplaceAll(s, "\\n", "\n")[0] == 'n' ==> s[0] == 'n'
    decreases |s|
  {
    var r := ReplaceAll(s, "\\n", "\n");
    if StartsWith(s, "\\n") {
      NoEscapedNewline(s[2..]);
      assert r == "\n" + ReplaceAll(s[2..], "\\n", "\n");
      assert r[1..] == ReplaceAll(s[2..], "\\n", "\n");
    } else if s != [] {
      NoEscapedNewline(s[1..]);
      assert r == [s[0]] + ReplaceAll(s[1..], "\\n", "\n");
      assert r[1..] == ReplaceAll(s[1..], "\\n", "\n");
      EscapeKept(s, r);
    }
  }

  /** A text whose first character is kept and whose rest begins with `n` only after an `n` starts with `\n` only where `s` does. */
  lemma EscapeKept(s: string, r: string)
    requires s != [] && r != [] && r[0] == s[0]
    requires |r| > 1 && r[1] == 'n' ==> |s| > 1 && s[1] == 'n'
    ensures StartsWith(r, "\\n") ==> StartsWith(s, "\\n")
  {
    if StartsWith(r, "\\n") {
      assert s[..2] == "\\n";
    }
  }

  /** `base64.b64encode(text.encode("utf-8")).decode("utf-8")` */
  function EncodeText(text: string): string {
    Base64.Encode(Utf8.Encode(text))
  }

  /** Decoding an encoded text gives the text back, and the encoding is ASCII. */
  lemma EncodeTextRoundTrip(text: string)
    ensures Base64.Decode(EncodeText(text)) == Ok(Utf8.Encode(text))
    ensures Utf8.Decode(Utf8.Encode(text)) == Ok(text)
    ensures forall i | 0 <= i < |EncodeText(text)| :: EncodeText(text)[i] as int < 0x80
    ensures EncodeText(text) == [] <==> text == []
  {
    Base64.DecodeEncode(Utf8.Encode(text));
    Utf8.DecodeEncode(text);
    if text != [] {
      assert |Utf8.EncodeChar(text[0])| >= 1;
      assert |Utf8.Encode(text)| >= 1;
    }
  }

  /** What `base64_code` returns: the encoded source and, when there is one, the encoded input. */
  datatype Payload = Payload(sourceCode: string, stdin: Option<string>)

  /** `base64_code(source_code, stdin)` */
  function Base64Code(sourceCode: string, stdin: Option<string>): (r: Payload)
    ensures r.stdin.Some? <==> stdin.Some? && stdin.value != []
    ensures Base64.Decode(r.sourceCode) == Ok(Utf8.Encode(RewriteSource(sourceCode)))
    ensures r.stdin.Some? ==> Base64.Decode(r.stdin.value) == Ok(Utf8.Encode(stdin.value)) && r.stdin.value != []
  {
    EncodeTextRoundTrip(RewriteSource(sourceCode));
    if stdin.Some? && stdin.value != [] then
      EncodeTextRoundTrip(stdin.value);
      Payload(EncodeText(RewriteSource(sourceCode)), Some(EncodeText(stdin.value)))
    else Payload(EncodeText(RewriteSource(sourceCode)), None)
  }

  // ---------------------------------------------------------------------------
  // The submission result

  /** A value of the Judge0 JSON response: a string, `null`, or anything else with its type name and truthiness. */
  datatype Value = Str(text: string) | Null | Other(typeName: string, truthy: bool)

  /** Python truthiness of a response value. */
  predicate Truthy(v: Value) {
    match v
    case Str(t) => t != []
    case Null => false
    case Other(_, t) => t
  }

  /** The fields `format_submission_result` decodes, in its order. */
  const DecodedKeys: seq<string> := ["stdout", "stderr", "compile_output", "source_code", "message"]

  /** The time fields it converts to China time. */
  const TimeKeys: seq<string> := ["created_at", "finished_at"]

  /** The `TypeError` text of `b64decode` for a value that is neither a string nor bytes. */
  function NotBytesError(typeName: string): string {
    "argument should be a bytes-like object or ASCII string, not '" + typeName + "'"
  }

  /** The `AttributeError` text for calling `replace` on a value that is not a string. */
  function NoReplaceError(typeName: string): string {
    "'" + typeName + "' object has no attribute 'replace'"
  }

  /**
   * The new value of a decoded field: the Base64-and-UTF-8 decoding of a
   * truthy value, `"Decode error: "` and the exception text when that
   * raises, and `""` for a missing or falsy value. `unicodeError(b, at)` is
   * the text of the `UnicodeDecodeError` for bytes `b` failing at `at`.
   */
  function FieldText(m: map<string, Value>, key: string, unicodeError: (seq<Base64.byte>, nat) -> string): Value {
    if key in m && Truthy(m[key]) then
      match m[key]
      case Str(s) =>
        (match Base64.Decode(s)
         case Err(e) => Str("Decode error: " + e)
         case Ok(b) =>
           match Utf8.Decode(b)
           case Ok(t) => Str(t)
           case Err(at) => Str("Decode error: " + unicodeError(b, at)))
      case Other(name, _) => Str("Decode error: " + NotBytesError(name))
      case Null => Str("")
    else Str("")
  }

  /**
   * A decoded field is always a string: empty for a missing or falsy value,
   * otherwise the decoded text or a decode error. A field holding the
   * encoding of a text decodes to that text.
   */
  lemma FieldTextCases(m: map<string, Value>, key: string, unicodeError: (seq<Base64.byte>, nat) -> string, text: string)
    ensures FieldText(m, key, unicodeError).Str?
    ensures !(key in m && Truthy(m[key])) ==> FieldText(m, key, unicodeError) == Str("")
    ensures key in m && m[key].Other? && m[key].truthy ==>
              StartsWith(FieldText(m, key, unicodeError).text, "Decode error: ")
    ensures FieldText(m[key := Str(EncodeText(text))], key, unicodeError) == Str(text)
  {
    EncodeTextRoundTrip(text);
    var m' := m[key := Str(EncodeText(text))];
    assert key in m' && m'[key] == Str(EncodeText(text));
  }

  /** The decoding loop as a function: `m` with each key of `keys` set to its decoded text. */
  function DecodeFields(m: map<string, Value>, keys: seq<string>, unicodeError: (seq<Base64.byte>, nat) -> string): map<string, Value> {
    if keys == [] then m
    else
      var key := keys[|keys| - 1];
      DecodeFields(m, keys[..|keys| - 1], unicodeError)[key := FieldText(m, key, unicodeError)]
  }

  /** Decoding adds the keys and sets each to its decoded text; every other entry is kept. */
  lemma {:induction false} DecodeFieldsShape(m: map<string, Value>, keys: seq<string>, unicodeError: (seq<Base64.byte>, nat) -> string)
    ensures DecodeFields(m, keys, unicodeError).Keys == m.Keys + set k | k in keys
    ensures forall k | k in keys :: DecodeFields(m, keys, unicodeError)[k] == FieldText(m, k, unicodeError)
    ensures forall k | k in m && k !in keys :: DecodeFields(m, keys, unicodeError)[k] == m[k]
  {
    if keys != [] {
      var front := keys[..|keys| - 1];
      DecodeFieldsShape(m, front, unicodeError);
      assert keys == front + [keys[|keys| - 1]];
    }
  }

  /**
   * One time field: a truthy string becomes `localTime` of it with `Z`
   * written as `+00:00` (the conversion, or its `Parse error: ...` text);
   * a truthy value of another type raises.
   */
  function TimeStep(m: map<string, Value>, f: map<string, Value>, key: string, localTime: string -> string): Result<map<string, Value>, string> {
    if key in m && Truthy(m[key]) then
      if m[key].Str? then Ok(f[key := Str(localTime(ReplaceAll(m[key].text, "Z", "+00:00")))])
      else Err(NoReplaceError(m[key].typeName))
    else Ok(f)
  }

  /** The time loop as a function: the fields of `keys` in turn, stopping at the first that raises. */
  function FormatTimes(m: map<string, Value>, f: map<string, Value>, keys: seq<string>, localTime: string -> string): Result<map<string, Value>, string> {
    if keys == [] then Ok(f)
    else
      match FormatTimes(m, f, keys[..|keys| - 1], localTime)
      case Err(e) => Err(e)
      case Ok(g) => TimeStep(m, g, keys[|keys| - 1], localTime)
  }

  /** The whole of `format_submission_result`, in the model's terms. */
  function Formatted(result: Option<map<string, Value>>, localTime: string -> string,
                     unicodeError: (seq<Base64.byte>, nat) -> string): Result<Option<map<string, Value>>, string> {
    if result.None? || result.value == map[] then Ok(None)
    else
      match FormatTimes(result.value, DecodeFields(result.value, DecodedKeys, unicodeError), TimeKeys, localTime)
      case Err(e) => Err(e)
      case Ok(g) => Ok(Some(g - {"status"}))
  }

  /** A time field that is truthy and not a string: converting it raises. */
  predicate BadTime(m: map<string, Value>, key: string) {
    key in m && Truthy(m[key]) && !m[key].Str?
  }

  /** A time value as it is shown: a truthy string in China time, with `Z` read as `+00:00`. */
  function TimeText(v: Value, localTime: string -> string): Value {
    if Truthy(v) && v.Str? then Str(localTime(ReplaceAll(v.text, "Z", "+00:00"))) else v
  }

  /**
   * When the formatting raises: nothing is returned for a missing or empty
   * response, and otherwise it raises exactly when a time field holds a
   * truthy non-string, with the error of the first such field.
   */
  lemma FormattedErrors(result: Option<map<string, Value>>, localTime: string -> string,
                        unicodeError: (seq<Base64.byte>, nat) -> string)
    ensures result.None? || result.value == map[] ==> Formatted(result, localTime, unicodeError) == Ok(None)
    ensures result.Some? && result.value != map[] ==>
              var m := result.value;
              var r := Formatted(result, localTime, unicodeError);
              && (r.Err? <==> BadTime(m, "created_at") || BadTime(m, "finished_at"))
              && (r.Ok? ==> r.value.Some?)
              && (BadTime(m, "created_at") ==> r == Err(NoReplaceError(m["created_at"].typeName)))
              && (!BadTime(m, "created_at") && BadTime(m, "finished_at") ==> r == Err(NoReplaceError(m["finished_at"].typeName)))
  {
    if result.Some? && result.value != map[] {
      TimesShape(result.value, DecodeFields(result.value, DecodedKeys, unicodeError), localTime);
    }
  }

  /**
   * What a formatted response holds: the five decoded fields are always
   * present, the time fields are converted, `status` is gone and every
   * other entry is as it was.
   */
  lemma FormattedFields(m: map<string, Value>, g: map<string, Value>, localTime: string -> string,
      unicodeError: (seq<Base64.byte>, nat) -> string)
    requires Formatted(Some(m), localTime, unicodeError) == Ok(Some(g))
    ensures g.Keys == (m.Keys + set k | k in DecodedKeys) - {"status"}
    ensures forall k | k in DecodedKeys :: g[k] == FieldText(m, k, unicodeError)
    ensures forall k | k in TimeKeys && k in m :: g[k] == TimeText(m[k], localTime)
    ensures forall k | k in m && k !in DecodedKeys && k !in TimeKeys && k != "status" :: g[k] == m[k]
  {
    FormattedKeys(m, g, localTime, unicodeError);
    FormattedDecoded(m, g, localTime, unicodeError);
    FormattedTimes(m, g, localTime, unicodeError);
    FormattedOthers(m, g, localTime, unicodeError);
  }

  /** The formatted map, step by step. */
  lemma FormattedSteps(m: map<string, Value>, g: map<string, Value>, localTime: string -> string,
      unicodeError: (seq<Base64.byte>, nat) -> string)
    requires Formatted(Some(m), localTime, unicodeError) == Ok(Some(g))
    ensures var d := DecodeFields(m, DecodedKeys, unicodeError);
            g == Converted(m, Converted(m, d, "created_at", localTime), "finished_at", localTime) - {"status"}
  {
    TimesShape(m, DecodeFields(m, DecodedKeys, unicodeError), localTime);
  }

  /** The keys of a formatted response. */
  lemma FormattedKeys(m: map<string, Value>, g: map<string, Value>, localTime: string -> string,
      unicodeError: (seq<Base64.byte>, nat) -> string)
    requires Formatted(Some(m), localTime, unicodeError) == Ok(Some(g))
    ensures g.Keys == (m.Keys + set k | k in DecodedKeys) - {"status"}
  {
    FormattedSteps(m, g, localTime, unicodeError);
    var d := DecodeFields(m, DecodedKeys, unicodeError);
    DecodeFieldsShape(m, DecodedKeys, unicodeError);
    KeysDistinct();
    var c := Converted(m, d, "created_at", localTime);
    ConvertedShape(m, d, "created_at", localTime);
    ConvertedShape(m, c, "finished_at", localTime);
  }

  /** The decoded fields of a formatted response. */
  lemma FormattedDecoded(m: map<string, Value>, g: map<string, Value>, localTime: string -> string,
      unicodeError: (seq<Base64.byte>, nat) -> string)
    requires Formatted(Some(m), localTime, unicodeError) == Ok(Some(g))
    ensures forall k | k in DecodedKeys :: k in g && g[k] == FieldText(m, k, unicodeError)
  {
    FormattedSteps(m, g, localTime, unicodeError);
    var d := DecodeFields(m, DecodedKeys, unicodeError);
    DecodeFieldsShape(m, DecodedKeys, unicodeError);
    KeysDistinct();
    var c := Converted(m, d, "created_at", localTime);
    ConvertedShape(m, d, "created_at", localTime);
    ConvertedShape(m, c, "finished_at", localTime);
  }

  /** The time fields of a formatted response. */
  lemma FormattedTimes(m: map<string, Value>, g: map<string, Value>, localTime: string -> string,
      unicodeError: (seq<Base64.byte>, nat) -> string)
    requires Formatted(Some(m), localTime, unicodeError) == Ok(Some(g))
    ensures forall k | k in TimeKeys && k in m :: k in g && g[k] == TimeText(m[k], localTime)
  {
    FormattedSteps(m, g, localTime, unicodeError);
    var d := DecodeFields(m, DecodedKeys, unicodeError);
    DecodeFieldsShape(m, DecodedKeys, unicodeError);
    KeysDistinct();
    var c := Converted(m, d, "created_at", localTime);
    ConvertedShape(m, d, "created_at", localTime);
    ConvertedShape(m, c, "finished_at", localTime);
  }

  /** The other entries of a formatted response. */
  lemma FormattedOthers(m: map<string, Value>, g: map<string, Value>, localTime: string -> string,
      unicodeError: (seq<Base64.byte>, nat) -> string)
    requires Formatted(Some(m), localTime, unicodeError) == Ok(Some(g))
    ensures forall k | k in m && k !in DecodedKeys && k !in TimeKeys && k != "status" :: k in g && g[k] == m[k]
  {
    FormattedSteps(m, g, localTime, unicodeError);
    var d := DecodeFields(m, DecodedKeys, unicodeError);
    DecodeFieldsShape(m, DecodedKeys, unicodeError);
    KeysDistinct();
    var c := Converted(m, d, "created_at", localTime);
    ConvertedShape(m, d, "created_at", localTime);
    ConvertedShape(m, c, "finished_at", localTime);
  }

  /** The decoded fields, the time fields and `status` are different keys. */
  lemma KeysDistinct()
    ensures forall k | k in TimeKeys :: k !in DecodedKeys
    ensures "status" !in DecodedKeys && "status" !in TimeKeys
    ensures "created_at" != "finished_at"
    ensures TimeKeys == ["created_at", "finished_at"]
  {
  }

  /** The map after a time step that does not raise. */
  function Converted(m: map<string, Value>, f: map<string, Value>, key: string, localTime: string -> string): map<string, Value> {
    if key in m && Truthy(m[key]) && m[key].Str? then f[key := TimeText(m[key], localTime)] else f
  }

  /** A step sets its own key when the response holds a truthy string there, and leaves everything else. */
  lemma ConvertedShape(m: map<string, Value>, f: map<string, Value>, key: string, localTime: string -> string)
    ensures Converted(m, f, key, localTime).Keys == f.Keys + (if key in m && Truthy(m[key]) && m[key].Str? then {key} else {})
    ensures key in m && Truthy(m[key]) && m[key].Str? ==> Converted(m, f, key, localTime)[key] == TimeText(m[key], localTime)
    ensures forall k | k in f && k != key :: Converted(m, f, key, localTime)[k] == f[k]
  {
  }

  /** One time step raises exactly on a truthy non-string, and otherwise converts a truthy string only. */
  lemma TimeStepShape(m: map<string, Value>, f: map<string, Value>, key: string, localTime: string -> string)
    ensures TimeStep(m, f, key, localTime).Err? <==> BadTime(m, key)
    ensures BadTime(m, key) ==> TimeStep(m, f, key, localTime) == Err(NoReplaceError(m[key].typeName))
    ensures !BadTime(m, key) ==> TimeStep(m, f, key, localTime) == Ok(Converted(m, f, key, localTime))
  {
  }

  /** The two time steps on the decoded map `d`. */
  lemma TimesShape(m: map<string, Value>, d: map<string, Value>, localTime: string -> string)
    ensures var r := FormatTimes(m, d, TimeKeys, localTime);
            && (r.Err? <==> BadTime(m, "created_at") || BadTime(m, "finished_at"))
            && (BadTime(m, "created_at") ==> r == Err(NoReplaceError(m["created_at"].typeName)))
            && (!BadTime(m, "created_at") && BadTime(m, "finished_at") ==> r == Err(NoReplaceError(m["finished_at"].typeName)))
            && (r.Ok? ==> r.value == Converted(m, Converted(m, d, "created_at", localTime), "finished_at", localTime))
  {
    assert TimeKeys[..1] == ["created_at"] && TimeKeys[..1][..0] == [];
    assert FormatTimes(m, d, [], localTime) == Ok(d);
    TimeStepShape(m, d, "created_at", localTime);
    assert FormatTimes(m, d, ["created_at"], localTime) == TimeStep(m, d, "created_at", localTime);
    if !BadTime(m, "created_at") {
      TimeStepShape(m, Converted(m, d, "created_at", localTime), "finished_at", localTime);
    }
  }

  /** Once a time field raises, the later ones are not looked at. */
  lemma {:induction false} FormatTimesStops(m: map<string, Value>, f: map<string, Value>, keys: seq<string>, j: nat,
                                            localTime: string -> string)
    requires j <= |keys| && FormatTimes(m, f, keys[..j], localTime).Err?
    ensures FormatTimes(m, f, keys, localTime) == FormatTimes(m, f, keys[..j], localTime)
    decreases |keys|
  {
    if j < |keys| {
      var front := keys[..|keys| - 1];
      assert front[..j] == keys[..j];
      FormatTimesStops(m, f, front, j, localTime);
    } else {
      assert keys[..j] == keys;
    }
  }

  /** `format_submission_result`, loop by loop: decode the five fields, convert the two times, drop `status`. */
  method FormatSubmissionResult(result: Option<map<string, Value>>, localTime: string -> string,
                                unicodeError: (seq<Base64.byte>, nat) -> string)
    returns (r: Result<Option<map<string, Value>>, string>)
    ensures r == Formatted(result, localTime, unicodeError)
  {
    if result.None? || result.value == map[] {
      return Ok(None);
    }
    var m := result.value;
    var formatted := m;
    for i := 0 to |DecodedKeys|
      invariant formatted == DecodeFields(m, DecodedKeys[..i], unicodeError)
    {
      var key := DecodedKeys[i];
      assert DecodedKeys[..i + 1][..i] == DecodedKeys[..i];
      formatted := formatted[key := FieldText(m, key, unicodeError)];
    }
    assert DecodedKeys[..|DecodedKeys|] == DecodedKeys;
    ghost var decoded := formatted;
    for i := 0 to |TimeKeys|
      invariant FormatTimes(m, decoded, TimeKeys[..i], localTime) == Ok(formatted)
    {
      var key := TimeKeys[i];
      assert TimeKeys[..i + 1][..i] == TimeKeys[..i];
      if key in m && Truthy(m[key]) {
        if !m[key].Str? {
          assert FormatTimes(m, decoded, TimeKeys[..i + 1], localTime) == Err(NoReplaceError(m[key].typeName));
          FormatTimesStops(m, decoded, TimeKeys, i + 1, localTime);
          return Err(NoReplaceError(m[key].typeName));
        }
        formatted := formatted[key := Str(localTime(ReplaceAll(m[key].text, "Z", "+00:00")))];
      }
    }
    assert TimeKeys[..|TimeKeys|] == TimeKeys;
    ghost var converted := formatted;
    if "status" in formatted {
      formatted := formatted - {"status"};
    } else {
      assert formatted == formatted - {"status"};
    }
    assert formatted == converted - {"status"};
    r := Ok(Some(formatted));
  }

  // ---------------------------------------------------------------------------
  // The tool

  /** The `code_runner` section of the tool settings; an absent entry is `None`. */
  datatype RunnerConfig = RunnerConfig(
    apiKey: Option<string>,
    cpuTimeLimit: Option<int>,
    wallTimeLimit: Option<int>,
    judgeUrl: Option<string>)

  /** The request `submit_code` sends. Headers whose value is `None` are dropped by the HTTP client. */
  datatype Request = Request(
    url: string,
    headers: seq<(string, string)>,
    languageId: int,
    sourceCode: string,
    stdin: Option<string>,
    cpuTimeLimit: int,
    cpuExtraTime: int,
    wallTimeLimit: int)

  /** What the tool gives back: a message, or the formatted result (`None` when the request failed). */
  datatype ToolOutput = Message(text: string) | Submitted(result: Option<map<string, Value>>)

  /** `str(x)` of a setting that may be missing. */
  function ShownSetting(x: Option<string>): string {
    if x.Some? then x.value else "None"
  }

  /** The POST request of `submit_code` for an encoded payload. */
  function SubmitRequest(config: RunnerConfig, languageId: int, payload: Payload): (r: Request)
    ensures r.cpuTimeLimit == (if config.cpuTimeLimit.Some? then config.cpuTimeLimit.value else 5)
    ensures r.wallTimeLimit == (if config.wallTimeLimit.Some? then config.wallTimeLimit.value else 8)
    ensures r.cpuExtraTime == 1
    ensures StartsWith(r.url, ShownSetting(config.judgeUrl) + "/submissions?")
    ensures ("Content-Type", "application/json") in r.headers
    ensures (exists v :: ("X-Auth-Token", v) in r.headers) <==> config.apiKey.Some?
    ensures r.languageId == languageId && r.sourceCode == payload.sourceCode && r.stdin == payload.stdin
  {
    var prefix := ShownSetting(config.judgeUrl) + "/submissions?";
    var r := Request(
      prefix + "base64_encoded=true&wait=true&fields=*",
      (if config.apiKey.Some? then [("X-Auth-Token", config.apiKey.value)] else []) + [("Content-Type", "application/json")],
      languageId,
      payload.sourceCode,
      payload.stdin,
      if config.cpuTimeLimit.Some? then config.cpuTimeLimit.value else 5,
      1,
      if config.wallTimeLimit.Some? then config.wallTimeLimit.value else 8);
    assert r.url[..|prefix|] == prefix;
    r
  }

  /**
   * The `code_runner` tool: find the language, encode the source and the
   * input, send them, and format the answer. `table` is the cached
   * language list, `choose` picks among several equally good matches,
   * `response` is what the service answered (`None` when the request
   * failed), and `localTime` and `unicodeError` stand for the date and
   * decoding library calls. `sent` is the request, when one is made.
   */
  method RunCode(config: RunnerConfig, table: seq<Language>, choose: nat, sourceCode: string, language: string,
                 stdin: Option<string>, response: Option<map<string, Value>>,
                 localTime: string -> string, unicodeError: (seq<Base64.byte>, nat) -> string)
    returns (sent: Option<Request>, out: Result<ToolOutput, string>)
    ensures var q := ResolveQuery(language);
            sent.None? <==> q.None? || Matches(q.value, table) == []
    ensures sent.None? ==> out == Ok(Message("未找到匹配的编程语言。"))
    ensures sent.Some? ==>
              && (exists k | 0 <= k < |Matches(ResolveQuery(language).value, table)| ::
                    Matches(ResolveQuery(language).value, table)[k].id == sent.value.languageId)
              && sent.value == SubmitRequest(config, sent.value.languageId, Base64Code(sourceCode, stdin))
              && (match Formatted(response, localTime, unicodeError)
                  case Ok(f) => out == Ok(Submitted(f))
                  case Err(e) => out == Err(e))
  {
    var id := FindBestLanguage(language, table, choose);
    if id.None? {
      return None, Ok(Message("未找到匹配的编程语言。"));
    }
    var payload := Base64Code(sourceCode, stdin);
    var request := SubmitRequest(config, id.value, payload);
    sent := Some(request);
    var formatted := FormatSubmissionResult(response, localTime, unicodeError);
    match formatted
    case Ok(f) => out := Ok(Submitted(f));
    case Err(e) => out := Err(e);
  }
}
