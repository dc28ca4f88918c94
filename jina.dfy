/**
 * The three Jina tools, `tools/jina_search.py`, `tools/jina_reader.py` and
 * `tools/jina_fact_checking.py`: each sends one GET to a Jina endpoint and
 * answers with the first lines of the body that are long enough. The
 * request's outcome is a parameter.
 */
module Jina {
  import opened Wrappers
  import opened Text
  import opened Seqs

  // ---------------------------------------------------------------------------
  // Lines

  /** The characters `str.splitlines()` breaks at. */
  predicate IsLineBreak(c: char) {
    || ('\n' <= c <= '\r')
    || ('\U{1C}' <= c <= '\U{1E}')
    || c == '\U{85}' || c == '\U{2028}' || c == '\U{2029}'
  }

  /** The length of the first line: the position of the first break, or `|s|`. */
  function LineLength(s: string): (n: nat)
    ensures n <= |s|
    ensures n < |s| ==> IsLineBreak(s[n])
  {
    if s == [] || IsLineBreak(s[0]) then 0 else 1 + LineLength(s[1..])
  }

  /** The first line holds no break. */
  lemma {:induction false} FirstLineBreakFree(s: string)
    ensures BreakFree(s[..LineLength(s)])
    ensures BreakFree(s) ==> LineLength(s) == |s|
  {
    if s != [] && !IsLineBreak(s[0]) {
      FirstLineBreakFree(s[1..]);
      assert s[..LineLength(s)] == [s[0]] + s[1..][..LineLength(s[1..])];
    }
  }

  /** `s.splitlines()`: the lines without their ends; `\r\n` ends one line, and there is no line after a final break. */
  function SplitLines(s: string): seq<string>
    decreases |s|
  {
    if s == [] then []
    else
      var n := LineLength(s);
      if n == |s| then [s]
      else
        var skip := if s[n] == '\r' && n + 1 < |s| && s[n + 1] == '\n' then 2 else 1;
        [s[..n]] + SplitLines(s[n + skip..])
  }

  /** No line holds a line break. */
  predicate BreakFree(s: string) {
    forall k | 0 <= k < |s| :: !IsLineBreak(s[k])
  }

  /** No line holds a break. */
  lemma {:induction false} SplitLinesBreakFree(s: string)
    ensures forall i | 0 <= i < |SplitLines(s)| :: BreakFree(SplitLines(s)[i])
    decreases |s|
  {
    if s != [] {
      var n := LineLength(s);
      FirstLineBreakFree(s);
      if n < |s| {
        var skip := if s[n] == '\r' && n + 1 < |s| && s[n + 1] == '\n' then 2 else 1;
        SplitLinesBreakFree(s[n + skip..]);
      }
    }
  }

  /** A text without breaks is one line, and only the empty text has no lines. */
  lemma SplitLinesSingle(s: string)
    ensures s != [] && BreakFree(s) ==> SplitLines(s) == [s]
    ensures s == [] <==> SplitLines(s) == []
  {
    if s != [] {
      FirstLineBreakFree(s);
    }
  }

  /** The only breaks are `\n`, and there is none at the end. */
  predicate NewlineText(s: string) {
    && (forall k | 0 <= k < |s| :: IsLineBreak(s[k]) ==> s[k] == '\n')
    && (s == [] || s[|s| - 1] != '\n')
  }

  /** A text whose only breaks are `\n`, without one at the end, is its lines joined by `\n`. */
  lemma {:induction false} JoinSplitLines(s: string)
    requires NewlineText(s)
    ensures Join(SplitLines(s), "\n") == s
    decreases |s|
  {
    if s != [] {
      var n := LineLength(s);
      if n < |s| {
        RestIsNewlineText(s, n);
        JoinStep(s, n);
        JoinSplitLines(s[n + 1..]);
        assert s == s[..n] + "\n" + s[n + 1..];
      }
    }
  }

  /** A line ended by a break in such a text: the break is a `\n` before the end, and the rest is such a text again. */
  lemma RestIsNewlineText(s: string, n: nat)
    requires NewlineText(s) && n == LineLength(s) && n < |s|
    ensures s[n] == '\n' && n + 1 < |s| && NewlineText(s[n + 1..])
  {
    assert IsLineBreak(s[n]);
    var rest := s[n + 1..];
    assert forall k | 0 <= k < |rest| :: rest[k] == s[n + 1 + k];
  }

  /** Such a line joins as the line, `\n`, then the joined lines of the rest. */
  lemma JoinStep(s: string, n: nat)
    requires n == LineLength(s) && n + 1 < |s| && s[n] == '\n'
    ensures Join(SplitLines(s), "\n") == s[..n] + "\n" + Join(SplitLines(s[n + 1..]), "\n")
  {
    NewlineStep(s, n);
    assert SplitLines(s[n + 1..]) != [];
    JoinCons(s[..n], SplitLines(s[n + 1..]), "\n");
  }

  /** Joining a first part before at least one more puts the separator after it. */
  lemma JoinCons(x: string, parts: seq<string>, sep: string)
    requires parts != []
    ensures Join([x] + parts, sep) == x + sep + Join(parts, sep)
  {
    assert ([x] + parts)[1..] == parts;
  }

  /** A line ended by `\n` that is not the last character: one line, then the lines of the rest. */
  lemma NewlineStep(s: string, n: nat)
    requires n == LineLength(s) && n + 1 < |s| && s[n] == '\n'
    ensures SplitLines(s) == [s[..n]] + SplitLines(s[n + 1..])
  {
    assert s != [] && n != |s| && s[n] != '\r';
  }

  // ---------------------------------------------------------------------------
  // The line filter

  /** The lines `keep` accepts, in their order. */
  function Filter(lines: seq<string>, keep: string -> bool): (r: seq<string>)
    ensures |r| <= |lines|
  {
    if lines == [] then []
    else if keep(lines[0]) then [lines[0]] + Filter(lines[1..], keep)
    else Filter(lines[1..], keep)
  }

  /** The number of lines `keep` accepts. */
  function Count(lines: seq<string>, keep: string -> bool): nat {
    if lines == [] then 0 else (if keep(lines[0]) then 1 else 0) + Count(lines[1..], keep)
  }

  /** The filter keeps a line exactly when it is accepted. */
  lemma {:induction false} FilterIff(lines: seq<string>, keep: string -> bool, x: string)
    ensures x in Filter(lines, keep) <==> x in lines && keep(x)
  {
    if lines != [] {
      FilterIff(lines[1..], keep, x);
      assert lines == [lines[0]] + lines[1..];
    }
  }

  /** The filter keeps as many lines as are accepted. */
  lemma {:induction false} FilterCount(lines: seq<string>, keep: string -> bool)
    ensures |Filter(lines, keep)| == Count(lines, keep)
  {
    if lines != [] {
      FilterCount(lines[1..], keep);
    }
  }

  /** When every line is accepted, the filter keeps them all. */
  lemma {:induction false} FilterAll(lines: seq<string>, keep: string -> bool)
    requires forall i | 0 <= i < |lines| :: keep(lines[i])
    ensures Filter(lines, keep) == lines
  {
    if lines != [] {
      var rest := lines[1..];
      assert forall i | 0 <= i < |rest| :: rest[i] == lines[i + 1];
      FilterAll(rest, keep);
      assert lines == [lines[0]] + rest;
    }
  }

  /** The filter keeps the order: the kept lines of `a + b` are those of `a`, then those of `b`. */
  lemma {:induction false} FilterAppend(a: seq<string>, b: seq<string>, keep: string -> bool)
    ensures Filter(a + b, keep) == Filter(a, keep) + Filter(b, keep)
  {
    if a == [] {
      assert a + b == b;
    } else {
      var ab := a + b;
      assert ab[0] == a[0];
      assert ab[1..] == a[1..] + b;
      FilterAppend(a[1..], b, keep);
    }
  }

  /** `len(line.strip()) >= min_length` */
  predicate LongEnough(line: string, minLength: int) {
    |Strip(line)| >= minLength
  }

  /** The test of the list comprehension, for one `min_length`. */
  function LongTest(minLength: int): string -> bool {
    line => LongEnough(line, minLength)
  }

  /** `[line for line in lines if len(line.strip()) >= min_length]` */
  function LongLines(lines: seq<string>, minLength: int): seq<string> {
    Filter(lines, LongTest(minLength))
  }

  /** `filtered_lines[:top_n]` of the body's lines. */
  function KeptLines(body: string, topN: int, minLength: int): (r: seq<string>)
    ensures 0 <= topN ==> |r| <= topN
    ensures |r| <= |SplitLines(body)|
    ensures |r| <= |LongLines(SplitLines(body), minLength)| && r == LongLines(SplitLines(body), minLength)[..|r|]
  {
    PyTo(LongLines(SplitLines(body), minLength), topN)
  }

  /**
   * The kept lines are the first `top_n` lines that are long enough: as
   * many as `top_n` when there are that many, and all of them otherwise.
   */
  lemma KeptLinesCount(body: string, topN: int, minLength: int)
    requires 0 <= topN
    ensures var k := Count(SplitLines(body), LongTest(minLength));
            |KeptLines(body, topN, minLength)| == if k < topN then k else topN
    ensures forall i | 0 <= i < |KeptLines(body, topN, minLength)| ::
              LongEnough(KeptLines(body, topN, minLength)[i], minLength) && KeptLines(body, topN, minLength)[i] in SplitLines(body)
  {
    var lines := SplitLines(body);
    FilterCount(lines, LongTest(minLength));
    forall i | 0 <= i < |KeptLines(body, topN, minLength)|
      ensures LongEnough(KeptLines(body, topN, minLength)[i], minLength) && KeptLines(body, topN, minLength)[i] in lines
    {
      var x := KeptLines(body, topN, minLength)[i];
      assert x == LongLines(lines, minLength)[i];
      FilterIff(lines, LongTest(minLength), x);
    }
  }

  // ---------------------------------------------------------------------------
  // The tools

  /** The `jina` section of the tool settings; an absent entry is `None`. */
  datatype JinaConfig = JinaConfig(apiKey: Option<string>, topN: Option<int>, minLength: Option<int>)

  /** `api_key`, `""` when absent. */
  function ApiKey(config: JinaConfig): string {
    if config.apiKey.Some? then config.apiKey.value else ""
  }

  /** `top_n`, 5 when absent. */
  function TopN(config: JinaConfig): int {
    if config.topN.Some? then config.topN.value else 5
  }

  /** `min_length`, 10 when absent. */
  function MinLength(config: JinaConfig): int {
    if config.minLength.Some? then config.minLength.value else 10
  }

  /** The three endpoints. */
  datatype Endpoint = SearchEndpoint | ReaderEndpoint | FactEndpoint

  /** A GET request: the URL, the headers and the timeout in seconds. */
  datatype Request = Request(url: string, headers: map<string, string>, timeout: int)

  /** How the request ended: with a timeout, another request error (an error status included), or a body. */
  datatype Fetch = TimedOut | RequestFailed | Fetched(text: string)

  /** The request each tool sends for its argument. */
  function ToolRequest(config: JinaConfig, endpoint: Endpoint, arg: string): (r: Request)
    ensures "Authorization" in r.headers <==> ApiKey(config) != []
    ensures "Authorization" in r.headers ==> r.headers["Authorization"] == "Bearer " + ApiKey(config)
    ensures endpoint == FactEndpoint ==> "Accept" in r.headers && r.headers["Accept"] == "application/json"
    ensures endpoint != FactEndpoint ==> "X-Retain-Images" in r.headers && r.headers["X-Retain-Images"] == "none"
  {
    var base := match endpoint
      case SearchEndpoint => map["X-Retain-Images" := "none"]
      case ReaderEndpoint => map["X-Retain-Images" := "none"]
      case FactEndpoint => map["Accept" := "application/json"];
    var headers := if ApiKey(config) != [] then base["Authorization" := "Bearer " + ApiKey(config)] else base;
    match endpoint
    case SearchEndpoint => Request("https://s.jina.ai/" + arg, headers, 30)
    case ReaderEndpoint => Request("https://r.jina.ai/" + arg, headers, 20)
    case FactEndpoint => Request("https://g.jina.ai/" + arg, headers, 30)
  }

  /** The text each tool returns for the outcome of its request. */
  function ToolReply(config: JinaConfig, endpoint: Endpoint, fetch: Fetch): string {
    match fetch
    case TimedOut => if endpoint == ReaderEndpoint then "内容过多，返回失败" else "搜索超时"
    case RequestFailed => if endpoint == ReaderEndpoint then "未知错误" else "搜索失败"
    case Fetched(body) =>
      var result := Join(KeptLines(body, TopN(config), MinLength(config)), "\n");
      if endpoint == SearchEndpoint then "tool result: " + result else result
  }

  /**
   * On success the search tool prefixes `tool result: ` to the kept lines
   * joined by newlines, and the other two give the joined lines alone; a
   * timeout and any other request error each have their own fixed reply.
   */
  lemma ToolReplyCases(config: JinaConfig, endpoint: Endpoint, fetch: Fetch)
    ensures fetch.Fetched? ==>
              var joined := Join(KeptLines(fetch.text, TopN(config), MinLength(config)), "\n");
              ToolReply(config, endpoint, fetch) == (if endpoint == SearchEndpoint then "tool result: " else "") + joined
    ensures fetch == TimedOut ==>
              ToolReply(config, endpoint, fetch) == (if endpoint == ReaderEndpoint then "内容过多，返回失败" else "搜索超时")
    ensures fetch == RequestFailed ==>
              ToolReply(config, endpoint, fetch) == (if endpoint == ReaderEndpoint then "未知错误" else "搜索失败")
    ensures fetch.Fetched? && endpoint == SearchEndpoint ==> StartsWith(ToolReply(config, endpoint, fetch), "tool result: ")
  {
    if fetch.Fetched? && endpoint != SearchEndpoint {
      assert "" + Join(KeptLines(fetch.text, TopN(config), MinLength(config)), "\n")
          == Join(KeptLines(fetch.text, TopN(config), MinLength(config)), "\n");
    }
  }
}
