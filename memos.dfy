/**
 * The memos tool, `tools/memos_manage.py`: one entry point that creates,
 * searches or deletes notes on a Memos server. The argument parsing and the
 * shaping of the results are modelled; every HTTP exchange is an oracle
 * parameter that maps the request the tool builds to the server's answer.
 */
module Memos {
  import opened Wrappers
  import opened Text
  import opened Seqs

  // ---------------------------------------------------------------------------
  // Arguments

  /** A tool argument as the caller passes it: missing, a string, a list of strings, or some other value with its `str()`. */
  datatype Arg = Absent | Str(text: string) | Items(items: seq<string>) | Other(shown: string, truthy: bool)

  /** Python truthiness of an argument. */
  predicate Truthy(a: Arg) {
    match a
    case Absent => false
    case Str(t) => t != []
    case Items(xs) => xs != []
    case Other(_, t) => t
  }

  /** The separator between several notes in one `create_content`. */
  const MemoSeparator: string := "###$$$%%%"

  /** `[p.strip() for p in parts]` */
  function StripAll(parts: seq<string>): (r: seq<string>)
    ensures |r| == |parts|
    ensures forall i | 0 <= i < |parts| :: r[i] == Strip(parts[i])
  {
    if parts == [] then [] else [Strip(parts[0])] + StripAll(parts[1..])
  }

  /** `[p.strip() for p in parts if p.strip()]` */
  function NonBlank(parts: seq<string>): (r: seq<string>)
    ensures |r| <= |parts|
  {
    if parts == [] then []
    else if Strip(parts[0]) == [] then NonBlank(parts[1..])
    else [Strip(parts[0])] + NonBlank(parts[1..])
  }

  /**
   * The kept pieces are exactly the stripped pieces that are not blank:
   * each is non-empty and stripped, and each non-blank piece is kept.
   */
  lemma {:induction false} NonBlankIff(parts: seq<string>, x: string)
    ensures x in NonBlank(parts) <==> x != [] && x in StripAll(parts)
  {
    if parts != [] {
      NonBlankIff(parts[1..], x);
    }
  }

  /** The notes a `create` call stores: separated, stripped and without blanks for a string. */
  function CreateContents(content: Arg): seq<string> {
    match content
    case Str(t) => NonBlank(Split(t, MemoSeparator))
    case Items(xs) => xs
    case Other(shown, _) => [shown]
    case Absent => ["None"]
  }

  /**
   * For a string, every stored note is a non-empty stripped piece between
   * separators, and holds no separator itself.
   */
  lemma CreateContentsShape(t: string)
    ensures forall i | 0 <= i < |CreateContents(Str(t))| ::
              var x := CreateContents(Str(t))[i];
              x != [] && IsStripped(x) && !Contains(x, MemoSeparator)
  {
    var parts := Split(t, MemoSeparator);
    SplitPiecesAreSeparatorFree(t, MemoSeparator);
    forall i | 0 <= i < |NonBlank(parts)|
      ensures NonBlank(parts)[i] != [] && IsStripped(NonBlank(parts)[i]) && !Contains(NonBlank(parts)[i], MemoSeparator)
    {
      KeptPiece(parts, NonBlank(parts)[i]);
    }
  }

  /** A kept piece of separator-free pieces is non-empty, stripped and still separator-free. */
  lemma KeptPiece(parts: seq<string>, x: string)
    requires forall i | 0 <= i < |parts| :: !Contains(parts[i], MemoSeparator)
    requires x in NonBlank(parts)
    ensures x != [] && IsStripped(x) && !Contains(x, MemoSeparator)
  {
    NonBlankIff(parts, x);
    var j :| 0 <= j < |parts| && StripAll(parts)[j] == x;
    if Contains(x, MemoSeparator) {
      ContainedInStrip(parts[j], MemoSeparator);
    }
  }

  /** A text without separator is one note when it is not blank and none when it is. */
  lemma CreateContentsSingle(t: string)
    requires !Contains(t, MemoSeparator)
    ensures CreateContents(Str(t)) == (if Strip(t) == [] then [] else [Strip(t)])
  {
    SplitWithout(t, MemoSeparator);
  }

  /** A string without the separator splits into itself alone. */
  lemma {:induction false} SplitWithout(s: string, sep: string)
    requires sep != [] && !Contains(s, sep)
    ensures Split(s, sep) == [s]
    decreases |s|
  {
    if s != [] {
      SplitWithout(s[1..], sep);
      assert [s[0]] + s[1..] == s;
    }
  }

  /** `[x.strip() for x in arg.split(",")]` for a string; lists are taken as they are. */
  function CommaList(a: Arg): seq<string> {
    match a
    case Str(t) => StripAll(Split(t, ","))
    case Items(xs) => xs
    case Other(shown, _) => [shown]
    case Absent => ["None"]
  }

  /** The number of times `c` occurs in `s`. */
  function CountChar(s: string, c: char): nat {
    if s == [] then 0 else (if s[0] == c then 1 else 0) + CountChar(s[1..], c)
  }

  /**
   * A comma list has one entry per comma plus one, empty entries included,
   * each stripped and without a comma.
   */
  lemma CommaListShape(t: string)
    ensures |CommaList(Str(t))| == CountChar(t, ',') + 1
    ensures forall i | 0 <= i < |CommaList(Str(t))| :: IsStripped(CommaList(Str(t))[i]) && ',' !in CommaList(Str(t))[i]
  {
    SplitCount(t, ',');
    SplitPiecesAreSeparatorFree(t, [',']);
    StrippedPiecesFree(Split(t, [',']), ',');
  }

  /** Pieces without `c` stay without it once stripped. */
  lemma StrippedPiecesFree(parts: seq<string>, c: char)
    requires forall i | 0 <= i < |parts| :: !Contains(parts[i], [c])
    ensures forall i | 0 <= i < |parts| :: c !in Strip(parts[i])
  {
    forall i | 0 <= i < |parts|
      ensures c !in Strip(parts[i])
    {
      var p := Strip(parts[i]);
      if c in p {
        var k :| 0 <= k < |p| && p[k] == c;
        assert OccursAt(p, [c], k);
        ContainsIffOccurs(p, [c]);
        ContainedInStrip(parts[i], [c]);
      }
    }
  }

  /** Splitting on one character gives one piece more than there are occurrences of it. */
  lemma {:induction false} SplitCount(s: string, c: char)
    ensures |Split(s, [c])| == CountChar(s, c) + 1
    decreases |s|
  {
    if s != [] {
      SplitCount(s[1..], c);
      if s[0] == c {
        assert StartsWith(s, [c]);
        assert s[|[c]|..] == s[1..];
      } else {
        assert !StartsWith(s, [c]);
      }
    }
  }

  /** What occurs in `s.strip()` occurs in `s`. */
  lemma ContainedInStrip(s: string, sub: string)
    requires Contains(Strip(s), sub)
    ensures Contains(s, sub)
  {
    var l := LStrip(s);
    var r := RStrip(l);
    Around(s, l, r);
    ContainsInfix(s[..|s| - |l|], r, l[|r|..], sub);
  }

  /** A suffix `l` of `s` and a prefix `r` of `l` cut `s` into three pieces with `r` in the middle. */
  lemma Around(s: string, l: string, r: string)
    requires |l| <= |s| && l == s[|s| - |l|..]
    requires |r| <= |l| && r == l[..|r|]
    ensures s == s[..|s| - |l|] + r + l[|r|..]
  {
    assert l == r + l[|r|..];
    assert s == s[..|s| - |l|] + l;
  }

  // ---------------------------------------------------------------------------
  // Settings and headers

  /** The `memos` section of the tool settings; an absent entry is `None`. */
  datatype MemosConfig = MemosConfig(
    url: Option<string>,
    token: Option<string>,
    visibility: Option<string>,
    pageSize: Option<int>,
    userId: Option<string>)

  /** A setting that is present and not empty. */
  predicate Set(x: Option<string>) {
    x.Some? && x.value != []
  }

  /** `_get_headers`: always the JSON content type, and a bearer token when one is configured. */
  function Headers(token: Option<string>): (h: map<string, string>)
    ensures "Content-Type" in h && h["Content-Type"] == "application/json"
    ensures "Authorization" in h <==> Set(token)
    ensures "Authorization" in h ==> h["Authorization"] == "Bearer " + token.value
    ensures |h.Keys| == if Set(token) then 2 else 1
  {
    var h := map["Content-Type" := "application/json"];
    if Set(token) then h["Authorization" := "Bearer " + token.value] else h
  }

  /** `page_size`, 10 when absent. */
  function PageSize(config: MemosConfig): int {
    if config.pageSize.Some? then config.pageSize.value else 10
  }

  /** `result_limit`: the caller's `limit` when it is given and not zero, the page size otherwise. */
  function ResultLimit(limit: Option<int>, pageSize: int): int {
    if limit.Some? && limit.value != 0 then limit.value else pageSize
  }

  // ---------------------------------------------------------------------------
  // Responses

  /** What the server answered: the status code, the body text and the body's top-level string fields. */
  datatype Response = Response(statusCode: int, text: string, body: map<string, string>)

  /** A note as the server lists it. */
  datatype Memo = Memo(name: string, updateTime: string, content: string)

  /** A listing answer: the status, the body text and the `memos` entry when there is one. */
  datatype Listing = Listing(statusCode: int, text: string, memos: Option<seq<Memo>>)

  /** `t.replace("T", " ").replace("Z", "")`: the ISO time shown as `date time`. */
  function ShownTime(t: string): string {
    ReplaceAll(ReplaceAll(t, "T", " "), "Z", "")
  }

  /** Replacing one character leaves no copy of it, and brings in only the replacement's characters. */
  lemma {:induction false} ReplaceCharChars(s: string, c: char, rep: string, x: char)
    requires c !in rep
    ensures x in ReplaceAll(s, [c], rep) ==> x != c && (x in s || x in rep)
    decreases |s|
  {
    if s != [] {
      ReplaceCharChars(s[1..], c, rep, x);
      if StartsWith(s, [c]) {
        assert s[|[c]|..] == s[1..];
      }
    }
  }

  /** A shown time holds neither `T` nor `Z`. */
  lemma ShownTimeClean(t: string)
    ensures 'T' !in ShownTime(t) && 'Z' !in ShownTime(t)
  {
    ReplaceCharChars(t, 'T', " ", 'T');
    ReplaceCharChars(ReplaceAll(t, "T", " "), 'Z', "", 'T');
    ReplaceCharChars(ReplaceAll(t, "T", " "), 'Z', "", 'Z');
  }

  /** A note as the tool shows it: its time without `T` and `Z`. */
  function Shown(m: Memo): (r: Memo)
    ensures r.name == m.name && r.content == m.content
    ensures 'T' !in r.updateTime && 'Z' !in r.updateTime
  {
    ShownTimeClean(m.updateTime);
    m.(updateTime := ShownTime(m.updateTime))
  }

  /** `[shown(m) for m in memos]` */
  function ShownAll(memos: seq<Memo>): (r: seq<Memo>)
    ensures |r| == |memos|
    ensures forall i | 0 <= i < |memos| :: r[i] == Shown(memos[i])
  {
    if memos == [] then [] else [Shown(memos[0])] + ShownAll(memos[1..])
  }

  // ---------------------------------------------------------------------------
  // Keyword search

  /** `kw.lower() in memo.get("content", "").lower()` */
  predicate Mentions(m: Memo, kw: string) {
    Contains(Lower(m.content), Lower(kw))
  }

  /** The notes of one keyword's pages that mention it, in the order they were listed. */
  function KeywordMatches(kw: string, memos: seq<Memo>): (r: seq<Memo>)
    ensures |r| <= |memos|
  {
    if memos == [] then []
    else if Mentions(memos[0], kw) then [memos[0]] + KeywordMatches(kw, memos[1..])
    else KeywordMatches(kw, memos[1..])
  }

  /**
   * A note is kept under a keyword exactly when its lower-cased text
   * contains the lower-cased keyword; the empty keyword keeps every note.
   */
  lemma {:induction false} KeywordMatchesIff(kw: string, memos: seq<Memo>, m: Memo)
    ensures m in KeywordMatches(kw, memos) <==> m in memos && Mentions(m, kw)
    ensures kw == [] ==> KeywordMatches(kw, memos) == memos
  {
    if memos != [] {
      KeywordMatchesIff(kw, memos[1..], m);
      assert memos == [memos[0]] + memos[1..];
      if kw == [] {
        assert StartsWith(Lower(memos[0].content), Lower(kw));
      }
    }
  }

  /** `content.replace(kw, "\033[91m" + kw + "\033[0m")`: the keyword, case as given, in red. */
  function Highlight(m: Memo, kw: string): Memo {
    Memo(m.name, ShownTime(m.updateTime), ReplaceAll(m.content, kw, "\U{1B}[91m" + kw + "\U{1B}[0m"))
  }

  /** The entries one keyword adds to the merged list. */
  function Highlighted(kw: string, memos: seq<Memo>): (r: seq<Memo>)
    ensures |r| == |memos|
    ensures forall i | 0 <= i < |memos| :: r[i] == Highlight(memos[i], kw)
  {
    if memos == [] then [] else [Highlight(memos[0], kw)] + Highlighted(kw, memos[1..])
  }

  /** A listing request: the URL, the headers, the page size and the creator filter. */
  datatype SearchRequest = SearchRequest(url: string, headers: map<string, string>, pageSize: int, filter: Option<string>)

  /**
   * The merged list of the keyword loop: for each keyword in turn, the
   * notes of all its pages (`fetch(request, k)` for the `k`-th keyword, or
   * the failing page's body text) that mention it, highlighted. The first
   * failing keyword ends the search.
   */
  function Merged(keywords: seq<string>, request: SearchRequest,
                  fetch: (SearchRequest, nat) -> Result<seq<Memo>, string>): Result<seq<Memo>, string>
  {
    if keywords == [] then Ok([])
    else
      var k := |keywords| - 1;
      match Merged(keywords[..k], request, fetch)
      case Err(e) => Err(e)
      case Ok(front) =>
        match fetch(request, k)
        case Err(e) => Err(e)
        case Ok(all) => Ok(front + Highlighted(keywords[k], KeywordMatches(keywords[k], all)))
  }

  // ---------------------------------------------------------------------------
  // Merging by name

  /** The position of the first note called `name`, or `|memos|` when there is none. */
  function FirstNamed(memos: seq<Memo>, name: string): (i: nat)
    ensures i <= |memos|
    ensures i < |memos| ==> memos[i].name == name
    ensures forall j | 0 <= j < i :: memos[j].name != name
  {
    if memos == [] then 0
    else if memos[0].name == name then 0
    else 1 + FirstNamed(memos[1..], name)
  }

  /** `d[m.name] = m` on a dict kept as its list of values in insertion order. */
  function Put(d: seq<Memo>, m: Memo): seq<Memo> {
    var i := FirstNamed(d, m.name);
    if i < |d| then d[i := m] else d + [m]
  }

  /** `list({m["name"]: m for m in memos}.values())` */
  function Dedupe(memos: seq<Memo>): seq<Memo> {
    if memos == [] then []
    else Put(Dedupe(memos[..|memos| - 1]), memos[|memos| - 1])
  }

  /** The names in a list of notes. */
  ghost function Names(memos: seq<Memo>): set<string> {
    set i | 0 <= i < |memos| :: memos[i].name
  }

  /** No two entries share a name. */
  ghost predicate UniqueNames(memos: seq<Memo>) {
    forall i, j | 0 <= i < j < |memos| :: memos[i].name != memos[j].name
  }

  /** `memos[k]` is the last note called by its name. */
  ghost predicate LastOfName(memos: seq<Memo>, k: int) {
    0 <= k < |memos| && forall k' | k < k' < |memos| :: memos[k'].name != memos[k].name
  }

  /** `x` is the last note listed under its name. */
  ghost predicate IsLastNote(memos: seq<Memo>, x: Memo) {
    exists k :: LastOfName(memos, k) && memos[k] == x
  }

  /**
   * The merge by name keeps one entry per name and no other names; each
   * entry is the last note listed under its name; and the entries come
   * in the order in which their names first appear.
   */
  lemma {:induction false} DedupeShape(memos: seq<Memo>)
    ensures UniqueNames(Dedupe(memos))
    ensures Names(Dedupe(memos)) == Names(memos)
    ensures forall i | 0 <= i < |Dedupe(memos)| :: IsLastNote(memos, Dedupe(memos)[i])
    ensures forall i, j | 0 <= i < j < |Dedupe(memos)| ::
              FirstNamed(memos, Dedupe(memos)[i].name) < FirstNamed(memos, Dedupe(memos)[j].name)
    ensures |Dedupe(memos)| <= |memos|
  {
    if memos != [] {
      var front := memos[..|memos| - 1];
      var m := memos[|memos| - 1];
      DedupeShape(front);
      assert memos == front + [m];
      PutShape(Dedupe(front), front, m);
    }
  }

  /** The induction step of `DedupeShape`: one more note put into a merge of `front`. */
  lemma PutShape(d: seq<Memo>, front: seq<Memo>, m: Memo)
    requires UniqueNames(d) && Names(d) == Names(front) && |d| <= |front|
    requires forall i | 0 <= i < |d| :: IsLastNote(front, d[i])
    requires forall i, j | 0 <= i < j < |d| :: FirstNamed(front, d[i].name) < FirstNamed(front, d[j].name)
    ensures var d' := Put(d, m);
            var memos := front + [m];
            && UniqueNames(d')
            && Names(d') == Names(memos)
            && (forall i | 0 <= i < |d'| :: IsLastNote(memos, d'[i]))
            && (forall i, j | 0 <= i < j < |d'| :: FirstNamed(memos, d'[i].name) < FirstNamed(memos, d'[j].name))
            && |d'| <= |memos|
  {
    PutNames(d, m);
    NamesAppend(front, m);
    PutLast(d, front, m);
    PutOrder(d, front, m);
  }

  /** The names of `front + [m]`. */
  lemma NamesAppend(front: seq<Memo>, m: Memo)
    ensures Names(front + [m]) == Names(front) + {m.name}
  {
    var memos := front + [m];
    assert forall i | 0 <= i < |front| :: memos[i] == front[i];
    assert memos[|front|] == m;
  }

  /** Putting a note replaces the entry of its name, or appends it when there is none. */
  lemma PutNames(d: seq<Memo>, m: Memo)
    requires UniqueNames(d)
    ensures UniqueNames(Put(d, m))
    ensures Names(Put(d, m)) == Names(d) + {m.name}
    ensures |Put(d, m)| <= |d| + 1
    ensures forall i | 0 <= i < |Put(d, m)| :: Put(d, m)[i] == m || (i < |d| && Put(d, m)[i] == d[i] && d[i].name != m.name)
  {
    var p := FirstNamed(d, m.name);
    if p < |d| {
      assert forall i | 0 <= i < |d| :: Put(d, m)[i].name == d[i].name;
    } else {
      NamesAppend(d, m);
    }
  }

  /** Each entry stays the last note of its name. */
  lemma PutLast(d: seq<Memo>, front: seq<Memo>, m: Memo)
    requires UniqueNames(d)
    requires forall i | 0 <= i < |d| :: IsLastNote(front, d[i])
    ensures forall i | 0 <= i < |Put(d, m)| :: IsLastNote(front + [m], Put(d, m)[i])
  {
    PutNames(d, m);
    var memos := front + [m];
    var d' := Put(d, m);
    forall i | 0 <= i < |d'|
      ensures IsLastNote(memos, d'[i])
    {
      if d'[i] == m {
        assert LastOfName(memos, |front|) && memos[|front|] == m;
      } else {
        var k :| LastOfName(front, k) && front[k] == d[i];
        assert LastOfName(memos, k) && memos[k] == d'[i];
      }
    }
  }

  /** The entries stay in the order of the first appearance of their names. */
  lemma PutOrder(d: seq<Memo>, front: seq<Memo>, m: Memo)
    requires UniqueNames(d) && Names(d) == Names(front)
    requires forall i, j | 0 <= i < j < |d| :: FirstNamed(front, d[i].name) < FirstNamed(front, d[j].name)
    ensures forall i, j | 0 <= i < j < |Put(d, m)| :: FirstNamed(front + [m], Put(d, m)[i].name) < FirstNamed(front + [m], Put(d, m)[j].name)
  {
    var memos := front + [m];
    var d' := Put(d, m);
    forall i | 0 <= i < |d|
      ensures FirstNamed(memos, d[i].name) == FirstNamed(front, d[i].name) < |front|
    {
      assert d[i].name in Names(front);
      FirstNamedAppend(front, m, d[i].name);
    }
    var p := FirstNamed(d, m.name);
    if p < |d| {
      assert forall i | 0 <= i < |d| :: d'[i].name == d[i].name;
    } else {
      assert m.name !in Names(front);
      FirstNamedAppend(front, m, m.name);
      assert d' == d + [m];
    }
  }

  /** Appending a note does not move the first occurrence of a name already there. */
  lemma {:induction false} FirstNamedAppend(front: seq<Memo>, m: Memo, x: string)
    ensures x in Names(front) ==> FirstNamed(front + [m], x) == FirstNamed(front, x)
    ensures x !in Names(front) && m.name == x ==> FirstNamed(front + [m], x) == |front|
    decreases |front|
  {
    if front != [] {
      FirstNamedAppend(front[1..], m, x);
      assert (front + [m])[1..] == front[1..] + [m];
      if front[0].name != x && x in Names(front) {
        var i :| 0 <= i < |front| && front[i].name == x;
        assert front[1..][i - 1].name == x;
      }
      if x !in Names(front) {
        assert forall i | 0 <= i < |front| - 1 :: front[1..][i] == front[i + 1];
      }
    } else {
      assert front + [m] == [m];
    }
  }

  /** Every merged entry is a highlighted note, from its keyword's pages, that mentions that keyword. */
  lemma {:induction false} MergedMembers(keywords: seq<string>, request: SearchRequest,
                                         fetch: (SearchRequest, nat) -> Result<seq<Memo>, string>, x: Memo)
    requires Merged(keywords, request, fetch).Ok? && x in Merged(keywords, request, fetch).value
    ensures exists k | 0 <= k < |keywords| ::
              && fetch(request, k).Ok?
              && exists m | m in fetch(request, k).value :: Mentions(m, keywords[k]) && x == Highlight(m, keywords[k])
  {
    var k := |keywords| - 1;
    var front := Merged(keywords[..k], request, fetch).value;
    var all := fetch(request, k).value;
    if x in front {
      MergedMembers(keywords[..k], request, fetch, x);
      var k' :| 0 <= k' < k && fetch(request, k').Ok?
                && exists m | m in fetch(request, k').value :: Mentions(m, keywords[..k][k']) && x == Highlight(m, keywords[..k][k']);
      assert keywords[..k][k'] == keywords[k'];
    } else {
      var matches := KeywordMatches(keywords[k], all);
      var i :| 0 <= i < |matches| && Highlighted(keywords[k], matches)[i] == x;
      KeywordMatchesIff(keywords[k], all, matches[i]);
    }
  }

  // ---------------------------------------------------------------------------
  // Results

  /** A create request: the URL, the headers, the note and its visibility. */
  datatype CreateRequest = CreateRequest(url: string, headers: map<string, string>, content: string, visibility: string)

  /** What `_create_memo` returns for one note. */
  datatype CreateResult = Saved(name: string, time: string, content: string) | CreateError(error: string)

  /** What `_delete_memo` records for one id. */
  datatype DeleteResult = DeleteResult(id: string, status: string, message: string)

  /** What the tool returns. */
  datatype Outcome =
    | Error(message: string)
    | CreateResults(created: seq<CreateResult>)
    | FoundMemos(memos: seq<Memo>)
    | DeleteResults(deleted: seq<DeleteResult>)

  /** `data.get(key, default)` */
  function Get(body: map<string, string>, key: string, default: string): string {
    if key in body then body[key] else default
  }

  /** `_create_memo` once the server has answered. */
  function CreateOutcome(resp: Response): (r: CreateResult)
    ensures r.Saved? <==> resp.statusCode == 200
    ensures r.CreateError? ==> r.error == "Create failed: " + resp.text
    ensures r.Saved? ==> 'T' !in r.time && 'Z' !in r.time
    ensures r.Saved? && "name" !in resp.body ==> r.name == "Unknown"
  {
    if resp.statusCode == 200 then
      ShownTimeClean(Get(resp.body, "createTime", ""));
      Saved(Get(resp.body, "name", "Unknown"), ShownTime(Get(resp.body, "createTime", "")), Get(resp.body, "content", ""))
    else CreateError("Create failed: " + resp.text)
  }

  /** The notes endpoint. */
  function MemosUrl(baseUrl: string): string {
    baseUrl + "/api/v1/memos"
  }

  /** The result of each note's create request, in the order of the notes. */
  function Creations(baseUrl: string, headers: map<string, string>, contents: seq<string>, visibility: string,
                     post: CreateRequest -> Response): (r: seq<CreateResult>)
    ensures |r| == |contents|
  {
    seq(|contents|, i requires 0 <= i < |contents| => CreateOutcome(post(CreateRequest(MemosUrl(baseUrl), headers, contents[i], visibility))))
  }

  /** The create loop: one request per note. */
  method CreateAll(baseUrl: string, headers: map<string, string>, contents: seq<string>, visibility: string,
                   post: CreateRequest -> Response) returns (results: seq<CreateResult>)
    ensures results == Creations(baseUrl, headers, contents, visibility, post)
  {
    results := [];
    for i := 0 to |contents|
      invariant results == Creations(baseUrl, headers, contents[..i], visibility, post)
    {
      var created := CreateOutcome(post(CreateRequest(MemosUrl(baseUrl), headers, contents[i], visibility)));
      results := results + [created];
    }
    assert contents[..|contents|] == contents;
  }

  /** One id's entry: `success` exactly on status 200, with the server's text otherwise. */
  function DeleteOutcome(id: string, resp: Response): (r: DeleteResult)
    ensures r.id == id
    ensures r.status == "success" <==> resp.statusCode == 200
    ensures r.status == "success" ==> r.message == "Delete successful."
    ensures r.status != "success" ==> r.status == "failed" && r.message == "Delete failed: " + resp.text
  {
    if resp.statusCode == 200 then DeleteResult(id, "success", "Delete successful.")
    else DeleteResult(id, "failed", "Delete failed: " + resp.text)
  }

  /** The URL of one note. */
  function MemoUrl(baseUrl: string, id: string): string {
    baseUrl + "/api/v1/memos/" + id
  }

  /** The entry of each id's delete request, in the order of the ids. */
  function DeleteEntries(baseUrl: string, headers: map<string, string>, ids: seq<string>,
                         del: (string, map<string, string>) -> Response): (r: seq<DeleteResult>)
    ensures |r| == |ids|
  {
    seq(|ids|, i requires 0 <= i < |ids| => DeleteOutcome(ids[i], del(MemoUrl(baseUrl, ids[i]), headers)))
  }

  /** `_delete_memo`: nothing to delete is an error; otherwise one entry per id, in order. */
  function Deletions(baseUrl: string, headers: map<string, string>, memoIds: Arg,
                     del: (string, map<string, string>) -> Response): (r: Outcome)
    ensures !Truthy(memoIds) ==> r == Error("Memo not found.")
    ensures Truthy(memoIds) ==> r.DeleteResults? && |r.deleted| == |CommaList(memoIds)|
  {
    if !Truthy(memoIds) then Error("Memo not found.")
    else DeleteResults(DeleteEntries(baseUrl, headers, CommaList(memoIds), del))
  }

  /** `_delete_memo`: the emptiness check, the id list, and the loop over the ids. */
  method DeleteMemos(baseUrl: string, headers: map<string, string>, memoIds: Arg,
                     del: (string, map<string, string>) -> Response) returns (r: Outcome)
    ensures r == Deletions(baseUrl, headers, memoIds, del)
  {
    if !Truthy(memoIds) {
      return Error("Memo not found.");
    }
    var ids := CommaList(memoIds);
    var results := DeleteEach(baseUrl, headers, ids, del);
    r := DeleteResults(results);
  }

  /** The delete loop: one request per id. */
  method DeleteEach(baseUrl: string, headers: map<string, string>, ids: seq<string>,
                    del: (string, map<string, string>) -> Response) returns (results: seq<DeleteResult>)
    ensures results == DeleteEntries(baseUrl, headers, ids, del)
  {
    results := [];
    for i := 0 to |ids|
      invariant results == DeleteEntries(baseUrl, headers, ids[..i], del)
    {
      var resp := del(MemoUrl(baseUrl, ids[i]), headers);
      results := results + [DeleteOutcome(ids[i], resp)];
    }
    assert ids[..|ids|] == ids;
  }

  /** The settings' listing request: page size and, when a user is configured, a creator filter. */
  function ListRequest(baseUrl: string, headers: map<string, string>, pageSize: int, userId: Option<string>): (r: SearchRequest)
    ensures r.filter.Some? <==> Set(userId)
    ensures r.filter.Some? ==> r.filter.value == "creator == 'users/" + userId.value + "'"
  {
    SearchRequest(MemosUrl(baseUrl), headers, pageSize, if Set(userId) then Some("creator == 'users/" + userId.value + "'") else None)
  }

  /** The one listing request made without keywords: the notes as listed, shown, with no limit applied. */
  function ListOutcome(listing: Listing): (r: Outcome)
    ensures listing.statusCode != 200 <==> r.Error?
    ensures r.Error? ==> r.message == "Search failed: " + listing.text
    ensures r.FoundMemos? ==> r.memos == (if listing.memos.Some? then ShownAll(listing.memos.value) else [])
  {
    if listing.statusCode != 200 then Error("Search failed: " + listing.text)
    else if listing.memos.None? then FoundMemos([])
    else FoundMemos(ShownAll(listing.memos.value))
  }

  /** `_search_memos` */
  function Search(request: SearchRequest, keyword: Arg, limit: Option<int>,
                  list: SearchRequest -> Listing, fetch: (SearchRequest, nat) -> Result<seq<Memo>, string>): Outcome
  {
    if !Truthy(keyword) then ListOutcome(list(request))
    else
      match Merged(CommaList(keyword), request, fetch)
      case Err(e) => Error("Search failed: " + e)
      case Ok(combined) => FoundMemos(PyTo(Dedupe(combined), ResultLimit(limit, request.pageSize)))
  }

  /**
   * A keyword search fails with the first failing keyword's text, or
   * gives entries with distinct names, at most `result_limit` of them when
   * that is positive, each the highlighted form of a note that mentions
   * one of the keywords.
   */
  lemma SearchShape(request: SearchRequest, keyword: Arg, limit: Option<int>,
                    list: SearchRequest -> Listing, fetch: (SearchRequest, nat) -> Result<seq<Memo>, string>)
    requires Truthy(keyword)
    ensures var r := Search(request, keyword, limit, list, fetch);
            var keywords := CommaList(keyword);
            && (r.Error? <==> Merged(keywords, request, fetch).Err?)
            && (r.Error? ==> r.message == "Search failed: " + Merged(keywords, request, fetch).error)
            && (r.FoundMemos? ==>
                  && UniqueNames(r.memos)
                  && (ResultLimit(limit, request.pageSize) >= 0 ==> |r.memos| <= ResultLimit(limit, request.pageSize))
                  && forall i | 0 <= i < |r.memos| :: FromKeyword(CommaList(keyword), request, fetch, r.memos[i]))
  {
    var keywords := CommaList(keyword);
    var merged := Merged(keywords, request, fetch);
    if merged.Ok? {
      LimitedShape(keywords, request, fetch, merged.value, ResultLimit(limit, request.pageSize));
    }
  }

  /** `x` is the highlighted form of a note, from some keyword's pages, that mentions that keyword. */
  ghost predicate FromKeyword(keywords: seq<string>, request: SearchRequest,
                              fetch: (SearchRequest, nat) -> Result<seq<Memo>, string>, x: Memo) {
    exists k | 0 <= k < |keywords| ::
      && fetch(request, k).Ok?
      && exists m | m in fetch(request, k).value :: Mentions(m, keywords[k]) && x == Highlight(m, keywords[k])
  }

  /** The merged list, merged by name and cut to `n`. */
  lemma LimitedShape(keywords: seq<string>, request: SearchRequest,
                     fetch: (SearchRequest, nat) -> Result<seq<Memo>, string>, combined: seq<Memo>, n: int)
    requires Merged(keywords, request, fetch) == Ok(combined)
    ensures UniqueNames(PyTo(Dedupe(combined), n))
    ensures n >= 0 ==> |PyTo(Dedupe(combined), n)| <= n
    ensures forall i | 0 <= i < |PyTo(Dedupe(combined), n)| :: FromKeyword(keywords, request, fetch, PyTo(Dedupe(combined), n)[i])
  {
    var d := Dedupe(combined);
    DedupeShape(combined);
    var r := PyTo(d, n);
    forall i | 0 <= i < |r|
      ensures FromKeyword(keywords, request, fetch, r[i])
    {
      assert r[i] == d[i];
      assert IsLastNote(combined, d[i]);
      var k :| LastOfName(combined, k) && combined[k] == d[i];
      MergedMembers(keywords, request, fetch, r[i]);
    }
  }

  /** Once a keyword's pages fail, the later keywords are not looked at. */
  lemma {:induction false} MergedStops(keywords: seq<string>, request: SearchRequest,
                                       fetch: (SearchRequest, nat) -> Result<seq<Memo>, string>, j: nat)
    requires j <= |keywords| && Merged(keywords[..j], request, fetch).Err?
    ensures Merged(keywords, request, fetch) == Merged(keywords[..j], request, fetch)
    decreases |keywords|
  {
    if j < |keywords| {
      var front := keywords[..|keywords| - 1];
      assert front[..j] == keywords[..j];
      MergedStops(front, request, fetch, j);
    } else {
      assert keywords[..j] == keywords;
    }
  }

  /** The keyword loop of `_search_memos`, with the page loop's notes for each keyword given by `fetch`. */
  method MergeKeywords(keywords: seq<string>, request: SearchRequest,
                       fetch: (SearchRequest, nat) -> Result<seq<Memo>, string>)
    returns (r: Result<seq<Memo>, string>)
    ensures r == Merged(keywords, request, fetch)
  {
    var combined: seq<Memo> := [];
    for i := 0 to |keywords|
      invariant Merged(keywords[..i], request, fetch) == Ok(combined)
    {
      var kw := keywords[i];
      assert keywords[..i + 1][..i] == keywords[..i];
      var pages := fetch(request, i);
      if pages.Err? {
        MergedStops(keywords, request, fetch, i + 1);
        return Err(pages.error);
      }
      combined := AppendHighlighted(combined, kw, KeywordMatches(kw, pages.value));
    }
    assert keywords[..|keywords|] == keywords;
    r := Ok(combined);
  }

  /** The inner loop: each matching note, highlighted, is appended to the merged list. */
  method AppendHighlighted(start: seq<Memo>, kw: string, memos: seq<Memo>) returns (combined: seq<Memo>)
    ensures combined == start + Highlighted(kw, memos)
  {
    combined := start;
    for j := 0 to |memos|
      invariant |combined| == |start| + j
      invariant combined[..|start|] == start
      invariant forall k | 0 <= k < j :: combined[|start| + k] == Highlight(memos[k], kw)
    {
      combined := combined + [Highlight(memos[j], kw)];
    }
  }

  /** `_search_memos`: one listing without keywords, the keyword loop and the merge by name otherwise. */
  method SearchMemos(request: SearchRequest, keyword: Arg, limit: Option<int>,
                     list: SearchRequest -> Listing, fetch: (SearchRequest, nat) -> Result<seq<Memo>, string>)
    returns (r: Outcome)
    ensures r == Search(request, keyword, limit, list, fetch)
  {
    var resultLimit := ResultLimit(limit, request.pageSize);
    if !Truthy(keyword) {
      var listing := list(request);
      return ListOutcome(listing);
    }
    var keywords := CommaList(keyword);
    var merged := MergeKeywords(keywords, request, fetch);
    if merged.Err? {
      return Error("Search failed: " + merged.error);
    }
    r := FoundMemos(PyTo(Dedupe(merged.value), resultLimit));
  }

  // ---------------------------------------------------------------------------
  // The tool

  /** `default_visibility`, `PRIVATE` when absent. */
  function Visibility(config: MemosConfig): string {
    if config.visibility.Some? then config.visibility.value else "PRIVATE"
  }

  /** The operation names `memos_manage` knows. */
  datatype Operation = CreateOp | SearchOp | DeleteOp | UnknownOp

  /** Which of `"create"`, `"search"` and `"delete"` the operation is, if any. */
  function OperationOf(operation: string): Operation {
    if operation == "create" then CreateOp
    else if operation == "search" then SearchOp
    else if operation == "delete" then DeleteOp
    else UnknownOp
  }

  /** The `create` branch: the note list must not be empty. */
  function CreateNotes(baseUrl: string, headers: map<string, string>, createContent: Arg, visibility: string,
                       post: CreateRequest -> Response): Outcome
  {
    if !Truthy(createContent) then Error("Missing 'create_content' for create operation.")
    else CreateResults(Creations(baseUrl, headers, CreateContents(createContent), visibility, post))
  }

  /** The `delete` branch: the id list must not be empty. */
  function DeleteNotes(baseUrl: string, headers: map<string, string>, deleteId: Arg,
                       del: (string, map<string, string>) -> Response): Outcome
  {
    if !Truthy(deleteId) then Error("Missing 'delete_id' for delete operation.")
    else Deletions(baseUrl, headers, deleteId, del)
  }

  /** Each name selects its own operation, and every other string is unknown. */
  lemma OperationNames(operation: string)
    ensures OperationOf(operation) == CreateOp <==> operation == "create"
    ensures OperationOf(operation) == SearchOp <==> operation == "search"
    ensures OperationOf(operation) == DeleteOp <==> operation == "delete"
  {
  }

  /**
   * `memos_manage`: `post`, `list`, `fetch` and `del` stand for the
   * server's answers to the create, listing, paged listing and delete
   * requests.
   */
  function Manage(config: MemosConfig, operation: string, createContent: Arg, searchKeyword: Arg, deleteId: Arg,
                  limit: Option<int>, post: CreateRequest -> Response, list: SearchRequest -> Listing,
                  fetch: (SearchRequest, nat) -> Result<seq<Memo>, string>,
                  del: (string, map<string, string>) -> Response): Outcome
  {
    if !Set(config.url) then Error("Missing 'url' in memos_config.")
    else
      Dispatched(config, config.url.value, OperationOf(operation), operation, createContent, searchKeyword, deleteId,
                 limit, post, list, fetch, del)
  }

  /** The operation chosen once the url is known. */
  function Dispatched(config: MemosConfig, baseUrl: string, op: Operation, operation: string, createContent: Arg,
                      searchKeyword: Arg, deleteId: Arg, limit: Option<int>, post: CreateRequest -> Response,
                      list: SearchRequest -> Listing, fetch: (SearchRequest, nat) -> Result<seq<Memo>, string>,
                      del: (string, map<string, string>) -> Response): Outcome
  {
    var headers := Headers(config.token);
    match op
    case CreateOp => CreateNotes(baseUrl, headers, createContent, Visibility(config), post)
    case SearchOp => Search(ListRequest(baseUrl, headers, PageSize(config), config.userId), searchKeyword, limit, list, fetch)
    case DeleteOp => DeleteNotes(baseUrl, headers, deleteId, del)
    case UnknownOp => Error("Invalid operation: " + operation)
  }

  /** The `create` branch, with its loop. */
  method CreateMemos(baseUrl: string, headers: map<string, string>, createContent: Arg, visibility: string,
                     post: CreateRequest -> Response) returns (r: Outcome)
    ensures r == CreateNotes(baseUrl, headers, createContent, visibility, post)
  {
    if !Truthy(createContent) {
      return Error("Missing 'create_content' for create operation.");
    }
    var contents := CreateContents(createContent);
    var results := CreateAll(baseUrl, headers, contents, visibility, post);
    r := CreateResults(results);
  }

  /** `memos_manage`, step by step. */
  method MemosManage(config: MemosConfig, operation: string, createContent: Arg, searchKeyword: Arg, deleteId: Arg,
                     limit: Option<int>, post: CreateRequest -> Response, list: SearchRequest -> Listing,
                     fetch: (SearchRequest, nat) -> Result<seq<Memo>, string>,
                     del: (string, map<string, string>) -> Response) returns (r: Outcome)
    ensures r == Manage(config, operation, createContent, searchKeyword, deleteId, limit, post, list, fetch, del)
  {
    if !Set(config.url) {
      return Error("Missing 'url' in memos_config.");
    }
    r := Dispatch(config, config.url.value, OperationOf(operation), operation, createContent, searchKeyword, deleteId,
                  limit, post, list, fetch, del);
  }

  /** The `if operation == ...` chain of `memos_manage`. */
  method Dispatch(config: MemosConfig, baseUrl: string, op: Operation, operation: string, createContent: Arg,
                  searchKeyword: Arg, deleteId: Arg, limit: Option<int>, post: CreateRequest -> Response,
                  list: SearchRequest -> Listing, fetch: (SearchRequest, nat) -> Result<seq<Memo>, string>,
                  del: (string, map<string, string>) -> Response) returns (r: Outcome)
    ensures r == Dispatched(config, baseUrl, op, operation, createContent, searchKeyword, deleteId, limit, post, list, fetch, del)
  {
    var visibility := Visibility(config);
    var pageSize := PageSize(config);
    var headers := Headers(config.token);
    match op
    case CreateOp =>
      r := CreateMemos(baseUrl, headers, createContent, visibility, post);
    case SearchOp =>
      r := SearchMemos(ListRequest(baseUrl, headers, pageSize, config.userId), searchKeyword, limit, list, fetch);
    case DeleteOp =>
      r := DeleteChecked(baseUrl, headers, deleteId, del);
    case UnknownOp =>
      r := Error("Invalid operation: " + operation);
  }

  /** The `delete` branch: the emptiness check, then `_delete_memo`. */
  method DeleteChecked(baseUrl: string, headers: map<string, string>, deleteId: Arg,
                       del: (string, map<string, string>) -> Response) returns (r: Outcome)
    ensures r == DeleteNotes(baseUrl, headers, deleteId, del)
  {
    if !Truthy(deleteId) {
      return Error("Missing 'delete_id' for delete operation.");
    }
    r := DeleteMemos(baseUrl, headers, deleteId, del);
  }

  /**
   * The dispatch: a missing url is reported before anything else; an
   * unknown operation is named in the error; a create sends one request
   * per note, in order, with the configured headers and visibility; a
   * delete gives one entry per id, in order.
   */
  lemma ManageCases(config: MemosConfig, operation: string, createContent: Arg, searchKeyword: Arg, deleteId: Arg,
                    limit: Option<int>, post: CreateRequest -> Response, list: SearchRequest -> Listing,
                    fetch: (SearchRequest, nat) -> Result<seq<Memo>, string>,
                    del: (string, map<string, string>) -> Response)
    ensures var r := Manage(config, operation, createContent, searchKeyword, deleteId, limit, post, list, fetch, del);
            && (!Set(config.url) ==> r == Error("Missing 'url' in memos_config."))
            && (Set(config.url) && operation != "create" && operation != "search" && operation != "delete" ==> r == Error("Invalid operation: " + operation))
            && (Set(config.url) && operation == "create" && Truthy(createContent) ==>
                  var contents := CreateContents(createContent);
                  && r.CreateResults? && |r.created| == |contents|
                  && forall i | 0 <= i < |contents| ::
                       r.created[i] == CreateOutcome(post(CreateRequest(MemosUrl(config.url.value), Headers(config.token), contents[i], Visibility(config)))))
            && (Set(config.url) && operation == "delete" && Truthy(deleteId) ==>
                  var ids := CommaList(deleteId);
                  && r.DeleteResults? && |r.deleted| == |ids|
                  && forall i | 0 <= i < |ids| :: r.deleted[i].id == ids[i]
                       && (r.deleted[i].status == "success" <==> del(MemoUrl(config.url.value, ids[i]), Headers(config.token)).statusCode == 200))
  {
    OperationNames(operation);
    if Set(config.url) && operation == "create" && Truthy(createContent) {
      CreateCases(config.url.value, Headers(config.token), createContent, Visibility(config), post);
    }
    if Set(config.url) && operation == "delete" && Truthy(deleteId) {
      DeleteCases(config.url.value, Headers(config.token), deleteId, del);
    }
  }

  /** A create of a non-empty note list sends one request per note. */
  lemma CreateCases(baseUrl: string, headers: map<string, string>, createContent: Arg, visibility: string,
                    post: CreateRequest -> Response)
    requires Truthy(createContent)
    ensures var r := CreateNotes(baseUrl, headers, createContent, visibility, post);
            var contents := CreateContents(createContent);
            && r.CreateResults? && |r.created| == |contents|
            && forall i | 0 <= i < |contents| ::
                 r.created[i] == CreateOutcome(post(CreateRequest(MemosUrl(baseUrl), headers, contents[i], visibility)))
  {
  }

  /** A delete of a non-empty id list gives one entry per id. */
  lemma DeleteCases(baseUrl: string, headers: map<string, string>, deleteId: Arg,
                    del: (string, map<string, string>) -> Response)
    requires Truthy(deleteId)
    ensures var r := DeleteNotes(baseUrl, headers, deleteId, del);
            var ids := CommaList(deleteId);
            && r.DeleteResults? && |r.deleted| == |ids|
            && forall i | 0 <= i < |ids| :: r.deleted[i].id == ids[i]
                 && (r.deleted[i].status == "success" <==> del(MemoUrl(baseUrl, ids[i]), headers).statusCode == 200)
  {
    var ids := CommaList(deleteId);
    var d := DeleteEntries(baseUrl, headers, ids, del);
    assert DeleteNotes(baseUrl, headers, deleteId, del) == DeleteResults(d);
    forall i | 0 <= i < |ids|
      ensures d[i].id == ids[i] && (d[i].status == "success" <==> del(MemoUrl(baseUrl, ids[i]), headers).statusCode == 200)
    {
      assert d[i] == DeleteOutcome(ids[i], del(MemoUrl(baseUrl, ids[i]), headers));
    }
  }
}
