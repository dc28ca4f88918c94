/**
 * The current chat plugin (`plugins/llm_chat`): which messages it answers,
 * how it cleans them, which conversation a message belongs to, what it
 * replies given what the conversation graph returned, and the two
 * administrator commands that change the conversation store.
 */
module LlmChat {
  import opened Wrappers
  import opened Text
  import opened Seqs
  import opened Segments
  import opened ImageLink
  import opened Sessions

  /**
   * The plugin settings the handlers read, with the trigger settings under
   * the names the settings class declares (`trigger_mode`,
   * `trigger_words`). `emptyMessageReplies` is `None` when the settings
   * object has no such attribute.
   */
  datatype PluginConfig = PluginConfig(
    triggerMode: seq<string>,
    triggerWords: seq<string>,
    groupChatIsolation: bool,
    enablePrivate: bool,
    enableGroup: bool,
    maxSessions: nat,
    enableUsername: bool,
    emptyMessageReplies: Option<seq<string>>)

  /** Where a message came from: a group (and the member who wrote it) or a private chat. */
  datatype Source = Group(groupId: nat, userId: nat) | Private(userId: nat)

  /** A message event as the handler sees it. */
  datatype Event = Event(
    source: Source,
    message: seq<Segment>,
    plainText: string,
    reply: Option<seq<Segment>>,
    isTome: bool)

  /** What a handler run ends with: a reply, a reply with an image attached, or an exception it lets escape. */
  datatype Outcome = Reply(text: string) | ReplyWithImage(text: string, url: string) | Raised(error: string)

  // ---------------------------------------------------------------------------
  // Trigger rule

  /** Some word of `words` occurs in `msg`. */
  function AnyIn(words: seq<string>, msg: string): (r: bool)
    ensures r <==> exists i | 0 <= i < |words| :: Contains(msg, words[i])
  {
    if words == [] then false
    else Contains(msg, words[0]) || AnyIn(words[1..], msg)
  }

  /** `msg` starts with some word of `words`. */
  function AnyPrefix(words: seq<string>, msg: string): (r: bool)
    ensures r <==> exists i | 0 <= i < |words| :: StartsWith(msg, words[i])
  {
    if words == [] then false
    else StartsWith(msg, words[0]) || AnyPrefix(words[1..], msg)
  }

  /**
   * `chat_rule(event)`: with trigger modes configured, a message is answered
   * when it is addressed to the bot in "at" mode, contains a trigger word in
   * "keyword" mode, or starts with one in "prefix" mode; with none
   * configured, exactly when it is addressed to the bot.
   */
  function ChatRule(mode: seq<string>, words: seq<string>, msg: string, isTome: bool): (r: bool)
    ensures mode != [] ==>
      (r <==> || ("at" in mode && isTome)
              || ("keyword" in mode && exists i | 0 <= i < |words| :: Contains(msg, words[i]))
              || ("prefix" in mode && exists i | 0 <= i < |words| :: StartsWith(msg, words[i])))
    ensures mode == [] ==> r == isTome
  {
    if "at" in mode && isTome then true
    else if "keyword" in mode && AnyIn(words, msg) then true
    else if "prefix" in mode && AnyPrefix(words, msg) then true
    else if mode == [] then isTome
    else false
  }

  /** The rule as meant, applied to an event on `str(event.get_message())`. */
  function Triggered(config: PluginConfig, ev: Event): bool {
    ChatRule(config.triggerMode, config.triggerWords, Render(ev.message), ev.isTome)
  }

  /** The text of the `AttributeError` raised for an attribute the settings object lacks. */
  function MissingAttribute(name: string): string {
    "'PluginConfig' object has no attribute '" + name + "'"
  }

  /**
   * The attributes `Trigger_mode` and `Trigger_words` as the rule and the
   * cleaning read them: `None` when the settings class does not declare
   * them, as `PluginConfig` in plugins/llm_chat/config.py does not.
   */
  datatype RuleAttributes = RuleAttributes(triggerMode: Option<seq<string>>, triggerWords: Option<seq<string>>)

  /** The attributes as the declared settings class has them: neither exists. */
  const DeclaredAttributes := RuleAttributes(None, None)

  /**
   * `chat_rule(event)` as written: reading `Trigger_mode`, then
   * `Trigger_words`, raises when the attribute is missing; otherwise the
   * rule is `ChatRule` on what was read.
   */
  function ChatRuleAsWritten(attrs: RuleAttributes, msg: string, isTome: bool): (r: Result<bool, string>)
    ensures r.Err? <==> attrs.triggerMode.None? || attrs.triggerWords.None?
    ensures attrs.triggerMode.None? ==> r.error == MissingAttribute("Trigger_mode")
    ensures r.Ok? ==> r.value == ChatRule(attrs.triggerMode.value, attrs.triggerWords.value, msg, isTome)
  {
    if attrs.triggerMode.None? then Err(MissingAttribute("Trigger_mode"))
    else if attrs.triggerWords.None? then Err(MissingAttribute("Trigger_words"))
    else Ok(ChatRule(attrs.triggerMode.value, attrs.triggerWords.value, msg, isTome))
  }

  /**
   * `remove_trigger_words` as written: a leading word is cut only when
   * `hasattr(plugin_config.plugin, 'Trigger_words')` holds.
   */
  function CleanedTextAsWritten(message: seq<Segment>, attrs: RuleAttributes): string {
    CleanedText(message, if attrs.triggerWords.Some? then attrs.triggerWords.value else [])
  }

  /**
   * With the settings class as declared, the rule raises on every message,
   * so it lets none through, even one addressed to the bot in "at" mode
   * that the rule as meant answers; and the
   * cleaning never cuts a trigger word, only the `@` segments.
   */
  lemma RuleRefusesAsWritten(config: PluginConfig, ev: Event)
    ensures ChatRuleAsWritten(DeclaredAttributes, Render(ev.message), ev.isTome) == Err(MissingAttribute("Trigger_mode"))
    ensures ev.isTome && "at" in config.triggerMode ==> Triggered(config, ev)
    ensures CleanedTextAsWritten(ev.message, DeclaredAttributes) == StripAts(Strip(Render(ev.message)), ev.message)
  {
  }

  // ---------------------------------------------------------------------------
  // Cleaning the message

  /** What `remove_trigger_words` computes: `@` segments deleted, then at most one leading trigger word. */
  function CleanedText(message: seq<Segment>, words: seq<string>): string {
    DropLeadingWord(StripAts(Strip(Render(message)), message), words)
  }

  /**
   * `remove_trigger_words(text, message)`; the `text` argument is not used:
   * the function starts again from the whole message.
   */
  method RemoveTriggerWords(text: string, message: seq<Segment>, words: seq<string>) returns (r: string)
    ensures r == CleanedText(message, words)
  {
    r := Strip(Render(message));
    r := RemoveAtSegments(r, message);
    r := RemoveLeadingWord(r, words);
  }

  /** The cleaned text is stripped, no longer than the message, and blank only when empty. */
  lemma CleanedTextShape(message: seq<Segment>, words: seq<string>)
    ensures IsStripped(CleanedText(message, words))
    ensures |CleanedText(message, words)| <= |Render(message)|
    ensures IsBlank(CleanedText(message, words)) <==> CleanedText(message, words) == []
  {
    var t := Strip(Render(message));
    StripAtsShape(t, message);
    DropLeadingWordStripped(StripAts(t, message), words);
    var c := CleanedText(message, words);
    StripEmptyIffBlank(c);
    StrippedIsFixpoint(c);
    DropLeadingWordShrinks(StripAts(t, message), words);
  }

  /** Dropping the leading word never lengthens the text. */
  lemma {:induction false} DropLeadingWordShrinks(t: string, words: seq<string>)
    ensures |DropLeadingWord(t, words)| <= |t|
    decreases |words|
  {
    if words != [] && !StartsWith(t, words[0]) {
      DropLeadingWordShrinks(t, words[1..]);
    }
  }

  /**
   * A keyword that survives the `@` removal and sits after every trigger
   * word the text could start with is still in the cleaned text: trigger
   * words are only cut from the front.
   */
  lemma KeywordSurvives(message: seq<Segment>, words: seq<string>, kw: string, p: int)
    requires OccursAt(StripAts(Strip(Render(message)), message), kw, p)
    requires kw != [] && !IsSpace(kw[0]) && !IsSpace(kw[|kw| - 1])
    requires forall i | 0 <= i < |words| && StartsWith(StripAts(Strip(Render(message)), message), words[i]) :: |words[i]| <= p
    ensures Contains(CleanedText(message, words), kw)
  {
    DropLeadingWordKeeps(StripAts(Strip(Render(message)), message), words, kw, p);
  }

  /** A message without `@` segments or leading trigger word reaches the model as its stripped text. */
  lemma PlainMessageKept(message: seq<Segment>, words: seq<string>)
    requires forall j | 0 <= j < |message| :: message[j].kind != "at"
    requires forall i | 0 <= i < |words| :: !StartsWith(Strip(Render(message)), words[i])
    ensures CleanedText(message, words) == Strip(Render(message))
  {
    StripAtsNoAt(Strip(Render(message)), message);
    DropLeadingWordCases(Strip(Render(message)), words);
  }

  /** `"\n图片URL：" + "\n".join(image_urls)`, added only when there are URLs. */
  function WithImageUrls(content: string, urls: seq<string>): string {
    if urls == [] then content else content + "\n图片URL：" + Join(urls, "\n")
  }

  /** `f"{user_name}: {full_content}"` when user names are on and the name is not empty. */
  function WithUserName(enabled: bool, userName: string, content: string): string {
    if enabled && userName != [] then userName + ": " + content else content
  }

  /** The image URLs of the message, then those of the quoted reply. */
  function EventImageUrls(ev: Event): seq<string> {
    ImageUrls(ev.message) + (if ev.reply.Some? then ImageUrls(ev.reply.value) else [])
  }

  /** The quoted reply's images come after the message's own, and nothing else is collected. */
  lemma EventImageUrlsOrder(ev: Event)
    requires ev.reply.Some?
    ensures EventImageUrls(ev) == ImageUrls(ev.message + ev.reply.value)
  {
    ImageUrlsAppend(ev.message, ev.reply.value);
  }

  // ---------------------------------------------------------------------------
  // Thread ids

  /** `f"group_{g}_{u}"`, `f"group_{g}"` or `f"private_{u}"`. */
  function ThreadId(source: Source, isolation: bool): string {
    match source
    case Group(g, u) => if isolation then "group_" + Decimal(g) + "_" + Decimal(u) else "group_" + Decimal(g)
    case Private(u) => "private_" + Decimal(u)
  }

  predicate AllDigits(s: string) {
    forall i | 0 <= i < |s| :: '0' <= s[i] <= '9'
  }

  /** The index of the first `_` in `s`, or `|s|`. */
  function SepIndex(s: string): (n: nat)
    ensures n <= |s|
  {
    if s == [] || s[0] == '_' then 0 else 1 + SepIndex(s[1..])
  }

  /** After a digit string, the first `_` is the one that ends it. */
  lemma {:induction false} SepIndexAfterDigits(c: string, d: string)
    requires AllDigits(c)
    ensures SepIndex(c + "_" + d) == |c|
  {
    if c != [] {
      assert (c + "_" + d)[1..] == c[1..] + "_" + d;
      SepIndexAfterDigits(c[1..], d);
    } else {
      assert c + "_" + d == "_" + d;
    }
  }

  /** A digit string followed by `_` can only be the same digit string in front of another `_`. */
  lemma SepPrefix(a: string, c: string, d: string)
    requires AllDigits(a) && AllDigits(c)
    ensures StartsWith(c + "_" + d, a + "_") ==> a == c
  {
    var s := c + "_" + d;
    if StartsWith(s, a + "_") {
      assert s == a + "_" + s[|a| + 1..];
      SepIndexAfterDigits(a, s[|a| + 1..]);
      SepIndexAfterDigits(c, d);
      assert a == s[..|a|];
    }
  }

  /** Decimal renderings are equal exactly for equal numbers. */
  lemma DecimalEq(a: nat, b: nat)
    ensures Decimal(a) == Decimal(b) <==> a == b
  {
    if Decimal(a) == Decimal(b) {
      DecimalInjective(a, b);
    }
  }

  /** A digit string does not start with something followed by `_`. */
  lemma DigitsNoSep(c: string, a: string)
    requires AllDigits(c)
    ensures !StartsWith(c, a + "_")
  {
    if |a| + 1 <= |c| {
      assert (a + "_")[|a|] == '_';
      assert c[..|a| + 1][|a|] == c[|a|];
    }
  }

  /** Taking off a common front. */
  lemma StartsWithAfter(p: string, s: string, t: string)
    ensures StartsWith(p + s, p + t) <==> StartsWith(s, t)
  {
    if |t| <= |s| {
      assert (p + s)[..|p + t|] == p + s[..|t|];
      assert (p + s[..|t|])[|p|..] == s[..|t|] && (p + t)[|p|..] == t;
    }
  }

  /**
   * Private and group ids never collide, and isolated and shared group ids
   * never collide; equal ids mean the same group, or the same user where the
   * id names one.
   */
  lemma ThreadIdInjective(a: Source, ia: bool, b: Source, ib: bool)
    ensures ThreadId(a, ia) == ThreadId(b, ib) ==>
      && a.Group? == b.Group?
      && (a.Private? ==> a == b)
      && (a.Group? ==> a.groupId == b.groupId && ia == ib && (ia ==> a == b))
  {
    match (a, b) {
      case (Private(u), Private(v)) => PrivateIds(u, v);
      case (Private(u), Group(h, v)) => PrivateNotGroup(u, h, v, ib);
      case (Group(g, u), Private(v)) => PrivateNotGroup(v, g, u, ia);
      case (Group(g, u), Group(h, v)) =>
        if ia && ib {
          IsolatedIds(g, u, h, v);
        } else if !ia && !ib {
          SharedIds(g, h);
        } else if ia {
          IsolatedNotShared(g, u, h);
        } else {
          IsolatedNotShared(h, v, g);
        }
    }
  }

  lemma PrivateIds(u: nat, v: nat)
    ensures "private_" + Decimal(u) == "private_" + Decimal(v) ==> u == v
  {
    assert ("private_" + Decimal(u))[8..] == Decimal(u) && ("private_" + Decimal(v))[8..] == Decimal(v);
    DecimalEq(u, v);
  }

  lemma PrivateNotGroup(u: nat, g: nat, v: nat, iso: bool)
    ensures "private_" + Decimal(u) != ThreadId(Group(g, v), iso)
  {
    assert ("private_" + Decimal(u))[0] == 'p' && ThreadId(Group(g, v), iso)[0] == 'g';
  }

  lemma SharedIds(g: nat, h: nat)
    ensures "group_" + Decimal(g) == "group_" + Decimal(h) ==> g == h
  {
    assert ("group_" + Decimal(g))[6..] == Decimal(g) && ("group_" + Decimal(h))[6..] == Decimal(h);
    DecimalEq(g, h);
  }

  lemma IsolatedIds(g: nat, u: nat, h: nat, v: nat)
    ensures "group_" + Decimal(g) + "_" + Decimal(u) == "group_" + Decimal(h) + "_" + Decimal(v) ==> g == h && u == v
  {
    var dg, du, dh, dv := Decimal(g), Decimal(u), Decimal(h), Decimal(v);
    assert AllDigits(dg) && AllDigits(dh);
    IsolatedParts(dg, du, dh, dv);
    if dg == dh && du == dv {
      DecimalInjective(g, h);
      DecimalInjective(u, v);
    }
  }

  /** `group_a_b == group_c_d` for digit strings `a` and `c` gives back the parts. */
  lemma IsolatedParts(a: string, b: string, c: string, d: string)
    requires AllDigits(a) && AllDigits(c)
    ensures "group_" + a + "_" + b == "group_" + c + "_" + d ==> a == c && b == d
  {
    var x, y := a + "_" + b, c + "_" + d;
    assert "group_" + a + "_" + b == "group_" + x;
    assert "group_" + c + "_" + d == "group_" + y;
    DropFront("group_", x, y);
    SepSplit(a, b, c, d);
  }

  /** Equal texts with a common front are equal after it. */
  lemma DropFront(p: string, x: string, y: string)
    ensures p + x == p + y ==> x == y
  {
    assert (p + x)[|p|..] == x && (p + y)[|p|..] == y;
  }

  /** `a_b == c_d` for digit strings `a` and `c` splits at the first `_`. */
  lemma SepSplit(a: string, b: string, c: string, d: string)
    requires AllDigits(a) && AllDigits(c)
    ensures a + "_" + b == c + "_" + d ==> a == c && b == d
  {
    if a + "_" + b == c + "_" + d {
      SepIndexAfterDigits(a, b);
      SepIndexAfterDigits(c, d);
      assert a == (a + "_" + b)[..|a|];
      assert c == (c + "_" + d)[..|c|];
      assert b == (a + "_" + b)[|a| + 1..];
      assert d == (c + "_" + d)[|c| + 1..];
    }
  }

  lemma IsolatedNotShared(g: nat, u: nat, h: nat)
    ensures "group_" + Decimal(g) + "_" + Decimal(u) != "group_" + Decimal(h)
  {
    NotSharedParts(Decimal(g), Decimal(u), Decimal(h));
  }

  /** `group_a_b` is never `group_c` when `c` is all digits. */
  lemma NotSharedParts(a: string, b: string, c: string)
    requires AllDigits(c)
    ensures "group_" + a + "_" + b != "group_" + c
  {
    var x := "group_" + a + "_" + b;
    var y := "group_" + c;
    assert x[6 + |a|] == '_';
    if |y| > 6 + |a| {
      assert y[6 + |a|] == c[|a|];
    }
  }

  // ---------------------------------------------------------------------------
  // Isolation toggle

  /**
   * The keys the isolation toggle deletes: for a group event, the per-member
   * keys of that group when isolation is now on, or the group's shared key
   * when it is now off; for any other event, every private key.
   */
  predicate Targeted(key: string, source: Source, isolation: bool) {
    match source
    case Group(g, _) =>
      if isolation then StartsWith(key, "group_" + Decimal(g) + "_") else key == "group_" + Decimal(g)
    case Private(_) => StartsWith(key, "private_")
  }

  /** `[key for key in sessions if ...]`, in the dict's order. */
  function TargetedKeys(keys: seq<string>, source: Source, isolation: bool): (r: seq<string>)
    ensures forall i | 0 <= i < |r| :: r[i] in keys && Targeted(r[i], source, isolation)
    ensures forall i | 0 <= i < |keys| && Targeted(keys[i], source, isolation) :: keys[i] in r
    ensures Distinct(keys) ==> Distinct(r)
  {
    if keys == [] then []
    else
      var rest := TargetedKeys(keys[1..], source, isolation);
      assert forall i | 1 <= i < |keys| :: keys[i] == keys[1..][i - 1];
      assert Distinct(keys) ==> keys[0] !in keys[1..] && Distinct(keys[1..]);
      if Targeted(keys[0], source, isolation) then [keys[0]] + rest else rest
  }

  /**
   * Among thread ids, the toggle for a group event hits exactly those of the
   * same group made under the new setting, and the toggle for a private
   * event exactly the private ones.
   */
  lemma TargetedThreadIds(s: Source, iso: bool, source: Source, isolation: bool)
    ensures source.Group? ==>
      (Targeted(ThreadId(s, iso), source, isolation) <==> s.Group? && s.groupId == source.groupId && iso == isolation)
    ensures source.Private? ==> (Targeted(ThreadId(s, iso), source, isolation) <==> s.Private?)
  {
    var id := ThreadId(s, iso);
    match source
    case Private(_) =>
      if s.Group? {
        assert id[0] == 'g' && "private_"[0] == 'p';
      } else {
        assert id == "private_" + Decimal(s.userId);
      }
    case Group(g, _) =>
      match s
      case Private(_) =>
        assert id[0] == 'p' && ("group_" + Decimal(g))[0] == 'g' && ("group_" + Decimal(g) + "_")[0] == 'g';
      case Group(h, u) =>
        var dg, dh, du := Decimal(g), Decimal(h), Decimal(u);
        assert AllDigits(dg) && AllDigits(dh) && AllDigits(du);
        if iso {
          IsolatedKeyTargeted(dg, dh, du);
          NotSharedParts(dh, du, dg);
        } else {
          SharedKeyTargeted(dg, dh);
        }
        if dg == dh {
          assert g == h by { DecimalInjective(g, h); }
        }
  }

  /** An isolated key `group_c_d` starts with `group_a_` exactly when `a == c`. */
  lemma IsolatedKeyTargeted(a: string, c: string, d: string)
    requires AllDigits(a) && AllDigits(c)
    ensures StartsWith("group_" + c + "_" + d, "group_" + a + "_") <==> a == c
  {
    assert "group_" + c + "_" + d == "group_" + (c + "_" + d);
    assert "group_" + a + "_" == "group_" + (a + "_");
    StartsWithAfter("group_", c + "_" + d, a + "_");
    SepPrefix(a, c, d);
    if a == c {
      assert StartsWith(c + "_" + d, a + "_");
    }
  }

  /** A shared key `group_c` never starts with `group_a_`, and is `group_a` exactly when `a == c`. */
  lemma SharedKeyTargeted(a: string, c: string)
    requires AllDigits(c)
    ensures !StartsWith("group_" + c, "group_" + a + "_")
    ensures "group_" + c == "group_" + a <==> a == c
  {
    assert "group_" + a + "_" == "group_" + (a + "_");
    StartsWithAfter("group_", c, a + "_");
    DigitsNoSep(c, a);
    if "group_" + c == "group_" + a {
      assert ("group_" + c)[6..] == c && ("group_" + a)[6..] == a;
    }
  }

  // ---------------------------------------------------------------------------
  // Replies

  /** `"..." ... if ... else ...` with Python's `str(bool)`. */
  function PyBool(b: bool): string {
    if b then "True" else "False"
  }

  /** A content value's truthiness. */
  predicate Truthy(c: Content) {
    match c
    case Str(t) => t != []
    case Blocks(items, _) => items != []
  }

  const CannotAnswer := "对不起，我现在无法回答。"
  const NotUnderstood := "对不起，我没有理解您的问题。"
  const ToolCallFailed := "工具调用失败: "
  const ToolCallFailedSilently := "工具调用失败，但没有错误信息"
  const InvokeFailed := "抱歉，在处理您的请求时出现问题。错误信息："
  /** What `.strip()` on a list of content blocks raises. */
  const ListHasNoStrip := "'list' object has no attribute 'strip'"

  /**
   * The reply text read off the messages a graph run returned, or the text
   * of the exception reading it raises.
   */
  function ExtractResponse(msgs: seq<Message>): Result<string, string> {
    if msgs == [] then Ok(CannotAnswer)
    else
      match msgs[|msgs| - 1]
      case Ai(content, calls) =>
        if calls.CallList? && calls.errors != [] then Ok(ToolCallFailed + calls.errors[0])
        else if calls.NotAList? && calls.truthy then Ok(ToolCallFailedSilently)
        else if !Truthy(content) then Ok(NotUnderstood)
        else if content.Str? then Ok(Strip(content.text))
        else Err(ListHasNoStrip)
      case Tool(content) =>
        if !Truthy(content) then Ok(NotUnderstood)
        else if content.Str? then Ok(content.text)
        else Ok(content.shown)
      case _ => Ok(NotUnderstood)
  }

  /** The reply is read off the last message alone. */
  lemma ExtractResponseUsesLast(msgs: seq<Message>)
    requires msgs != []
    ensures ExtractResponse(msgs) == ExtractResponse([msgs[|msgs| - 1]])
  {
  }

  /**
   * The cases the handler distinguishes: an AI message with failed tool
   * calls reports the first error, one with text content replies with it
   * stripped, a tool message replies with its own text, and a human or
   * system message, or an empty AI message, is not understood.
   */
  lemma ExtractResponseCases(msgs: seq<Message>, last: Message)
    requires msgs != [] && last == msgs[|msgs| - 1]
    ensures last.Ai? && last.invalidToolCalls.CallList? && last.invalidToolCalls.errors != [] ==>
      ExtractResponse(msgs) == Ok(ToolCallFailed + last.invalidToolCalls.errors[0])
    ensures last.Ai? && last.invalidToolCalls == CallList([]) && last.content.Str? && last.content.text != [] ==>
      ExtractResponse(msgs) == Ok(Strip(last.content.text)) && IsStripped(ExtractResponse(msgs).value)
    ensures last.Tool? && last.content.Str? && last.content.text != [] ==> ExtractResponse(msgs) == Ok(last.content.text)
    ensures last.Human? || last.System? ==> ExtractResponse(msgs) == Ok(NotUnderstood)
    ensures ExtractResponse(msgs).Err? <==> last.Ai? && last.content.Blocks? && last.content.items != []
                                            && last.invalidToolCalls != NotAList(true)
                                            && (last.invalidToolCalls.CallList? ==> last.invalidToolCalls.errors == [])
  {
    match last
    case Ai(content, calls) =>
      if calls.CallList? && calls.errors != [] {
        assert ExtractResponse(msgs) == Ok(ToolCallFailed + calls.errors[0]);
      } else if calls.NotAList? && calls.truthy {
        assert ExtractResponse(msgs) == Ok(ToolCallFailedSilently);
      } else if !Truthy(content) {
        assert ExtractResponse(msgs) == Ok(NotUnderstood);
      } else if content.Str? {
        assert ExtractResponse(msgs) == Ok(Strip(content.text));
      } else {
        assert ExtractResponse(msgs) == Err(ListHasNoStrip);
      }
    case Tool(content) =>
    case _ =>
  }

  /** The reply text: the graph's answer, or the exception the run raised, after the fixed apology. */
  function Response(invoke: Result<seq<Message>, string>): string {
    match invoke
    case Err(e) => InvokeFailed + e
    case Ok(msgs) =>
      match ExtractResponse(msgs)
      case Ok(text) => text
      case Err(e) => InvokeFailed + e
  }

  /** The reply sent: with an image link in the text, the text without it and the image. */
  function ReplyFor(response: string): Outcome {
    match SplitImage(response)
    case (text, Some(url)) => ReplyWithImage(text, url)
    case (_, None) => Reply(response)
  }

  // ---------------------------------------------------------------------------
  // Model selection and the `chat` command

  /**
   * `get_llm(model)`: the configured model when none is named, otherwise the
   * name lower-cased; a Google client when the name contains "gemini".
   */
  function GetLlm(name: Option<string>, defaultModel: string): (r: Llm)
    ensures (r.provider == Google) == Contains(r.model, "gemini")
  {
    var model := if name.Some? then Lower(name.value) else defaultModel;
    Llm(if Contains(model, "gemini") then Google else OpenAI, model)
  }

  /** Naming a model is case-insensitive: the client depends on the name lower-cased only. */
  lemma GetLlmIgnoresCase(name: string, defaultModel: string)
    ensures GetLlm(Some(name), defaultModel) == GetLlm(Some(Lower(name)), defaultModel)
    ensures GetLlm(Some(name), defaultModel).model == Lower(name)
  {
    LowerIsLower(name);
  }

  /** `s.split(maxsplit=1)`: the first whitespace-separated word and, if anything follows, the rest. */
  function SplitOnce(s: string): (r: seq<string>)
    ensures |r| <= 2
    ensures r == [] <==> IsBlank(s)
    ensures |r| >= 1 ==> r[0] != [] && (forall k | 0 <= k < |r[0]| :: !IsSpace(r[0][k])) && StartsWith(LStrip(s), r[0])
    ensures |r| == 1 ==> IsBlank(LStrip(s)[|r[0]|..])
    ensures |r| == 2 ==> r[1] != [] && !IsSpace(r[1][0])
  {
    var t := LStrip(s);
    StripBlankFacts(s);
    if t == [] then []
    else
      var w := FirstWord(t);
      var rest := LStrip(t[|w|..]);
      if rest == [] then (StripBlankFacts(t[|w|..]); [w]) else [w, rest]
  }

  /** The leading run of non-whitespace. */
  function FirstWord(t: string): (w: string)
    ensures |w| <= |t| && w == t[..|w|]
    ensures forall k | 0 <= k < |w| :: !IsSpace(w[k])
    ensures |w| < |t| ==> IsSpace(t[|w|])
    ensures t != [] && !IsSpace(t[0]) ==> w != []
  {
    if t == [] || IsSpace(t[0]) then [] else [t[0]] + FirstWord(t[1..])
  }

  /** A text is blank exactly when nothing is left after `lstrip`. */
  lemma StripBlankFacts(s: string)
    ensures LStrip(s) == [] <==> IsBlank(s)
  {
    if LStrip(s) != [] {
      assert LStrip(s)[0] == s[|s| - |LStrip(s)|];
    }
  }

  /** The usage text of the `chat` command. */
  const ChatUsage := "请输入有效的命令：\n            'chat model <模型名字>' 切换模型 \n            'chat clear' 清理会话"

  // ---------------------------------------------------------------------------
  // A message up to the session lookup

  /** How far a message gets before the store is involved: a reply given on the spot, or the text for the model. */
  datatype Turn = Stop(out: Outcome) | Go(content: string)

  /** The plugin is enabled for this kind of chat. */
  predicate Enabled(config: PluginConfig, source: Source) {
    if source.Group? then config.enableGroup else config.enablePrivate
  }

  /**
   * The answer to a message that is empty once cleaned: the fixed question
   * when no replies are configured, otherwise `random.choice` among them,
   * which raises on an empty list.
   */
  function EmptyReply(replies: Option<seq<string>>, pick: nat): (r: Outcome)
    ensures replies.None? ==> r == Reply("您想说什么呢?")
    ensures replies == Some([]) ==> r == Raised("Cannot choose from an empty sequence")
    ensures replies.Some? && replies.value != [] ==> r.Reply? && r.text in replies.value
  {
    match replies
    case None => Reply("您想说什么呢?")
    case Some(rs) => if rs == [] then Raised("Cannot choose from an empty sequence") else Reply(rs[pick % |rs|])
  }

  /**
   * `handle_chat` up to the session lookup: refuse a disabled kind of chat,
   * answer an empty message, or build the text sent to the model from the
   * cleaned message, the image URLs and the user name.
   */
  function Intake(config: PluginConfig, ev: Event, userName: string, pick: nat): Turn {
    if ev.source.Group? && !config.enableGroup then Stop(Reply("不可以在群聊中使用"))
    else if ev.source.Private? && !config.enablePrivate then Stop(Reply("不可以在私聊中使用"))
    else
      var full := CleanedText(ev.message, config.triggerWords);
      if Strip(full) == [] then Stop(EmptyReply(config.emptyMessageReplies, pick))
      else Go(WithUserName(config.enableUsername, userName, WithImageUrls(full, EventImageUrls(ev))))
  }

  /** The steps of `handle_chat` before the session lookup, in the handler's order. */
  method PrepareTurn(config: PluginConfig, ev: Event, userName: string, pick: nat) returns (t: Turn)
    ensures t == Intake(config, ev, userName, pick)
  {
    if ev.source.Group? && !config.enableGroup {
      return Stop(Reply("不可以在群聊中使用"));
    }
    if ev.source.Private? && !config.enablePrivate {
      return Stop(Reply("不可以在私聊中使用"));
    }
    var imageUrls := EventImageUrls(ev);
    var full := RemoveTriggerWords(ev.plainText, ev.message, config.triggerWords);
    if Strip(full) == [] {
      return Stop(EmptyReply(config.emptyMessageReplies, pick));
    }
    if imageUrls != [] {
      full := full + "\n图片URL：" + Join(imageUrls, "\n");
    }
    if config.enableUsername && userName != [] {
      t := Go(userName + ": " + full);
    } else {
      t := Go(full);
    }
  }

  /**
   * A message goes on to the model exactly when its kind of chat is enabled
   * and something is left after cleaning; the text sent holds the cleaned
   * message, starts with the user name when names are on, and is the cleaned
   * message itself when there is neither name nor image.
   */
  lemma IntakeCases(config: PluginConfig, ev: Event, userName: string, pick: nat)
    ensures Intake(config, ev, userName, pick).Go? <==>
              Enabled(config, ev.source) && CleanedText(ev.message, config.triggerWords) != []
    ensures Enabled(config, ev.source) && CleanedText(ev.message, config.triggerWords) == [] ==>
              Intake(config, ev, userName, pick) == Stop(EmptyReply(config.emptyMessageReplies, pick))
    ensures Intake(config, ev, userName, pick).Go? ==>
              Contains(Intake(config, ev, userName, pick).content, CleanedText(ev.message, config.triggerWords))
    ensures Intake(config, ev, userName, pick).Go? && config.enableUsername && userName != [] ==>
              StartsWith(Intake(config, ev, userName, pick).content, userName + ": ")
    ensures Intake(config, ev, userName, pick).Go? && EventImageUrls(ev) == [] && !(config.enableUsername && userName != []) ==>
              Intake(config, ev, userName, pick).content == CleanedText(ev.message, config.triggerWords)
  {
    var full := CleanedText(ev.message, config.triggerWords);
    CleanedTextShape(ev.message, config.triggerWords);
    StrippedIsFixpoint(full);
    ContentShape(config.enableUsername, userName, full, EventImageUrls(ev));
  }

  /** The text for the model holds the message, after the user name and before the URL list. */
  lemma ContentShape(enabled: bool, userName: string, full: string, urls: seq<string>)
    ensures Contains(WithUserName(enabled, userName, WithImageUrls(full, urls)), full)
    ensures enabled && userName != [] ==> StartsWith(WithUserName(enabled, userName, WithImageUrls(full, urls)), userName + ": ")
    ensures urls == [] && !(enabled && userName != []) ==> WithUserName(enabled, userName, WithImageUrls(full, urls)) == full
  {
    var suffix := if urls == [] then [] else "\n图片URL：" + Join(urls, "\n");
    var prefix := if enabled && userName != [] then userName + ": " else [];
    assert WithImageUrls(full, urls) == full + suffix;
    assert WithUserName(enabled, userName, WithImageUrls(full, urls)) == prefix + full + suffix;
    assert StartsWith(full, full);
    ContainsInfix(prefix, full, suffix, full);
    if enabled && userName != [] {
      assert (prefix + full + suffix)[..|prefix|] == prefix;
    }
  }

  // ---------------------------------------------------------------------------
  // The administrator commands, as requests

  /** What `chat ...` asks for, read off `args.strip().split(maxsplit=1)` with the command word lower-cased. */
  datatype ChatRequest = Usage | ShowModel | SwitchModel(name: string) | ClearAll | Unknown

  /** A text with its surrounding whitespace removed is blank exactly when the text is. */
  lemma StripBlank(s: string)
    ensures IsBlank(Strip(s)) <==> IsBlank(s)
  {
    StripEmptyIffBlank(s);
    StripEmptyIffBlank(Strip(s));
    StrippedIsFixpoint(Strip(s));
  }

  /** The request a `chat` command's arguments make; only blank arguments get the usage text. */
  function ParseChatCommand(args: string): (c: ChatRequest)
    ensures c == Usage <==> IsBlank(args)
    ensures c.SwitchModel? ==> c.name != [] && !IsSpace(c.name[0])
  {
    var parts := SplitOnce(Strip(args));
    StripBlank(args);
    if parts == [] then Usage
    else
      var command := Lower(parts[0]);
      if command == "model" then (if |parts| < 2 then ShowModel else SwitchModel(parts[1]))
      else if command == "clear" then ClearAll
      else Unknown
  }

  /** What `chat group ...` asks for: the current setting, a new one, or neither. */
  datatype IsolationRequest = ShowIsolation | SetIsolation(on: bool) | BadSwitch

  /** `args.strip().lower()` read as the isolation setting. */
  function ParseIsolation(args: string): (r: IsolationRequest)
    ensures r == ShowIsolation <==> IsBlank(args)
    ensures r.SetIsolation? ==> Lower(Strip(args)) == (if r.on then "true" else "false")
  {
    var arg := Lower(Strip(args));
    StripEmptyIffBlank(args);
    if arg == [] then ShowIsolation
    else if arg == "true" then SetIsolation(true)
    else if arg == "false" then SetIsolation(false)
    else BadSwitch
  }

  /** Surrounding whitespace and letter case do not matter to the setting. */
  lemma IsolationWords(pad: string, w: string, pad2: string)
    requires IsBlank(pad) && IsBlank(pad2) && w != [] && !IsSpace(w[0]) && !IsSpace(w[|w| - 1])
    ensures ParseIsolation(pad + w + pad2) ==
              if Lower(w) == "true" then SetIsolation(true)
              else if Lower(w) == "false" then SetIsolation(false)
              else BadSwitch
  {
    StripPadded(pad, w, pad2);
  }

  /** Stripping removes exactly the blank padding around a stripped, non-empty word. */
  lemma StripPadded(pad: string, w: string, pad2: string)
    requires IsBlank(pad) && IsBlank(pad2) && w != [] && !IsSpace(w[0]) && !IsSpace(w[|w| - 1])
    ensures Strip(pad + w + pad2) == w
  {
    var s := pad + w + pad2;
    assert s[|pad|] == w[0] && s[|pad| + |w| - 1] == w[|w| - 1];
    StripAround(s, |pad|, |pad| + |w|);
    assert s[|pad|..|pad| + |w|] == w;
  }

  /** When `s[i..j]` is non-empty with blank text on both sides and non-blank ends, `strip` keeps exactly it. */
  lemma StripAround(s: string, i: int, j: int)
    requires 0 <= i < j <= |s|
    requires forall k | 0 <= k < i :: IsSpace(s[k])
    requires forall k | j <= k < |s| :: IsSpace(s[k])
    requires !IsSpace(s[i]) && !IsSpace(s[j - 1])
    ensures Strip(s) == s[i..j]
  {
    LStripAt(s, i);
    RStripSuffix(s, i, j);
  }

  /** The same `rstrip`, seen on the suffix `s[i..]` that `lstrip` leaves. */
  lemma RStripSuffix(s: string, i: int, j: int)
    requires 0 <= i < j <= |s| && !IsSpace(s[j - 1])
    requires forall k | j <= k < |s| :: IsSpace(s[k])
    ensures RStrip(s[i..]) == s[i..j]
  {
    var t := s[i..];
    assert forall k | j - i <= k < |t| :: IsSpace(t[k]) by {
      forall k | j - i <= k < |t| ensures IsSpace(t[k]) {
        assert t[k] == s[i + k];
      }
    }
    RStripAt(t, j - i);
    assert t[..j - i] == s[i..j];
  }

  /** Blank text before a non-blank `s[i]` is what `lstrip` drops. */
  lemma LStripAt(s: string, i: int)
    requires 0 <= i < |s| && !IsSpace(s[i])
    requires forall k | 0 <= k < i :: IsSpace(s[k])
    ensures LStrip(s) == s[i..]
  {
    var l := LStrip(s);
    assert |l| == |s| - i;
  }

  /** Blank text after a non-blank `s[m - 1]` is what `rstrip` drops. */
  lemma RStripAt(s: string, m: int)
    requires 0 < m <= |s| && !IsSpace(s[m - 1])
    requires forall k | m <= k < |s| :: IsSpace(s[k])
    ensures RStrip(s) == s[..m]
  {
    var r := RStrip(s);
    assert |r| == m;
  }

  // ---------------------------------------------------------------------------
  // The running plugin

  /** The running plugin: its settings, its current client and graph builder, and its conversation store. */
  class ChatPlugin {
    var config: PluginConfig
    var llm: Llm
    var builder: Builder
    const store: SessionStore

    /** The conversation store is consistent. */
    ghost predicate Valid()
      reads this, store, store.sessions.Values
    {
      store.Valid()
    }

    /** Import time: the configured model, its graph builder and no sessions. */
    constructor (config: PluginConfig, defaultModel: string)
      ensures Valid() && fresh(store)
      ensures this.config == config && llm == GetLlm(None, defaultModel) && builder == Builder(llm)
      ensures store.sessions == map[] && store.order == []
    {
      this.config := config;
      llm := GetLlm(None, defaultModel);
      builder := Builder(GetLlm(None, defaultModel));
      store := new SessionStore();
    }

    /**
     * The session part of `handle_chat`: admit the thread, then compile
     * its graph with the current builder when it has none. By `ReadyFits`,
     * every other surviving entry is unchanged, the evicted ones are the
     * least recently used, and a new or recreated session starts empty with
     * a fresh graph.
     */
    method Converse(tid: string)
      requires Valid()
      modifies store, if tid in store.sessions then {store.sessions[tid]} else {}
      ensures Valid() && store.clock == old(store.clock) && tid in store.sessions
      ensures store.Entries() == ReadyIn(AdmittedEntries(tid, old(config.maxSessions), store.clock, old(store.Entries()), old(store.order),
                                                         store.sessions[tid]), tid, old(builder), None)
      ensures store.order == AdmittedOrder(tid, old(config.maxSessions), old(store.Entries()), old(store.order))
      ensures tid !in old(store.Entries()) - Evicted(old(config.maxSessions), old(store.Entries()), old(store.order)) ==>
                fresh(store.sessions[tid])
    {
      store.AdmitPrepared(tid, config.maxSessions, builder, None);
    }

    /**
     * `handle_chat` for a message the rule let through. `userName` is what the
     * handler's user-name lookup produced, `pick` stands for `random.choice`,
     * and `invoke` is what `graph.invoke` returned or raised for the text the
     * method gives back in `sent`. A message that stops at intake leaves the
     * store and every session as they were; one that goes on changes the
     * store as `Converse` does.
     */
    method HandleChat(ev: Event, userName: string, pick: nat, invoke: Result<seq<Message>, string>)
      returns (out: Outcome, sent: Option<string>)
      requires Valid()
      modifies store, if ThreadId(ev.source, config.groupChatIsolation) in store.sessions
                      then {store.sessions[ThreadId(ev.source, config.groupChatIsolation)]} else {}
      ensures Valid()
      ensures Intake(old(config), ev, userName, pick).Stop? ==>
                && out == Intake(old(config), ev, userName, pick).out && sent == None
                && unchanged(store) && store.Entries() == old(store.Entries())
      ensures Intake(old(config), ev, userName, pick).Go? ==>
                var tid := ThreadId(ev.source, old(config.groupChatIsolation));
                && sent == Some(Intake(old(config), ev, userName, pick).content)
                && out == ReplyFor(Response(invoke))
                && store.clock == old(store.clock) && tid in store.sessions
                && store.Entries() == ReadyIn(AdmittedEntries(tid, old(config.maxSessions), store.clock, old(store.Entries()), old(store.order),
                                                              store.sessions[tid]), tid, old(builder), None)
                && store.order == AdmittedOrder(tid, old(config.maxSessions), old(store.Entries()), old(store.order))
                && (tid !in old(store.Entries()) - Evicted(old(config.maxSessions), old(store.Entries()), old(store.order)) ==>
                      fresh(store.sessions[tid]))
    {
      var turn := PrepareTurn(config, ev, userName, pick);
      if turn.Stop? {
        return turn.out, None;
      }
      Converse(ThreadId(ev.source, config.groupChatIsolation));
      sent := Some(turn.content);
      out := ReplyFor(Response(invoke));
    }

    /**
     * `chat group [true|false]`, for the request `ParseIsolation` reads off
     * the arguments: report the setting, or set it and delete the sessions
     * the new setting leaves behind (see `Targeted`).
     */
    method ToggleIsolation(request: IsolationRequest, source: Source) returns (reply: string)
      requires Valid()
      modifies this, store
      ensures Valid() && llm == old(llm) && builder == old(builder) && store.clock == old(store.clock)
      ensures request == ShowIsolation ==> reply == "当前群聊会话隔离: " + PyBool(old(config).groupChatIsolation)
      ensures request == BadSwitch ==> reply == "请输入 true 或 false"
      ensures !request.SetIsolation? ==>
                config == old(config) && store.sessions == old(store.sessions) && store.order == old(store.order)
      ensures request.SetIsolation? ==>
                && config == old(config).(groupChatIsolation := request.on)
                && store.sessions.Keys == set k | k in old(store.sessions) && !Targeted(k, source, request.on)
                && (forall k | k in store.sessions :: k in old(store.sessions) && store.sessions[k] == old(store.sessions)[k])
                && store.order == Without(old(store.order), Elems(TargetedKeys(old(store.order), source, request.on)))
                && reply == "已" + (if request.on then "启用" else "禁用") + "群聊会话隔离，已清理对应会话"
    {
      match request {
        case ShowIsolation =>
          return "当前群聊会话隔离: " + PyBool(config.groupChatIsolation);
        case BadSwitch =>
          return "请输入 true 或 false";
        case SetIsolation(on) =>
          config := config.(groupChatIsolation := on);
          var keys := TargetedKeys(store.order, source, on);
          store.RemoveKeys(keys);
          reply := "已" + (if !on then "禁用" else "启用") + "群聊会话隔离，已清理对应会话";
      }
    }

    /**
     * `chat model <name>`: build the client, then its graph builder, then
     * empty the store. `llmError` is what building the client raised, if
     * anything, and `graphError` what building its graph builder raised; in
     * the second case the client has already been replaced.
     */
    method ChangeModel(name: string, llmError: Option<string>, graphError: Option<string>) returns (reply: string)
      requires Valid()
      modifies this, store
      ensures Valid() && config == old(config)
      ensures llmError.Some? ==> reply == "切换模型失败: " + llmError.value && llm == old(llm)
      ensures llmError.None? ==> llm == GetLlm(Some(name), old(llm).model)
      ensures llmError.None? && graphError.Some? ==> reply == "切换模型失败: " + graphError.value
      ensures llmError.None? && graphError.None? ==>
                reply == "已切换到模型: " + name && builder == Builder(llm) && store.sessions == map[] && store.order == []
      ensures llmError.Some? || graphError.Some? ==>
                builder == old(builder) && store.sessions == old(store.sessions) && store.order == old(store.order)
    {
      if llmError.Some? {
        return "切换模型失败: " + llmError.value;
      }
      llm := GetLlm(Some(name), llm.model);
      if graphError.Some? {
        return "切换模型失败: " + graphError.value;
      }
      builder := Builder(llm);
      store.Clear();
      reply := "已切换到模型: " + name;
    }

    /**
     * `chat model [name]` and `chat clear`, for the request
     * `ParseChatCommand` reads off the arguments, with the errors of
     * `ChangeModel`.
     */
    method ChatCommand(request: ChatRequest, llmError: Option<string>, graphError: Option<string>) returns (reply: string)
      requires Valid()
      modifies this, store
      ensures Valid() && config == old(config)
      ensures
        && (request == Usage ==> reply == ChatUsage)
        && (request == ShowModel ==> reply == "当前模型: " + old(llm).model)
        && (request == Unknown ==> reply == "无效的命令，请使用 'chat model <模型名字>' 或 'chat clear'.")
        && (request == ClearAll ==> reply == "已清理所有历史会话。" && store.sessions == map[] && store.order == [])
        && (!request.SwitchModel? ==> llm == old(llm) && builder == old(builder))
        && (request != ClearAll && !request.SwitchModel? ==>
              store.sessions == old(store.sessions) && store.order == old(store.order))
        && (request.SwitchModel? ==>
              && (llmError.Some? ==> reply == "切换模型失败: " + llmError.value && llm == old(llm))
              && (llmError.None? ==> llm == GetLlm(Some(request.name), old(llm).model))
              && (llmError.None? && graphError.Some? ==> reply == "切换模型失败: " + graphError.value)
              && (llmError.None? && graphError.None? ==>
                    reply == "已切换到模型: " + request.name && builder == Builder(llm)
                    && store.sessions == map[] && store.order == [])
              && (llmError.Some? || graphError.Some? ==>
                    builder == old(builder) && store.sessions == old(store.sessions) && store.order == old(store.order)))
    {
      match request {
        case Usage =>
          reply := ChatUsage;
        case ShowModel =>
          reply := "当前模型: " + llm.model;
        case SwitchModel(name) =>
          reply := ChangeModel(name, llmError, graphError);
        case ClearAll =>
          store.Clear();
          reply := "已清理所有历史会话。";
        case Unknown =>
          reply := "无效的命令，请使用 'chat model <模型名字>' 或 'chat clear'.";
      }
    }
  }
}
