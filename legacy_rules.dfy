/**
 * What the two older copies of the chat plugin (`plugins/llm-chat` and
 * `plugins/__init__.py`) have in common: their trigger check, their
 * per-user thread ids, their image-URL loop and the way a handler run ends.
 * Settings the handlers read with `hasattr` first, or that the settings
 * class may not declare, are `Option`s: `None` is an absent attribute.
 */
module LegacyRules {
  import opened Wrappers
  import opened Text
  import opened Segments
  import LlmChat

  /** The trigger settings `check_trigger` looks up on the plugin settings. */
  datatype TriggerSettings = TriggerSettings(
    commandStart: Option<seq<string>>,
    keywords: Option<seq<string>>,
    needAt: Option<bool>)

  /** The attribute exists and the list it holds is not empty. */
  predicate Listed(words: Option<seq<string>>) {
    words.Some? && words.value != []
  }

  /**
   * `check_trigger(event)` on the message's plain text: a leading command
   * word or a keyword anywhere answers at once; otherwise the message must
   * be addressed to the bot, and only when neither list is set up or
   * `need_at` holds. Reading `need_at` when it does not exist raises, and
   * that is the only way the check raises.
   */
  function CheckTrigger(t: TriggerSettings, msg: string, isTome: bool): (r: Result<bool, string>)
    ensures var prefixed := t.commandStart.Some? && exists i | 0 <= i < |t.commandStart.value| :: StartsWith(msg, t.commandStart.value[i]);
            var keyword := t.keywords.Some? && exists i | 0 <= i < |t.keywords.value| :: Contains(msg, t.keywords.value[i]);
            var fallback := (t.commandStart.None? && t.keywords.None?) || t.needAt == Some(true);
            && (r.Err? <==> !prefixed && !keyword && !(t.commandStart.None? && t.keywords.None?) && t.needAt.None?)
            && (r == Ok(true) <==> prefixed || keyword || (fallback && isTome))
    ensures t.commandStart.None? && t.keywords.None? ==> r == Ok(isTome)
  {
    if Listed(t.commandStart) && LlmChat.AnyPrefix(t.commandStart.value, msg) then Ok(true)
    else if Listed(t.keywords) && LlmChat.AnyIn(t.keywords.value, msg) then Ok(true)
    else if t.commandStart.None? && t.keywords.None? then Ok(isTome)
    else if t.needAt.None? then Err(LlmChat.MissingAttribute("need_at"))
    else Ok(t.needAt.value && isTome)
  }

  /** The older copies file every message under its sender: `group_{g}_{u}` or `private_{u}`. */
  function PerUserThreadId(source: LlmChat.Source): string {
    match source
    case Group(g, u) => "group_" + Decimal(g) + "_" + Decimal(u)
    case Private(u) => "private_" + Decimal(u)
  }

  /**
   * The per-user id is the current plugin's id with isolation on, so two
   * messages share a conversation exactly when they come from the same
   * sender in the same chat.
   */
  lemma PerUserThreadIdInjective(a: LlmChat.Source, b: LlmChat.Source)
    ensures PerUserThreadId(a) == LlmChat.ThreadId(a, true)
    ensures PerUserThreadId(a) == PerUserThreadId(b) <==> a == b
  {
    LlmChat.ThreadIdInjective(a, true, b, true);
  }

  /** How a handler run of the older copies ends: a message sent, nothing sent, or an exception. */
  datatype Outcome = Sent(text: string) | Silent | Raised(error: string)

  /** How far a message gets before the store is involved. */
  datatype Turn = Stop(out: Outcome) | Go(content: string)

  /** The older copies' image list: the message's own image URLs, then the quoted reply's. */
  method CollectImageUrls(message: seq<Segment>, reply: Option<seq<Segment>>) returns (urls: seq<string>)
    ensures urls == ImageUrls(message) + (if reply.Some? then ImageUrls(reply.value) else [])
  {
    urls := AppendImageUrls([], message);
    assert urls == ImageUrls(message);
    if reply.Some? {
      urls := AppendImageUrls(urls, reply.value);
    }
  }

  /** `for seg in segs: if seg.type == "image" and seg.data.get("url"): urls.append(seg.data["url"])` */
  method AppendImageUrls(start: seq<string>, segs: seq<Segment>) returns (urls: seq<string>)
    ensures urls == start + ImageUrls(segs)
  {
    urls := start;
    var i := 0;
    while i < |segs|
      invariant 0 <= i <= |segs|
      invariant urls == start + ImageUrls(segs[..i])
    {
      SingleImageUrls(segs, i);
      if IsImage(segs[i]) {
        urls := urls + [segs[i].url];
      }
      i := i + 1;
    }
    assert segs[..i] == segs;
  }

  /** One more segment adds its URL when it is an image with one, and nothing otherwise. */
  lemma SingleImageUrls(segs: seq<Segment>, i: nat)
    requires i < |segs|
    ensures ImageUrls(segs[..i + 1]) == ImageUrls(segs[..i]) + (if IsImage(segs[i]) then [segs[i].url] else [])
  {
    assert segs[..i + 1] == segs[..i] + [segs[i]];
    ImageUrlsAppend(segs[..i], [segs[i]]);
    assert [segs[i]][1..] == [];
  }

  /** `full_content += "\n图片：" + "\n".join(image_urls)` when there are URLs. */
  function WithImageList(content: string, urls: seq<string>): (r: string)
    ensures urls == [] ==> r == content
    ensures urls != [] ==> StartsWith(r, content) && |r| > |content|
  {
    if urls == [] then content else content + "\n图片：" + Join(urls, "\n")
  }
}
