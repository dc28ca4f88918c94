/**
 * The oldest copy of the chat plugin, `plugins/__init__.py`: the plain
 * text goes to the model as it is with the message's image URLs appended,
 * one conversation per sender, and a `chat model` command that only
 * replaces the client.
 */
module PluginsLegacy {
  import opened Wrappers
  import opened Text
  import opened Segments
  import opened Sessions
  import opened LegacyRules
  import LlmChat

  /** The plugin settings the handlers read; `maxMessagesPerSession` is read without checking that it exists. */
  datatype OldConfig = OldConfig(
    trigger: TriggerSettings,
    enableGroup: bool,
    enablePrivate: bool,
    maxSessions: nat,
    maxMessagesPerSession: Option<int>)

  /**
   * `handle_chat` up to the session lookup: say nothing in a disabled kind
   * of chat, otherwise send the plain text with the message's own image
   * URLs; there is no trigger-word removal and no empty-message answer.
   */
  function Intake(config: OldConfig, ev: LlmChat.Event): Turn {
    if ev.source.Group? && !config.enableGroup then Stop(Silent)
    else if ev.source.Private? && !config.enablePrivate then Stop(Silent)
    else Go(WithImageList(ev.plainText, ImageUrls(ev.message)))
  }

  /** The steps of `handle_chat` before the session lookup, in the handler's order. */
  method PrepareTurn(config: OldConfig, ev: LlmChat.Event) returns (t: Turn)
    ensures t == Intake(config, ev)
  {
    if ev.source.Group? && !config.enableGroup {
      return Stop(Silent);
    }
    if ev.source.Private? && !config.enablePrivate {
      return Stop(Silent);
    }
    var imageUrls := AppendImageUrls([], ev.message);
    assert imageUrls == ImageUrls(ev.message);
    var full := ev.plainText;
    if imageUrls != [] {
      full := full + "\n图片：" + Join(imageUrls, "\n");
    }
    t := Go(full);
  }

  /**
   * Every enabled message goes on, blank or not, and the text starts with
   * the plain text; the quoted reply's images are not collected.
   */
  lemma IntakeCases(config: OldConfig, ev: LlmChat.Event)
    ensures Intake(config, ev).Go? <==> (if ev.source.Group? then config.enableGroup else config.enablePrivate)
    ensures Intake(config, ev).Go? ==> StartsWith(Intake(config, ev).content, ev.plainText)
    ensures Intake(config, ev).Go? && ImageUrls(ev.message) == [] ==> Intake(config, ev).content == ev.plainText
    ensures ev.reply.Some? ==> Intake(config, ev) == Intake(config, ev.(reply := None))
  {
  }

  /** The text of the `ValueError` NoneBot's `Message.append` raises for an item it cannot take. */
  function UnexpectedType(described: string): string {
    "Unexpected type: " + described
  }

  /** Every item of the list is a string. */
  predicate AllText(items: seq<Block>) {
    forall i | 0 <= i < |items| :: items[i].TextItem?
  }

  /** The texts of the string items of a list. */
  function Texts(items: seq<Block>): (r: seq<string>)
    ensures |r| <= |items|
  {
    if items == [] then []
    else if items[0].TextItem? then [items[0].text] + Texts(items[1..])
    else Texts(items[1..])
  }

  /**
   * `Message(content)` on a list-valued content: the items are appended in
   * turn, a string as text, and the first item of any other type raises.
   */
  function MessageText(items: seq<Block>): (r: Result<string, string>)
    ensures r.Ok? <==> AllText(items)
  {
    if items == [] then Ok("")
    else
      match items[0]
      case OtherItem(d) => Err(UnexpectedType(d))
      case TextItem(t) =>
        match MessageText(items[1..])
        case Err(e) => Err(e)
        case Ok(rest) => Ok(t + rest)
  }

  /**
   * A list of strings is sent as the strings run together, in order (`""`
   * joined); otherwise the error names the first item that is not a string.
   */
  lemma {:induction false} MessageTextCases(items: seq<Block>)
    ensures MessageText(items).Ok? ==> MessageText(items).value == Join(Texts(items), "")
    ensures MessageText(items).Err? ==>
              exists i | 0 <= i < |items| :: && items[i].OtherItem?
                                             && (forall j | 0 <= j < i :: items[j].TextItem?)
                                             && MessageText(items).error == UnexpectedType(items[i].described)
  {
    if items != [] {
      MessageTextCases(items[1..]);
      if items[0].TextItem? && MessageText(items).Ok? {
        var rest := Texts(items[1..]);
        if rest != [] {
          assert Join([items[0].text] + rest, "") == items[0].text + "" + Join(rest, "");
        }
      }
      if items[0].TextItem? && MessageText(items).Err? {
        var i :| 0 <= i < |items[1..]| && items[1..][i].OtherItem? && (forall j | 0 <= j < i :: items[1..][j].TextItem?)
                 && MessageText(items[1..]).error == UnexpectedType(items[1..][i].described);
        assert forall j | 1 <= j < i + 1 :: items[j] == items[1..][j - 1];
      }
      if items[0].OtherItem? {
        assert 0 < |items|;
      }
    }
  }

  /**
   * `Message(result["messages"][-1].content if result["messages"] else ...)`:
   * a string is sent as it is, without stripping; a list goes through
   * `Message`, which raises on an item that is not a string.
   */
  function LastReply(msgs: seq<Message>): (r: Outcome)
    ensures msgs == [] ==> r == Sent("对不起，我现在无法回答。")
    ensures msgs != [] && msgs[|msgs| - 1].content.Str? ==> r == Sent(msgs[|msgs| - 1].content.text)
    ensures msgs != [] && msgs[|msgs| - 1].content.Blocks? ==>
              (r.Raised? <==> !AllText(msgs[|msgs| - 1].content.items))
  {
    if msgs == [] then Sent("对不起，我现在无法回答。")
    else
      match msgs[|msgs| - 1].content
      case Str(t) => Sent(t)
      case Blocks(items, _) =>
        match MessageText(items)
        case Ok(t) => Sent(t)
        case Err(e) => Raised(e)
  }

  /** What the handler ends with once the graph has run or raised: nothing here catches. */
  function Response(invoke: Result<seq<Message>, string>): Outcome {
    match invoke
    case Err(e) => Raised(e)
    case Ok(msgs) => LastReply(msgs)
  }

  /** The running plugin: its settings, its client, the one graph builder and the conversation store. */
  class Plugin {
    const config: OldConfig
    var llm: Llm
    /** `llm_with_tools`: the client with the tools bound, which the chat node calls when it runs. */
    var bound: Llm
    /** The module's `graph_builder`, built once at import. */
    const builder: Builder
    const store: SessionStore

    /** The conversation store is consistent. */
    ghost predicate Valid()
      reads this, store, store.sessions.Values
    {
      store.Valid()
    }

    /** Import time: an OpenAI client for the configured model and no sessions. */
    constructor (config: OldConfig, model: string)
      ensures Valid() && fresh(store)
      ensures this.config == config && llm == Llm(OpenAI, model) && bound == llm && builder == Builder(llm)
      ensures store.sessions == map[] && store.order == []
    {
      this.config := config;
      llm := Llm(OpenAI, model);
      bound := Llm(OpenAI, model);
      builder := Builder(Llm(OpenAI, model));
      store := new SessionStore();
    }

    /**
     * The session part of `handle_chat`: admit the thread, trim its
     * message list, then compile its graph when it has none. Reading a
     * missing `max_messages_per_session` raises after the thread is
     * admitted, before its session is trimmed or compiled.
     * `AdmissionFits` and `ReadyFits` spell out what the entries then are.
     */
    method Converse(tid: string) returns (err: Option<string>)
      requires Valid()
      modifies store, if tid in store.sessions then {store.sessions[tid]} else {}
      ensures Valid() && store.clock == old(store.clock) && tid in store.sessions
      ensures err.Some? <==> config.maxMessagesPerSession.None?
      ensures err.Some? ==> err.value == LlmChat.MissingAttribute("max_messages_per_session")
      ensures var admitted := AdmittedEntries(tid, config.maxSessions, store.clock, old(store.Entries()), old(store.order),
                                              store.sessions[tid]);
              store.Entries() == if err.Some? then admitted else ReadyIn(admitted, tid, builder, config.maxMessagesPerSession)
      ensures store.order == AdmittedOrder(tid, config.maxSessions, old(store.Entries()), old(store.order))
      ensures tid !in old(store.Entries()) - Evicted(config.maxSessions, old(store.Entries()), old(store.order)) ==>
                fresh(store.sessions[tid])
    {
      // The setting is read after admission; reading it changes nothing,
      // so it is looked at first here and each branch does its store work in one call.
      if config.maxMessagesPerSession.None? {
        var s := store.Admit(tid, config.maxSessions);
        return Some(LlmChat.MissingAttribute("max_messages_per_session"));
      }
      store.AdmitPrepared(tid, config.maxSessions, builder, config.maxMessagesPerSession);
      err := None;
    }

    /**
     * `handle_chat` for a message the trigger check let through; `invoke`
     * is what `graph.invoke` returned or raised for the text given back in
     * `sent`. A message from a disabled kind of chat leaves the store and
     * every session as they were.
     */
    method HandleChat(ev: LlmChat.Event, invoke: Result<seq<Message>, string>)
      returns (out: Outcome, sent: Option<string>)
      requires Valid()
      modifies store, if PerUserThreadId(ev.source) in store.sessions then {store.sessions[PerUserThreadId(ev.source)]} else {}
      ensures Valid()
      ensures Intake(config, ev).Stop? ==>
                && out == Silent && sent == None
                && unchanged(store) && store.Entries() == old(store.Entries())
      ensures var tid := PerUserThreadId(ev.source);
              Intake(config, ev).Go? ==>
                && store.clock == old(store.clock) && tid in store.sessions
                && store.order == AdmittedOrder(tid, config.maxSessions, old(store.Entries()), old(store.order))
                && (tid !in old(store.Entries()) - Evicted(config.maxSessions, old(store.Entries()), old(store.order)) ==>
                      fresh(store.sessions[tid]))
                && var admitted := AdmittedEntries(tid, config.maxSessions, store.clock, old(store.Entries()), old(store.order),
                                                   store.sessions[tid]);
                && (config.maxMessagesPerSession.None? ==>
                      && out == Raised(LlmChat.MissingAttribute("max_messages_per_session")) && sent == None
                      && store.Entries() == admitted)
                && (config.maxMessagesPerSession.Some? ==>
                      && sent == Some(Intake(config, ev).content)
                      && out == Response(invoke)
                      && store.Entries() == ReadyIn(admitted, tid, builder, config.maxMessagesPerSession))
    {
      var turn := PrepareTurn(config, ev);
      if turn.Stop? {
        return turn.out, None;
      }
      var err := Converse(PerUserThreadId(ev.source));
      if err.Some? {
        return Raised(err.value), None;
      }
      sent := Some(turn.content);
      out := Response(invoke);
    }

    /**
     * `chat model <name>`: an OpenAI client for the named model. Building
     * it may raise `llmError`; binding the tools to it may raise
     * `bindError`, with the client already replaced but the bound client the
     * chat node calls still the old one. The conversation store is never
     * touched.
     */
    method ChangeModel(args: string, llmError: Option<string>, bindError: Option<string>) returns (reply: string)
      requires Valid()
      modifies this
      ensures Valid()
      ensures unchanged(store) && store.Entries() == old(store.Entries())
      ensures var name := Strip(args);
        && (name == [] ==> reply == "请指定要切换的模型名称" && llm == old(llm) && bound == old(bound))
        && (name != [] && llmError.Some? ==> reply == "切换模型失败: " + llmError.value && llm == old(llm) && bound == old(bound))
        && (name != [] && llmError.None? ==> llm == Llm(OpenAI, name))
        && (name != [] && llmError.None? ==> bound == if bindError.None? then llm else old(bound))
        && (name != [] && llmError.None? && bindError.Some? ==> reply == "切换模型失败: " + bindError.value)
        && (name != [] && llmError.None? && bindError.None? ==> reply == "已切换到模型: " + name)
    {
      var name := Strip(args);
      if name == [] {
        reply := "请指定要切换的模型名称";
      } else if llmError.Some? {
        reply := "切换模型失败: " + llmError.value;
      } else {
        llm := Llm(OpenAI, name);
        if bindError.None? {
          bound := llm;
        }
        reply := if bindError.Some? then "切换模型失败: " + bindError.value else "已切换到模型: " + name;
      }
      EntriesStay(store.sessions);
    }
  }
}
