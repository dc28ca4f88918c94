/**
 * The older copy of the chat plugin in `plugins/llm-chat`: trigger words
 * and keywords both removed from the message, one conversation per sender,
 * a message-list trim before each run, and a `chat model` command that
 * picks the client from the model name.
 */
module LlmChatLegacy {
  import opened Wrappers
  import opened Text
  import opened Segments
  import opened Sessions
  import opened LegacyRules
  import LlmChat

  /**
   * The plugin settings the handlers read. `maxMessagesPerSession` is the
   * setting `cleanup_old_messages` reads without checking that it exists;
   * `emptyMessageReplies` is `None` when the settings object has no such
   * attribute.
   */
  datatype LegacyConfig = LegacyConfig(
    trigger: TriggerSettings,
    enableGroup: bool,
    enablePrivate: bool,
    maxSessions: nat,
    maxMessagesPerSession: Option<int>,
    emptyMessageReplies: Option<seq<string>>)

  /**
   * The `llm` section of the settings as `get_llm` and the switch use it.
   * `provider` is `None` when the settings class declares no such field,
   * as `LLMConfig` in plugins/llm-chat/config.py does not.
   */
  datatype LlmSettings = LlmSettings(provider: Option<string>, model: string)

  // ---------------------------------------------------------------------------
  // Cleaning the message

  /**
   * What `remove_trigger_words` computes: `@` segments deleted, then at most
   * one leading command word, then every keyword, each step stripping. The
   * first two steps are the current copy's cleaning; a missing command list
   * removes no word, as an empty one does there.
   */
  function CleanedText(message: seq<Segment>, commandStart: Option<seq<string>>, keywords: Option<seq<string>>): string {
    var prefixRemoved := LlmChat.CleanedText(message, if commandStart.Some? then commandStart.value else []);
    if keywords.Some? then RemoveKeywords(prefixRemoved, keywords.value) else prefixRemoved
  }

  /** `remove_trigger_words(text, message)`; as in the current copy, `text` is not used. */
  method RemoveTriggerWords(text: string, message: seq<Segment>, commandStart: Option<seq<string>>, keywords: Option<seq<string>>)
    returns (r: string)
    ensures r == CleanedText(message, commandStart, keywords)
  {
    r := Strip(Render(message));
    r := RemoveAtSegments(r, message);
    if commandStart.Some? {
      r := RemoveLeadingWord(r, commandStart.value);
    }
    if keywords.Some? {
      r := RemoveKeywordsLoop(r, keywords.value);
    }
  }

  /** The cleaned text is stripped, no longer than the message, and blank only when empty. */
  lemma CleanedTextShape(message: seq<Segment>, commandStart: Option<seq<string>>, keywords: Option<seq<string>>)
    ensures IsStripped(CleanedText(message, commandStart, keywords))
    ensures |CleanedText(message, commandStart, keywords)| <= |Render(message)|
    ensures IsBlank(CleanedText(message, commandStart, keywords)) <==> CleanedText(message, commandStart, keywords) == []
  {
    var t := StripAts(Strip(Render(message)), message);
    StripAtsShape(Strip(Render(message)), message);
    var u := if commandStart.Some? then DropLeadingWord(t, commandStart.value) else t;
    if commandStart.Some? {
      DropLeadingWordStripped(t, commandStart.value);
      LlmChat.DropLeadingWordShrinks(t, commandStart.value);
    }
    if keywords.Some? {
      RemoveKeywordsShape(u, keywords.value);
    }
    var c := CleanedText(message, commandStart, keywords);
    StripEmptyIffBlank(c);
    StrippedIsFixpoint(c);
  }

  /**
   * Without keywords the older copy cleans a message as the current one
   * does with the command words as trigger words, and keywords that do not
   * occur in that text change nothing.
   */
  lemma CleanedTextAgrees(message: seq<Segment>, commandStart: Option<seq<string>>, keywords: Option<seq<string>>)
    ensures var current := LlmChat.CleanedText(message, if commandStart.Some? then commandStart.value else []);
            && (keywords.None? ==> CleanedText(message, commandStart, keywords) == current)
            && (keywords.Some? && (forall i | 0 <= i < |keywords.value| :: keywords.value[i] == [] || !Contains(current, keywords.value[i]))
                ==> CleanedText(message, commandStart, keywords) == current)
  {
    var current := LlmChat.CleanedText(message, if commandStart.Some? then commandStart.value else []);
    LlmChat.CleanedTextShape(message, if commandStart.Some? then commandStart.value else []);
    if keywords.Some? && (forall i | 0 <= i < |keywords.value| :: keywords.value[i] == [] || !Contains(current, keywords.value[i])) {
      RemoveAbsentKeywords(current, keywords.value);
    }
  }

  // ---------------------------------------------------------------------------
  // A message up to the session lookup

  /** The canned answer to an empty message: the fixed question, or `random.choice` among the configured replies. */
  function EmptyReply(replies: Option<seq<string>>, pick: nat): (r: Outcome)
    ensures replies.None? ==> r == Sent("您想说什么呢?")
    ensures replies == Some([]) ==> r == Raised("Cannot choose from an empty sequence")
    ensures replies.Some? && replies.value != [] ==> r.Sent? && r.text in replies.value
  {
    match replies
    case None => Sent("您想说什么呢?")
    case Some(rs) => if rs == [] then Raised("Cannot choose from an empty sequence") else Sent(rs[pick % |rs|])
  }

  /**
   * `handle_chat` up to the session lookup: say nothing in a disabled kind
   * of chat, answer an empty message, or build the text for the model from
   * the cleaned message and the image URLs.
   */
  function Intake(config: LegacyConfig, ev: LlmChat.Event, pick: nat): Turn {
    Gate(config, ev.source, CleanedText(ev.message, config.trigger.commandStart, config.trigger.keywords),
         LlmChat.EventImageUrls(ev), pick)
  }

  /** The tests `handle_chat` makes on the cleaned text `full` and the image URLs. */
  function Gate(config: LegacyConfig, source: LlmChat.Source, full: string, urls: seq<string>, pick: nat): Turn {
    if source.Group? && !config.enableGroup then Stop(Silent)
    else if source.Private? && !config.enablePrivate then Stop(Silent)
    else if Strip(full) == [] then Stop(EmptyReply(config.emptyMessageReplies, pick))
    else Go(WithImageList(full, urls))
  }

  /** The steps of `handle_chat` before the session lookup, in the handler's order. */
  method PrepareTurn(config: LegacyConfig, ev: LlmChat.Event, pick: nat) returns (t: Turn)
    ensures t == Intake(config, ev, pick)
  {
    if ev.source.Group? && !config.enableGroup {
      return Stop(Silent);
    }
    if ev.source.Private? && !config.enablePrivate {
      return Stop(Silent);
    }
    var imageUrls := CollectImageUrls(ev.message, ev.reply);
    var full := RemoveTriggerWords(ev.plainText, ev.message, config.trigger.commandStart, config.trigger.keywords);
    if Strip(full) == [] {
      return Stop(EmptyReply(config.emptyMessageReplies, pick));
    }
    if imageUrls != [] {
      full := full + "\n图片：" + Join(imageUrls, "\n");
    }
    t := Go(full);
  }

  /**
   * A message goes on exactly when its kind of chat is enabled and
   * something is left after cleaning, and then the text starts with the
   * cleaned message; a disabled chat gets no answer at all.
   */
  lemma IntakeCases(config: LegacyConfig, ev: LlmChat.Event, pick: nat)
    ensures var full := CleanedText(ev.message, config.trigger.commandStart, config.trigger.keywords);
            && (Intake(config, ev, pick).Go? <==> Enabled(config, ev.source) && full != [])
            && (!Enabled(config, ev.source) ==> Intake(config, ev, pick) == Stop(Silent))
            && (Intake(config, ev, pick).Go? ==> StartsWith(Intake(config, ev, pick).content, full))
            && (Intake(config, ev, pick).Go? && LlmChat.EventImageUrls(ev) == [] ==> Intake(config, ev, pick).content == full)
  {
    var full := CleanedText(ev.message, config.trigger.commandStart, config.trigger.keywords);
    CleanedTextFixed(ev.message, config.trigger.commandStart, config.trigger.keywords);
    GateCases(config, ev.source, full, LlmChat.EventImageUrls(ev), pick);
  }

  /** `Gate` on a stripped text: the conclusions of `IntakeCases` for any such text. */
  lemma GateCases(config: LegacyConfig, source: LlmChat.Source, full: string, urls: seq<string>, pick: nat)
    requires Strip(full) == full
    ensures Gate(config, source, full, urls, pick).Go? <==> Enabled(config, source) && full != []
    ensures !Enabled(config, source) ==> Gate(config, source, full, urls, pick) == Stop(Silent)
    ensures Gate(config, source, full, urls, pick).Go? ==> StartsWith(Gate(config, source, full, urls, pick).content, full)
    ensures Gate(config, source, full, urls, pick).Go? && urls == [] ==> Gate(config, source, full, urls, pick).content == full
  {
  }

  /** Stripping the cleaned text again changes nothing. */
  lemma CleanedTextFixed(message: seq<Segment>, commandStart: Option<seq<string>>, keywords: Option<seq<string>>)
    ensures Strip(CleanedText(message, commandStart, keywords)) == CleanedText(message, commandStart, keywords)
  {
    CleanedTextShape(message, commandStart, keywords);
    StrippedIsFixpoint(CleanedText(message, commandStart, keywords));
  }

  /** The plugin is enabled for this kind of chat. */
  predicate Enabled(config: LegacyConfig, source: LlmChat.Source) {
    if source.Group? then config.enableGroup else config.enablePrivate
  }

  // ---------------------------------------------------------------------------
  // The reply

  const CannotAnswer := "对不起，我现在无法回答。"

  /**
   * `result["messages"][-1].content.strip() if result["messages"] else ...`;
   * `strip` on a list of content blocks raises.
   */
  function LastReply(msgs: seq<Message>): (r: Outcome)
    ensures msgs == [] ==> r == Sent(CannotAnswer)
    ensures msgs != [] ==> (r.Raised? <==> msgs[|msgs| - 1].content.Blocks?)
    ensures msgs != [] && msgs[|msgs| - 1].content.Str? ==> r == Sent(Strip(msgs[|msgs| - 1].content.text))
    ensures r.Sent? ==> IsStripped(r.text)
  {
    if msgs == [] then (StripIsStripped(CannotAnswer); Sent(CannotAnswer))
    else
      match msgs[|msgs| - 1].content
      case Str(t) => StripIsStripped(t); Sent(Strip(t))
      case Blocks(_, _) => Raised(LlmChat.ListHasNoStrip)
  }

  /** The stripped text is stripped. */
  lemma StripIsStripped(t: string)
    ensures IsStripped(Strip(t))
  {
    StripIdempotent(t);
  }

  /** What the handler ends with once the graph has run or raised: nothing here catches. */
  function Response(invoke: Result<seq<Message>, string>): Outcome {
    match invoke
    case Err(e) => Raised(e)
    case Ok(msgs) => LastReply(msgs)
  }

  // ---------------------------------------------------------------------------
  // The model switch

  /** The `AttributeError` text for reading the undeclared `provider`. */
  const NoProviderAttribute := "'LLMConfig' object has no attribute 'provider'"

  /** The `ValueError` text pydantic raises for assigning the undeclared `provider`. */
  const NoProviderField := "\"LLMConfig\" object has no field \"provider\""

  /**
   * `get_llm()` on the settings `s`: reading a missing `provider` raises;
   * otherwise a Google client when it says `google`, else an OpenAI one,
   * for the configured model.
   */
  function GetLlm(s: LlmSettings): (r: Result<Llm, string>)
    ensures r.Err? <==> s.provider.None?
    ensures r.Err? ==> r.error == NoProviderAttribute
    ensures r.Ok? ==> r.value.model == s.model && (r.value.provider == Google <==> s.provider.value == "google")
  {
    match s.provider
    case None => Err(NoProviderAttribute)
    case Some(p) => Ok(Llm(if p == "google" then Google else OpenAI, s.model))
  }

  /** The settings `handle_change_model` writes before building the client, when `provider` is a field. */
  function SettingsFor(name: string): LlmSettings {
    LlmSettings(Some(if Contains(Lower(name), "gemini") then "google" else "openai"), name)
  }

  /**
   * What one `chat model <name>` leaves: the reply, the plugin's settings,
   * the client it bound (`None` when it kept the old one), and whether it
   * rebuilt the graph builder and emptied the store.
   */
  datatype Switch = Switch(reply: string, settings: LlmSettings, llm: Option<Llm>, rebuilt: bool)

  /**
   * The switch as written, for a non-empty name, against the plugin's
   * settings `settings` and the settings `graphSettings` that `graph.py`
   * loaded for itself. The `provider` write raises when the field is not
   * declared. Otherwise `get_llm()` reads `graphSettings`, which the switch
   * never writes. `llmError` is what building the client raised, if
   * anything, and `graphError` what building its graph builder raised.
   */
  function SwitchAsWritten(settings: LlmSettings, graphSettings: LlmSettings, name: string,
                           llmError: Option<string>, graphError: Option<string>): (r: Switch)
    ensures settings.provider.None? ==> r == Switch("切换模型失败: " + NoProviderField, settings, None, false)
    ensures settings.provider.Some? ==> r.settings == SettingsFor(name)
    ensures r.llm.Some? ==> Ok(r.llm.value) == GetLlm(graphSettings)
    ensures r.rebuilt <==> settings.provider.Some? && llmError.None? && graphSettings.provider.Some? && graphError.None?
  {
    if settings.provider.None? then Switch("切换模型失败: " + NoProviderField, settings, None, false)
    else
      var written := SettingsFor(name);
      var client := if llmError.Some? then Err(llmError.value) else GetLlm(graphSettings);
      match client
      case Err(e) => Switch("切换模型失败: " + e, written, None, false)
      case Ok(l) =>
        if graphError.Some? then Switch("切换模型失败: " + graphError.value, written, Some(l), false)
        else Switch("已切换到模型: " + name, written, Some(l), true)
  }

  /**
   * The switch as meant: `provider` is a field of the settings, and
   * `get_llm()` reads the settings the switch has just written.
   */
  function Switched(name: string, llmError: Option<string>, graphError: Option<string>): (r: Switch)
    ensures r.settings == SettingsFor(name)
    ensures r.llm.Some? <==> llmError.None?
    ensures r.llm.Some? ==> r.llm.value == SwitchedLlm(name)
    ensures r.rebuilt <==> llmError.None? && graphError.None?
    ensures r.rebuilt ==> r.reply == "已切换到模型: " + name
  {
    if llmError.Some? then Switch("切换模型失败: " + llmError.value, SettingsFor(name), None, false)
    else if graphError.Some? then Switch("切换模型失败: " + graphError.value, SettingsFor(name), Some(SwitchedLlm(name)), false)
    else Switch("已切换到模型: " + name, SettingsFor(name), Some(SwitchedLlm(name)), true)
  }

  /**
   * With the settings class as written, the import-time `get_llm()`
   * already raises, and every switch fails on the `provider` write and
   * changes nothing, even where the switch as meant goes through.
   */
  lemma SwitchFailsAsWritten(settings: LlmSettings, graphSettings: LlmSettings, name: string,
                             llmError: Option<string>, graphError: Option<string>)
    requires settings.provider.None? && graphSettings.provider.None?
    ensures GetLlm(graphSettings) == Err(NoProviderAttribute)
    ensures var r := SwitchAsWritten(settings, graphSettings, name, llmError, graphError);
            && r.reply == "切换模型失败: " + NoProviderField
            && r.settings == settings && r.llm.None? && !r.rebuilt
            && (llmError.None? && graphError.None? ==> Switched(name, llmError, graphError).rebuilt)
  {
  }

  /**
   * With `provider` declared in both settings objects, the switch as
   * written replies, writes the settings and rebuilds exactly as meant;
   * only the client differs: it is the one for `graph.py`'s own settings,
   * whatever the name, and so not the named model's unless that was
   * already the startup model.
   */
  lemma {:induction false} SwitchIgnoresName(settings: LlmSettings, graphSettings: LlmSettings, name: string,
                                            llmError: Option<string>, graphError: Option<string>)
    requires settings.provider.Some? && graphSettings.provider.Some?
    ensures var w, c := SwitchAsWritten(settings, graphSettings, name, llmError, graphError), Switched(name, llmError, graphError);
            && w.reply == c.reply && w.settings == c.settings && w.rebuilt == c.rebuilt
            && w.llm.Some? == c.llm.Some?
            && (w.llm.Some? ==> w.llm.value == GetLlm(graphSettings).value && c.llm.value == SwitchedLlm(name))
            && (w.llm.Some? && graphSettings.model != name ==> w.llm != c.llm)
  {
  }

  /**
   * The client the switch is meant to build: for the named model, from
   * Google exactly when the name contains "gemini" in any letter case.
   */
  function SwitchedLlm(name: string): (r: Llm)
    ensures r.model == name
    ensures r.provider == Google <==> Contains(Lower(name), "gemini")
  {
    GetLlm(SettingsFor(name)).value
  }

  // ---------------------------------------------------------------------------
  // The running plugin

  /**
   * The running plugin: its settings, its client and graph builder, and its
   * conversation store. It follows the switch as meant (`Switched`), with
   * `provider` a declared setting.
   */
  class Plugin {
    const config: LegacyConfig
    /** `plugin_config.llm` as the switch writes it. */
    var settings: LlmSettings
    var llm: Llm
    var builder: Builder
    const store: SessionStore

    /** The conversation store is consistent. */
    ghost predicate Valid()
      reads this, store, store.sessions.Values
    {
      store.Valid()
    }

    /**
     * Import time: the client from the settings, its graph builder and no
     * sessions. The import only gets this far when the settings have a
     * `provider` (`GetLlm`).
     */
    constructor (config: LegacyConfig, settings: LlmSettings)
      requires settings.provider.Some?
      ensures Valid() && fresh(store)
      ensures this.config == config && this.settings == settings && Ok(llm) == GetLlm(settings) && builder == Builder(llm)
      ensures store.sessions == map[] && store.order == []
    {
      this.config := config;
      this.settings := settings;
      llm := GetLlm(settings).value;
      builder := Builder(GetLlm(settings).value);
      store := new SessionStore();
    }

    /**
     * The session part of `handle_chat`: admit the thread, trim its
     * message list, then compile its graph when it has none. Reading a
     * missing `max_messages_per_session` raises after the thread is
     * admitted, before its session is trimmed or compiled. `AdmissionFits`
     * and `ReadyFits` spell out what the entries then are.
     */
    method Converse(tid: string) returns (err: Option<string>)
      requires Valid()
      modifies store, if tid in store.sessions then {store.sessions[tid]} else {}
      ensures Valid() && store.clock == old(store.clock) && tid in store.sessions
      ensures err.Some? <==> config.maxMessagesPerSession.None?
      ensures err.Some? ==> err.value == LlmChat.MissingAttribute("max_messages_per_session")
      ensures var admitted := AdmittedEntries(tid, config.maxSessions, store.clock, old(store.Entries()), old(store.order),
                                              store.sessions[tid]);
              store.Entries() == if err.Some? then admitted else ReadyIn(admitted, tid, old(builder), config.maxMessagesPerSession)
      ensures store.order == AdmittedOrder(tid, config.maxSessions, old(store.Entries()), old(store.order))
      ensures tid !in old(store.Entries()) - Evicted(config.maxSessions, old(store.Entries()), old(store.order)) ==>
                fresh(store.sessions[tid])
    {
      // The setting is read after admission; reading it changes nothing,
      // so it is looked at first here and each branch does its store work in one call.
      if config.maxMessagesPerSession.None? {
        var s := store.Admit(tid, config.maxSessions);
        return Some(LlmChat.MissingAttribute("max_messages_per_session"));
      }
      store.AdmitPrepared(tid, config.maxSessions, builder, config.maxMessagesPerSession);
      err := None;
    }

    /**
     * `handle_chat` for a message the trigger check let through. `pick`
     * stands for `random.choice`, and `invoke` is what `graph.invoke`
     * returned or raised for the text given back in `sent`. A message that
     * stops at intake leaves the store and every session as they were.
     */
    method HandleChat(ev: LlmChat.Event, pick: nat, invoke: Result<seq<Message>, string>)
      returns (out: Outcome, sent: Option<string>)
      requires Valid()
      modifies store, if PerUserThreadId(ev.source) in store.sessions then {store.sessions[PerUserThreadId(ev.source)]} else {}
      ensures Valid()
      ensures var turn := Intake(config, ev, pick);
              turn.Stop? ==>
                && out == turn.out && sent == None
                && unchanged(store) && store.Entries() == old(store.Entries())
      ensures var turn := Intake(config, ev, pick);
              var tid := PerUserThreadId(ev.source);
              turn.Go? ==>
                && store.clock == old(store.clock) && tid in store.sessions
                && store.order == AdmittedOrder(tid, config.maxSessions, old(store.Entries()), old(store.order))
                && (tid !in old(store.Entries()) - Evicted(config.maxSessions, old(store.Entries()), old(store.order)) ==>
                      fresh(store.sessions[tid]))
                && var admitted := AdmittedEntries(tid, config.maxSessions, store.clock, old(store.Entries()), old(store.order),
                                                   store.sessions[tid]);
                && (config.maxMessagesPerSession.None? ==>
                      && out == Raised(LlmChat.MissingAttribute("max_messages_per_session")) && sent == None
                      && store.Entries() == admitted)
                && (config.maxMessagesPerSession.Some? ==>
                      && sent == Some(turn.content)
                      && out == Response(invoke)
                      && store.Entries() == ReadyIn(admitted, tid, old(builder), config.maxMessagesPerSession))
    {
      var turn := PrepareTurn(config, ev, pick);
      if turn.Stop? {
        return turn.out, None;
      }
      out, sent := Answer(PerUserThreadId(ev.source), turn.content, invoke);
    }

    /**
     * The rest of `handle_chat` for a message that goes on: the session
     * work under thread `tid`, then `content` sent to the graph and the
     * reply read off its result.
     */
    method Answer(tid: string, content: string, invoke: Result<seq<Message>, string>)
      returns (out: Outcome, sent: Option<string>)
      requires Valid()
      modifies store, if tid in store.sessions then {store.sessions[tid]} else {}
      ensures Valid() && store.clock == old(store.clock) && tid in store.sessions
      ensures store.order == AdmittedOrder(tid, config.maxSessions, old(store.Entries()), old(store.order))
      ensures tid !in old(store.Entries()) - Evicted(config.maxSessions, old(store.Entries()), old(store.order)) ==>
                fresh(store.sessions[tid])
      ensures var admitted := AdmittedEntries(tid, config.maxSessions, store.clock, old(store.Entries()), old(store.order),
                                              store.sessions[tid]);
              && (config.maxMessagesPerSession.None? ==>
                    && out == Raised(LlmChat.MissingAttribute("max_messages_per_session")) && sent == None
                    && store.Entries() == admitted)
              && (config.maxMessagesPerSession.Some? ==>
                    && sent == Some(content) && out == Response(invoke)
                    && store.Entries() == ReadyIn(admitted, tid, old(builder), config.maxMessagesPerSession))
    {
      var err := Converse(tid);
      if err.Some? {
        return Raised(err.value), None;
      }
      sent := Some(content);
      out := Response(invoke);
    }

    /**
     * `chat model [name]`. With no name it reports the current model and
     * changes nothing; otherwise it switches as `SwitchTo` does.
     */
    method ChangeModel(args: string, llmError: Option<string>, graphError: Option<string>) returns (reply: string)
      requires Valid()
      modifies this, store
      ensures Valid()
      ensures var name := Strip(args);
        && (name == [] ==>
              && reply == "当前模型: " + old(llm).model
              && settings == old(settings) && llm == old(llm) && builder == old(builder)
              && store.sessions == old(store.sessions) && store.order == old(store.order))
        && (name != [] ==>
              var r := Switched(name, llmError, graphError);
              && reply == r.reply && settings == r.settings
              && llm == (if r.llm.Some? then r.llm.value else old(llm))
              && (r.rebuilt ==> builder == Builder(llm) && store.sessions == map[] && store.order == [])
              && (!r.rebuilt ==> builder == old(builder) && store.sessions == old(store.sessions) && store.order == old(store.order)))
    {
      var name := Strip(args);
      if name == [] {
        return "当前模型: " + llm.model;
      }
      reply := SwitchTo(name, llmError, graphError);
    }

    /**
     * The part of `chat model <name>` after the name is known to be there:
     * write the settings, build the client, then its graph builder, then
     * empty the store, stopping at the first error.
     */
    method SwitchTo(name: string, llmError: Option<string>, graphError: Option<string>) returns (reply: string)
      requires Valid() && name != []
      modifies this, store
      ensures Valid()
      ensures var r := Switched(name, llmError, graphError);
              && reply == r.reply && settings == r.settings
              && llm == (if r.llm.Some? then r.llm.value else old(llm))
              && (r.rebuilt ==> builder == Builder(llm) && store.sessions == map[] && store.order == [])
              && (!r.rebuilt ==> builder == old(builder) && store.sessions == old(store.sessions) && store.order == old(store.order))
    {
      settings := SettingsFor(name);
      if llmError.Some? {
        return "切换模型失败: " + llmError.value;
      }
      llm := SwitchedLlm(name);
      if graphError.Some? {
        return "切换模型失败: " + graphError.value;
      }
      builder := Builder(llm);
      store.Clear();
      reply := "已切换到模型: " + name;
    }
  }
}
