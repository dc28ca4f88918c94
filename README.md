# A verified model of the QQ chat bot's core

The bot is a NoneBot plugin that passes QQ messages to a LangGraph agent.
It also has a set of LangChain tools. This project models, in Dafny, the
parts of the bot that have logic of their own:

- **The conversation store** (`Sessions`). This is the process-wide dict
  from thread id to `Session`. It covers get-or-create with a fresh
  `last_accessed` stamp, the capacity cleanup that keeps the
  `max_sessions` most recently used entries, trimming of a session's message
  list, and the administrative removals. The store is a class holding the
  dict as a `map`, its insertion order as a `seq`, and a clock that stands in
  for `datetime.now()`.
- **The current chat plugin** (`LlmChat`, `plugins/llm_chat`). This covers:
  - the trigger rule and the text cleaning (`@` segments, then one leading
    trigger word);
  - thread-id derivation and the empty-message short cut;
  - the handler's run against the store, and reading the reply off the last
    message;
  - splitting an image link out of the reply (`ImageLink`);
  - the `chat group` isolation toggle, and `chat model` and `chat clear`.
- **The two older copies of the plugin.** These are `plugins/llm-chat`
  (`LlmChatLegacy`) and `plugins/__init__.py` (`PluginsLegacy`). What they
  share is in `LegacyRules`: the `check_trigger` rule, per-user thread ids,
  and the image-list loop.
- **The code runner tool** (`CodeRunner`, `tools/code_runner.py`). This
  covers:
  - language-name normalisation, name and version matching, and the query
    regex;
  - candidate collection over a language table;
  - the source rewrite, and the Base64 payload (RFC 4648, section 4; `Base64`;
    text is UTF-8 encoded by `Utf8`);
  - decoding and reshaping of the judge's answer, and the request it sends.
- **The memos tool** (`Memos`, `tools/memos_manage.py`). This covers
  headers, operation dispatch and its errors, and splitting the note text and
  the comma lists. For search, it covers keyword filtering and
  highlighting, and deduplication by name with a limit. It also covers the
  per-id delete results.
- **The three Jina tools** (`Jina`). Each splits the answer into lines,
  keeps the lines whose stripped length reaches `min_length`, takes the first
  `top_n`, joins them with newlines, and maps request errors to fixed
  replies.

`Text` models the Python `str` operations the code relies on: `strip`, `in`,
`startswith`, `replace`, `split`, `join`, `lower` and decimal rendering.
`Seqs` models list slicing with Python's negative and clamped bounds, and
the filtering that `del` in a loop amounts to. `Segments` models OneBot
message segments and the text-rewriting loops.

Effects are parameters. HTTP answers are oracle functions from the request
to the response. The graph run is a given result. The user name and the
random pick are inputs. The clock is the store's `clock` field, advanced by
`Tick`; it never goes back (see "## Left out").

## Model

| member | source | states |
|---|---|---|
| Sessions.TrimmedCases | plugins/llm-chat/__init__.py:62-67 | A list over a positive limit keeps exactly its last `max` messages, in order. A list within the limit, or any list under a zero limit (`[-0:]`), is kept whole. A negative limit drops the first `-max` messages. The result is never longer. |
| Sessions.Session.constructor | plugins/llm_chat/__init__.py:42-48 | A new session has its own thread id, the current stamp, no graph and no message list. |
| Sessions.Session.CleanupOldMessages | plugins/llm-chat/__init__.py:62-67 | A present message list becomes its trimmed form. An absent one stays absent. The stamp and the graph are unchanged. |
| Sessions.InsertByRecency | plugins/llm_chat/__init__.py:70-74 | The insertion step of the stable sort: one longer, exactly the old entries plus the new key. |
| Sessions.InsertKeepsNewestFirst | plugins/llm_chat/__init__.py:70-74 | Inserting keeps a newest-first list newest first. |
| Sessions.RankByRecency | plugins/llm_chat/__init__.py:70-74 | `sorted(..., key=last_accessed, reverse=True)`: a permutation of the keys (same length, same members, no repeats when the keys have none), with stamps never increasing. |
| Sessions.InsertStable | plugins/llm_chat/__init__.py:70-74 | An inserted key comes after every key already there with the same stamp. |
| Sessions.RankStable | plugins/llm_chat/__init__.py:70-74 | The sort is stable: for every stamp, the keys with that stamp come out in their dict order. |
| Sessions.SessionStore.constructor | plugins/llm_chat/__init__.py:51 | The store starts empty and valid: every entry is filed under its own thread id, and no stamp lies in the future. |
| Sessions.SessionStore.GetOrCreate | plugins/llm_chat/__init__.py:56-63 | An absent key gets a fresh session with no graph, appended to the dict's order. A present key returns the very same object with the same graph and messages. Either way only that session's stamp changes, to now, which makes it the newest. No other key or session is touched. |
| Sessions.SessionStore.Admit | plugins/llm_chat/__init__.py:193-194 | Cleanup, then get-or-create, leave the entries `AdmittedEntries` and the order `AdmittedOrder` of the old ones. The returned session is the thread's entry. It is a fresh object exactly when the thread's old session was absent or evicted, and otherwise the very same object. `AdmissionFits` gives what those entries are. |
| Sessions.SessionStore.AdmitPrepared | plugins/llm_chat/__init__.py:193-198 | Admission, then an optional trim and a compile when the graph is missing. The entries become the admitted ones with the thread's entry made ready (`ReadyIn`), and the order is the admitted order. The thread's session is fresh when it was absent or evicted, and otherwise the same object. `ReadyFits` gives what those entries are. |
| Sessions.SessionStore.Prepare | plugins/llm-chat/__init__.py:169-174 | Trimming the messages when there is a limit, then compiling a missing graph, change the thread's entry alone, to `ReadyEntry`. |
| Sessions.AdmissionFits | plugins/llm_chat/__init__.py:193-194 | The admitted entries meet the admission contract. At most `max_sessions + 1` remain, and none is deleted within capacity. Only the thread can be new. Every other survivor keeps its session, stamp, graph and messages. Every deleted entry is at most as recent as every survivor. The order loses the deleted keys and gains the thread at the end when its session is new. A kept session is only re-stamped. A new one has no graph and no messages. |
| Sessions.ReadyFits | plugins/llm_chat/__init__.py:193-198 | After the trim and the compile, the admission contract still holds for every other entry. The thread's kept session has its old graph, or one compiled from the current builder when it had none, and its messages trimmed. A new session has a graph compiled from the current builder and no messages. |
| Sessions.AdmitComposes | plugins/llm_chat/__init__.py:193-194 | Any result of cleanup followed by get-or-create meets the admission contract. |
| Sessions.CleanupFits | plugins/llm_chat/__init__.py:65-77 | Deleting the evicted keys from the entries and from the order meets the cleanup contract. |
| Sessions.EvictedCut | plugins/llm_chat/__init__.py:70-77 | Over capacity, the evicted keys are exactly the ranking's keys after the first `max_sessions`. |
| Sessions.SessionStore.CompileIfMissing | plugins/llm_chat/__init__.py:197-198 | A missing graph is compiled from the current builder. An existing graph is kept. |
| Sessions.SessionStore.TrimMessages | plugins/llm-chat/__init__.py:169-171 | `cleanup_old_messages` on the session just fetched: its messages are trimmed, and nothing else changes. |
| Sessions.SessionStore.CleanupOldSessions | plugins/llm_chat/__init__.py:65-77 | At or under capacity, nothing changes. Over capacity, exactly `max_sessions` entries remain: old keys, with unchanged sessions, each at least as recent as every evicted one. The order is the old order without the evicted keys. |
| Sessions.SessionStore.EvictOldest | plugins/llm_chat/__init__.py:70-77 | The over-capacity branch: rank newest first, delete every key after the first `max_sessions`. |
| Sessions.SessionStore.Clear | plugins/llm_chat/__init__.py:350-351 | `sessions.clear()` empties the dict and keeps the clock. |
| Sessions.SessionStore.RemoveKey | plugins/llm_chat/__init__.py:296 | `del sessions[key]` removes exactly that key and keeps every other entry and their order. |
| Sessions.SessionStore.RemoveKeys | plugins/llm_chat/__init__.py:76-77 | Deleting distinct present keys in a loop removes exactly those keys. Every other entry and its place in the order are kept. |
| Sessions.RankingCut | plugins/llm_chat/__init__.py:70-77 | Cutting the ranking at `n` keeps exactly `n` distinct keys. The cut keys are the rest, and every kept key is at least as recent as every cut key. |
| Sessions.Survivors | plugins/llm_chat/__init__.py:76-77 | The keys not cut are exactly the first `n` of the ranking, and there are `n` of them. |
| Sessions.CutKeepsNewest | plugins/llm_chat/__init__.py:70-77 | In a newest-first ranking, every kept entry is at least as recent as every cut one. |
| Seqs.PyFrom | plugins/llm-chat/__init__.py:67 | `s[start:]` with Python's bounds: it is the suffix of the length Python gives for negative and overlong starts. |
| Seqs.PyTo | tools/memos_manage.py:104 | `s[:stop]` with Python's bounds: it is the prefix of the length Python gives for negative and overlong stops. |
| Seqs.Without | plugins/llm_chat/__init__.py:76-77 | The dict's key order after deletions: never longer, every remaining key an old one that was not dropped, and every old key not dropped still there. |
| Seqs.WithoutTwice | plugins/llm_chat/__init__.py:294-296 | Deleting in two rounds is deleting the union once. |
| Text.Strip | plugins/llm_chat/__init__.py:109 | `strip()` leaves no whitespace at either end and never lengthens. |
| Text.StripIdempotent | plugins/llm_chat/__init__.py:112 | Stripping twice is stripping once. |
| Text.StripEmptyIffBlank | plugins/llm_chat/__init__.py:173 | `not s.strip()` holds exactly when every character is whitespace. |
| Text.ContainsIffOccurs | plugins/llm_chat/__init__.py:94 | `sub in s` holds exactly when `sub` occurs at some index. |
| Text.JoinSplit | tools/memos_manage.py:169 | Joining the pieces of a split with the same separator gives back the string. |
| Text.SplitPiecesAreSeparatorFree | tools/memos_manage.py:169 | No piece of a split contains the separator. |
| Text.ReplaceIsSplitJoin | tools/code_runner.py:234-238 | `s.replace(p, r)` is `r.join(s.split(p))`. |
| Text.RemoveFixpointIff | plugins/llm-chat/__init__.py:119 | Deleting a non-empty pattern changes the text exactly when the pattern occurs. |
| Text.Lower | tools/memos_manage.py:83 | `lower()` keeps the length and lower-cases each character. |
| Text.LowerIsLower | tools/memos_manage.py:83 | A lower-cased text has no upper-case letter, and lower-casing it again changes nothing. |
| Text.DecimalInjective | plugins/llm_chat/__init__.py:186-190 | Different ids render as different decimal strings. |
| Segments.ImageUrlsExact | plugins/llm_chat/__init__.py:156-160 | The URLs collected are exactly those of the image segments with a URL, and each is non-empty. |
| Segments.ImageUrlsAppend | plugins/llm_chat/__init__.py:161-166 | Collecting from the message, then from the quoted reply, is collecting from both in that order. |
| Segments.RemoveAtSegments | plugins/llm_chat/__init__.py:109-112 | The `@` loop as the handler runs it computes `StripAts`. |
| Segments.StripAtsShape | plugins/llm_chat/__init__.py:109-112 | The `@` loop keeps the text stripped and never lengthens it. |
| Segments.StripAtsNoAt | plugins/llm_chat/__init__.py:110-112 | A message without `@` segments is left as it is. |
| Segments.AtRemovalShrinks | plugins/llm_chat/__init__.py:111-112 | An `@` segment whose string occurs is deleted: the text gets shorter by at least its length. |
| Segments.RemoveLeadingWord | plugins/llm_chat/__init__.py:115-119 | The prefix loop with its `break` computes `DropLeadingWord`. |
| Segments.DropLeadingWordCases | plugins/llm_chat/__init__.py:116-119 | Only the first word in list order that the text starts with is cut, and the rest is stripped. Without such a word, the text is unchanged. |
| Segments.DropLeadingWordStripped | plugins/llm_chat/__init__.py:118 | A stripped text stays stripped. |
| Segments.DropLeadingWordKeeps | plugins/llm_chat/__init__.py:115-119 | A keyword occurring after every prefix that could be cut survives. |
| Segments.RemoveKeywordsLoop | plugins/llm-chat/__init__.py:117-119 | The keyword loop as the older handler runs it computes `RemoveKeywords`. |
| Segments.RemoveKeywordsShape | plugins/llm-chat/__init__.py:117-119 | The keyword loop keeps a stripped text stripped and never lengthens it. |
| Segments.RemoveAbsentKeywords | plugins/llm-chat/__init__.py:117-119 | Keywords that do not occur (or are empty) leave a stripped text as it is. |
| LlmChat.AnyIn | plugins/llm_chat/__init__.py:92-95 | True exactly when some word is a substring of the message. |
| LlmChat.AnyPrefix | plugins/llm_chat/__init__.py:96-99 | True exactly when the message starts with some word. |
| LlmChat.ChatRule | plugins/llm_chat/__init__.py:84-102 | The rule as meant, on the declared `trigger_mode`/`trigger_words`. With a non-empty mode, the rule is exactly the disjunction of `at` with `is_tome`, a keyword substring, and a word prefix. With an empty mode, it is `is_tome`. |
| LlmChat.ChatRuleAsWritten | plugins/llm_chat/__init__.py:84-102 | The rule as written raises exactly when `Trigger_mode` or `Trigger_words` is missing, naming `Trigger_mode` first. When both exist, it is `ChatRule` on them. |
| LlmChat.RuleRefusesAsWritten | plugins/llm_chat/__init__.py:86-87 | With the settings class as declared, the rule raises on every message, even one addressed to the bot in "at" mode that `ChatRule` answers. The cleaning then cuts no trigger word, only the `@` segments (plugins/llm_chat/__init__.py:114). |
| LlmChat.RemoveTriggerWords | plugins/llm_chat/__init__.py:106-121 | It ignores its `text` argument and starts from the whole message. It computes the `@` deletion, then at most one leading trigger word. |
| LlmChat.CleanedTextShape | plugins/llm_chat/__init__.py:106-121 | The cleaned text is stripped and no longer than the message. It is blank only when it is empty. |
| LlmChat.KeywordSurvives | plugins/llm_chat/__init__.py:115-119 | A keyword occurring after any prefix that could be cut is still in the cleaned text. |
| LlmChat.PlainMessageKept | plugins/llm_chat/__init__.py:109-119 | Without `@` segments and leading trigger words, the cleaned text is the stripped message. |
| LlmChat.EventImageUrlsOrder | plugins/llm_chat/__init__.py:156-166 | The reply's images come after the message's own, and nothing else is collected. |
| LlmChat.ThreadIdInjective | plugins/llm_chat/__init__.py:184-190 | Equal thread ids mean the same kind of chat. Private ids are equal only for the same user. Group ids are equal only for the same group and the same isolation, and with isolation also the same user. |
| LlmChat.PrivateNotGroup | plugins/llm_chat/__init__.py:184-190 | A private id never equals a group id. |
| LlmChat.IsolatedNotShared | plugins/llm_chat/__init__.py:185-188 | An isolated group id never equals a shared one. |
| LlmChat.TargetedKeys | plugins/llm_chat/__init__.py:284-292 | The keys to remove are exactly the dict's keys that the toggle targets, with no repeats. |
| LlmChat.TargetedThreadIds | plugins/llm_chat/__init__.py:284-292 | For a group event, the toggle targets exactly that group's ids of the new isolation kind. For a private event, it targets exactly the private ids. |
| LlmChat.ExtractResponseUsesLast | plugins/llm_chat/__init__.py:217-220 | The reply is read off the last message alone. |
| LlmChat.ExtractResponseCases | plugins/llm_chat/__init__.py:217-238 | Each case is stated separately: an AI message with an invalid-call list (failure text plus the first error); with string content (stripped content); a Tool message with content (that content); a Human or System message (the not-understood text). Reading raises exactly for an AI message whose content is a non-empty block list without invalid calls. |
| LlmChat.GetLlm | plugins/llm_chat/graph.py:14-43 | The client is Google exactly when the model name contains `gemini`. |
| LlmChat.GetLlmIgnoresCase | plugins/llm_chat/graph.py:16-19 | A named model is lower-cased, so the case of the name does not matter. |
| LlmChat.SplitOnce | plugins/llm_chat/__init__.py:320 | `split(maxsplit=1)`: empty exactly for blank text. The first part is a non-empty whitespace-free prefix of the left-stripped text. A second part, when present, starts with a non-space character. |
| LlmChat.EmptyReply | plugins/llm_chat/__init__.py:173-178 | Without configured replies, the fixed question. With an empty list, `choice` raises. Otherwise, one of the configured replies. |
| LlmChat.PrepareTurn | plugins/llm_chat/__init__.py:133-205 | The handler's steps before the store, in order, compute `Intake`. |
| LlmChat.IntakeCases | plugins/llm_chat/__init__.py:133-205 | The message goes on exactly when its kind of chat is enabled and the cleaned text is not empty. An empty text gets the empty reply. The content holds the cleaned text, is prefixed `name: ` with user names on, and is the cleaned text itself without images or a name. |
| LlmChat.ContentShape | plugins/llm_chat/__init__.py:180-205 | Adding image URLs and the user name keeps the text and puts the name first. |
| LlmChat.ParseChatCommand | plugins/llm_chat/__init__.py:320-355 | The usage text comes exactly for blank arguments. A model name is non-empty and starts with a non-space character. |
| LlmChat.ParseIsolation | plugins/llm_chat/__init__.py:271-281 | The current state is shown exactly for blank arguments. A switch is produced only for `true` or `false`, compared after strip and lower. |
| LlmChat.IsolationWords | plugins/llm_chat/__init__.py:271-281 | A padded word sets isolation on for `true`, off for `false` (any case), and is rejected otherwise. |
| LlmChat.ChatPlugin.constructor | plugins/llm_chat/__init__.py:80-81 | The startup client for the configured model, its builder, and an empty store. |
| LlmChat.ChatPlugin.Converse | plugins/llm_chat/__init__.py:193-198 | The store ends as `AdmitPrepared` leaves it, with no message limit and the current builder: the admitted entries with the thread's session compiled when it had no graph, and the admitted order. A new or recreated session is a fresh object. `ReadyFits` spells this out. |
| LlmChat.ChatPlugin.HandleChat | plugins/llm_chat/__init__.py:123-253 | A stopped message sends its stop reply and leaves the store and every session unchanged. Otherwise the content is sent to the graph under the derived thread id. The reply is the extracted response with any image link split out. The store ends as in `Converse`. |
| LlmChat.ChatPlugin.ToggleIsolation | plugins/llm_chat/__init__.py:266-301 | Showing or a bad word changes neither the flag nor the store. A switch sets the flag and removes exactly the targeted keys, keeping every other session; the key order loses exactly those keys. The clock, the client and the builder never change. The reply names the new state. |
| LlmChat.ChatPlugin.ChangeModel | plugins/llm_chat/__init__.py:336-346 | A client error keeps everything. Otherwise the new client is `get_llm(name)`. A build error keeps the builder and the store. Success rebuilds the builder and clears the store. |
| LlmChat.ChatPlugin.ChatCommand | plugins/llm_chat/__init__.py:315-355 | The usage text, the current model, the invalid reply and `clear` each give their reply. Only `clear` and a successful switch empty the store, and only a switch changes the client. |
| ImageLink.Search | plugins/llm_chat/__init__.py:244-245 | A found match lies within the text, starting at or after the search position. |
| ImageLink.MatchAtSound | plugins/llm_chat/__init__.py:244 | What the matcher returns is a match of the pattern. |
| ImageLink.MatchAtComplete | plugins/llm_chat/__init__.py:244 | Wherever the pattern matches, the matcher finds a match ending no later (the lazy `+?`). |
| ImageLink.SearchIsLeftmostShortest | plugins/llm_chat/__init__.py:244-245 | `search` returns the leftmost match, and the shortest at that position. No result means no match anywhere. |
| ImageLink.MatchShape | plugins/llm_chat/__init__.py:244 | A match starts with `http://` or `https://`, is at least 12 characters long, and holds no whitespace. |
| ImageLink.SplitImageNoLink | plugins/llm_chat/__init__.py:252-253 | Without a link, the reply is sent unchanged, and the pattern matches nowhere in it. |
| ImageLink.SplitImageLink | plugins/llm_chat/__init__.py:247-251 | With a link, the image is the leftmost shortest match, and the text is the reply with every copy of it deleted. |
| ImageLink.SplitImageText | plugins/llm_chat/__init__.py:250 | The text and the link together are no longer than the reply. |
| LegacyRules.CheckTrigger | plugins/llm-chat/__init__.py:72-97 | True for a leading command word or a keyword. Otherwise `is_tome`, when neither setting exists or `need_at` holds. It raises exactly when `need_at` must be read and does not exist. |
| LegacyRules.PerUserThreadIdInjective | plugins/llm-chat/__init__.py:163-167 | The older copies' id is the current one with isolation on, so ids are equal exactly for the same sender in the same chat. |
| LegacyRules.CollectImageUrls | plugins/llm-chat/__init__.py:137-146 | The message's image URLs, then the quoted reply's. |
| LegacyRules.AppendImageUrls | plugins/__init__.py:152-155 | The append loop adds exactly the image URLs of the segments, in order. |
| LegacyRules.WithImageList | plugins/__init__.py:160-161 | Without URLs the content is unchanged. With URLs it is extended after the content. |
| LlmChatLegacy.RemoveTriggerWords | plugins/llm-chat/__init__.py:101-121 | It ignores `text` and computes the `@` deletion, then one command prefix when that setting exists, then every keyword when that setting exists. |
| LlmChatLegacy.CleanedTextShape | plugins/llm-chat/__init__.py:101-121 | The cleaned text is stripped and no longer than the message. It is blank only when it is empty. |
| LlmChatLegacy.CleanedTextAgrees | plugins/llm-chat/__init__.py:101-121 | Without keywords, or with keywords absent from the text, the older cleaning equals the current one. |
| LlmChatLegacy.EmptyReply | plugins/llm-chat/__init__.py:152-157 | The fixed question, `choice` raising on an empty list, or one of the configured replies. |
| LlmChatLegacy.PrepareTurn | plugins/llm-chat/__init__.py:131-160 | The handler's steps before the store compute `Intake`. |
| LlmChatLegacy.IntakeCases | plugins/llm-chat/__init__.py:131-160 | A disabled chat is silent. The message goes on exactly when enabled with non-empty text. The content starts with the text, and is the text itself without images. |
| LlmChatLegacy.GateCases | plugins/llm-chat/__init__.py:131-160 | The same tests on an already stripped text and a URL list. |
| LlmChatLegacy.LastReply | plugins/llm-chat/__init__.py:181 | No messages give the fixed text. Otherwise it is the stripped content of the last message. `strip` raises exactly when that content is a block list. |
| LlmChatLegacy.GetLlm | plugins/llm-chat/graph.py:14-27 | Reading a `provider` the settings do not declare raises `AttributeError`. Otherwise the client is for the configured model, and from Google exactly when the provider is `google`. |
| LlmChatLegacy.SwitchAsWritten | plugins/llm-chat/__init__.py:207-221 | The switch as written. Without a declared `provider`, the first write fails with pydantic's `no field` error and nothing changes. Otherwise the settings are written from the name, and any client is `get_llm()` of the settings `graph.py` loaded for itself. The builder is rebuilt exactly when nothing raised. |
| LlmChatLegacy.SwitchFailsAsWritten | plugins/llm-chat/config.py:6-14 | With `LLMConfig` as declared, the import-time `get_llm()` raises, and every switch fails and changes nothing, even one that the intended switch completes. |
| LlmChatLegacy.SwitchIgnoresName | plugins/llm-chat/__init__.py:207-216 | With `provider` declared, the switch as written agrees with the intended one in its reply, its settings and its rebuild. Its client is `get_llm()` of `graph.py`'s own settings, so for any name other than the startup model it is the wrong client. |
| LlmChatLegacy.SwitchedLlm | plugins/llm-chat/__init__.py:207-214 | The intended client is for the given name, and from Google exactly when the name contains `gemini` in any letter case. |
| LlmChatLegacy.Switched | plugins/llm-chat/__init__.py:207-221 | The intended switch always writes the settings chosen by the name. It binds the named model's client unless building it raised. It rebuilds, and replies that it switched, exactly when neither step raised. |
| LlmChatLegacy.Plugin.constructor | plugins/llm-chat/__init__.py:69-70 | Given settings with a `provider`, the client is `get_llm()` of them, with its builder and an empty store. |
| LlmChatLegacy.Plugin.Converse | plugins/llm-chat/__init__.py:169-174 | Reading `max_messages_per_session` raises exactly when it is missing. Then the store holds the admitted entries. Otherwise the thread's entry is also trimmed and compiled (`ReadyIn`). The order is the admitted order, and a new or recreated session is fresh. |
| LlmChatLegacy.Plugin.HandleChat | plugins/llm-chat/__init__.py:123-182 | A stopped message leaves the store and every session unchanged. Otherwise the per-user thread is admitted as in `Converse`. When trimming does not raise, the text is sent and the outcome is what the graph returned or raised. |
| LlmChatLegacy.Plugin.Answer | plugins/llm-chat/__init__.py:169-182 | For a message that goes on, the store ends as in `Converse`. The text is sent only when trimming does not raise, and the outcome is what the graph returned or raised. |
| LlmChatLegacy.Plugin.ChangeModel | plugins/llm-chat/__init__.py:195-221 | A blank name shows the current model and changes nothing. Otherwise the plugin ends as `Switched` says. The settings are written, and the client is replaced unless building it raised. The builder and the store are kept unless both steps succeed. On success the builder is rebuilt and the store is emptied. |
| LlmChatLegacy.Plugin.SwitchTo | plugins/llm-chat/__init__.py:207-221 | The switching branch for a non-empty name ends as `Switched` says. |
| PluginsLegacy.PrepareTurn | plugins/__init__.py:145-161 | The handler's steps before the store compute `Intake`. |
| PluginsLegacy.IntakeCases | plugins/__init__.py:145-161 | The message goes on exactly when its kind of chat is enabled. The content starts with the plain text, and is the plain text itself without images. A quoted reply is ignored. |
| PluginsLegacy.LastReply | plugins/__init__.py:182-187 | The fixed text for no messages. A string content is sent unstripped. A list content raises exactly when some item is not a string. |
| PluginsLegacy.MessageText | plugins/__init__.py:187 | `Message(list)` succeeds exactly when every item is a string. |
| PluginsLegacy.MessageTextCases | plugins/__init__.py:187 | On success, the text is the string items run together in order. On failure, the error names the first item that is not a string. |
| PluginsLegacy.Plugin.constructor | plugins/__init__.py:71-111 | An OpenAI client for the configured model, the same client as the bound one the chat node calls, its builder, and an empty store. |
| PluginsLegacy.Plugin.Converse | plugins/__init__.py:168-175 | As in the llm-chat copy, with the module's one builder. Trimming raises exactly when `max_messages_per_session` is missing, and then the store holds the admitted entries. Otherwise the thread's entry is trimmed and compiled (`ReadyIn`). |
| PluginsLegacy.Plugin.HandleChat | plugins/__init__.py:143-187 | A disabled chat is silent and leaves the store and every session unchanged. Otherwise the store ends as in `Converse`, and the reply is the last message's content. |
| PluginsLegacy.Plugin.ChangeModel | plugins/__init__.py:192-211 | A blank name is refused. A successful build gives an OpenAI client for the name. The bound client changes to it only when binding the tools succeeds; otherwise the chat node keeps calling the old one. The store and every session are never touched. |
| CodeRunner.NormalizeAliases | tools/code_runner.py:44-56 | The five aliases map to their canonical names, and they are the only names that change. |
| CodeRunner.NormalizeIdempotent | tools/code_runner.py:44-56 | Normalising twice is normalising once. |
| CodeRunner.NameMatchPlain | tools/code_runner.py:58-74 | A name matches itself. A query outside the special names matches exactly when it equals the lower-cased name. |
| CodeRunner.CQueryMatch | tools/code_runner.py:60-64 | `c` matches exactly `c` and names starting `c `, so never `c++...` or `c#...`. |
| CodeRunner.ObjectiveCMatch | tools/code_runner.py:68 | The upper-case alternative never matches a lower-cased name, so only `objective-c` as a substring counts. |
| CodeRunner.VersionMatchCases | tools/code_runner.py:76-88 | An empty version or any prefix of the entry's version matches. Beyond those, only C++14 with GCC 8 and C7 with GCC 7 match. |
| CodeRunner.RunLength | tools/code_runner.py:100 | A greedy character-class run: every character in it satisfies the class, and the next does not. |
| CodeRunner.VersionGroupShape | tools/code_runner.py:100 | The version group is digits with at most one dot. |
| CodeRunner.MatchQueryFails | tools/code_runner.py:100-102 | The regex fails exactly for an empty query or one not starting with a name character. |
| CodeRunner.MatchQueryShape | tools/code_runner.py:100-106 | The groups are a non-empty maximal name run, then plus signs, then a version text, all at the start of the query. |
| CodeRunner.ResolveCPlus | tools/code_runner.py:96-111 | `c` with plus signs and digits resolves to `c++` with those digits, as with `c++14`. |
| CodeRunner.ResolveName | tools/code_runner.py:96-111 | A lower-case name with digits resolves to the normalised name with those digits, as with `python3`. |
| CodeRunner.VersionMatchesIff | tools/code_runner.py:116-123 | A version is kept exactly when it is one of the entry's versions and matches. |
| CodeRunner.MatchesIff | tools/code_runner.py:113-123 | A candidate is collected exactly when some table entry's name and that version both match. |
| CodeRunner.AppendVersionMatches | tools/code_runner.py:116-123 | The inner loop appends exactly the matching versions, in order. |
| CodeRunner.CollectMatches | tools/code_runner.py:113-123 | The nested loops compute `Matches`. |
| CodeRunner.FindBestLanguage | tools/code_runner.py:90-150 | No id when the regex fails or nothing matches. A single match gives its id. Any id comes from a matching candidate. |
| CodeRunner.RewriteSourceCases | tools/code_runner.py:233-238 | The bracket replacements change nothing. No two-character `\n` survives. A source without backslashes is unchanged. |
| CodeRunner.EncodeTextRoundTrip | tools/code_runner.py:240-244 | Base64 decoding of the encoded text gives its UTF-8 bytes, which decode to the text. The encoding is ASCII, and empty exactly for empty text. |
| CodeRunner.Base64Code | tools/code_runner.py:228-246 | The source field decodes to the rewritten source. `stdin` is present exactly when it is non-empty, and it decodes back. |
| CodeRunner.FieldTextCases | tools/code_runner.py:201-208 | Each decoded field is a string: `""` for a missing or falsy value, `Decode error: ...` for a non-string, and the text for an encoded text. |
| CodeRunner.DecodeFieldsShape | tools/code_runner.py:198-208 | Decoding adds the five keys, sets each to its decoded text, and keeps every other entry. |
| CodeRunner.TimeStepShape | tools/code_runner.py:212-219 | A time step raises exactly for a truthy non-string. Otherwise it converts a truthy string and keeps the rest. |
| CodeRunner.ConvertedShape | tools/code_runner.py:212-219 | A step sets only its own key, and only for a truthy string. |
| CodeRunner.TimesShape | tools/code_runner.py:211-219 | The time loop raises exactly when a time field holds a truthy non-string, with the first such field's error. Otherwise both fields are converted in turn. |
| CodeRunner.FormatTimesStops | tools/code_runner.py:212-219 | Once a step raises, the later fields do not matter. |
| CodeRunner.FormattedErrors | tools/code_runner.py:192-225 | A falsy result gives `None`. Otherwise the formatting raises only from a time field, as above. |
| CodeRunner.FormattedFields | tools/code_runner.py:192-225 | The answer's keys are the old keys plus the five decoded ones, minus `status`. Decoded and time fields are as above, and every other field is copied. |
| CodeRunner.FormatSubmissionResult | tools/code_runner.py:192-225 | The copy-and-loops method computes `Formatted`. |
| CodeRunner.SubmitRequest | tools/code_runner.py:158-180 | The request uses the configured limits (5 and 8 by default) and `cpu_extra_time` 1. It posts to `{judge0_url}/submissions?...` with the JSON content type. `X-Auth-Token` is present exactly when a key is configured. |
| CodeRunner.RunCode | tools/code_runner.py:249-275 | Nothing is sent, and the no-language reply comes back, exactly when no candidate matches. Otherwise the request carries a matching id and the encoded payload, and the answer is the formatted result. |
| Base64.Encode | tools/code_runner.py:240 | The encoding has `4 * ceil(n / 3)` ASCII characters. |
| Base64.SextetRoundTrip | tools/code_runner.py:204 | Each digit of the alphabet decodes to its value. |
| Base64.A2bEncode | tools/code_runner.py:204 | The non-strict decoder reads an encoding back to the bytes, after what it had already read. |
| Base64.DecodeEncode | tools/code_runner.py:204 | `b64decode(b64encode(b)) == b`. |
| Utf8.DecodeEncode | tools/code_runner.py:204 | `s.encode("utf-8").decode("utf-8") == s`. |
| Utf8.EncodeAscii | tools/code_runner.py:240 | ASCII text encodes to one byte per character, with the same code. |
| Memos.StripAll | tools/memos_manage.py:67 | Every piece is stripped, elementwise. |
| Memos.NonBlankIff | tools/memos_manage.py:169 | A piece is kept exactly when its stripped form is non-empty. |
| Memos.CreateContentsShape | tools/memos_manage.py:167-169 | Every note created from a string is non-empty, stripped and free of the separator. |
| Memos.CreateContentsSingle | tools/memos_manage.py:169 | A string without the separator gives its stripped self, or nothing when blank. |
| Memos.CommaListShape | tools/memos_manage.py:67 | A comma list has one entry per comma plus one, empty entries included. Each is stripped and comma-free. |
| Memos.Headers | tools/memos_manage.py:5-13 | The content type is always JSON. `Authorization` is `Bearer` plus the token exactly when a token is set, and there are no other headers. |
| Memos.ShownTimeClean | tools/memos_manage.py:54 | A shown time has no `T` and no `Z`. |
| Memos.Shown | tools/memos_manage.py:52-56 | A listed note keeps its name and content, and its time is shown clean. |
| Memos.ShownAll | tools/memos_manage.py:52-56 | The listing shows each note in turn. |
| Memos.KeywordMatches | tools/memos_manage.py:82-84 | Never more notes than listed. |
| Memos.KeywordMatchesIff | tools/memos_manage.py:82-84 | A note is kept exactly when the lower-cased keyword occurs in its lower-cased content. An empty keyword keeps all. |
| Memos.Highlighted | tools/memos_manage.py:93-101 | One highlighted entry per kept note, in order. |
| Memos.MergeKeywords | tools/memos_manage.py:73-101 | The keyword loop computes `Merged`, and stops at the first failing keyword. |
| Memos.AppendHighlighted | tools/memos_manage.py:93-101 | The append loop adds exactly the highlighted notes. |
| Memos.MergedMembers | tools/memos_manage.py:73-101 | Every merged entry is a highlighted note that mentions one of the keywords, from that keyword's pages. |
| Memos.MergedStops | tools/memos_manage.py:90-91 | After a failing keyword, the later keywords do not matter. |
| Memos.FirstNamed | tools/memos_manage.py:103 | The position of the first note with a name, or the end. |
| Memos.DedupeShape | tools/memos_manage.py:103-104 | Merging by name keeps one entry per name and all names. Each entry is the last note of its name, and entries are ordered by first occurrence. |
| Memos.PutShape | tools/memos_manage.py:103 | One dict assignment keeps these properties of the merge. |
| Memos.LimitedShape | tools/memos_manage.py:103-104 | The cut merge has unique names, at most `limit` entries, and each entry from a keyword. |
| Memos.SearchShape | tools/memos_manage.py:34-105 | A keyword search fails exactly when a page fails, with its text. Otherwise: unique names, at most `result_limit` entries, each from a keyword. |
| Memos.SearchMemos | tools/memos_manage.py:34-105 | The search method computes `Search`. |
| Memos.ListRequest | tools/memos_manage.py:36-41 | The creator filter is present exactly when a user id is set. |
| Memos.ListOutcome | tools/memos_manage.py:46-62 | A non-200 listing gives the error with its text. Otherwise the shown notes, or none. |
| Memos.CreateOutcome | tools/memos_manage.py:22-32 | Saved exactly on 200, with a clean time and `Unknown` for a missing name. Otherwise the failure text. |
| Memos.Creations | tools/memos_manage.py:175-178 | One result per note. |
| Memos.CreateAll | tools/memos_manage.py:175-178 | The create loop computes `Creations`. |
| Memos.CreateMemos | tools/memos_manage.py:165-179 | The create branch computes `CreateNotes`. |
| Memos.CreateCases | tools/memos_manage.py:164-179 | Given content, there is one result per note, in order, each the outcome of posting that note. |
| Memos.DeleteOutcome | tools/memos_manage.py:130-134 | Success exactly on 200, with the success message. Otherwise `failed` with the response text. |
| Memos.DeleteEntries | tools/memos_manage.py:125-134 | One entry per id. |
| Memos.Deletions | tools/memos_manage.py:107-136 | No ids give `Memo not found.`. Otherwise one result per comma-list id. |
| Memos.DeleteEach | tools/memos_manage.py:125-136 | The delete loop computes `DeleteEntries`. |
| Memos.DeleteMemos | tools/memos_manage.py:107-136 | `_delete_memo` computes `Deletions`. |
| Memos.DeleteChecked | tools/memos_manage.py:184-187 | The delete branch computes `DeleteNotes`. |
| Memos.DeleteCases | tools/memos_manage.py:184-187 | Given ids, there is one result per id, in order, succeeding exactly on a 200 answer. |
| Memos.OperationNames | tools/memos_manage.py:164-190 | Each name selects its operation, and every other string is unknown. |
| Memos.MemosManage | tools/memos_manage.py:138-190 | The tool as a method computes `Manage`. |
| Memos.Dispatch | tools/memos_manage.py:162-190 | The dispatch computes `Dispatched`. |
| Memos.ManageCases | tools/memos_manage.py:150-190 | A missing url is reported before any operation. An unknown operation is reported by name. Create and delete results are per note and per id, in order, as the server answered. |
| Jina.LineLength | tools/jina_search.py:28 | The first line ends at a line break or at the end of the text. |
| Jina.FirstLineBreakFree | tools/jina_search.py:28 | The first line has no break, and a text without breaks is one line. |
| Jina.SplitLinesBreakFree | tools/jina_search.py:28 | No line holds a line break. |
| Jina.SplitLinesSingle | tools/jina_search.py:28 | A non-empty text without breaks is one line. Only the empty text has no lines. |
| Jina.JoinSplitLines | tools/jina_search.py:28-31 | A text whose only breaks are `\n`, without one at the end, is its lines joined by `\n`. |
| Jina.FilterIff | tools/jina_search.py:29 | A line is kept exactly when it is a line of the text and passes the test. |
| Jina.FilterCount | tools/jina_search.py:29 | As many lines are kept as pass the test. |
| Jina.FilterAll | tools/jina_search.py:29 | When every line passes, all are kept. |
| Jina.FilterAppend | tools/jina_search.py:29 | Filtering keeps the original order: filtering a concatenation is concatenating the filtered parts. |
| Jina.KeptLines | tools/jina_search.py:28-30 | At most `top_n` lines, and a prefix of the long lines. |
| Jina.KeptLinesCount | tools/jina_search.py:28-30 | The count is the smaller of `top_n` and the number of long lines, so it is shorter only when fewer lines qualify. Each kept line is long enough and a line of the body. |
| Jina.ToolRequest | tools/jina_fact_checking.py:15-24 | `Authorization` is `Bearer` plus the key exactly when the key is non-empty. Fact checking asks for JSON. Search and reader send `X-Retain-Images: none`. |
| Jina.ToolReplyCases | tools/jina_search.py:24-37 | On success, the joined kept lines, prefixed `tool result: ` for search only. A timeout and other request errors each give the tool's fixed reply (reader: `内容过多，返回失败` / `未知错误`; the others: `搜索超时` / `搜索失败`). |

## Left out

- I/O is left out: the NoneBot transport (`finish`, matcher registration), HTTP, the language cache file, and config loading. Requests and answers are values, and server answers are oracle parameters.
- `asyncio.Lock` and `run_in_executor` are left out. Each block under the lock is one atomic method. The isolation toggle computes its key list outside the lock (plugins/llm_chat/__init__.py:284-292); the model computes it, then deletes in the same step, so interleavings are not modelled.
- The user-name lookup with `get_group_member_info`/`get_stranger_info` (plugins/llm_chat/__init__.py:140-153) is network I/O. The name is an input.
- The graph run (`graph.invoke`), `build_graph`, `MemorySaver` and the LangChain message classes are library code. The run's result (or its exception text) is an input. A builder is a value recording its client, and a client records its provider and model only.
- `random.choice` is an input index `pick`, and any configured reply may be chosen.
- LlmChatLegacy.Plugin.constructor: the plugin follows the intended switch, with `provider` a declared setting. As written the import raises instead; `SwitchFailsAsWritten` states that case.
- Sessions.SessionStore.GetOrCreate: the clock never goes back, so the session just touched is always the newest. The source stamps with naive `datetime.now()` (plugins/llm_chat/__init__.py:47,62), local wall time that can step back at a daylight-saving change or a clock reset. A just-used session could then rank oldest and be evicted; the model does not capture that.
- CodeRunner.FindBestLanguage: the float version sort among several matches (tools/code_runner.py:129-143) is left out. `choose` picks any matching candidate, so only "some matching id" is stated. With two or more matches, `sort_by_version` (tools/code_runner.py:130-138) raises an uncaught `IndexError` on a version with no digits; that exception path is not modelled.
- CodeRunner.TimeText: the conversion to China time (tools/code_runner.py:214-219) is a parameter `localTime`. It covers both the formatted time and the `Parse error` text. Floating time arithmetic is not modelled.
- CodeRunner.FieldText: the text of a `UnicodeDecodeError` is a parameter. The Base64 errors are modelled after CPython's non-strict decoder.
- CodeRunner.SubmitRequest: the header dict always has `X-Auth-Token`, but `requests` drops headers whose value is `None`. The model has the header exactly when a key is configured. The JSON body's field order is not modelled.
- Memos.Merged: the page loop (tools/memos_manage.py:77-91) is a `fetch` oracle returning a keyword's notes over all pages, or the failing page's text. The `pageToken` left in `params` from one keyword's pages to the next is inside that oracle.
- Memos.Memo: the notes are assumed to have `name`, `updateTime` and `content` strings. A missing key (a `KeyError`) is not modelled. `requests`' query-string encoding is not modelled.
- Memos.Merged: the ANSI highlight uses the keyword as given, while matching is case-insensitive, as in the code.
- Python dict iteration order is the insertion order `order` in the store. In the memos dedupe it is a list updated in place, and in the judge answer it is a `map`, whose order is not modelled.
- `str.lower()`, `\d` and `re.IGNORECASE` are modelled for ASCII only. Python's case-insensitive matching also pairs some non-ASCII letters with ASCII ones (`ſ` matches `s`, the Kelvin sign matches `k`), and the model does not. `str.isspace()` is the concrete set of Unicode whitespace characters.
- Jina.SplitLines: `str.splitlines()` is modelled with its full break set, and `\r\n` counts as one break. The round trip `JoinSplitLines` is stated for texts whose only breaks are `\n`.
- LlmChat.ChatRule: the plugin runs the rule as meant, on the declared `trigger_mode`/`trigger_words`. As written, `chat_rule` reads `Trigger_mode`/`Trigger_words` (plugins/llm_chat/__init__.py:86-87), which the settings class does not declare, so the rule raises on every message and lets none through (`RuleRefusesAsWritten`). `hasattr` on settings is an `Option`.
- An exception raised inside the NoneBot rule (a missing `need_at` in `check_trigger`) is returned as an error value. What NoneBot then does is not modelled.
- A list-valued message content is shown by a given `str()` text where the current copy sends it, and `strip` on it raises in the llm-chat copy. In `plugins/__init__.py` it goes through NoneBot's `Message`; its error text follows `Message.append`, which is library code not part of this model.
- Dynamic tool loading, the prompt loader, the other tools (drawing, weather, time and so on), bot.py and temp_server.py are all wrappers around the network, files or libraries. They are not part of this model.

## Findings

| source | as written | input that shows it | evidently intended | confidence | as-written member | corrected member |
|---|---|---|---|---|---|---|
| plugins/llm-chat/__init__.py:207-216 | The switch assigns `plugin_config.llm.provider`, but `LLMConfig` (plugins/llm-chat/config.py:6-14) declares no `provider`. Pydantic refuses the assignment, and `get_llm()` (plugins/llm-chat/graph.py:16) raises reading it, already at import (plugins/llm-chat/__init__.py:69). | Any configuration: the import raises `'LLMConfig' object has no attribute 'provider'`. If it got past that, `chat model gemini-pro` would reply `切换模型失败: "LLMConfig" object has no field "provider"`. | `provider` is a declared setting, and the switch writes it. | not executed | LlmChatLegacy.SwitchFailsAsWritten | LlmChatLegacy.Switched |
| plugins/llm-chat/__init__.py:212-213 | With `provider` declared, the switch writes the plugin's settings and then calls `get_llm()`. But `get_llm()` reads the settings that `graph.py` loaded for itself (plugins/llm-chat/graph.py:12-27), so the new client is for the startup model. | `provider` declared, startup `openai`/`gpt-4o`, then `chat model gemini-pro`: the reply says it switched, but the client is still OpenAI `gpt-4o`. | A client for the named model, Google exactly when the name contains `gemini` (ignoring case). | not executed | LlmChatLegacy.SwitchIgnoresName | LlmChatLegacy.SwitchedLlm |
| plugins/llm_chat/__init__.py:86-87 | `chat_rule` reads `plugin_config.plugin.Trigger_mode` and `.Trigger_words`, but `PluginConfig` (plugins/llm_chat/config.py:26-36) declares only `trigger_mode` and `trigger_words`. Every read raises `AttributeError`, and `hasattr(..., 'Trigger_words')` (line 114) is always false. | Any message, for example one that @-mentions the bot under the mode `["keyword", "at"]`: the rule raises `'PluginConfig' object has no attribute 'Trigger_mode'` instead of answering. | The rule reads the declared `trigger_mode` and `trigger_words`. | not executed | LlmChat.RuleRefusesAsWritten | LlmChat.ChatRule |
