/**
 * The conversation store shared by the three copies of the chat plugin:
 * a process-wide dict from thread id to `Session`, kept in insertion order
 * as Python dicts are, and a clock standing in for `datetime.now()`.
 * Each method is one block that the plugin runs under `sessions_lock`
 * (or, in the older copies, without awaiting in between).
 */
module Sessions {
  import opened Wrappers
  import opened Seqs

  /** Which client class `get_llm` builds. */
  datatype Provider = OpenAI | Google

  /** A chat-model client, as far as the plugin looks at it. */
  datatype Llm = Llm(provider: Provider, model: string)

  /** What `build_graph(config, llm)` returns: the uncompiled graph bound to one client. */
  datatype Builder = Builder(llm: Llm)

  /** `graph_builder.compile(checkpointer=session.memory)` */
  datatype Graph = Compiled(builder: Builder)

  /**
   * One item of a list-valued `content`: a string, or any other value (a
   * dict content block, say), described as `f"{type(obj)} {obj}"` shows it.
   */
  datatype Block = TextItem(text: string) | OtherItem(described: string)

  /** A message's `content`: a string, or a list of items shown as its `str()`. */
  datatype Content = Str(text: string) | Blocks(items: seq<Block>, shown: string)

  /** An AI message's `invalid_tool_calls`: a list of the calls' `error` texts, or some other value and its truthiness. */
  datatype ToolCalls = CallList(errors: seq<string>) | NotAList(truthy: bool)

  /** The message kinds a graph run can end with. */
  datatype Message =
    | Human(content: Content)
    | Ai(content: Content, invalidToolCalls: ToolCalls)
    | Tool(content: Content)
    | System(content: Content)

  /** `messages[-max:]` when the list is longer than `max`, else the list itself. */
  function Trimmed<T>(messages: seq<T>, max: int): seq<T> {
    if |messages| > max then PyFrom(messages, -max) else messages
  }

  /**
   * A list longer than a positive limit keeps exactly its last `max`
   * messages, in order; a list within the limit is kept whole, and so is
   * any list under a zero limit (`[-0:]` is the whole list). A negative
   * limit drops the first `-max` messages.
   */
  lemma TrimmedCases<T>(messages: seq<T>, max: int)
    ensures |messages| <= max ==> Trimmed(messages, max) == messages
    ensures 0 < max < |messages| ==>
              |Trimmed(messages, max)| == max && Trimmed(messages, max) == messages[|messages| - max..]
    ensures max == 0 ==> Trimmed(messages, max) == messages
    ensures max < 0 ==> Trimmed(messages, max) == (if -max <= |messages| then messages[-max..] else [])
    ensures |Trimmed(messages, max)| <= |messages|
  {
  }

  /** One conversation: its id, when it was last used, and its lazily compiled graph. */
  class Session {
    const threadId: string
    var lastAccessed: nat
    var graph: Option<Graph>
    /** `memory.messages` when the checkpointer has such a list (the older copies' `hasattr` test), else `None`. */
    var messages: Option<seq<Message>>

    /** `Session(thread_id)`: stamped now, no graph yet, a fresh checkpointer. */
    constructor (threadId: string, now: nat)
      ensures this.threadId == threadId && lastAccessed == now
      ensures graph == None && messages == None
    {
      this.threadId := threadId;
      lastAccessed := now;
      graph := None;
      messages := None;
    }

    /**
     * `cleanup_old_messages(session)`: when the checkpointer keeps a message
     * list, it becomes `Trimmed(messages, maxMessages)`.
     */
    method CleanupOldMessages(maxMessages: int)
      modifies this
      ensures lastAccessed == old(lastAccessed) && graph == old(graph)
      ensures old(messages) == None ==> messages == None
      ensures old(messages).Some? ==> messages == Some(Trimmed(old(messages).value, maxMessages))
    {
      if messages.Some? && |messages.value| > maxMessages {
        messages := Some(PyFrom(messages.value, -maxMessages));
      }
    }
  }

  /** Stamps never increase along `ranked`. */
  ghost predicate NewestFirst(ranked: seq<string>, stamp: map<string, nat>) {
    && (forall i | 0 <= i < |ranked| :: ranked[i] in stamp)
    && (forall i, j | 0 <= i < j < |ranked| :: stamp[ranked[i]] >= stamp[ranked[j]])
  }

  /** Puts `x` into a newest-first list after every entry at least as recent. */
  function InsertByRecency(ranked: seq<string>, x: string, stamp: map<string, nat>): (r: seq<string>)
    requires x in stamp && forall i | 0 <= i < |ranked| :: ranked[i] in stamp
    ensures |r| == |ranked| + 1
    ensures forall y :: y in r <==> y in ranked || y == x
  {
    if ranked == [] then [x]
    else if stamp[ranked[0]] >= stamp[x] then [ranked[0]] + InsertByRecency(ranked[1..], x, stamp)
    else [x] + ranked
  }

  /** Inserting keeps a newest-first list newest first. */
  lemma {:induction false} InsertKeepsNewestFirst(ranked: seq<string>, x: string, stamp: map<string, nat>)
    requires x in stamp && NewestFirst(ranked, stamp)
    ensures NewestFirst(InsertByRecency(ranked, x, stamp), stamp)
  {
    if ranked == [] {
    } else if stamp[ranked[0]] >= stamp[x] {
      var rest := InsertByRecency(ranked[1..], x, stamp);
      InsertKeepsNewestFirst(ranked[1..], x, stamp);
      forall j | 0 <= j < |rest|
        ensures stamp[ranked[0]] >= stamp[rest[j]]
      {
        assert rest[j] in rest;
        if rest[j] != x {
          var k :| 0 <= k < |ranked[1..]| && ranked[1..][k] == rest[j];
          assert ranked[k + 1] == rest[j];
        }
      }
      ConsNewestFirst(ranked[0], rest, stamp);
    } else {
      assert NewestFirst(ranked[1..], stamp);
      ConsNewestFirst(ranked[0], ranked[1..], stamp);
      assert [ranked[0]] + ranked[1..] == ranked;
      ConsNewestFirst(x, ranked, stamp);
    }
  }

  /** A key at least as recent as every entry of a newest-first list can go in front. */
  lemma ConsNewestFirst(h: string, rest: seq<string>, stamp: map<string, nat>)
    requires h in stamp && NewestFirst(rest, stamp)
    requires forall j | 0 <= j < |rest| :: stamp[h] >= stamp[rest[j]]
    ensures NewestFirst([h] + rest, stamp)
  {
    var r := [h] + rest;
    assert forall a | 0 < a < |r| :: r[a] == rest[a - 1];
  }

  /** Inserting a new key keeps a list without repetitions free of them. */
  lemma {:induction false} InsertKeepsDistinct(ranked: seq<string>, x: string, stamp: map<string, nat>)
    requires x in stamp && forall i | 0 <= i < |ranked| :: ranked[i] in stamp
    ensures Distinct(ranked) && x !in ranked ==> Distinct(InsertByRecency(ranked, x, stamp))
  {
    if Distinct(ranked) && x !in ranked && ranked != [] && stamp[ranked[0]] >= stamp[x] {
      DistinctSlice(ranked, 1, |ranked|);
      InsertKeepsDistinct(ranked[1..], x, stamp);
      assert ranked[0] !in ranked[1..];
    }
  }

  /**
   * `sorted(keys, key=last_accessed, reverse=True)`: newest first, and,
   * the sort being stable, equal stamps in the keys' own order.
   */
  function RankByRecency(keys: seq<string>, stamp: map<string, nat>): (r: seq<string>)
    requires forall i | 0 <= i < |keys| :: keys[i] in stamp
    ensures |r| == |keys|
    ensures forall y :: y in r <==> y in keys
    ensures NewestFirst(r, stamp)
    ensures Distinct(keys) ==> Distinct(r)
  {
    if keys == [] then []
    else
      var front := keys[..|keys| - 1];
      var ranked := RankByRecency(front, stamp);
      assert keys == front + [keys[|keys| - 1]];
      assert Distinct(keys) ==> Distinct(front) && keys[|keys| - 1] !in front;
      InsertKeepsNewestFirst(ranked, keys[|keys| - 1], stamp);
      InsertKeepsDistinct(ranked, keys[|keys| - 1], stamp);
      InsertByRecency(ranked, keys[|keys| - 1], stamp)
  }

  /** The keys of `s` stamped `v`, in their order in `s`. */
  function StampedAt(s: seq<string>, stamp: map<string, nat>, v: nat): (r: seq<string>)
    ensures |r| <= |s|
  {
    if s == [] then []
    else (if s[0] in stamp && stamp[s[0]] == v then [s[0]] else []) + StampedAt(s[1..], stamp, v)
  }

  /** Picking the keys stamped `v` distributes over concatenation. */
  lemma {:induction false} StampedAtAppend(a: seq<string>, b: seq<string>, stamp: map<string, nat>, v: nat)
    ensures StampedAt(a + b, stamp, v) == StampedAt(a, stamp, v) + StampedAt(b, stamp, v)
  {
    if a != [] {
      assert (a + b)[1..] == a[1..] + b;
      StampedAtAppend(a[1..], b, stamp, v);
    } else {
      assert a + b == b;
    }
  }

  /** A newest-first list whose head is older than `v` has no key stamped `v`. */
  lemma {:induction false} StampedAtOlder(ranked: seq<string>, stamp: map<string, nat>, v: nat)
    requires NewestFirst(ranked, stamp) && ranked != [] && stamp[ranked[0]] < v
    ensures StampedAt(ranked, stamp, v) == []
  {
    if |ranked| > 1 {
      assert stamp[ranked[1..][0]] <= stamp[ranked[0]];
      assert NewestFirst(ranked[1..], stamp);
      StampedAtOlder(ranked[1..], stamp, v);
    }
  }

  /** Inserting `x` puts it after every key with its stamp already in the list. */
  lemma {:induction false} InsertStable(ranked: seq<string>, x: string, stamp: map<string, nat>, v: nat)
    requires x in stamp && NewestFirst(ranked, stamp)
    ensures StampedAt(InsertByRecency(ranked, x, stamp), stamp, v)
            == StampedAt(ranked, stamp, v) + (if stamp[x] == v then [x] else [])
  {
    if ranked == [] {
    } else if stamp[ranked[0]] >= stamp[x] {
      assert NewestFirst(ranked[1..], stamp);
      InsertStable(ranked[1..], x, stamp, v);
      var rest := InsertByRecency(ranked[1..], x, stamp);
      assert ([ranked[0]] + rest)[1..] == rest;
    } else {
      assert ([x] + ranked)[1..] == ranked;
      if stamp[x] == v {
        StampedAtOlder(ranked, stamp, v);
      }
    }
  }

  /**
   * The sort is stable: for every stamp, the keys with that stamp come out
   * of `RankByRecency` in their order in `keys`.
   */
  lemma {:induction false} RankStable(keys: seq<string>, stamp: map<string, nat>, v: nat)
    requires forall i | 0 <= i < |keys| :: keys[i] in stamp
    ensures StampedAt(RankByRecency(keys, stamp), stamp, v) == StampedAt(keys, stamp, v)
  {
    if keys != [] {
      var front := keys[..|keys| - 1];
      var last := keys[|keys| - 1];
      assert keys == front + [last];
      RankStable(front, stamp, v);
      InsertStable(RankByRecency(front, stamp), last, stamp, v);
      StampedAtAppend(front, [last], stamp, v);
    }
  }

  /** Taking away what was taken away gives it back. */
  lemma SubtractBack(a: set<string>, d: set<string>)
    requires d <= a
    ensures a - (a - d) == d
  {
  }

  /** Adding one key grows a set by at most one. */
  lemma SetAddOne(a: set<string>, x: string)
    ensures |a + {x}| <= |a| + 1
  {
    if x !in a {
      assert (a + {x}) - {x} == a;
    } else {
      assert a + {x} == a;
    }
  }

  /** A dict entry as the handlers can observe it: the session object and its fields. */
  datatype Entry = Entry(session: Session, lastAccessed: nat, graph: Option<Graph>, messages: Option<seq<Message>>)

  /** The entry of `s`. */
  ghost function EntryOf(s: Session): Entry
    reads s
  {
    Entry(s, s.lastAccessed, s.graph, s.messages)
  }

  /** Each session of `m` with its fields. */
  ghost function EntriesOf(m: map<string, Session>): (es: map<string, Entry>)
    reads m.Values
    ensures es.Keys == m.Keys
  {
    map k | k in m :: EntryOf(m[k])
  }

  /** Entries whose sessions did not change are the same entries. */
  twostate lemma EntriesStay(m: map<string, Session>)
    requires unchanged(m.Values)
    ensures old(EntriesOf(m)) == EntriesOf(m)
  {
  }

  /** Deleting keys from the dict deletes their entries. */
  lemma EntriesLess(m: map<string, Session>, d: set<string>)
    ensures EntriesOf(m - d) == EntriesOf(m) - d
  {
  }

  /** `k`'s session in `before` is the one filed under `k` in `after`. */
  predicate SameSession(k: string, before: map<string, Entry>, after: map<string, Entry>) {
    k in before && k in after && after[k].session == before[k].session
  }

  /**
   * What `cleanup_old_sessions()` leaves: nothing changes within capacity;
   * over it, exactly `maxSessions` entries survive unchanged, each at least
   * as recent as every deleted one, and the order loses the deleted keys.
   */
  ghost predicate CleanedFrom(maxSessions: nat, before: map<string, Entry>, beforeOrder: seq<string>,
                              after: map<string, Entry>, afterOrder: seq<string>)
  {
    && after.Keys <= before.Keys
    && (forall k | k in after :: after[k] == before[k])
    && (|before| <= maxSessions ==> after == before && afterOrder == beforeOrder)
    && EvictionFits(maxSessions, before, before.Keys - after.Keys)
    && afterOrder == Without(beforeOrder, before.Keys - after.Keys)
  }

  /**
   * What `get_or_create_session(thread_id)` leaves: `threadId` is stamped
   * `now`, its session kept with its graph and messages when it was there,
   * otherwise a new one with neither, appended to the order; every other
   * entry is unchanged.
   */
  ghost predicate PlacedFrom(threadId: string, now: nat, before: map<string, Entry>, beforeOrder: seq<string>,
                             after: map<string, Entry>, afterOrder: seq<string>)
  {
    && after.Keys == before.Keys + {threadId}
    && after[threadId].lastAccessed == now
    && (threadId in before ==>
          && after[threadId] == before[threadId].(lastAccessed := now)
          && afterOrder == beforeOrder)
    && (threadId !in before ==>
          && after[threadId].graph == None && after[threadId].messages == None
          && afterOrder == beforeOrder + [threadId])
    && (forall k | k in before && k != threadId :: after[k] == before[k])
  }

  /**
   * What admitting `threadId` leaves against the entries `before`: the
   * cleanup deleted some keys (`EvictionFits`); `threadId` is stamped
   * `now`; every other entry is unchanged, session and fields; the order
   * is the old one without the deleted keys, with `threadId` at the end
   * when its session is new. The graph and messages of `threadId`'s own
   * entry are left open.
   */
  ghost predicate AdmittedFrom(threadId: string, maxSessions: nat, now: nat, before: map<string, Entry>, beforeOrder: seq<string>,
                               after: map<string, Entry>, afterOrder: seq<string>)
  {
    && threadId in after
    && after[threadId].lastAccessed == now
    && AdmissionBounds(threadId, maxSessions, before, after)
    && AdmittedOthers(threadId, maxSessions, before, beforeOrder, after - {threadId}, after[threadId].session, afterOrder)
  }

  /**
   * Within capacity no key is deleted and a thread already there keeps
   * its session; only `threadId` can be new, and at most one entry more
   * than the capacity remains.
   */
  ghost predicate AdmissionBounds(threadId: string, maxSessions: nat, before: map<string, Entry>, after: map<string, Entry>) {
    && after.Keys <= before.Keys + {threadId}
    && |after| <= maxSessions + 1
    && (|before| <= maxSessions ==> after.Keys == before.Keys + {threadId})
    && (|before| <= maxSessions && threadId in before ==> SameSession(threadId, before, after))
  }

  /**
   * `AdmittedFrom` in terms of the entries `others` besides `threadId`,
   * and the session `session` now filed under `threadId`.
   */
  ghost predicate AdmittedOthers(threadId: string, maxSessions: nat, before: map<string, Entry>, beforeOrder: seq<string>,
                                 others: map<string, Entry>, session: Session, afterOrder: seq<string>)
  {
    var kept := threadId in before && before[threadId].session == session;
    var evicted := before.Keys - others.Keys - (if kept then {threadId} else {});
    && threadId !in others
    && others.Keys == before.Keys - evicted - {threadId}
    && EvictionFits(maxSessions, before, evicted)
    && (forall k | k in others :: k in before && others[k] == before[k])
    && afterOrder == Without(beforeOrder, evicted) + (if kept then [] else [threadId])
  }

  /**
   * Deleting `evicted` from `before` is what the cleanup may do: nothing
   * within capacity, otherwise all but `maxSessions` entries, none of
   * them more recent than an entry kept.
   */
  ghost predicate EvictionFits(maxSessions: nat, before: map<string, Entry>, evicted: set<string>) {
    && evicted <= before.Keys
    && (|before| <= maxSessions ==> evicted == {})
    && (|before| > maxSessions ==> |before.Keys - evicted| == maxSessions)
    && (forall k, j {:trigger Newer(before, k, j)} | k in before && k !in evicted && j in evicted :: Newer(before, k, j))
  }

  /** `k`'s entry was used at least as recently as `j`'s. */
  ghost predicate Newer(es: map<string, Entry>, k: string, j: string) {
    k in es && j in es && es[k].lastAccessed >= es[j].lastAccessed
  }

  /** The cleanup followed by the lookup admits `threadId`, when a session made by the lookup is new. */
  lemma AdmitComposes(threadId: string, maxSessions: nat, now: nat,
                      e0: map<string, Entry>, o0: seq<string>, e1: map<string, Entry>, o1: seq<string>,
                      e2: map<string, Entry>, o2: seq<string>)
    requires CleanedFrom(maxSessions, e0, o0, e1, o1) && PlacedFrom(threadId, now, e1, o1, e2, o2)
    requires threadId !in e1 ==> !SameSession(threadId, e0, e2)
    ensures AdmittedFrom(threadId, maxSessions, now, e0, o0, e2, o2)
    ensures SameSession(threadId, e0, e2) ==> e2[threadId] == e0[threadId].(lastAccessed := now)
    ensures !SameSession(threadId, e0, e2) ==> e2[threadId].graph == None && e2[threadId].messages == None
  {
    assert threadId in e1 ==> e2[threadId].session == e1[threadId].session;
    LookupAfterCleanup(threadId, e0, e1, o1, e2, o2);
    AdmitBounds(threadId, maxSessions, now, e0, o0, e1, o1, e2, o2);
    var others, deleted := e2 - {threadId}, e0.Keys - e1.Keys;
    SubtractBack(e0.Keys, e1.Keys);
    assert others.Keys == e0.Keys - deleted - {threadId};
    assert EvictionFits(maxSessions, e0, deleted);
    assert AdmittedOthers(threadId, maxSessions, e0, o0, others, e2[threadId].session, o2);
  }

  /**
   * The lookup after the cleanup, seen from before the cleanup: the
   * deleted keys are those the cleanup did not keep.
   */
  lemma LookupAfterCleanup(threadId: string, e0: map<string, Entry>, e1: map<string, Entry>, o1: seq<string>,
                           e2: map<string, Entry>, o2: seq<string>)
    requires e1.Keys <= e0.Keys && forall k | k in e1 :: e1[k] == e0[k]
    requires e2.Keys == e1.Keys + {threadId} && forall k | k in e1 && k != threadId :: e2[k] == e1[k]
    requires threadId in e1 ==> e2[threadId].session == e1[threadId].session && o2 == o1
    requires threadId !in e1 ==> o2 == o1 + [threadId] && !SameSession(threadId, e0, e2)
    ensures var others := e2 - {threadId};
            var kept := threadId in e0 && e0[threadId].session == e2[threadId].session;
            && (kept <==> threadId in e1)
            && e0.Keys - others.Keys - (if kept then {threadId} else {}) == e0.Keys - e1.Keys
            && others.Keys == e1.Keys - {threadId}
            && (forall k | k in others :: k in e0 && others[k] == e0[k])
            && o2 == o1 + (if kept then [] else [threadId])
  {
    var others := e2 - {threadId};
    assert others.Keys == e1.Keys - {threadId};
    if threadId in e1 {
      assert o2 == o1 + [];
    }
  }

  /**
   * Changing only the graph or the messages of `threadId`'s entry after
   * it was admitted leaves it admitted.
   */
  lemma AdmittedTouched(threadId: string, maxSessions: nat, now: nat, before: map<string, Entry>, beforeOrder: seq<string>,
                        after: map<string, Entry>, afterOrder: seq<string>, e: Entry)
    requires AdmittedFrom(threadId, maxSessions, now, before, beforeOrder, after, afterOrder)
    requires e.session == after[threadId].session && e.lastAccessed == now
    ensures AdmittedFrom(threadId, maxSessions, now, before, beforeOrder, after[threadId := e], afterOrder)
  {
    OthersOfUpdate(after, threadId, e);
    AdmittedByOthers(threadId, maxSessions, now, before, beforeOrder, after, afterOrder, after[threadId := e]);
  }

  /**
   * The cleanup followed by the lookup deletes no key within capacity, and
   * a thread already there then keeps its session; only `threadId` can be
   * new, and at most one entry more than the capacity remains.
   */
  lemma AdmitBounds(threadId: string, maxSessions: nat, now: nat,
                    e0: map<string, Entry>, o0: seq<string>, e1: map<string, Entry>, o1: seq<string>,
                    e2: map<string, Entry>, o2: seq<string>)
    requires CleanedFrom(maxSessions, e0, o0, e1, o1) && PlacedFrom(threadId, now, e1, o1, e2, o2)
    ensures AdmissionBounds(threadId, maxSessions, e0, e2)
  {
    SetAddOne(e1.Keys, threadId);
    if |e0| > maxSessions {
      SubtractBack(e0.Keys, e1.Keys);
      assert |e1.Keys| == maxSessions;
    }
  }

  /** Updating the entry of `k` leaves the other entries as they were. */
  lemma OthersOfUpdate(es: map<string, Entry>, k: string, e: Entry)
    requires k in es
    ensures es[k := e] - {k} == es - {k} && es[k := e].Keys == es.Keys
  {
    assert es[k := e].Keys == es.Keys;
  }

  /** `AdmittedFrom` depends on `threadId`'s entry only through its session and stamp. */
  lemma AdmittedByOthers(threadId: string, maxSessions: nat, now: nat, before: map<string, Entry>, beforeOrder: seq<string>,
                         after: map<string, Entry>, afterOrder: seq<string>, other: map<string, Entry>)
    requires AdmittedFrom(threadId, maxSessions, now, before, beforeOrder, after, afterOrder)
    requires other.Keys == after.Keys && other - {threadId} == after - {threadId}
    requires other[threadId].session == after[threadId].session && other[threadId].lastAccessed == now
    ensures AdmittedFrom(threadId, maxSessions, now, before, beforeOrder, other, afterOrder)
  {
  }

  // ---------------------------------------------------------------------------
  // The store's steps as functions of the entries

  /** Each entry's stamp. */
  function StampsOf(es: map<string, Entry>): (st: map<string, nat>)
    ensures st.Keys == es.Keys
  {
    map k | k in es :: es[k].lastAccessed
  }

  /** The dict's order lists each of its keys exactly once. */
  ghost predicate Listed(es: map<string, Entry>, order: seq<string>) {
    Distinct(order) && Elems(order) == es.Keys
  }

  /** A map that lost the keys `d` and kept the rest unchanged is `a - d`. */
  lemma MapLess<V>(a: map<string, V>, b: map<string, V>, d: set<string>)
    requires b.Keys == a.Keys - d && forall k | k in b :: b[k] == a[k]
    ensures b == a - d
  {
  }

  /**
   * The keys `cleanup_old_sessions()` deletes: none within capacity,
   * otherwise every key after the first `maxSessions` of the newest-first
   * ranking of the order (an order listing a key the dict lacks does not
   * arise).
   */
  ghost function Evicted(maxSessions: nat, es: map<string, Entry>, order: seq<string>): set<string> {
    if |es| <= maxSessions || exists i | 0 <= i < |order| :: order[i] !in es then {}
    else
      var ranked := RankByRecency(order, StampsOf(es));
      if maxSessions < |ranked| then Elems(ranked[maxSessions..]) else {}
  }

  /**
   * `get_or_create_session(thread_id)` on the entries: `threadId` is
   * stamped `now`, and filed under the new session `s` when it was absent.
   */
  ghost function Placed(threadId: string, now: nat, es: map<string, Entry>, s: Session): map<string, Entry> {
    es[threadId := if threadId in es then es[threadId].(lastAccessed := now) else Entry(s, now, None, None)]
  }

  /** The dict's order after the lookup: a new key goes last. */
  function PlacedOrder(threadId: string, es: map<string, Entry>, order: seq<string>): seq<string> {
    if threadId in es then order else order + [threadId]
  }

  /** The entries after the cleanup and then the lookup, `s` being the session a new key gets. */
  ghost function AdmittedEntries(threadId: string, maxSessions: nat, now: nat, es: map<string, Entry>, order: seq<string>,
                                 s: Session): map<string, Entry>
  {
    Placed(threadId, now, es - Evicted(maxSessions, es, order), s)
  }

  /** The order after the cleanup and then the lookup. */
  ghost function AdmittedOrder(threadId: string, maxSessions: nat, es: map<string, Entry>, order: seq<string>): seq<string> {
    var evicted := Evicted(maxSessions, es, order);
    PlacedOrder(threadId, es - evicted, Without(order, evicted))
  }

  /** `threadId`'s entry with a graph compiled from `b` when it had none. */
  ghost function CompiledIn(es: map<string, Entry>, threadId: string, b: Builder): map<string, Entry> {
    if threadId in es && es[threadId].graph.None? then es[threadId := es[threadId].(graph := Some(Compiled(b)))] else es
  }

  /** `threadId`'s entry after `cleanup_old_messages` with the limit `maxMessages`. */
  ghost function TrimmedIn(es: map<string, Entry>, threadId: string, maxMessages: int): map<string, Entry> {
    if threadId in es then es[threadId := es[threadId].(messages := TrimmedList(es[threadId].messages, Some(maxMessages)))] else es
  }

  /**
   * `threadId`'s entry made ready to run: its messages trimmed when the
   * handler has a limit, then its graph compiled from `b` when missing.
   */
  ghost function ReadyIn(es: map<string, Entry>, threadId: string, b: Builder, maxMessages: Option<int>): map<string, Entry> {
    if maxMessages.Some? then CompiledIn(TrimmedIn(es, threadId, maxMessages.value), threadId, b) else CompiledIn(es, threadId, b)
  }

  /** Within capacity nothing is deleted. */
  lemma EvictedWithin(maxSessions: nat, es: map<string, Entry>, order: seq<string>)
    requires |es| <= maxSessions
    ensures es - Evicted(maxSessions, es, order) == es
    ensures Without(order, Evicted(maxSessions, es, order)) == order
  {
    assert Evicted(maxSessions, es, order) == {};
    WithoutNothing(order);
  }

  /** Over capacity, the deleted keys are the tail of the ranking. */
  lemma EvictedCut(maxSessions: nat, es: map<string, Entry>, order: seq<string>)
    requires Listed(es, order) && |es| > maxSessions
    ensures maxSessions < |order|
    ensures Evicted(maxSessions, es, order) == Elems(RankByRecency(order, StampsOf(es))[maxSessions..])
  {
    DistinctCard(order);
    assert !exists i | 0 <= i < |order| :: order[i] !in es by {
      forall i | 0 <= i < |order| ensures order[i] in es {
        assert order[i] in Elems(order);
      }
    }
  }

  /**
   * What `cleanup_old_sessions()` deletes is what `CleanedFrom` allows:
   * exactly `maxSessions` entries survive over capacity, none of them less
   * recent than a deleted one, and the order loses the deleted keys.
   */
  lemma CleanupFits(maxSessions: nat, es: map<string, Entry>, order: seq<string>)
    requires Listed(es, order)
    ensures CleanedFrom(maxSessions, es, order, es - Evicted(maxSessions, es, order), Without(order, Evicted(maxSessions, es, order)))
  {
    var evicted := Evicted(maxSessions, es, order);
    var after := es - evicted;
    if |es| <= maxSessions {
      assert after == es;
      WithoutNothing(order);
      assert es.Keys - after.Keys == {};
    } else {
      CleanupOverCapacity(maxSessions, es, order);
    }
  }

  /** `CleanupFits` over capacity. */
  lemma CleanupOverCapacity(maxSessions: nat, es: map<string, Entry>, order: seq<string>)
    requires Listed(es, order) && |es| > maxSessions
    ensures var evicted := Evicted(maxSessions, es, order);
            && es.Keys - (es - evicted).Keys == evicted
            && EvictionFits(maxSessions, es, evicted)
  {
    var evicted := Evicted(maxSessions, es, order);
    EvictedCut(maxSessions, es, order);
    RankingCut(order, StampsOf(es), maxSessions);
    var ranked := RankByRecency(order, StampsOf(es));
    var kept := Elems(ranked[..maxSessions]);
    assert (es - evicted).Keys == es.Keys - evicted;
    SubtractBack(es.Keys, evicted);
    assert es.Keys - evicted == kept;
    forall k, j | k in es && k !in evicted && j in evicted
      ensures Newer(es, k, j)
    {
      assert k in kept;
      assert StampsOf(es)[k] >= StampsOf(es)[j];
    }
  }

  /** The lookup on its own is what `PlacedFrom` describes. */
  lemma PlacedFits(threadId: string, now: nat, es: map<string, Entry>, order: seq<string>, s: Session)
    ensures PlacedFrom(threadId, now, es, order, Placed(threadId, now, es, s), PlacedOrder(threadId, es, order))
  {
  }

  /**
   * The cleanup and then the lookup admit `threadId` (`AdmittedFrom`),
   * provided the session a recreated key gets is not its old one: a kept
   * session keeps its graph and messages, a new one has neither.
   */
  lemma AdmissionFits(threadId: string, maxSessions: nat, now: nat, es: map<string, Entry>, order: seq<string>, s: Session)
    requires Listed(es, order)
    requires threadId in Evicted(maxSessions, es, order) ==> s != es[threadId].session
    ensures var after := AdmittedEntries(threadId, maxSessions, now, es, order, s);
            && AdmittedFrom(threadId, maxSessions, now, es, order, after, AdmittedOrder(threadId, maxSessions, es, order))
            && (SameSession(threadId, es, after) ==> after[threadId] == es[threadId].(lastAccessed := now))
            && (!SameSession(threadId, es, after) ==> after[threadId].graph == None && after[threadId].messages == None)
  {
    var evicted := Evicted(maxSessions, es, order);
    var e1, o1 := es - evicted, Without(order, evicted);
    CleanupFits(maxSessions, es, order);
    PlacedFits(threadId, now, e1, o1, s);
    var e2 := Placed(threadId, now, e1, s);
    assert threadId !in e1 ==> !SameSession(threadId, es, e2);
    AdmitComposes(threadId, maxSessions, now, es, order, e1, o1, e2, PlacedOrder(threadId, e1, o1));
  }

  /**
   * Trimming and compiling the admitted thread's session keeps it admitted
   * and makes it `Prepared`.
   */
  lemma ReadyFits(threadId: string, maxSessions: nat, now: nat, es: map<string, Entry>, order: seq<string>, s: Session,
                  b: Builder, maxMessages: Option<int>)
    requires Listed(es, order)
    requires threadId in Evicted(maxSessions, es, order) ==> s != es[threadId].session
    ensures var after := ReadyIn(AdmittedEntries(threadId, maxSessions, now, es, order, s), threadId, b, maxMessages);
            && AdmittedFrom(threadId, maxSessions, now, es, order, after, AdmittedOrder(threadId, maxSessions, es, order))
            && Prepared(threadId, b, maxMessages, es, after)
  {
    var admitted := AdmittedEntries(threadId, maxSessions, now, es, order, s);
    AdmissionFits(threadId, maxSessions, now, es, order, s);
    var after := ReadyIn(admitted, threadId, b, maxMessages);
    var ready := ReadyEntry(admitted[threadId], b, maxMessages);
    ReadyInShape(admitted, threadId, b, maxMessages);
    AdmittedTouched(threadId, maxSessions, now, es, order, admitted, AdmittedOrder(threadId, maxSessions, es, order), ready);
    assert SameSession(threadId, es, after) == SameSession(threadId, es, admitted);
  }

  /** `threadId`'s entry made ready by itself. */
  ghost function ReadyEntry(e: Entry, b: Builder, maxMessages: Option<int>): Entry {
    e.(graph := if e.graph.None? then Some(Compiled(b)) else e.graph, messages := TrimmedList(e.messages, maxMessages))
  }

  /** `ReadyIn` changes `threadId`'s entry alone, to its `ReadyEntry`. */
  lemma ReadyInShape(es: map<string, Entry>, threadId: string, b: Builder, maxMessages: Option<int>)
    requires threadId in es
    ensures ReadyIn(es, threadId, b, maxMessages) == es[threadId := ReadyEntry(es[threadId], b, maxMessages)]
  {
    var e := es[threadId];
    if maxMessages.Some? {
      var t := TrimmedIn(es, threadId, maxMessages.value);
      assert t == es[threadId := e.(messages := TrimmedList(e.messages, maxMessages))];
      if e.graph.Some? {
        assert ReadyEntry(e, b, maxMessages) == e.(messages := TrimmedList(e.messages, maxMessages));
      }
    } else if e.graph.Some? {
      assert ReadyEntry(e, b, maxMessages) == e;
    }
  }

  /** The message list after `cleanup_old_messages`, when the handler trims with a limit. */
  function TrimmedList(messages: Option<seq<Message>>, maxMessages: Option<int>): Option<seq<Message>> {
    if messages.Some? && maxMessages.Some? then Some(Trimmed(messages.value, maxMessages.value)) else messages
  }

  /**
   * `threadId`'s session is ready to run after admission: a session that
   * was kept has its old graph, or one compiled from `b` when it had none,
   * and its message list trimmed when there is a limit; a new session has
   * a graph compiled from `b` and no message list.
   */
  ghost predicate Prepared(threadId: string, b: Builder, maxMessages: Option<int>,
                           before: map<string, Entry>, after: map<string, Entry>)
  {
    && threadId in after
    && (SameSession(threadId, before, after) ==>
          && after[threadId].graph == (if before[threadId].graph.Some? then before[threadId].graph else Some(Compiled(b)))
          && after[threadId].messages == TrimmedList(before[threadId].messages, maxMessages))
    && (!SameSession(threadId, before, after) ==>
          after[threadId].graph == Some(Compiled(b)) && after[threadId].messages == None)
  }

  /** The plugin's `sessions` dict. */
  class SessionStore {
    var sessions: map<string, Session>
    /** The dict's keys in insertion order. */
    var order: seq<string>
    /** `datetime.now()`, as a count of ticks. */
    var clock: nat

    /** Every entry is filed under its own thread id, and no stamp lies in the future. */
    ghost predicate Valid()
      reads this, sessions.Values
    {
      && Distinct(order)
      && (forall i | 0 <= i < |order| :: order[i] in sessions)
      && (forall k | k in sessions :: k in order)
      && (forall k | k in sessions :: sessions[k].threadId == k && sessions[k].lastAccessed <= clock)
    }

    /** Each entry's `last_accessed`. */
    function Stamps(): (st: map<string, nat>)
      reads this, sessions.Values
      ensures st.Keys == sessions.Keys
    {
      map k | k in sessions :: sessions[k].lastAccessed
    }

    /** The empty dict at import time. */
    constructor ()
      ensures Valid() && sessions == map[] && order == [] && clock == 0
    {
      sessions := map[];
      order := [];
      clock := 0;
    }

    /** Time passes. */
    method Tick(dt: nat)
      requires Valid()
      modifies this
      ensures Valid() && clock == old(clock) + dt
      ensures sessions == old(sessions) && order == old(order)
    {
      clock := clock + dt;
    }

    /** Each entry with its session's fields, as the handlers can observe them. */
    ghost function Entries(): (es: map<string, Entry>)
      reads this, sessions.Values
      ensures es.Keys == sessions.Keys
    {
      EntriesOf(sessions)
    }

    /** A valid dict's order lists each of its keys once. */
    lemma ValidListed()
      requires Valid()
      ensures Listed(Entries(), order)
    {
      forall k | k in Elems(order) ensures k in sessions {
        var i :| 0 <= i < |order| && order[i] == k;
      }
    }

    /** Each entry's stamp is its session's `last_accessed`. */
    lemma StampsAgree()
      ensures Stamps() == StampsOf(Entries())
    {
    }

    /**
     * `get_or_create_session(thread_id)`: inserts a new session when the
     * id is absent, and in either case stamps the id's session with now.
     */
    method GetOrCreate(threadId: string) returns (s: Session)
      requires Valid()
      modifies this, if threadId in sessions then {sessions[threadId]} else {}
      ensures Valid() && clock == old(clock)
      ensures Entries() == Placed(threadId, clock, old(Entries()), s)
      ensures order == PlacedOrder(threadId, old(Entries()), old(order))
      ensures s == sessions[threadId] && s.threadId == threadId
      ensures threadId !in old(sessions) ==> fresh(s)
      ensures threadId in old(sessions) ==> s == old(sessions[threadId])
      ensures forall k | k in sessions :: s.lastAccessed >= sessions[k].lastAccessed
    {
      ghost var e0 := Entries();
      if threadId !in sessions {
        s := Create(threadId);
      }
      s := sessions[threadId];
      Stamp(threadId);
    }

    /** `sessions[thread_id] = Session(thread_id)` for an id the dict lacks: the new entry goes last. */
    method Create(threadId: string) returns (s: Session)
      requires Valid() && threadId !in sessions
      modifies this
      ensures Valid() && clock == old(clock)
      ensures fresh(s) && sessions == old(sessions)[threadId := s] && order == old(order) + [threadId]
      ensures Entries() == old(Entries())[threadId := Entry(s, clock, None, None)]
    {
      s := new Session(threadId, clock);
      assert threadId !in order;
      DistinctAppend(order, threadId);
      sessions := sessions[threadId := s];
      order := order + [threadId];
    }

    /** `session.last_accessed = datetime.now()` for the session filed under `threadId`. */
    method Stamp(threadId: string)
      requires Valid() && threadId in sessions
      modifies sessions[threadId]
      ensures Valid()
      ensures Entries() == old(Entries())[threadId := old(Entries()[threadId]).(lastAccessed := clock)]
      ensures forall k | k in sessions :: sessions[threadId].lastAccessed >= sessions[k].lastAccessed
    {
      var s := sessions[threadId];
      s.lastAccessed := clock;
      assert forall k | k in sessions && k != threadId :: sessions[k] != s;
    }

    /**
     * `cleanup_old_sessions()` then `get_or_create_session(thread_id)`, the
     * two steps `handle_chat` takes before it uses a session. Only the
     * returned session's own fields can change.
     */
    method Admit(threadId: string, maxSessions: nat) returns (s: Session)
      requires Valid()
      modifies this, if threadId in sessions then {sessions[threadId]} else {}
      ensures Valid() && clock == old(clock)
      ensures Entries() == AdmittedEntries(threadId, maxSessions, clock, old(Entries()), old(order), s)
      ensures order == AdmittedOrder(threadId, maxSessions, old(Entries()), old(order))
      ensures s == sessions[threadId]
      ensures fresh(s) || (threadId in old(sessions) && s == old(sessions[threadId]))
      ensures threadId !in old(Entries()) - Evicted(maxSessions, old(Entries()), old(order)) ==> fresh(s)
      ensures threadId in old(Entries()) - Evicted(maxSessions, old(Entries()), old(order)) ==> s == old(sessions[threadId])
    {
      CleanupOldSessions(maxSessions);
      s := GetOrCreate(threadId);
    }

    /**
     * `if session.graph is None: session.graph = graph_builder.compile(...)`
     * for the session filed under `threadId`.
     */
    method CompileIfMissing(threadId: string, b: Builder)
      requires Valid() && threadId in sessions
      modifies sessions[threadId]
      ensures Valid()
      ensures Entries() == CompiledIn(old(Entries()), threadId, b)
    {
      var s := sessions[threadId];
      if s.graph.None? {
        s.graph := Some(Compiled(b));
      }
      assert forall k | k in sessions && k != threadId :: sessions[k] != s;
    }

    /**
     * What `handle_chat` does to the store before it runs the graph:
     * `Admit`, then `Prepare` the admitted session. `ReadyFits` spells out
     * what the new entries are.
     */
    method AdmitPrepared(threadId: string, maxSessions: nat, b: Builder, maxMessages: Option<int>)
      requires Valid()
      modifies this, if threadId in sessions then {sessions[threadId]} else {}
      ensures Valid() && clock == old(clock) && threadId in sessions
      ensures Entries() == ReadyIn(AdmittedEntries(threadId, maxSessions, clock, old(Entries()), old(order), sessions[threadId]),
                                   threadId, b, maxMessages)
      ensures order == AdmittedOrder(threadId, maxSessions, old(Entries()), old(order))
      ensures threadId !in old(Entries()) - Evicted(maxSessions, old(Entries()), old(order)) ==> fresh(sessions[threadId])
      ensures fresh(sessions[threadId]) || (threadId in old(sessions) && sessions[threadId] == old(sessions[threadId]))
    {
      var s := Admit(threadId, maxSessions);
      Prepare(threadId, b, maxMessages);
    }

    /**
     * The session filed under `threadId` made ready to run: its messages
     * trimmed when there is a limit, then its graph compiled from `b` when
     * it has none.
     */
    method Prepare(threadId: string, b: Builder, maxMessages: Option<int>)
      requires Valid() && threadId in sessions
      modifies sessions[threadId]
      ensures Valid()
      ensures Entries() == ReadyIn(old(Entries()), threadId, b, maxMessages)
    {
      if maxMessages.Some? {
        TrimMessages(threadId, maxMessages.value);
      }
      CompileIfMissing(threadId, b);
    }

    /** `cleanup_old_messages(session)` for the session filed under `threadId`. */
    method TrimMessages(threadId: string, maxMessages: int)
      requires Valid() && threadId in sessions
      modifies sessions[threadId]
      ensures Valid()
      ensures Entries() == TrimmedIn(old(Entries()), threadId, maxMessages)
    {
      var s := sessions[threadId];
      s.CleanupOldMessages(maxMessages);
      assert forall k | k in sessions && k != threadId :: sessions[k] != s;
    }

    /**
     * `cleanup_old_sessions()`: over capacity, rank the entries newest
     * first and delete every one past the first `maxSessions`.
     */
    method CleanupOldSessions(maxSessions: nat)
      requires Valid()
      modifies this
      ensures Valid() && clock == old(clock)
      ensures Entries() == old(Entries()) - Evicted(maxSessions, old(Entries()), old(order))
      ensures order == Without(old(order), Evicted(maxSessions, old(Entries()), old(order)))
    {
      if |sessions| > maxSessions {
        ghost var e0 := Entries();
        ghost var evicted := Evicted(maxSessions, e0, order);
        EvictOldest(maxSessions);
        EntriesStay(old(sessions));
        EntriesLess(old(sessions), evicted);
      } else {
        EvictedWithin(maxSessions, Entries(), order);
      }
    }

    /** The deleting half of `cleanup_old_sessions()`, when the dict is over capacity. */
    method EvictOldest(maxSessions: nat)
      requires Valid() && |sessions| > maxSessions
      modifies this
      ensures Valid() && clock == old(clock)
      ensures sessions == old(sessions) - Evicted(maxSessions, old(Entries()), old(order))
      ensures order == Without(old(order), Evicted(maxSessions, old(Entries()), old(order)))
    {
      ghost var es := Entries();
      assert Listed(es, order) by { ValidListed(); }
      StampsAgree();
      var ranked := RankByRecency(order, Stamps());
      EvictedCut(maxSessions, es, order);
      RankingCut(order, Stamps(), maxSessions);
      ghost var drop := Elems(ranked[maxSessions..]);
      RemoveKeys(ranked[maxSessions..]);
      MapLess(old(sessions), sessions, drop);
    }

    /** `sessions.clear()` */
    method Clear()
      modifies this
      ensures sessions == map[] && order == [] && clock == old(clock)
      ensures Valid()
    {
      sessions := map[];
      order := [];
    }

    /** `del sessions[key]` for a key the dict holds. */
    method RemoveKey(key: string)
      requires Valid() && key in sessions
      modifies this
      ensures Valid() && clock == old(clock)
      ensures sessions.Keys == old(sessions).Keys - {key}
      ensures forall k | k in sessions :: sessions[k] == old(sessions)[k]
      ensures order == Without(old(order), {key})
    {
      WithoutDistinct(order, {key});
      sessions := sessions - {key};
      order := Without(order, {key});
    }

    /** `for key in keys: del sessions[key]`, for keys the dict holds, each once. */
    method RemoveKeys(keys: seq<string>)
      requires Valid()
      requires Distinct(keys) && forall i | 0 <= i < |keys| :: keys[i] in sessions
      modifies this
      ensures Valid() && clock == old(clock)
      ensures sessions.Keys == old(sessions).Keys - Elems(keys)
      ensures forall k | k in old(sessions) && k in sessions :: sessions[k] == old(sessions)[k]
      ensures order == Without(old(order), Elems(keys))
    {
      WithoutNothing(order);
      ghost var removed: set<string> := {};
      assert Elems(keys[..0]) == {};
      var i := 0;
      while i < |keys|
        invariant 0 <= i <= |keys|
        invariant removed == Elems(keys[..i])
        invariant Valid() && clock == old(clock)
        invariant sessions.Keys == old(sessions).Keys - removed
        invariant forall k | k in old(sessions) && k in sessions :: sessions[k] == old(sessions)[k]
        invariant order == Without(old(order), removed)
      {
        var k := keys[i];
        ElemsStep(keys, i);
        WithoutTwice(old(order), removed, {k});
        RemoveKey(k);
        removed := removed + {k};
        i := i + 1;
      }
      assert keys[..i] == keys;
    }
  }

  /** What cutting the newest-first ranking of a dict's keys after `n` entries keeps and drops. */
  lemma RankingCut(order: seq<string>, stamp: map<string, nat>, n: nat)
    requires Distinct(order) && Elems(order) == stamp.Keys && n < |order|
    ensures var ranked := RankByRecency(order, stamp);
      && n <= |ranked|
      && Distinct(ranked[n..])
      && (forall i | 0 <= i < |ranked| - n :: ranked[n..][i] in stamp)
      && stamp.Keys - Elems(ranked[n..]) == Elems(ranked[..n])
      && Elems(ranked[n..]) <= stamp.Keys
      && |Elems(ranked[..n])| == n
      && (forall k, j | k in Elems(ranked[..n]) && j in Elems(ranked[n..]) :: stamp[k] >= stamp[j])
  {
    var ranked := RankByRecency(order, stamp);
    DistinctSlice(ranked, n, |ranked|);
    assert forall i | 0 <= i < |ranked| - n :: ranked[n..][i] == ranked[n + i];
    Survivors(ranked, n, stamp.Keys);
    CutKeepsNewest(ranked, n, stamp);
  }

  /** Cutting a ranking of `keys` at `n` leaves exactly its first `n` entries. */
  lemma Survivors(ranked: seq<string>, n: nat, keys: set<string>)
    requires n <= |ranked| && Distinct(ranked)
    requires forall y :: y in ranked <==> y in keys
    ensures keys - Elems(ranked[n..]) == Elems(ranked[..n])
    ensures |Elems(ranked[..n])| == n
  {
    DistinctSlice(ranked, 0, n);
    DistinctCard(ranked[..n]);
    forall y | y in keys - Elems(ranked[n..])
      ensures y in Elems(ranked[..n])
    {
      var a :| 0 <= a < |ranked| && ranked[a] == y;
      assert forall b | n <= b < |ranked| :: ranked[n..][b - n] == ranked[b];
      assert a < n;
      assert ranked[..n][a] == y;
    }
    forall y | y in Elems(ranked[..n])
      ensures y in keys - Elems(ranked[n..])
    {
      var a :| 0 <= a < n && ranked[..n][a] == y;
      assert ranked[a] == y;
      assert forall b | 0 <= b < |ranked| - n :: ranked[n..][b] == ranked[n + b] != y;
    }
  }

  /** In a newest-first ranking cut at `n`, every kept entry is at least as recent as every cut one. */
  lemma CutKeepsNewest(ranked: seq<string>, n: nat, stamp: map<string, nat>)
    requires n <= |ranked| && NewestFirst(ranked, stamp)
    ensures forall k, j | k in Elems(ranked[..n]) && j in Elems(ranked[n..]) :: stamp[k] >= stamp[j]
  {
    forall k, j | k in Elems(ranked[..n]) && j in Elems(ranked[n..])
      ensures stamp[k] >= stamp[j]
    {
      NewerSurvives(ranked, n, stamp, k, j);
    }
  }

  /** In a newest-first ranking cut at `n`, a kept entry is at least as recent as a cut one. */
  lemma NewerSurvives(ranked: seq<string>, n: nat, stamp: map<string, nat>, k: string, j: string)
    requires n <= |ranked| && NewestFirst(ranked, stamp)
    requires k in ranked[..n] && j in ranked[n..]
    ensures stamp[k] >= stamp[j]
  {
    var a :| 0 <= a < n && ranked[..n][a] == k;
    var b :| 0 <= b < |ranked| - n && ranked[n..][b] == j;
    assert ranked[a] == k && ranked[n + b] == j;
  }
}
