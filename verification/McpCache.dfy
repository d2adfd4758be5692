/**
 The MCP tools over the two-level cache: `InProcessMcpToolExecutor` of `src/handler.rs` as the
 executor of `src/mcp.rs`. Every call sees its own embedding, clock reading and L1a evictions.
 */
module McpCache {
  import opened Utils
  import opened Json
  import opened Mcp
  import CacheScope
  import McpInterleaving
  import TwoLevelCache

  /** What the calls meet, by the number of the call: embeddings, clock readings, and keys L1a drops. */
  datatype World = World(
    setup: TwoLevelCache.Setup,
    embed: (nat, string) -> Option<seq<real>>,
    clock: nat -> nat,
    forget: nat -> set<string>)

  /** The caches and the number of calls made. */
  datatype State = State(caches: TwoLevelCache.Caches, calls: nat)

  function Begin(w: World, st: State): State
  {
    State(st.caches.(exact := st.caches.exact - w.forget(st.calls + 1)), st.calls + 1)
  }

  function Lookup(w: World, st: State, prompt: string): (State, Result<Option<string>, string>)
  {
    var s := Begin(w, st);
    var http := TwoLevelCache.LookupIn(w.setup, s.caches, TwoLevelCache.LookupBody(prompt), map[],
                                       w.embed(s.calls, prompt), w.clock(s.calls));
    (s, TwoLevelCache.ReadLookup(http))
  }

  function Store(w: World, st: State, prompt: string, response: string, model: string): (State, Result<(), string>)
  {
    var s := Begin(w, st);
    var (caches, r) := TwoLevelCache.McpStored(w.setup, s.caches, prompt, response, model, w.embed(s.calls, prompt),
                                               w.clock(s.calls));
    (s.(caches := caches), match r case Some(result) => result case None => Err("the handler panicked"))
  }

  function CacheExecutor(w: World): Executor<State>
  {
    Executor((st: State, p: string) => Lookup(w, st, p),
             (st: State, p: string, r: string, m: string) => Store(w, st, p, r, m))
  }

  function Key(prompt: string): string { CacheScope.KeyInput("native", prompt, None) }

  predicate Stores(msg: Json, prompt: string)
  {
    var job := MessageJob(msg);
    job.Some? && job.value.Store? && job.value.prompt == prompt
  }

  /** L1a holds a value under the prompt's key. */
  predicate Holds(st: State, prompt: string, value: string)
  {
    Key(prompt) in st.caches.exact && st.caches.exact[Key(prompt)] == value
  }

  /** None of the calls from one state to another finds the key dropped. */
  ghost predicate Retained(w: World, prompt: string, first: nat, last: nat)
  {
    forall t :: first < t <= last ==> Key(prompt) !in w.forget(t)
  }

  lemma KeysDiffer(p: string, q: string)
    ensures Key(p) == Key(q) <==> p == q
  {
    CacheScope.KeysCollide("native", p, None, q, None);
  }

  lemma LookupKeeps(w: World, st: State, p: string, prompt: string, value: string)
    requires Holds(st, prompt, value)
    ensures var st' := Lookup(w, st, p).0;
            st'.calls == st.calls + 1 && (Key(prompt) !in w.forget(st.calls + 1) ==> Holds(st', prompt, value))
  {
  }

  lemma StoreKeeps(w: World, st: State, p: string, r: string, m: string, prompt: string,
                   value: string)
    requires Holds(st, prompt, value) && p != prompt
    ensures var st' := Store(w, st, p, r, m).0;
            st'.calls == st.calls + 1 && (Key(prompt) !in w.forget(st.calls + 1) ==> Holds(st', prompt, value))
  {
    KeysDiffer(p, prompt);
    StoreIs(w, st, p, r, m);
  }

  lemma StoreIs(w: World, st: State, p: string, r: string, m: string)
    ensures var s, st' := Begin(w, st), Store(w, st, p, r, m).0;
            && st'.calls == s.calls
            && st'.caches.exact ==
               if ByteLen(TwoLevelCache.StoreBody(p, r, m)) > TwoLevelCache.MAX_STORE_BODY then s.caches.exact
               else s.caches.exact[Key(p) := TwoLevelCache.StoredJson(r, m)]
  {
    var s := Begin(w, st);
    TwoLevelCache.McpStoredIs(w.setup, s.caches, p, r, m, w.embed(s.calls, p), w.clock(s.calls));
  }

  /** The executor's state after a message, by its job. */
  lemma MessageState(w: World, msg: Json, server: Server, version: string, st: State)
    ensures HandleMessage(msg, server, version, CacheExecutor(w), st).0 ==
            match MessageJob(msg)
            case Some(Chat(p)) => Lookup(w, st, p).0
            case Some(Store(p, r, m)) => Store(w, st, p, r, m).0
            case _ => st
  {
    StateAfter(msg, server, version, CacheExecutor(w), st);
  }

  /** A message leaves another prompt's entry alone, unless L1a drops it. */
  lemma MessageKeeps(w: World, msg: Json, server: Server, version: string, st: State,
                     prompt: string, value: string)
    requires Holds(st, prompt, value) && !Stores(msg, prompt)
    ensures var st' := HandleMessage(msg, server, version, CacheExecutor(w), st).0;
            st.calls <= st'.calls && (Retained(w, prompt, st.calls, st'.calls) ==> Holds(st', prompt, value))
  {
    MessageState(w, msg, server, version, st);
    match MessageJob(msg)
    case Some(Chat(p)) => LookupKeeps(w, st, p, prompt, value);
    case Some(Store(p, r, m)) => StoreKeeps(w, st, p, r, m, prompt, value);
    case _ =>
  }

  lemma {:induction false} MessagesKeep(w: World, msgs: seq<Json>, server: Server, version: string, st: State,
                                        prompt: string, value: string)
    requires Holds(st, prompt, value)
    requires forall i :: 0 <= i < |msgs| ==> !Stores(msgs[i], prompt)
    ensures var st' := HandleAll(msgs, server, version, CacheExecutor(w), st).0;
            st.calls <= st'.calls && (Retained(w, prompt, st.calls, st'.calls) ==> Holds(st', prompt, value))
  {
    if msgs == [] {
    } else {
      var init, last := msgs[..|msgs| - 1], msgs[|msgs| - 1];
      var mid := HandleAll(init, server, version, CacheExecutor(w), st).0;
      MessagesKeep(w, init, server, version, st, prompt, value);
      var end := HandleMessage(last, server, version, CacheExecutor(w), mid).0;
      assert HandleAll(msgs, server, version, CacheExecutor(w), st).0 == end;
      if Holds(mid, prompt, value) {
        MessageKeeps(w, last, server, version, mid, prompt, value);
      } else {
        CallsGrow(w, last, server, version, mid);
      }
    }
  }

  lemma CallsGrow(w: World, msg: Json, server: Server, version: string, st: State)
    ensures st.calls <= HandleMessage(msg, server, version, CacheExecutor(w), st).0.calls
  {
    MessageState(w, msg, server, version, st);
  }

  /** A store call that fits leaves its text in L1a. */
  lemma StoreHolds(w: World, msg: Json, p: string, r: string, m: string, server: Server,
                   version: string, st: State)
    requires MessageJob(msg) == Some(Job.Store(p, r, m))
    requires ByteLen(TwoLevelCache.StoreBody(p, r, m)) <= TwoLevelCache.MAX_STORE_BODY
    ensures Holds(HandleMessage(msg, server, version, CacheExecutor(w), st).0, p, TwoLevelCache.StoredJson(r, m))
  {
    StoreIs(w, st, p, r, m);
    MessageState(w, msg, server, version, st);
  }

  /**
   Store a text through MCP, exchange any messages, on any connections, that do not store for
   that prompt again, then chat: as long as L1a retains the key, the chat is answered with the
   stored text verbatim if and only if prompt and text are within the read limits; otherwise
   the answer is an error.
   */
  lemma {:induction false} StoreThenChat(w: World, store: Json, between: seq<Json>, chat: Json, p: string, r: string,
                                         m: string,
                                         server: Server, version: string, st: State)
    requires MessageJob(store) == Some(Job.Store(p, r, m)) && MessageJob(chat) == Some(Chat(p))
    requires ByteLen(TwoLevelCache.StoreBody(p, r, m)) <= TwoLevelCache.MAX_STORE_BODY
    requires forall i :: 0 <= i < |between| ==> !Stores(between[i], p)
    requires var ex := CacheExecutor(w);
             var stored := HandleMessage(store, server, version, ex, st).0;
             Retained(w, p, stored.calls, HandleAll(between, server, version, ex, stored).0.calls + 1)
    ensures var ex := CacheExecutor(w);
            var stored := HandleMessage(store, server, version, ex, st).0;
            var reply := HandleMessage(chat, server, version, ex, HandleAll(between, server, version, ex, stored).0).1;
            && reply.Some?
            && (reply.value == ToolResult(AnswerId(chat), r, false) <==> TwoLevelCache.Readable(p, r, m))
            && (Failed(reply.value) <==> !TwoLevelCache.Readable(p, r, m))
  {
    var ex := CacheExecutor(w);
    var stored := HandleMessage(store, server, version, ex, st).0;
    var now := HandleAll(between, server, version, ex, stored).0;
    StoreHolds(w, store, p, r, m, server, version, st);
    MessagesKeep(w, between, server, version, stored, p, TwoLevelCache.StoredJson(r, m));
    JobTexts(JsonOr(Get(store, "params"), Obj([])));
    ChatAfter(w, chat, p, r, m, server, version, now);
  }

  lemma JobTexts(params: Json)
    ensures JobOf(params).Store? ==> JobOf(params).prompt != "" && JobOf(params).response != ""
  {
  }

  lemma ChatAfter(w: World, chat: Json, p: string, r: string, m: string, server: Server,
                  version: string, st: State)
    requires MessageJob(chat) == Some(Chat(p)) && p != "" && r != ""
    requires Holds(st, p, TwoLevelCache.StoredJson(r, m)) && Key(p) !in w.forget(st.calls + 1)
    ensures var reply := HandleMessage(chat, server, version, CacheExecutor(w), st).1;
            && reply.Some?
            && (reply.value == ToolResult(AnswerId(chat), r, false) <==> TwoLevelCache.Readable(p, r, m))
            && (Failed(reply.value) <==> !TwoLevelCache.Readable(p, r, m))
  {
    var ex := CacheExecutor(w);
    LookupAfter(w, p, r, m, st);
    assert ex.lookup(st, p) == Lookup(w, st, p);
    ChatReplies(chat, p, server, version, ex, st);
    ToolResultSays(AnswerId(chat), r, false);
  }

  lemma LookupAfter(w: World, p: string, r: string, m: string, st: State)
    requires p != "" && r != ""
    requires Holds(st, p, TwoLevelCache.StoredJson(r, m)) && Key(p) !in w.forget(st.calls + 1)
    ensures if TwoLevelCache.Readable(p, r, m) then Lookup(w, st, p).1 == Ok(Some(r)) else Lookup(w, st, p).1.Err?
  {
    var s := Begin(w, st);
    TwoLevelCache.StoreThenChat(w.setup, s.caches, p, r, m, w.embed(s.calls, p), w.clock(s.calls));
  }

  // --------------------------------------------------------- every schedule

  type System = McpInterleaving.System<State>
  type Log = seq<McpInterleaving.Event>

  function GatewayOf(w: World, server: Server): McpInterleaving.Gateway<State>
  {
    McpInterleaving.Gateway(server, CacheExecutor(w))
  }

  /** The caches after the dispatches of a log. */
  function StateAfterLog(w: World, server: Server, st: State, log: Log): State
  {
    McpInterleaving.HandleMany(GatewayOf(w, server), McpInterleaving.Messages(log), st).0
  }

  lemma {:induction false} MessagesConcat(x: Log, y: Log)
    ensures McpInterleaving.Messages(x + y) == McpInterleaving.Messages(x) + McpInterleaving.Messages(y)
  {
    if y == [] {
      assert x + y == x;
    } else {
      var init, last := y[..|y| - 1], y[|y| - 1];
      MessagesConcat(x, init);
      McpInterleaving.MessagesPush(x + init, last);
      McpInterleaving.MessagesPush(init, last);
      assert init + [last] == y && (x + init) + [last] == x + y;
    }
  }

  lemma {:induction false} HandleConcat(msgs: seq<Json>, more: seq<Json>, server: Server, version: string,
                                        ex: Executor<State>, st: State)
    ensures HandleAll(msgs + more, server, version, ex, st).0 ==
            HandleAll(more, server, version, ex, HandleAll(msgs, server, version, ex, st).0).0
  {
    if more == [] {
      assert msgs + more == msgs;
    } else {
      var init := more[..|more| - 1];
      HandleConcat(msgs, init, server, version, ex, st);
      assert (msgs + more)[..|msgs + more| - 1] == msgs + init;
    }
  }

  lemma {:induction false} MessagesBetween(log: Log, prompt: string)
    requires forall k :: 0 <= k < |log| && log[k].Dispatched? ==> !Stores(log[k].msg, prompt)
    ensures var msgs := McpInterleaving.Messages(log);
            forall k :: 0 <= k < |msgs| ==> !Stores(msgs[k], prompt)
  {
    if log == [] {
    } else {
      var init, last := log[..|log| - 1], log[|log| - 1];
      MessagesBetween(init, prompt);
      McpInterleaving.MessagesPush(init, last);
      assert init + [last] == log;
    }
  }

  /** The state at a later point of a log, from the state after one of its dispatches. */
  lemma {:induction false} StateBetween(w: World, server: Server, st: State, log: Log, a: nat, d: nat)
    requires a < d <= |log| && log[a].Dispatched?
    ensures var ex, version := CacheExecutor(w), STREAMABLE_HTTP_PROTOCOL_VERSION;
            var before, between := StateAfterLog(w, server, st, log[..a]), McpInterleaving.Messages(log[a + 1..d]);
            var stored := HandleMessage(log[a].msg, server, version, ex, before).0;
            && StateAfterLog(w, server, st, log[..a + 1]) == stored
            && StateAfterLog(w, server, st, log[..d]) == HandleAll(between, server, version, ex, stored).0
  {
    var g := GatewayOf(w, server);
    var first := log[..a + 1];
    assert first == log[..a] + [log[a]] && log[..d] == first + log[a + 1..d];
    McpInterleaving.MessagesPush(log[..a], log[a]);
    McpInterleaving.HandlePush(g, McpInterleaving.Messages(log[..a]), log[a].msg, st);
    MessagesConcat(first, log[a + 1..d]);
    HandleConcat(McpInterleaving.Messages(first), McpInterleaving.Messages(log[a + 1..d]), server,
                 STREAMABLE_HTTP_PROTOCOL_VERSION, CacheExecutor(w), st);
  }

  /**
   The same in every interleaving of POSTs and DELETEs: between the dispatch of the store and
   that of the chat any messages of any other POSTs may be dispatched that do not store for
   that prompt. The reply is among those of the chat's own POST.
   */
  lemma {:induction false} StoreThenChatInterleaved(w: World, server: Server, st: State,
                                                    schedule: seq<McpInterleaving.Choice>, a: nat, d: nat,
                                                    p: string, r: string, m: string)
    requires var log := McpInterleaving.Execute(GatewayOf(w, server), st, schedule).log;
             && a < d < |log| && log[a].Dispatched? && log[d].Dispatched?
             && MessageJob(log[a].msg) == Some(Job.Store(p, r, m)) && MessageJob(log[d].msg) == Some(Chat(p))
             && (forall k :: a < k < d && log[k].Dispatched? ==> !Stores(log[k].msg, p))
             && Retained(w, p, StateAfterLog(w, server, st, log[..a + 1]).calls,
                         StateAfterLog(w, server, st, log[..d]).calls + 1)
    requires ByteLen(TwoLevelCache.StoreBody(p, r, m)) <= TwoLevelCache.MAX_STORE_BODY
    ensures var g := GatewayOf(w, server);
            var s := McpInterleaving.Execute(g, st, schedule);
            var chat, reply := s.log[d], McpInterleaving.ReplyTo(g, st, s.log[..d], s.log[d].msg);
            && reply.Some? && chat.post < |s.posts| && reply.value in s.posts[chat.post].replies
            && (reply.value == ToolResult(AnswerId(chat.msg), r, false) <==> TwoLevelCache.Readable(p, r, m))
            && (Failed(reply.value) <==> !TwoLevelCache.Readable(p, r, m))
  {
    var g := GatewayOf(w, server);
    var s := McpInterleaving.Execute(g, st, schedule);
    var log, between := s.log, McpInterleaving.Messages(s.log[a + 1..d]);
    StateBetween(w, server, st, log, a, d);
    MessagesBetween(log[a + 1..d], p);
    StoreThenChat(w, log[a].msg, between, log[d].msg, p, r, m, server, STREAMABLE_HTTP_PROTOCOL_VERSION,
                  StateAfterLog(w, server, st, log[..a]));
    McpInterleaving.EveryInterleaving(g, st, schedule);
    ReplyAmong(g, st, s, d);
  }

  lemma ReplyAmong(g: McpInterleaving.Gateway<State>, st: State, s: System, d: nat)
    requires McpInterleaving.Sound(g, st, s) && d < |s.log| && s.log[d].Dispatched?
    ensures var i, reply := s.log[d].post, McpInterleaving.ReplyTo(g, st, s.log[..d], s.log[d].msg);
            i < |s.posts| && (reply.Some? ==> reply.value in s.posts[i].replies)
  {
    var i, reply := s.log[d].post, McpInterleaving.ReplyTo(g, st, s.log[..d], s.log[d].msg);
    McpInterleaving.ReplyAt(g, st, s.log, d);
    if reply.Some? {
      var before := McpInterleaving.RepliesOf(g, st, s.log[..d], i);
      assert (before + [reply.value])[|before|] == reply.value;
      assert s.posts[i].replies[|before|] == reply.value;
    }
  }
}
