/**
 The streamable HTTP endpoint of `src/handler.rs` over the session registry of `src/mcp.rs`
 (Session Management of the MCP specification, revision 2025-03-26). Fresh session ids,
 which the source draws as random UUIDs, are parameters that have not been minted before.
 */
module McpSessions {
  import opened Utils
  import opened Json
  import opened JsonText
  import opened Mcp
  import EventStream

  const MAX_POST_BODY := 1024 * 256

  /** A response: its status, JSON payload, whether it is sent as an event stream, and session header. */
  datatype Response = Response(status: nat, payload: Option<Json>, sse: bool, session: Option<string>)

  function Bare(status: nat): Response { Response(status, None, false, None) }

  function MessagesOf(payload: Json): seq<Json> { if payload.Arr? then payload.items else [payload] }

  predicate AnyRequest(msgs: seq<Json>) { exists i :: 0 <= i < |msgs| && IsRequest(msgs[i]) }

  predicate AnyInitialize(msgs: seq<Json>)
  {
    exists i :: 0 <= i < |msgs| && AsStr(Get(msgs[i], "method")) == Some("initialize")
  }

  predicate AnyAnswered(msgs: seq<Json>) { exists i :: 0 <= i < |msgs| && Answered(msgs[i]) }

  predicate Distinct(s: seq<string>) { forall i, j :: 0 <= i < j < |s| ==> s[i] != s[j] }

  class Registry {
    var sessions: set<string>
    ghost var minted: set<string>
    ghost var removed: seq<string>

    /** The live sessions are those minted and not removed, and none was removed twice. */
    ghost predicate Valid()
      reads this
    {
      && sessions == minted - (set id | id in removed)
      && (forall i :: 0 <= i < |removed| ==> removed[i] in minted)
      && Distinct(removed)
    }

    constructor ()
      ensures Valid() && sessions == {} && minted == {} && removed == []
    {
      sessions, minted, removed := {}, {}, [];
    }

    method Register(id: string)
      requires Valid() && id !in minted
      modifies this
      ensures Valid() && minted == old(minted) + {id} && removed == old(removed) && sessions == old(sessions) + {id}
    {
      sessions := sessions + {id};
      minted := minted + {id};
    }

    /** True exactly for an id that was minted and has not been removed since. */
    method Exists(id: string) returns (b: bool)
      requires Valid()
      ensures b <==> id in minted && id !in removed
    {
      b := id in sessions;
    }

    /** Succeeds exactly for a live session, so at most once for each minted id. */
    method Remove(id: string) returns (b: bool)
      requires Valid()
      modifies this
      ensures Valid() && minted == old(minted)
      ensures b == (id in old(sessions)) && sessions == old(sessions) - {id}
      ensures b ==> id in minted && id !in old(removed)
      ensures removed == if b then old(removed) + [id] else old(removed)
    {
      b := id in sessions;
      sessions := sessions - {id};
      if b {
        removed := removed + [id];
      }
    }

    method Get(header: Option<string>) returns (r: Response)
      requires Valid()
      ensures r.status == if header.None? then 400
                          else if header.value in minted && header.value !in removed then 200 else 404
      ensures r.status == 200 ==> r.sse && r.session == header
    {
      if header.None? {
        return Bare(400);
      }
      var live := Exists(header.value);
      r := if live then Response(200, None, true, header) else Bare(404);
    }

    method Delete(header: Option<string>) returns (r: Response)
      requires Valid()
      modifies this
      ensures Valid() && minted == old(minted)
      ensures r == Bare(if header.None? then 400 else if header.value in old(sessions) then 204 else 404)
      ensures sessions == if header.Some? then old(sessions) - {header.value} else old(sessions)
      ensures removed == if r.status == 204 then old(removed) + [header.value] else old(removed)
    {
      if header.None? {
        return Bare(400);
      }
      var gone := Remove(header.value);
      r := Bare(if gone then 204 else 404);
    }

    /**
     The POST endpoint. Messages reach the dispatcher only through an initialize request,
     which mints a session, or under a header that names a live session.
     */
    method Post<S>(body: string, header: Option<string>, wantsSse: bool, freshId: string,
                   server: Server, ex: Executor<S>, st: S) returns (r: Response, st': S)
      requires Valid() && freshId !in minted
      modifies this
      ensures Valid() && removed == old(removed)
      ensures ByteLen(body) > 262_144 || FromText(body).None? ==>
                r == Bare(400) && st' == st && sessions == old(sessions) && minted == old(minted)
      ensures ByteLen(body) <= 262_144 && FromText(body).Some? ==>
                var payload := FromText(body).value;
                var msgs := MessagesOf(payload);
                if !AnyRequest(msgs) then
                  r == Bare(202) && st' == st && sessions == old(sessions) && minted == old(minted)
                else if AnyInitialize(msgs) then
                  && minted == old(minted) + {freshId} && sessions == old(sessions) + {freshId}
                  && (r, st') == Dispatched(payload, wantsSse, Some(freshId), server, ex, st)
                else
                  && sessions == old(sessions) && minted == old(minted)
                  && if header.None? then r == Bare(400) && st' == st
                     else if header.value !in old(sessions) then r == Bare(404) && st' == st
                     else (r, st') == Dispatched(payload, wantsSse, None, server, ex, st)
    {
      if ByteLen(body) > MAX_POST_BODY {
        return Bare(400), st;
      }
      var parsed := FromText(body);
      if parsed.None? {
        return Bare(400), st;
      }
      var payload := parsed.value;
      var msgs := MessagesOf(payload);
      if !AnyRequest(msgs) {
        return Bare(202), st;
      }
      var initialize := AnyInitialize(msgs);
      if initialize {
        Register(freshId);
      } else {
        if header.None? {
          return Bare(400), st;
        }
        var live := Exists(header.value);
        if !live {
          return Bare(404), st;
        }
      }
      st' := st;
      var replies: seq<Json> := [];
      for i := 0 to |msgs|
        invariant (st', replies) == HandleAll(msgs[..i], server, STREAMABLE_HTTP_PROTOCOL_VERSION, ex, st)
      {
        assert msgs[..i + 1][..i] == msgs[..i];
        var (s, reply) := HandleMessage(msgs[i], server, STREAMABLE_HTTP_PROTOCOL_VERSION, ex, st');
        st' := s;
        if reply.Some? {
          replies := replies + [reply.value];
        } else {
          assert replies + [] == replies;
        }
      }
      assert msgs[..|msgs|] == msgs;
      if replies == [] {
        return Bare(202), st';
      }
      r := Response(200, Some(if payload.Arr? then Arr(replies) else replies[0]), wantsSse,
                    if initialize then Some(freshId) else None);
    }
  }

  /** The response to messages that are dispatched, and the executor's state afterwards. */
  function Dispatched<S>(payload: Json, wantsSse: bool, session: Option<string>, server: Server, ex: Executor<S>,
                         st: S): (Response, S)
  {
    var (st', replies) := HandleAll(MessagesOf(payload), server, STREAMABLE_HTTP_PROTOCOL_VERSION, ex, st);
    (if replies == [] then Bare(202)
     else Response(200, Some(if payload.Arr? then Arr(replies) else replies[0]), wantsSse, session), st')
  }

  /** A batch sends each of its elements, anything else itself. */
  predicate Sends(payload: Json, msg: Json) { if payload.Arr? then msg in payload.items else msg == payload }

  /** A request is any message with a text for its method, an initialize request one with that text. */
  lemma RequestsIff(payload: Json)
    ensures AnyRequest(MessagesOf(payload)) <==>
            exists msg, name :: Sends(payload, msg) && Get(msg, "method") == Some(Str(name))
    ensures AnyInitialize(MessagesOf(payload)) <==>
            exists msg :: Sends(payload, msg) && Get(msg, "method") == Some(Str("initialize"))
  {
    var msgs := MessagesOf(payload);
    forall msg ensures msg in msgs <==> Sends(payload, msg) {
      assert !payload.Arr? ==> msgs[0] == payload;
    }
    if AnyRequest(msgs) {
      var i :| 0 <= i < |msgs| && IsRequest(msgs[i]);
      assert Sends(payload, msgs[i]) && Get(msgs[i], "method") == Some(Str(Method(msgs[i])));
    }
    if AnyInitialize(msgs) {
      var i :| 0 <= i < |msgs| && AsStr(Get(msgs[i], "method")) == Some("initialize");
      assert Sends(payload, msgs[i]);
    }
  }

  /** The response to an initialize request on its own, whatever else the message holds. */
  lemma {:induction false} InitializeAnswer<S>(msg: Json, wantsSse: bool, session: string, server: Server,
                                               ex: Executor<S>, st: S)
    requires Get(msg, "method") == Some(Str("initialize")) && Get(msg, "id").Some?
    ensures var (r, st') := Dispatched(msg, wantsSse, Some(session), server, ex, st);
            && st' == st && r.status == 200 && r.sse == wantsSse && r.session == Some(session)
            && Get(r.payload.value, "id") == Get(msg, "id")
            && Then(Get(r.payload.value, "result"), "protocolVersion") == Some(Str("2025-03-26"))
  {
    var msgs := [msg];
    assert MessagesOf(msg) == msgs && msgs[..|msgs| - 1] == [];
    assert HandleAll(msgs[..|msgs| - 1], server, "2025-03-26", ex, st) == (st, []);
    ReplyOf(msg, server, "2025-03-26", ex, st);
    ReplyContent(msg, server, "2025-03-26", ex, st);
  }

  lemma {:induction false} AnsweredIffIds(msgs: seq<Json>)
    ensures AnyAnswered(msgs) <==> AnswerIds(msgs) != []
  {
    if msgs == [] {
    } else {
      var init, last := msgs[..|msgs| - 1], msgs[|msgs| - 1];
      AnsweredIffIds(init);
      assert AnyAnswered(msgs) <==> AnyAnswered(init) || Answered(last) by {
        assert forall i :: 0 <= i < |init| ==> init[i] == msgs[i];
      }
    }
  }

  /**
   A client learns the session minted for its initialize request exactly if some message of
   the POST is answered; otherwise the session exists but its id is never sent.
   */
  lemma SessionIsAnnounced<S>(payload: Json, wantsSse: bool, id: string, server: Server,
                              ex: Executor<S>, st: S)
    ensures var r := Dispatched(payload, wantsSse, Some(id), server, ex, st).0;
            && (r.session == Some(id) <==> AnyAnswered(MessagesOf(payload)))
            && (!AnyAnswered(MessagesOf(payload)) ==> r == Bare(202))
  {
    BatchReplies(MessagesOf(payload), server, STREAMABLE_HTTP_PROTOCOL_VERSION, ex, st);
    AnsweredIffIds(MessagesOf(payload));
  }

  /** An initialize message without an id is one that mints a session nobody is told about. */
  lemma SilentInitialize<S>(wantsSse: bool, id: string, server: Server, ex: Executor<S>, st: S)
    ensures var payload := Obj([Field("method", Str("initialize"))]);
            && AnyRequest(MessagesOf(payload)) && AnyInitialize(MessagesOf(payload))
            && Dispatched(payload, wantsSse, Some(id), server, ex, st).0 == Bare(202)
  {
    var fs := [Field("method", Str("initialize"))];
    var payload := Obj(fs);
    FindAt(fs, "method", 0);
    FindNone(fs, "id");
    var msgs := MessagesOf(payload);
    assert IsRequest(msgs[0]) && AsStr(Get(msgs[0], "method")) == Some("initialize");
    assert !Answered(msgs[0]);
    SessionIsAnnounced(payload, wantsSse, id, server, ex, st);
  }

  // ------------------------------------------------------ what a client reads

  /** The body of a response: one event named `message`, or plain JSON. */
  function Body(r: Response): string
  {
    if r.payload.None? then ""
    else if r.sse then EventStream.StreamText([EventStream.Frame(Some("message"), Print(r.payload.value))])
    else Print(r.payload.value)
  }

  /** The client's reading of a body, which must be a single event if it is a stream. */
  function Received(sse: bool, body: string): Option<Json>
  {
    if !sse then Parse(body)
    else
      var events := EventStream.ReadStream(body);
      if |events| == 1 && events[0].name == "message" then Parse(events[0].data) else None
  }

  lemma BodyReads(r: Response)
    requires r.payload.Some? && Valid(r.payload.value)
    ensures Received(r.sse, Body(r)) == r.payload
  {
    var j := r.payload.value;
    PrintParse(j);
    if r.sse {
      var frames := [EventStream.Frame(Some("message"), Print(j))];
      PrintClean(j, "");
      assert Print(j) != "" by { FirstChar(j, ""); }
      EventStream.StreamRoundTrip(frames);
    }
  }

  lemma {:induction false} OkValid(id: Json, result: Json)
    requires Valid(id) && Valid(result)
    ensures Valid(JsonRpcOk(id, result))
  {
    var fs := JsonRpcOk(id, result).fields;
    assert forall i :: 0 <= i < |fs| ==> Valid(fs[i].value);
  }

  lemma {:induction false} ErrorValid(id: Json, code: int, message: string)
    requires Valid(id)
    ensures Valid(JsonRpcError(id, code, message))
  {
    var fs := JsonRpcError(id, code, message).fields;
    assert Valid(fs[0].value);
    assert forall i :: 0 <= i < |fs| ==> Valid(fs[i].value);
  }

  lemma {:induction false} ToolResultValid(id: Json, text: string, isError: bool)
    requires Valid(id)
    ensures Valid(ToolResult(id, text, isError))
  {
    assert Valid(TextContent(text));
    var content := ToolContent(text, isError);
    assert Valid(content.fields[0].value);
    OkValid(id, content);
  }

  lemma InitializeValid(server: Server, version: string)
    ensures Valid(InitializeResult(server, version))
  {
    var fs := InitializeResult(server, version).fields;
    assert Valid(Obj([]));
    assert Valid(fs[0].value) && Valid(fs[2].value);
    assert forall i :: 0 <= i < |fs| ==> Valid(fs[i].value);
  }

  lemma ToolReply<S>(id: Option<Json>, params: Json, ex: Executor<S>, st: S) returns (text: string,
                     isError: bool)
    requires StrOr(Get(params, "name"), "") in {"isartor_chat", "isartor_cache_store"}
    ensures HandleToolsCall(id, params, ex, st).1 == ToolResult(JsonOr(id, Null), text, isError)
  {
    var reply := HandleToolsCall(id, params, ex, st).1;
    var content := reply.fields[2].value.fields;
    text, isError := content[0].value.items[0].fields[0].value.s, content[1].value.b;
  }

  lemma ToolsCallValid<S>(id: Option<Json>, params: Json, ex: Executor<S>, st: S)
    requires id.Some? ==> Valid(id.value)
    ensures Valid(HandleToolsCall(id, params, ex, st).1)
  {
    var i, name, reply := JsonOr(id, Null), StrOr(Get(params, "name"), ""), HandleToolsCall(id, params, ex, st).1;
    if name == "isartor_chat" || name == "isartor_cache_store" {
      var text, isError := ToolReply(id, params, ex, st);
      ToolResultValid(i, text, isError);
    } else {
      ErrorValid(i, -32602, "Unknown tool: " + name);
    }
  }

  lemma {:induction false} ReplyValid<S>(msg: Json, server: Server, version: string, ex: Executor<S>, st: S)
    requires Valid(msg) && Valid(server.tools)
    ensures var reply := HandleMessage(msg, server, version, ex, st).1; reply.Some? ==> Valid(reply.value)
  {
    ThenValid(Some(msg), "id");
    var id := AnswerId(msg);
    assert Valid(id) && Valid(Obj([])) && Valid(Obj([Field("tools", server.tools)]));
    match Method(msg)
    case "initialize" => InitializeValid(server, version); OkValid(id, InitializeResult(server, version));
    case "notifications/initialized" =>
    case "initialized" =>
    case "ping" => OkValid(id, Obj([]));
    case "tools/list" => OkValid(id, Obj([Field("tools", server.tools)]));
    case "tools/call" => ToolsCallValid(Id(msg), JsonOr(Get(msg, "params"), Obj([])), ex, st);
    case "shutdown" => OkValid(id, Obj([]));
    case _ => ErrorValid(id, -32601, "Method not found");
  }

  lemma {:induction false} RepliesValid<S>(msgs: seq<Json>, server: Server, version: string, ex: Executor<S>, st: S)
    requires ValidItems(msgs) && Valid(server.tools)
    ensures ValidItems(HandleAll(msgs, server, version, ex, st).1)
  {
    if msgs == [] {
    } else {
      var init, last := msgs[..|msgs| - 1], msgs[|msgs| - 1];
      RepliesValid(init, server, version, ex, st);
      ReplyValid(last, server, version, ex, HandleAll(init, server, version, ex, st).0);
    }
  }

  /**
   From the bytes of the response, as a stream or not, a client reads exactly one JSON-RPC
   response for each answered message, in message order and with that message's id.
   */
  lemma {:induction false} ClientReadsReplies<S>(payload: Json, wantsSse: bool, session: Option<string>,
                                                 server: Server, ex: Executor<S>, st: S)
    requires Valid(payload) && Valid(server.tools)
    ensures var r := Dispatched(payload, wantsSse, session, server, ex, st).0;
            var ids, got := AnswerIds(MessagesOf(payload)), Received(r.sse, Body(r));
            if ids == [] then r == Bare(202) && Body(r) == ""
            else
              && r.status == 200 && r.session == session && got.Some?
              && if payload.Arr? then
                   && got.value.Arr? && |got.value.items| == |ids|
                   && forall i :: 0 <= i < |ids| ==> IsResponse(got.value.items[i], ids[i])
                 else IsResponse(got.value, ids[0])
  {
    var msgs, r := MessagesOf(payload), Dispatched(payload, wantsSse, session, server, ex, st).0;
    BatchReplies(msgs, server, STREAMABLE_HTTP_PROTOCOL_VERSION, ex, st);
    RepliesValid(msgs, server, STREAMABLE_HTTP_PROTOCOL_VERSION, ex, st);
    if r.payload.Some? {
      BodyReads(r);
    }
  }
}
