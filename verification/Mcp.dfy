/**
 `src/mcp.rs`: dispatch of JSON-RPC messages (JSON-RPC 2.0, sections 4 to 6). The tool
 executor is a pair of functions that may keep a state of type `S`.
 */
module Mcp {
  import opened Utils
  import opened Json

  const STREAMABLE_HTTP_PROTOCOL_VERSION := "2025-03-26"

  datatype Executor<!S> = Executor(
    lookup: (S, string) -> (S, Result<Option<string>, string>),
    store: (S, string, string, string) -> (S, Result<(), string>))

  /** What the binary contributes: its version and its tool definitions. */
  datatype Server = Server(version: string, tools: Json)

  // ------------------------------------------------------- message building

  function JsonRpcOk(id: Json, result: Json): Json
  {
    Obj([Field("id", id), Field("jsonrpc", Str("2.0")), Field("result", result)])
  }

  function JsonRpcError(id: Json, code: int, message: string): Json
  {
    Obj([Field("error", Obj([Field("code", Int(code)), Field("message", Str(message))])),
         Field("id", id), Field("jsonrpc", Str("2.0"))])
  }

  function InitializeResult(server: Server, protocolVersion: string): Json
  {
    Obj([Field("capabilities", Obj([Field("tools", Obj([]))])),
         Field("protocolVersion", Str(protocolVersion)),
         Field("serverInfo", Obj([Field("name", Str("isartor")), Field("version", Str(server.version))]))])
  }

  function TextContent(text: string): Json { Obj([Field("text", Str(text)), Field("type", Str("text"))]) }

  function ToolContent(text: string, isError: bool): Json
  {
    Obj([Field("content", Arr([TextContent(text)])), Field("isError", Bool(isError))])
  }

  function ToolResult(id: Json, text: string, isError: bool): Json { JsonRpcOk(id, ToolContent(text, isError)) }

  // --------------------------------------------------------------- dispatch

  function Id(msg: Json): Option<Json> { Get(msg, "id") }

  predicate IsRequest(msg: Json) { AsStr(Get(msg, "method")).Some? }

  /** The method name, empty if there is none. */
  function Method(msg: Json): string { StrOr(Get(msg, "method"), "") }

  function StrOr(o: Option<Json>, fallback: string): string
  {
    match AsStr(o) case Some(s) => s case None => fallback
  }

  function JsonOr(o: Option<Json>, fallback: Json): Json
  {
    match o case Some(j) => j case None => fallback
  }

  function HandleToolsCall<S>(id: Option<Json>, params: Json, ex: Executor<S>, st: S): (S, Json)
  {
    var id := JsonOr(id, Null);
    var name, args := StrOr(Get(params, "name"), ""), JsonOr(Get(params, "arguments"), Obj([]));
    var prompt := StrOr(Get(args, "prompt"), "");
    if name == "isartor_chat" then
      if prompt == "" then (st, ToolResult(id, "Error: prompt is required", true))
      else
        var (st', r) := ex.lookup(st, prompt);
        match r
        case Ok(Some(answer)) => (st', ToolResult(id, answer, false))
        case Ok(None) => (st', ToolResult(id, "", false))
        case Err(e) => (st', ToolResult(id, "Isartor error: " + e, true))
    else if name == "isartor_cache_store" then
      var response, model := StrOr(Get(args, "response"), ""), StrOr(Get(args, "model"), "");
      if prompt == "" || response == "" then (st, ToolResult(id, "Error: prompt and response are required", true))
      else
        var (st', r) := ex.store(st, prompt, response, model);
        match r
        case Ok(_) => (st', ToolResult(id, "Cached successfully", false))
        case Err(e) => (st', ToolResult(id, "Cache store error: " + e, true))
    else (st, JsonRpcError(id, -32602, "Unknown tool: " + name))
  }

  function HandleMessage<S>(msg: Json, server: Server, version: string, ex: Executor<S>, st: S): (S, Option<Json>)
  {
    var id := Id(msg);
    match Method(msg)
    case "initialize" => (st, if id.Some? then Some(JsonRpcOk(id.value, InitializeResult(server, version))) else None)
    case "notifications/initialized" => (st, None)
    case "initialized" => (st, None)
    case "ping" => (st, if id.Some? then Some(JsonRpcOk(id.value, Obj([]))) else None)
    case "tools/list" => (st, if id.Some? then Some(JsonRpcOk(id.value, Obj([Field("tools", server.tools)]))) else None)
    case "tools/call" =>
      var (st', reply) := HandleToolsCall(id, JsonOr(Get(msg, "params"), Obj([])), ex, st);
      (st', Some(reply))
    case "shutdown" => (st, if id.Some? then Some(JsonRpcOk(id.value, Obj([]))) else None)
    case _ => (st, if id.Some? then Some(JsonRpcError(id.value, -32601, "Method not found")) else None)
  }

  /** A batch: the messages in order, and the replies of those that have one. */
  function HandleAll<S>(msgs: seq<Json>, server: Server, version: string, ex: Executor<S>, st: S): (S, seq<Json>)
  {
    if msgs == [] then (st, [])
    else
      var (s1, replies) := HandleAll(msgs[..|msgs| - 1], server, version, ex, st);
      var (s2, reply) := HandleMessage(msgs[|msgs| - 1], server, version, ex, s1);
      (s2, replies + if reply.Some? then [reply.value] else [])
  }

  // ------------------------------------------------------ who gets a reply

  /** Which messages are answered, whatever the executor does. */
  predicate Answered(msg: Json)
  {
    || Method(msg) == "tools/call"
    || (Id(msg).Some? && Method(msg) != "notifications/initialized" && Method(msg) != "initialized")
  }

  /** The id an answer carries. */
  function AnswerId(msg: Json): Json { JsonOr(Id(msg), Null) }

  /** A JSON-RPC 2.0 response: version, id, and either a result or an error with code and message. */
  predicate IsResponse(reply: Json, id: Json)
  {
    && Get(reply, "jsonrpc") == Some(Str("2.0"))
    && Get(reply, "id") == Some(id)
    && (Get(reply, "result").Some? <==> Get(reply, "error").None?)
    && (Get(reply, "error").Some? ==>
          var e := Get(reply, "error");
          Then(e, "code").Some? && Then(e, "code").value.Int? && AsStr(Then(e, "message")).Some?)
  }

  lemma OkIsResponse(id: Json, result: Json)
    ensures IsResponse(JsonRpcOk(id, result), id)
  {
    var fs := JsonRpcOk(id, result).fields;
    FindAt(fs, "id", 0);
    FindAt(fs, "jsonrpc", 1);
    FindAt(fs, "result", 2);
    FindNone(fs, "error");
  }

  lemma ErrorIsResponse(id: Json, code: int, message: string)
    ensures IsResponse(JsonRpcError(id, code, message), id)
  {
    var fs := JsonRpcError(id, code, message).fields;
    FindAt(fs, "error", 0);
    FindAt(fs, "id", 1);
    FindAt(fs, "jsonrpc", 2);
    FindNone(fs, "result");
    FindAt(fs[0].value.fields, "code", 0);
    FindAt(fs[0].value.fields, "message", 1);
  }

  lemma ToolsCallReply<S>(id: Option<Json>, params: Json, ex: Executor<S>, st: S)
    ensures IsResponse(HandleToolsCall(id, params, ex, st).1, JsonOr(id, Null))
  {
    var i := JsonOr(id, Null);
    var name, reply := StrOr(Get(params, "name"), ""), HandleToolsCall(id, params, ex, st).1;
    if name == "isartor_chat" || name == "isartor_cache_store" {
      assert reply == JsonRpcOk(i, reply.fields[2].value);
      OkIsResponse(i, reply.fields[2].value);
    } else {
      ErrorIsResponse(i, -32602, "Unknown tool: " + name);
    }
  }

  /**
   A message is answered exactly if it has an id and is not an initialized notification, or
   is a tools/call; the answer is a JSON-RPC response with the message's id, or null for a
   tools/call that has none.
   */
  lemma ReplyOf<S>(msg: Json, server: Server, version: string, ex: Executor<S>, st: S)
    ensures var reply := HandleMessage(msg, server, version, ex, st).1;
            && (reply.Some? <==> Answered(msg))
            && (reply.Some? ==> IsResponse(reply.value, AnswerId(msg)))
  {
    var id := AnswerId(msg);
    match Method(msg)
    case "initialize" => OkIsResponse(id, InitializeResult(server, version));
    case "notifications/initialized" =>
    case "initialized" =>
    case "ping" => OkIsResponse(id, Obj([]));
    case "tools/list" => OkIsResponse(id, Obj([Field("tools", server.tools)]));
    case "tools/call" => ToolsCallReply(Id(msg), JsonOr(Get(msg, "params"), Obj([])), ex, st);
    case "shutdown" => OkIsResponse(id, Obj([]));
    case _ => ErrorIsResponse(id, -32601, "Method not found");
  }

  /** The ids of the answered messages, in message order. */
  function AnswerIds(msgs: seq<Json>): seq<Json>
  {
    if msgs == [] then []
    else
      var last := msgs[|msgs| - 1];
      AnswerIds(msgs[..|msgs| - 1]) + if Answered(last) then [AnswerId(last)] else []
  }

  /** A batch's replies are one response for each answered message, in message order. */
  lemma {:induction false} BatchReplies<S>(msgs: seq<Json>, server: Server, version: string, ex: Executor<S>, st: S)
    ensures var replies, ids := HandleAll(msgs, server, version, ex, st).1, AnswerIds(msgs);
            |replies| == |ids| && forall i :: 0 <= i < |ids| ==> IsResponse(replies[i], ids[i])
  {
    if msgs == [] {
    } else {
      var init, last := msgs[..|msgs| - 1], msgs[|msgs| - 1];
      BatchReplies(init, server, version, ex, st);
      ReplyOf(last, server, version, ex, HandleAll(init, server, version, ex, st).0);
    }
  }

  /** Only tool calls reach the executor: without one, its state is as before. */
  lemma {:induction false} OnlyToolCallsDispatch<S>(msgs: seq<Json>, server: Server, version: string, ex: Executor<S>,
                                                    st: S)
    requires forall i :: 0 <= i < |msgs| ==> Method(msgs[i]) != "tools/call"
    ensures HandleAll(msgs, server, version, ex, st).0 == st
  {
    if msgs == [] {
    } else {
      OnlyToolCallsDispatch(msgs[..|msgs| - 1], server, version, ex, st);
    }
  }

  /** What the answer to each method says, besides its id; every method has its own. */
  lemma ReplyContent<S>(msg: Json, server: Server, version: string, ex: Executor<S>, st: S)
    requires Id(msg).Some? && Answered(msg) && Method(msg) != "tools/call"
    ensures var reply := HandleMessage(msg, server, version, ex, st).1.value;
            var result, error := Get(reply, "result"), Get(reply, "error");
            match Method(msg)
            case "initialize" =>
              && Then(result, "protocolVersion") == Some(Str(version))
              && Then(result, "capabilities") == Some(Obj([Field("tools", Obj([]))]))
              && Then(Then(result, "serverInfo"), "name") == Some(Str("isartor"))
              && Then(Then(result, "serverInfo"), "version") == Some(Str(server.version))
            case "tools/list" => Then(result, "tools") == Some(server.tools)
            case "ping" => result == Some(Obj([]))
            case "shutdown" => result == Some(Obj([]))
            case _ => Then(error, "code") == Some(Int(-32601))
                      && Then(error, "message") == Some(Str("Method not found"))
  {
    var reply := HandleMessage(msg, server, version, ex, st).1.value;
    match Method(msg) {
      case "initialize" =>
        FindAt(reply.fields, "result", 2);
        var fs := InitializeResult(server, version).fields;
        FindAt(fs, "capabilities", 0);
        FindAt(fs, "protocolVersion", 1);
        FindAt(fs, "serverInfo", 2);
        FindAt(fs[2].value.fields, "name", 0);
        FindAt(fs[2].value.fields, "version", 1);
      case "ping" => FindAt(reply.fields, "result", 2);
      case "shutdown" => FindAt(reply.fields, "result", 2);
      case "tools/list" =>
        FindAt(reply.fields, "result", 2);
        FindAt([Field("tools", server.tools)], "tools", 0);
      case _ =>
        FindAt(reply.fields, "error", 0);
        FindAt(reply.fields[0].value.fields, "code", 0);
        FindAt(reply.fields[0].value.fields, "message", 1);
    }
  }

  /** Whether a reply is a tool result marked as an error. */
  predicate Failed(reply: Json) { Then(Get(reply, "result"), "isError") == Some(Bool(true)) }

  function ReplyText(reply: Json): Option<string> { AsStr(Then(First(Then(Get(reply, "result"), "content")), "text")) }

  /** A tool result with this text, marked as an error or not. */
  predicate Says(reply: Json, text: string, isError: bool)
  {
    && ReplyText(reply) == Some(text) && (Failed(reply) <==> isError)
    && Then(First(Then(Get(reply, "result"), "content")), "type") == Some(Str("text"))
  }

  lemma ToolResultSays(id: Json, text: string, isError: bool)
    ensures Says(ToolResult(id, text, isError), text, isError)
  {
    var fs := ToolResult(id, text, isError).fields;
    FindAt(fs, "result", 2);
    FindAt(ToolContent(text, isError).fields, "content", 0);
    FindAt(ToolContent(text, isError).fields, "isError", 1);
    FindAt(TextContent(text).fields, "text", 0);
    FindAt(TextContent(text).fields, "type", 1);
  }

  /** What a tools/call asks of the executor, if anything: the texts of its arguments in their roles. */
  datatype Job = Chat(prompt: string) | Store(prompt: string, response: string, model: string) | Refused | UnknownTool

  function Argument(params: Json, key: string): string { StrOr(Then(Get(params, "arguments"), key), "") }

  function JobOf(params: Json): Job
  {
    match AsStr(Get(params, "name"))
    case Some("isartor_chat") =>
      var prompt := Argument(params, "prompt");
      if prompt == "" then Refused else Chat(prompt)
    case Some("isartor_cache_store") =>
      var prompt, response := Argument(params, "prompt"), Argument(params, "response");
      if prompt == "" || response == "" then Refused else Store(prompt, response, Argument(params, "model"))
    case _ => UnknownTool
  }

  lemma ArgumentIs(params: Json, key: string)
    ensures StrOr(Get(JsonOr(Get(params, "arguments"), Obj([])), key), "") == Argument(params, key)
  {
  }

  /** A chat's reply: the answer found, an empty text for a miss, or the executor's error. */
  predicate ChatSays(r: Result<Option<string>, string>, reply: Json)
  {
    match r
    case Ok(Some(answer)) => Says(reply, answer, false)
    case Ok(None) => Says(reply, "", false)
    case Err(e) => Says(reply, "Isartor error: " + e, true)
  }

  predicate StoreSays(r: Result<(), string>, reply: Json)
  {
    match r
    case Ok(_) => Says(reply, "Cached successfully", false)
    case Err(e) => Says(reply, "Cache store error: " + e, true)
  }

  lemma ChatDispatch<S>(id: Option<Json>, params: Json, ex: Executor<S>, st: S)
    requires AsStr(Get(params, "name")) == Some("isartor_chat")
    ensures var (st', reply) := HandleToolsCall(id, params, ex, st);
            var p := Argument(params, "prompt");
            if p == "" then st' == st && Failed(reply)
            else st' == ex.lookup(st, p).0 && ChatSays(ex.lookup(st, p).1, reply)
  {
    var i, p := JsonOr(id, Null), Argument(params, "prompt");
    ArgumentIs(params, "prompt");
    if p == "" {
      ToolResultSays(i, "Error: prompt is required", true);
    } else {
      match ex.lookup(st, p).1
      case Ok(Some(answer)) => ToolResultSays(i, answer, false);
      case Ok(None) => ToolResultSays(i, "", false);
      case Err(e) => ToolResultSays(i, "Isartor error: " + e, true);
    }
  }

  lemma StoreDispatch<S>(id: Option<Json>, params: Json, ex: Executor<S>, st: S)
    requires AsStr(Get(params, "name")) == Some("isartor_cache_store")
    ensures var (st', reply) := HandleToolsCall(id, params, ex, st);
            var p, r, m := Argument(params, "prompt"), Argument(params, "response"), Argument(params, "model");
            if p == "" || r == "" then st' == st && Failed(reply)
            else st' == ex.store(st, p, r, m).0 && StoreSays(ex.store(st, p, r, m).1, reply)
  {
    var i := JsonOr(id, Null);
    var p, r, m := Argument(params, "prompt"), Argument(params, "response"), Argument(params, "model");
    ArgumentIs(params, "prompt");
    ArgumentIs(params, "response");
    ArgumentIs(params, "model");
    if p == "" || r == "" {
      ToolResultSays(i, "Error: prompt and response are required", true);
    } else {
      match ex.store(st, p, r, m).1
      case Ok(_) => ToolResultSays(i, "Cached successfully", false);
      case Err(e) => ToolResultSays(i, "Cache store error: " + e, true);
    }
  }

  /**
   The executor is asked exactly for the job of the call and for nothing else. The reply holds
   the text found, no text for a miss, and is marked as an error exactly if the job is refused
   or fails.
   */
  lemma ToolsCallDispatch<S>(id: Option<Json>, params: Json, ex: Executor<S>, st: S)
    ensures var (st', reply) := HandleToolsCall(id, params, ex, st);
            match JobOf(params)
            case Chat(p) => st' == ex.lookup(st, p).0 && ChatSays(ex.lookup(st, p).1, reply)
            case Store(p, r, m) => st' == ex.store(st, p, r, m).0 && StoreSays(ex.store(st, p, r, m).1, reply)
            case Refused => st' == st && Failed(reply)
            case UnknownTool => st' == st && Then(Get(reply, "error"), "code") == Some(Int(-32602))
  {
    var name, reply := StrOr(Get(params, "name"), ""), HandleToolsCall(id, params, ex, st).1;
    if name == "isartor_chat" {
      ChatDispatch(id, params, ex, st);
    } else if name == "isartor_cache_store" {
      StoreDispatch(id, params, ex, st);
    } else {
      FindAt(reply.fields, "error", 0);
      FindAt(reply.fields[0].value.fields, "code", 0);
    }
  }

  /** A chat call for which the lookup finds an answer returns that text verbatim. */
  lemma ChatIsVerbatim<S>(id: Option<Json>, params: Json, answer: string, ex: Executor<S>, st: S)
    requires JobOf(params).Chat? && ex.lookup(st, JobOf(params).prompt).1 == Ok(Some(answer))
    ensures var reply := HandleToolsCall(id, params, ex, st).1;
            && reply == ToolResult(JsonOr(id, Null), answer, false)
            && ReplyText(reply) == Some(answer)
  {
    ArgumentIs(params, "prompt");
    ToolResultSays(JsonOr(id, Null), answer, false);
  }

  /** The job of a message, if it is a tool call. */
  function MessageJob(msg: Json): Option<Job>
  {
    if Method(msg) == "tools/call" then Some(JobOf(JsonOr(Get(msg, "params"), Obj([])))) else None
  }

  /** A message that is a chat is answered with the text found, or as failed if the lookup fails. */
  lemma ChatReplies<S>(msg: Json, p: string, server: Server, version: string, ex: Executor<S>, st: S)
    requires MessageJob(msg) == Some(Chat(p))
    ensures var reply, found := HandleMessage(msg, server, version, ex, st).1, ex.lookup(st, p).1;
            && reply.Some? && (found.Err? ==> Failed(reply.value))
            && (found.Ok? && found.value.Some? ==> reply.value == ToolResult(AnswerId(msg), found.value.value, false))
  {
    var params, found := JsonOr(Get(msg, "params"), Obj([])), ex.lookup(st, p).1;
    if found.Err? {
      ToolsCallDispatch(Id(msg), params, ex, st);
    } else if found.value.Some? {
      ChatIsVerbatim(Id(msg), params, found.value.value, ex, st);
    }
  }

  /** A message changes the executor's state only by the job it carries. */
  lemma StateAfter<S>(msg: Json, server: Server, version: string, ex: Executor<S>, st: S)
    ensures HandleMessage(msg, server, version, ex, st).0 ==
            match MessageJob(msg)
            case Some(Chat(p)) => ex.lookup(st, p).0
            case Some(Store(p, r, m)) => ex.store(st, p, r, m).0
            case _ => st
  {
    if Method(msg) == "tools/call" {
      ToolsCallDispatch(Id(msg), JsonOr(Get(msg, "params"), Obj([])), ex, st);
    }
  }
}
