/**
 `src/openai_sse.rs`: turning a cached JSON completion into a stream of
 `chat.completion.chunk` events, and what a client puts together from that stream.
 The fresh completion id and the clock reading are parameters.
 */
module OpenAiSse {
  import opened Utils
  import opened Json
  import opened JsonText
  import opened EventStream

  datatype Response = Response(contentType: string, body: string)

  /** The id and creation time stamped on every chunk of one response. */
  datatype Stamp = Stamp(id: string, created: nat)

  // ------------------------------------------------------------ building

  function Chunk(stamp: Stamp, model: string, delta: seq<Field>, finish: Json): Json
  {
    Obj([Field("choices", Arr([Choice(delta, finish)])),
         Field("created", Int(stamp.created)),
         Field("id", Str(stamp.id)),
         Field("model", Str(model)),
         Field("object", Str("chat.completion.chunk"))])
  }

  function Choice(delta: seq<Field>, finish: Json): Json
  {
    Obj([Field("delta", Obj(delta)), Field("finish_reason", finish), Field("index", Int(0))])
  }

  /** The three chunks and the end marker; `payload` is the delta of the middle chunk. */
  function Frames(payload: Field, finish: string, model: string, stamp: Stamp): seq<Frame>
  {
    [Frame(None, Print(Chunk(stamp, model, [Field("role", Str("assistant"))], Null))),
     Frame(None, Print(Chunk(stamp, model, [payload], Null))),
     Frame(None, Print(Chunk(stamp, model, [], Str(finish)))),
     Frame(None, "[DONE]")]
  }

  function BuildSse(text: string, model: string, stamp: Stamp): Response
  {
    Response("text/event-stream", StreamText(Frames(Field("content", Str(text)), "stop", model, stamp)))
  }

  function BuildToolCallSse(toolCalls: Json, finish: string, model: string, stamp: Stamp): Response
  {
    Response("text/event-stream", StreamText(Frames(Field("tool_calls", toolCalls), finish, model, stamp)))
  }

  function FirstChoice(val: Json): Option<Json> { First(Get(val, "choices")) }

  function Message(val: Json): Option<Json> { Then(FirstChoice(val), "message") }

  /** The answer text of a cached body: the first choice's content, else a top-level `message`. */
  function ExtractText(val: Json): Option<string>
  {
    var text := AsStr(Then(Message(val), "content"));
    if text.Some? then text else AsStr(Get(val, "message"))
  }

  function ModelOr(val: Json, fallback: string): string
  {
    var model := AsStr(Get(val, "model"));
    if model.Some? then model.value else fallback
  }

  function FinishOr(val: Json, fallback: string): string
  {
    var finish := AsStr(Then(FirstChoice(val), "finish_reason"));
    if finish.Some? then finish.value else fallback
  }

  function CachedToSse(cached: string, fallback: string, stamp: Stamp): Response
  {
    match FromText(cached)
    case Some(val) =>
      var toolCalls, functionCall := Then(Message(val), "tool_calls"), Then(Message(val), "function_call");
      if ExtractText(val).Some? then
        BuildSse(ExtractText(val).value, ModelOr(val, fallback), stamp)
      else if toolCalls.Some? then
        BuildToolCallSse(toolCalls.value, FinishOr(val, "tool_calls"), ModelOr(val, fallback), stamp)
      else if functionCall.Some? then
        BuildToolCallSse(Arr([functionCall.value]), FinishOr(val, "function_call"), ModelOr(val, fallback), stamp)
      else Response("application/json", cached)
    case None => Response("application/json", cached)
  }

  // ------------------------------------------------------------- a client

  /** What a client has put together: text, the tool-call deltas, and the end of the answer. */
  datatype Completion = Completion(text: string, toolCalls: seq<Json>, model: string, finish: Option<string>)

  function Absorb(sofar: Completion, chunk: Json): Completion
  {
    var choice := FirstChoice(chunk);
    var delta := Then(choice, "delta");
    var text, calls := AsStr(Then(delta, "content")), Then(delta, "tool_calls");
    var finish := AsStr(Then(choice, "finish_reason"));
    Completion(
      sofar.text + (if text.Some? then text.value else ""),
      sofar.toolCalls + (if calls.Some? then [calls.value] else []),
      ModelOr(chunk, sofar.model),
      if finish.Some? then finish else sofar.finish)
  }

  /** Reads chunks until `[DONE]`; a stream that breaks off or holds a bad chunk gives nothing. */
  function Assemble(events: seq<Event>, sofar: Completion): Option<Completion>
  {
    if events == [] then None
    else if events[0].data == "[DONE]" then (if |events| == 1 then Some(sofar) else None)
    else
      match Parse(events[0].data)
      case Some(chunk) => Assemble(events[1..], Absorb(sofar, chunk))
      case None => None
  }

  function ClientReads(r: Response): Option<Completion>
  {
    if r.contentType == "text/event-stream"
    then Assemble(ReadStream(r.body), Completion("", [], "", None))
    else None
  }

  // ------------------------------------------------------ stream round trip

  lemma {:induction false} ChunkFacts(stamp: Stamp, model: string, delta: seq<Field>, finish: Json, fallback: string)
    requires DistinctKeys(delta) && ValidFields(delta) && Valid(finish)
    ensures var c := Chunk(stamp, model, delta, finish);
            && Valid(c)
            && FirstChoice(c) == Some(Choice(delta, finish))
            && Then(FirstChoice(c), "delta") == Some(Obj(delta))
            && Then(FirstChoice(c), "finish_reason") == Some(finish)
            && ModelOr(c, fallback) == model
  {
    var c, choice := Chunk(stamp, model, delta, finish), Choice(delta, finish);
    FindAt(choice.fields, "delta", 0);
    FindAt(choice.fields, "finish_reason", 1);
    FindAt(c.fields, "choices", 0);
    FindAt(c.fields, "model", 3);
    assert Valid(choice);
    assert Valid(c.fields[0].value);
  }

  lemma {:induction false} PrintFramable(j: Json)
    requires Valid(j) && j.Obj?
    ensures Framable(Frame(None, Print(j))) && Print(j) != "[DONE]"
  {
    PrintClean(j, "");
    assert Print(j)[0] == '{';
  }

  /** One chunk read by the client adds its delta and nothing else. */
  lemma {:induction false} ChunkAbsorbed(stamp: Stamp, model: string, delta: seq<Field>, finish: Json,
                                         rest: seq<Event>, sofar: Completion)
    requires DistinctKeys(delta) && ValidFields(delta) && (finish.Null? || finish.Str?)
    ensures var text, calls := AsStr(Find(delta, "content")), Find(delta, "tool_calls");
            Assemble([Event("message", Print(Chunk(stamp, model, delta, finish)))] + rest, sofar) ==
            Assemble(rest, Completion(
              sofar.text + (if text.Some? then text.value else ""),
              sofar.toolCalls + (if calls.Some? then [calls.value] else []),
              model,
              if finish.Str? then Some(finish.s) else sofar.finish))
  {
    var c := Chunk(stamp, model, delta, finish);
    ChunkFacts(stamp, model, delta, finish, sofar.model);
    PrintParse(c);
    PrintFramable(c);
    var events := [Event("message", Print(c))] + rest;
    assert events[1..] == rest;
  }

  /**
   The stream is exactly three chunks and `[DONE]`, and the client gets the payload,
   the model and the finish reason back, whatever characters they hold.
   */
  lemma FramesRoundTrip(payload: Field, finish: string, model: string, stamp: Stamp)
    requires Valid(payload.value)
    requires payload.key == "tool_calls" || (payload.key == "content" && payload.value.Str?)
    ensures var frames := Frames(payload, finish, model, stamp);
            && ReadStream(StreamText(frames)) == ReceivedAll(frames)
            && ClientReads(Response("text/event-stream", StreamText(frames))) ==
               Some(Delivered(payload, model).(finish := Some(finish)))
  {
    var role := [Field("role", Str("assistant"))];
    var c0, c1 := Chunk(stamp, model, role, Null), Chunk(stamp, model, [payload], Null);
    var c2 := Chunk(stamp, model, [], Str(finish));
    var frames := Frames(payload, finish, model, stamp);
    ChunkFacts(stamp, model, role, Null, ""); PrintFramable(c0);
    ChunkFacts(stamp, model, [payload], Null, ""); PrintFramable(c1);
    ChunkFacts(stamp, model, [], Str(finish), ""); PrintFramable(c2);
    assert Framable(frames[3]);
    StreamRoundTrip(frames);
    ClientOfFrames(payload, finish, model, stamp);
  }

  lemma DeltaReads(payload: Field)
    requires payload.key == "tool_calls" || (payload.key == "content" && payload.value.Str?)
    ensures Find([payload], "content") == if payload.key == "content" then Some(payload.value) else None
    ensures Find([payload], "tool_calls") == if payload.key == "content" then None else Some(payload.value)
    ensures var role := [Field("role", Str("assistant"))];
            Find(role, "content").None? && Find(role, "tool_calls").None?
  {
    var role := [Field("role", Str("assistant"))];
    FindNone(role, "content"); FindNone(role, "tool_calls");
    FindNone([payload], "content"); FindNone([payload], "tool_calls");
    FindAt([payload], payload.key, 0);
  }

  /** The client's state after the middle chunk. */
  function Delivered(payload: Field, model: string): Completion
  {
    if payload.key == "content" && payload.value.Str? then Completion(payload.value.s, [], model, None)
    else Completion("", [payload.value], model, None)
  }

  lemma {:induction false} LastChunk(sofar: Completion, finish: string, model: string, stamp: Stamp)
    requires sofar.model == model
    ensures var last := Chunk(stamp, model, [], Str(finish));
            Assemble([Event("message", Print(last))] + [Event("message", "[DONE]")], sofar) ==
            Some(sofar.(finish := Some(finish)))
  {
    var done := [Event("message", "[DONE]")];
    ChunkAbsorbed(stamp, model, [], Str(finish), done, sofar);
    assert sofar.text + "" == sofar.text && sofar.toolCalls + [] == sofar.toolCalls;
  }

  lemma {:induction false} MiddleChunk(payload: Field, model: string, stamp: Stamp, rest: seq<Event>)
    requires Valid(payload.value)
    requires payload.key == "tool_calls" || (payload.key == "content" && payload.value.Str?)
    ensures var middle := Chunk(stamp, model, [payload], Null);
            Assemble([Event("message", Print(middle))] + rest, Completion("", [], model, None)) ==
            Assemble(rest, Delivered(payload, model))
  {
    DeltaReads(payload);
    ChunkAbsorbed(stamp, model, [payload], Null, rest, Completion("", [], model, None));
    if payload.key == "content" {
      assert "" + payload.value.s == payload.value.s;
    } else {
      assert [] + [payload.value] == [payload.value];
    }
  }

  lemma ClientOfFrames(payload: Field, finish: string, model: string, stamp: Stamp)
    requires Valid(payload.value)
    requires payload.key == "tool_calls" || (payload.key == "content" && payload.value.Str?)
    ensures Assemble(ReceivedAll(Frames(payload, finish, model, stamp)), Completion("", [], "", None)) ==
            Some(Delivered(payload, model).(finish := Some(finish)))
  {
    var role := [Field("role", Str("assistant"))];
    var e0 := Event("message", Print(Chunk(stamp, model, role, Null)));
    var e1 := Event("message", Print(Chunk(stamp, model, [payload], Null)));
    var e2 := Event("message", Print(Chunk(stamp, model, [], Str(finish))));
    var tail := [e2] + [Event("message", "[DONE]")];
    assert ReceivedAll(Frames(payload, finish, model, stamp)) == [e0] + ([e1] + tail);
    DeltaReads(payload);
    ChunkAbsorbed(stamp, model, role, Null, [e1] + tail, Completion("", [], "", None));
    MiddleChunk(payload, model, stamp, tail);
    LastChunk(Delivered(payload, model), finish, model, stamp);
  }

  // --------------------------------------------- cached bodies, all of them

  /**
   For every cached body: if a text can be found in it the client gets that text; otherwise,
   if the first choice carries tool calls (or a function call) the client gets that value and
   the finish reason; otherwise the body is passed on untouched.
   */
  lemma CachedMeaning(cached: string, fallback: string, stamp: Stamp)
    ensures var r := CachedToSse(cached, fallback, stamp);
            match FromText(cached)
            case None => r == Response("application/json", cached)
            case Some(val) =>
              var text, model := ExtractText(val), ModelOr(val, fallback);
              var calls, call := Then(Message(val), "tool_calls"), Then(Message(val), "function_call");
              if text.Some? then ClientReads(r) == Some(Completion(text.value, [], model, Some("stop")))
              else if calls.Some? then
                ClientReads(r) == Some(Completion("", [calls.value], model, Some(FinishOr(val, "tool_calls"))))
              else if call.Some? then
                ClientReads(r) == Some(Completion("", [Arr([call.value])], model, Some(FinishOr(val, "function_call"))))
              else r == Response("application/json", cached)
  {
    match FromText(cached)
    case None =>
    case Some(val) =>
      var model := ModelOr(val, fallback);
      ThenValid(Some(val), "choices");
      ThenValid(FirstChoice(val), "message");
      ThenValid(Message(val), "tool_calls");
      ThenValid(Message(val), "function_call");
      var text := ExtractText(val);
      var calls, call := Then(Message(val), "tool_calls"), Then(Message(val), "function_call");
      if text.Some? {
        FramesRoundTrip(Field("content", Str(text.value)), "stop", model, stamp);
      } else if calls.Some? {
        FramesRoundTrip(Field("tool_calls", calls.value), FinishOr(val, "tool_calls"), model, stamp);
      } else if call.Some? {
        FramesRoundTrip(Field("tool_calls", Arr([call.value])), FinishOr(val, "function_call"), model, stamp);
      }
  }

  // ------------------------------------------------- what the handlers store

  function HandlerMessage(text: string): Json
  {
    Obj([Field("role", Str("assistant")), Field("content", Str(text))])
  }

  function HandlerChoice(text: string): Json
  {
    Obj([Field("message", HandlerMessage(text)), Field("index", Int(0)), Field("finish_reason", Str("stop"))])
  }

  /** `OpenAiChatResponse` of the chat completions handler, as serialised. */
  function HandlerCompletion(text: string, model: string): Json
  {
    Obj([Field("choices", Arr([HandlerChoice(text)])), Field("model", Str(model))])
  }

  /** `ChatResponse` as the native store writes it. */
  function NativeResponse(layer: nat, message: string, model: string): Json
  {
    Obj([Field("layer", Int(layer)), Field("message", Str(message)), Field("model", Str(model))])
  }

  lemma NativeFacts(layer: nat, message: string, model: string)
    ensures var j := NativeResponse(layer, message, model);
            && Valid(j) && Within(j, MAX_LEVELS)
            && Get(j, "message") == Some(Str(message))
            && Get(j, "model") == Some(Str(model))
            && Get(j, "choices").None? && Get(j, "content").None?
  {
    var fs := NativeResponse(layer, message, model).fields;
    FindAt(fs, "message", 1);
    FindAt(fs, "model", 2);
    FindNone(fs, "choices");
    FindNone(fs, "content");
  }

  lemma HandlerFacts(text: string, model: string)
    ensures var j := HandlerCompletion(text, model);
            && Valid(j) && Within(j, MAX_LEVELS)
            && ExtractText(j) == Some(text) && Get(j, "model") == Some(Str(model))
  {
    var j := HandlerCompletion(text, model);
    FindAt(j.fields, "choices", 0);
    FindAt(j.fields, "model", 1);
    FindAt(HandlerChoice(text).fields, "message", 0);
    FindAt(HandlerMessage(text).fields, "content", 1);
    assert Valid(HandlerMessage(text)) && Within(HandlerMessage(text), 1);
    assert Valid(HandlerChoice(text)) && Within(HandlerChoice(text), 2);
    assert Valid(Arr([HandlerChoice(text)])) && Within(Arr([HandlerChoice(text)]), 3);
    assert Within(j, 4);
    Looser(j, 4, MAX_LEVELS);
  }

  /** Cache, then stream: the text and the model of the answer are what the client reads. */
  lemma CacheThenStream(text: string, model: string, layer: nat, fallback: string, stamp: Stamp)
    ensures ClientReads(CachedToSse(Print(HandlerCompletion(text, model)), fallback, stamp)) ==
            Some(Completion(text, [], model, Some("stop")))
    ensures ClientReads(CachedToSse(Print(NativeResponse(layer, text, model)), fallback, stamp)) ==
            Some(Completion(text, [], model, Some("stop")))
  {
    var h, n := HandlerCompletion(text, model), NativeResponse(layer, text, model);
    HandlerFacts(text, model);
    PrintParse(h);
    CachedMeaning(Print(h), fallback, stamp);
    NativeFacts(layer, text, model);
    PrintParse(n);
    CachedMeaning(Print(n), fallback, stamp);
  }
}
