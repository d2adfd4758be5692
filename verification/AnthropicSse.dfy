/**
 `src/anthropic_sse.rs`: the seven-event Messages stream, the plain JSON answer, and the
 conversion of a cached body into a stream. The fresh message id is a parameter.
 */
module AnthropicSse {
  import opened Utils
  import opened Json
  import opened JsonText
  import opened EventStream
  import OpenAiSse

  // ------------------------------------------------------------ building

  /** `(text.len() / 4).max(1)` */
  function EstimateTokens(text: string): nat
  {
    var n := ByteLen(text) / 4;
    if n < 1 then 1 else n
  }

  function Usage(input: nat, output: nat): Json
  {
    Obj([Field("input_tokens", Int(input)), Field("output_tokens", Int(output))])
  }

  function StartMessage(id: string, model: string): Json
  {
    Obj([Field("content", Arr([])), Field("id", Str(id)), Field("model", Str(model)), Field("role", Str("assistant")),
         Field("stop_reason", Null), Field("stop_sequence", Null), Field("type", Str("message")),
         Field("usage", Usage(0, 0))])
  }

  function MessageStart(id: string, model: string): Json
  {
    Obj([Field("message", StartMessage(id, model)), Field("type", Str("message_start"))])
  }

  function EmptyBlock(): Json { Obj([Field("type", Str("text")), Field("text", Str(""))]) }

  function BlockStart(): Json
  {
    Obj([Field("type", Str("content_block_start")), Field("index", Int(0)), Field("content_block", EmptyBlock())])
  }

  function Ping(): Json { Obj([Field("type", Str("ping"))]) }

  function TextDelta(text: string): Json { Obj([Field("text", Str(text)), Field("type", Str("text_delta"))]) }

  function BlockDelta(text: string): Json
  {
    Obj([Field("delta", TextDelta(text)), Field("index", Int(0)), Field("type", Str("content_block_delta"))])
  }

  function BlockStop(): Json { Obj([Field("type", Str("content_block_stop")), Field("index", Int(0))]) }

  function EndTurn(): Json { Obj([Field("stop_reason", Str("end_turn")), Field("stop_sequence", Null)]) }

  function MessageDelta(tokens: nat): Json
  {
    Obj([Field("type", Str("message_delta")), Field("delta", EndTurn()),
         Field("usage", Obj([Field("output_tokens", Int(tokens))]))])
  }

  function MessageStop(): Json { Obj([Field("type", Str("message_stop"))]) }

  /** The payloads of the stream with the event name each is sent under. */
  function Payloads(text: string, model: string, id: string): seq<(string, Json)>
  {
    [("message_start", MessageStart(id, model)),
     ("content_block_start", BlockStart()),
     ("ping", Ping()),
     ("content_block_delta", BlockDelta(text)),
     ("content_block_stop", BlockStop()),
     ("message_delta", MessageDelta(EstimateTokens(text))),
     ("message_stop", MessageStop())]
  }

  function FramesOf(payloads: seq<(string, Json)>): (r: seq<Frame>)
    ensures |r| == |payloads|
    ensures forall i :: 0 <= i < |r| ==> r[i] == Frame(Some(payloads[i].0), Print(payloads[i].1))
  {
    if payloads == [] then []
    else [Frame(Some(payloads[0].0), Print(payloads[0].1))] + FramesOf(payloads[1..])
  }

  function BuildSse(text: string, model: string, id: string): OpenAiSse.Response
  {
    OpenAiSse.Response("text/event-stream", StreamText(FramesOf(Payloads(text, model, id))))
  }

  function TextBlock(text: string): Json { Obj([Field("text", Str(text)), Field("type", Str("text"))]) }

  /** `build_json_response` */
  function BuildJson(text: string, model: string, id: string): Json
  {
    Obj([Field("content", Arr([TextBlock(text)])), Field("id", Str(id)), Field("model", Str(model)),
         Field("role", Str("assistant")), Field("stop_reason", Str("end_turn")), Field("stop_sequence", Null),
         Field("type", Str("message")), Field("usage", Usage(0, EstimateTokens(text)))])
  }

  /** The text of a cached body: the first content block's, else a top-level `message`. */
  function ExtractText(val: Json): Option<string>
  {
    var text := AsStr(Then(First(Get(val, "content")), "text"));
    if text.Some? then text else AsStr(Get(val, "message"))
  }

  function CachedToSse(cached: string, fallback: string, id: string): OpenAiSse.Response
  {
    match FromText(cached)
    case Some(val) =>
      if ExtractText(val).Some? then BuildSse(ExtractText(val).value, OpenAiSse.ModelOr(val, fallback), id)
      else OpenAiSse.Response("application/json", cached)
    case None => OpenAiSse.Response("application/json", cached)
  }

  // ------------------------------------------------------------- a client

  datatype Message = Message(text: string, model: string, stopReason: Option<string>)

  function Absorb(sofar: Message, j: Json): Message
  {
    var kind := AsStr(Get(j, "type"));
    if kind == Some("message_start") then
      var model := AsStr(Then(Get(j, "message"), "model"));
      if model.Some? then sofar.(model := model.value) else sofar
    else if kind == Some("content_block_delta") then
      var text := AsStr(Then(Get(j, "delta"), "text"));
      if text.Some? then sofar.(text := sofar.text + text.value) else sofar
    else if kind == Some("message_delta") then
      var reason := AsStr(Then(Get(j, "delta"), "stop_reason"));
      if reason.Some? then sofar.(stopReason := reason) else sofar
    else sofar
  }

  /** Reads events up to `message_stop`; each payload must name the type it was sent under. */
  function Assemble(events: seq<Event>, sofar: Message): Option<Message>
  {
    if events == [] then None
    else
      match Parse(events[0].data)
      case None => None
      case Some(j) =>
        if AsStr(Get(j, "type")) != Some(events[0].name) then None
        else if events[0].name == "message_stop" then (if |events| == 1 then Some(sofar) else None)
        else Assemble(events[1..], Absorb(sofar, j))
  }

  function ClientReads(r: OpenAiSse.Response): Option<Message>
  {
    if r.contentType == "text/event-stream" then Assemble(ReadStream(r.body), Message("", "", None)) else None
  }

  // ------------------------------------------------------------ round trip

  function EventsOf(payloads: seq<(string, Json)>): seq<Event>
  {
    if payloads == [] then [] else [Event(payloads[0].0, Print(payloads[0].1))] + EventsOf(payloads[1..])
  }

  lemma {:induction false} EventsOfFrames(payloads: seq<(string, Json)>)
    ensures ReceivedAll(FramesOf(payloads)) == EventsOf(payloads)
  {
    if payloads == [] {
    } else {
      EventsOfFrames(payloads[1..]);
    }
  }

  /** A payload that a client reading it accepts under the name it was sent with. */
  predicate Sendable(p: (string, Json))
  {
    Valid(p.1) && p.1.Obj? && AsStr(Get(p.1, "type")) == Some(p.0) && Clean(p.0) && p.0 != ""
  }

  /** What a client makes of the payloads themselves, before any printing. */
  function Fold(payloads: seq<(string, Json)>, sofar: Message): Option<Message>
  {
    if payloads == [] then None
    else if payloads[0].0 == "message_stop" then (if |payloads| == 1 then Some(sofar) else None)
    else Fold(payloads[1..], Absorb(sofar, payloads[0].1))
  }

  lemma {:induction false} AssembleIsFold(payloads: seq<(string, Json)>, sofar: Message)
    requires forall i :: 0 <= i < |payloads| ==> Sendable(payloads[i])
    ensures |EventsOf(payloads)| == |payloads|
    ensures Assemble(EventsOf(payloads), sofar) == Fold(payloads, sofar)
  {
    if payloads == [] {
    } else {
      PrintParse(payloads[0].1);
      AssembleIsFold(payloads[1..], Absorb(sofar, payloads[0].1));
      assert EventsOf(payloads)[1..] == EventsOf(payloads[1..]);
    }
  }

  /** Any sequence of acceptable payloads is read back event for event. */
  lemma {:induction false} PayloadsRoundTrip(payloads: seq<(string, Json)>)
    requires forall i :: 0 <= i < |payloads| ==> Sendable(payloads[i])
    ensures ReadStream(StreamText(FramesOf(payloads))) == EventsOf(payloads)
  {
    var frames := FramesOf(payloads);
    forall i | 0 <= i < |frames| ensures Framable(frames[i]) {
      OpenAiSse.PrintFramable(payloads[i].1);
    }
    StreamRoundTrip(frames);
    EventsOfFrames(payloads);
  }

  lemma StartMessageValid(id: string, model: string)
    ensures Valid(StartMessage(id, model))
  {
    assert Valid(Usage(0, 0));
    var fs := StartMessage(id, model).fields;
    assert forall i :: 0 <= i < |fs| ==> Valid(fs[i].value);
  }

  lemma StartGets(id: string, model: string)
    ensures AsStr(Get(MessageStart(id, model), "type")) == Some("message_start")
    ensures AsStr(Then(Get(MessageStart(id, model), "message"), "model")) == Some(model)
  {
    var j, m := MessageStart(id, model), StartMessage(id, model);
    FindAt(j.fields, "type", 1);
    FindAt(j.fields, "message", 0);
    FindAt(m.fields, "model", 2);
  }

  lemma AbsorbStart(j: Json, model: string)
    requires AsStr(Get(j, "type")) == Some("message_start")
    requires AsStr(Then(Get(j, "message"), "model")) == Some(model)
    ensures Absorb(Message("", "", None), j) == Message("", model, None)
  {
  }

  lemma StartFacts(id: string, model: string)
    ensures Sendable(("message_start", MessageStart(id, model)))
    ensures Absorb(Message("", "", None), MessageStart(id, model)) == Message("", model, None)
  {
    StartMessageValid(id, model);
    assert Valid(MessageStart(id, model)) by {
      var fs := MessageStart(id, model).fields;
      assert forall i :: 0 <= i < |fs| ==> Valid(fs[i].value);
    }
    StartGets(id, model);
    AbsorbStart(MessageStart(id, model), model);
  }

  lemma DeltaGets(text: string)
    ensures AsStr(Get(BlockDelta(text), "type")) == Some("content_block_delta")
    ensures AsStr(Then(Get(BlockDelta(text), "delta"), "text")) == Some(text)
    ensures Valid(BlockDelta(text))
  {
    var j := BlockDelta(text);
    FindAt(j.fields, "type", 2);
    FindAt(j.fields, "delta", 0);
    FindAt(TextDelta(text).fields, "text", 0);
    assert Valid(TextDelta(text));
    assert Valid(j);
  }

  lemma DeltaFacts(text: string, m: Message)
    ensures Sendable(("content_block_delta", BlockDelta(text)))
    ensures Absorb(m, BlockDelta(text)) == m.(text := m.text + text)
  {
    DeltaGets(text);
    AbsorbDelta(BlockDelta(text), text, m);
  }

  lemma AbsorbDelta(j: Json, text: string, m: Message)
    requires AsStr(Get(j, "type")) == Some("content_block_delta")
    requires AsStr(Then(Get(j, "delta"), "text")) == Some(text)
    ensures Absorb(m, j) == m.(text := m.text + text)
  {
  }

  lemma EndGets(tokens: nat)
    ensures AsStr(Get(MessageDelta(tokens), "type")) == Some("message_delta")
    ensures AsStr(Then(Get(MessageDelta(tokens), "delta"), "stop_reason")) == Some("end_turn")
    ensures Valid(MessageDelta(tokens))
  {
    var j := MessageDelta(tokens);
    FindAt(j.fields, "type", 0);
    FindAt(j.fields, "delta", 1);
    FindAt(EndTurn().fields, "stop_reason", 0);
    assert Valid(EndTurn());
    assert Valid(Obj([Field("output_tokens", Int(tokens))]));
    assert Valid(j);
  }

  lemma AbsorbEnd(j: Json, reason: string, m: Message)
    requires AsStr(Get(j, "type")) == Some("message_delta")
    requires AsStr(Then(Get(j, "delta"), "stop_reason")) == Some(reason)
    ensures Absorb(m, j) == m.(stopReason := Some(reason))
  {
  }

  lemma EndFacts(tokens: nat, m: Message)
    ensures Sendable(("message_delta", MessageDelta(tokens)))
    ensures Absorb(m, MessageDelta(tokens)) == m.(stopReason := Some("end_turn"))
  {
    EndGets(tokens);
    AbsorbEnd(MessageDelta(tokens), "end_turn", m);
  }

  /** Events of any other type leave what the client has so far as it is. */
  lemma AbsorbOther(kind: string, j: Json, m: Message)
    requires AsStr(Get(j, "type")) == Some(kind)
    requires kind != "message_start" && kind != "content_block_delta" && kind != "message_delta"
    ensures Absorb(m, j) == m
  {
  }

  lemma BlockStartGets()
    ensures AsStr(Get(BlockStart(), "type")) == Some("content_block_start")
    ensures Valid(BlockStart())
  {
    FindAt(BlockStart().fields, "type", 0);
    assert Valid(EmptyBlock());
    var fs := BlockStart().fields;
    assert forall i :: 0 <= i < |fs| ==> Valid(fs[i].value);
  }

  lemma BlockStartFacts(m: Message)
    ensures Sendable(("content_block_start", BlockStart()))
    ensures Absorb(m, BlockStart()) == m
  {
    BlockStartGets();
    AbsorbOther("content_block_start", BlockStart(), m);
  }

  lemma BlockStopGets()
    ensures AsStr(Get(BlockStop(), "type")) == Some("content_block_stop")
    ensures Valid(BlockStop())
  {
    FindAt(BlockStop().fields, "type", 0);
  }

  lemma BlockStopFacts(m: Message)
    ensures Sendable(("content_block_stop", BlockStop()))
    ensures Absorb(m, BlockStop()) == m
  {
    BlockStopGets();
    AbsorbOther("content_block_stop", BlockStop(), m);
  }

  lemma PingFacts(m: Message)
    ensures Sendable(("ping", Ping()))
    ensures Absorb(m, Ping()) == m
  {
    FindAt(Ping().fields, "type", 0);
    assert Valid(Ping());
  }

  lemma StopFacts()
    ensures Sendable(("message_stop", MessageStop()))
  {
    FindAt(MessageStop().fields, "type", 0);
    assert Valid(MessageStop());
  }

  lemma PayloadsSendable(text: string, model: string, id: string)
    ensures var ps := Payloads(text, model, id); forall i :: 0 <= i < |ps| ==> Sendable(ps[i])
  {
    var ps, m := Payloads(text, model, id), Message("", "", None);
    forall i | 0 <= i < |ps| ensures Sendable(ps[i]) {
      if i == 0 { StartFacts(id, model); }
      else if i == 1 { BlockStartFacts(m); }
      else if i == 2 { PingFacts(m); }
      else if i == 3 { DeltaFacts(text, m); }
      else if i == 4 { BlockStopFacts(m); }
      else if i == 5 { EndFacts(EstimateTokens(text), m); }
      else { StopFacts(); }
    }
  }

  lemma PayloadsFold(text: string, model: string, id: string)
    ensures Fold(Payloads(text, model, id), Message("", "", None)) == Some(Message(text, model, Some("end_turn")))
  {
    var m0, m1, m2 := Message("", "", None), Message("", model, None), Message(text, model, None);
    var p0, p1, p2, p3 := MessageStart(id, model), BlockStart(), Ping(), BlockDelta(text);
    var p4, p5, p6 := BlockStop(), MessageDelta(EstimateTokens(text)), MessageStop();
    assert Absorb(m0, p0) == m1 by { StartFacts(id, model); }
    assert Absorb(m1, p1) == m1 by { BlockStartFacts(m1); }
    assert Absorb(m1, p2) == m1 by { PingFacts(m1); }
    assert Absorb(m1, p3) == m2 by { DeltaFacts(text, m1); assert "" + text == text; }
    assert Absorb(m2, p4) == m2 by { BlockStopFacts(m2); }
    assert Absorb(m2, p5) == m2.(stopReason := Some("end_turn")) by { EndFacts(EstimateTokens(text), m2); }
    FoldSeven(p0, p1, p2, p3, p4, p5, p6, m0);
  }

  lemma {:induction false} FoldSeven(p0: Json, p1: Json, p2: Json, p3: Json, p4: Json, p5: Json, p6: Json, m: Message)
    ensures Fold([("message_start", p0), ("content_block_start", p1), ("ping", p2), ("content_block_delta", p3),
                  ("content_block_stop", p4), ("message_delta", p5), ("message_stop", p6)], m) ==
            Some(Absorb(Absorb(Absorb(Absorb(Absorb(Absorb(m, p0), p1), p2), p3), p4), p5))
  {
    var ps := [("message_start", p0), ("content_block_start", p1), ("ping", p2), ("content_block_delta", p3),
               ("content_block_stop", p4), ("message_delta", p5), ("message_stop", p6)];
    FoldStep(ps, 0, m);
    var m1 := Absorb(m, p0);
    FoldStep(ps, 1, m1);
    var m2 := Absorb(m1, p1);
    FoldStep(ps, 2, m2);
    var m3 := Absorb(m2, p2);
    FoldStep(ps, 3, m3);
    var m4 := Absorb(m3, p3);
    FoldStep(ps, 4, m4);
    var m5 := Absorb(m4, p4);
    FoldStep(ps, 5, m5);
  }

  lemma {:induction false} FoldStep(ps: seq<(string, Json)>, i: nat, m: Message)
    requires i < |ps| && ps[i].0 != "message_stop"
    ensures Fold(ps[i..], m) == Fold(ps[i + 1..], Absorb(m, ps[i].1))
    ensures ps[0..] == ps
  {
    assert ps[i..][1..] == ps[i + 1..];
  }

  function Names(events: seq<Event>): seq<string>
  {
    if events == [] then [] else [events[0].name] + Names(events[1..])
  }

  const EVENT_NAMES: seq<string> := ["message_start", "content_block_start", "ping", "content_block_delta",
                                     "content_block_stop", "message_delta", "message_stop"]

  lemma PayloadNames(text: string, model: string, id: string)
    ensures Names(EventsOf(Payloads(text, model, id))) == EVENT_NAMES
  {
    NamesOf(Payloads(text, model, id));
  }

  lemma {:induction false} NamesOf(payloads: seq<(string, Json)>)
    ensures |Names(EventsOf(payloads))| == |payloads|
    ensures forall i :: 0 <= i < |payloads| ==> Names(EventsOf(payloads))[i] == payloads[i].0
  {
    if payloads == [] {
    } else {
      NamesOf(payloads[1..]);
      assert EventsOf(payloads)[1..] == EventsOf(payloads[1..]);
    }
  }

  /**
   The stream is exactly the seven events, in order, and the client reads back the text and
   the model, whatever characters they hold.
   */
  lemma SevenEvents(text: string, model: string, id: string)
    ensures var r := BuildSse(text, model, id);
            && ReadStream(r.body) == EventsOf(Payloads(text, model, id))
            && |ReadStream(r.body)| == 7
            && Names(ReadStream(r.body)) == EVENT_NAMES
            && ClientReads(r) == Some(Message(text, model, Some("end_turn")))
  {
    var ps := Payloads(text, model, id);
    PayloadsSendable(text, model, id);
    PayloadsRoundTrip(ps);
    PayloadNames(text, model, id);
    AssembleIsFold(ps, Message("", "", None));
    PayloadsFold(text, model, id);
  }

  /** For every cached body: its text if one can be found, else the body unchanged. */
  lemma CachedMeaning(cached: string, fallback: string, id: string)
    ensures var r := CachedToSse(cached, fallback, id);
            if FromText(cached).Some? && ExtractText(FromText(cached).value).Some? then
              ClientReads(r) == Some(Message(ExtractText(FromText(cached).value).value,
                                             OpenAiSse.ModelOr(FromText(cached).value, fallback), Some("end_turn")))
            else r == OpenAiSse.Response("application/json", cached)
  {
    if FromText(cached).Some? && ExtractText(FromText(cached).value).Some? {
      var val := FromText(cached).value;
      SevenEvents(ExtractText(val).value, OpenAiSse.ModelOr(val, fallback), id);
    }
  }

  lemma JsonValid(text: string, model: string, id: string)
    ensures Valid(BuildJson(text, model, id)) && Within(BuildJson(text, model, id), MAX_LEVELS)
  {
    assert Valid(TextBlock(text)) && Within(TextBlock(text), 1);
    assert Valid(Arr([TextBlock(text)])) && Within(Arr([TextBlock(text)]), 2);
    assert Valid(Usage(0, EstimateTokens(text))) && Within(Usage(0, EstimateTokens(text)), 2);
    var fs := BuildJson(text, model, id).fields;
    assert forall i :: 0 <= i < |fs| ==> Valid(fs[i].value) && Within(fs[i].value, 2);
    assert Within(BuildJson(text, model, id), 3);
    Looser(BuildJson(text, model, id), 3, MAX_LEVELS);
  }

  lemma JsonGets(text: string, model: string, id: string)
    ensures var j := BuildJson(text, model, id);
            ExtractText(j) == Some(text) && Get(j, "model") == Some(Str(model))
  {
    var j := BuildJson(text, model, id);
    FindAt(j.fields, "content", 0);
    FindAt(j.fields, "model", 2);
    FindAt(TextBlock(text).fields, "text", 0);
  }

  /** Cache, then stream, for the Anthropic builder's JSON and for the native store's. */
  lemma CacheThenStream(text: string, model: string, layer: nat, fallback: string, id: string,
                        freshId: string)
    ensures ClientReads(CachedToSse(Print(BuildJson(text, model, id)), fallback, freshId)) ==
            Some(Message(text, model, Some("end_turn")))
    ensures ClientReads(CachedToSse(Print(OpenAiSse.NativeResponse(layer, text, model)), fallback, freshId)) ==
            Some(Message(text, model, Some("end_turn")))
  {
    var b, n := BuildJson(text, model, id), OpenAiSse.NativeResponse(layer, text, model);
    JsonValid(text, model, id);
    JsonGets(text, model, id);
    PrintParse(b);
    CachedMeaning(Print(b), fallback, freshId);
    OpenAiSse.NativeFacts(layer, text, model);
    PrintParse(n);
    CachedMeaning(Print(n), fallback, freshId);
  }
}
