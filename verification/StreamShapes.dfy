/**
 Cached bodies turned into streams, over the shapes of documents: which member a client gets
 to see, under which model and finish reason, and what every chunk is stamped with.
 */
module StreamShapes {
  import opened Utils
  import opened Json
  import opened JsonText
  import opened Members
  import AnthropicSse
  import EventStream
  import OpenAiSse

  // ----------------------------------------------------- OpenAI completions

  /** A cached completion: the members that matter, each of any value or missing, and further choices. */
  datatype Cached = Cached(
    content: Option<Json>, toolCalls: Option<Json>, functionCall: Option<Json>, finish: Option<Json>,
    model: Option<Json>, message: Option<Json>, others: seq<Json>)

  function MessageMembers(d: Cached): seq<Member>
  {
    [Member("role", Some(Str("assistant"))), Member("content", d.content), Member("tool_calls", d.toolCalls),
     Member("function_call", d.functionCall)]
  }

  function ChoiceMembers(d: Cached): seq<Member>
  {
    [Member("index", Some(Int(0))), Member("message", Some(Obj(Written(MessageMembers(d))))),
     Member("finish_reason", d.finish)]
  }

  function BodyMembers(d: Cached): seq<Member>
  {
    [Member("choices", Some(Arr([Obj(Written(ChoiceMembers(d)))] + d.others))), Member("model", d.model),
     Member("message", d.message)]
  }

  function Body(d: Cached): Json { Obj(Written(BodyMembers(d))) }

  predicate Fits(o: Option<Json>, levels: nat) { o.Some? ==> Valid(o.value) && Within(o.value, levels) }

  /** Values that keep the body within the 127 levels that the gateway reads. */
  predicate Readable(d: Cached)
  {
    && Fits(d.content, 123) && Fits(d.toolCalls, 123) && Fits(d.functionCall, 123) && Fits(d.finish, 124)
    && Fits(d.model, 126) && Fits(d.message, 126)
    && forall i :: 0 <= i < |d.others| ==> Valid(d.others[i]) && Within(d.others[i], 125)
  }

  lemma BodyValid(d: Cached)
    requires Readable(d)
    ensures Valid(Body(d)) && Within(Body(d), 127)
  {
    WrittenValid(MessageMembers(d), 123);
    WrittenValid(ChoiceMembers(d), 124);
    var choices := Arr([Obj(Written(ChoiceMembers(d)))] + d.others);
    assert Valid(choices) && Within(choices, 126);
    WrittenValid(BodyMembers(d), 126);
  }

  lemma BodyReads(d: Cached)
    ensures OpenAiSse.FirstChoice(Body(d)) == Some(Obj(Written(ChoiceMembers(d))))
    ensures Get(Body(d), "model") == d.model && Get(Body(d), "message") == d.message
  {
    FindWritten(BodyMembers(d), 0);
    FindWritten(BodyMembers(d), 1);
    FindWritten(BodyMembers(d), 2);
  }

  lemma ChoiceReads(d: Cached)
    ensures var choice := Obj(Written(ChoiceMembers(d)));
            && Get(choice, "message") == Some(Obj(Written(MessageMembers(d))))
            && Get(choice, "finish_reason") == d.finish
  {
    FindWritten(ChoiceMembers(d), 1);
    FindWritten(ChoiceMembers(d), 2);
  }

  lemma MessageReads(d: Cached)
    ensures var message := Obj(Written(MessageMembers(d)));
            && Get(message, "content") == d.content && Get(message, "tool_calls") == d.toolCalls
            && Get(message, "function_call") == d.functionCall
  {
    FindWritten(MessageMembers(d), 1);
    FindWritten(MessageMembers(d), 2);
    FindWritten(MessageMembers(d), 3);
  }

  /** The string a member holds, or else this one. */
  function StringOr(o: Option<Json>, fallback: string): string
  {
    match o
    case Some(Str(s)) => s
    case _ => fallback
  }

  predicate IsString(o: Option<Json>) { o.Some? && o.value.Str? }

  /**
   What a client gets of any cached completion: the content if it is a string, else the
   top-level message if that is one, each ending in `stop`; else the tool calls, whatever value
   they are, and else the function call in a list, ending in the completion's own finish reason
   if that is a string; and else the body unchanged. The model is the completion's own if that
   is a string. All values survive as they are.
   */
  lemma CompletionShape(d: Cached, fallback: string, stamp: OpenAiSse.Stamp)
    requires Readable(d)
    ensures var r := OpenAiSse.CachedToSse(Print(Body(d)), fallback, stamp);
            var got, model := OpenAiSse.ClientReads(r), StringOr(d.model, fallback);
            if IsString(d.content) then got == Some(OpenAiSse.Completion(d.content.value.s, [], model, Some("stop")))
            else if IsString(d.message) then
              got == Some(OpenAiSse.Completion(d.message.value.s, [], model, Some("stop")))
            else if d.toolCalls.Some? then
              got == Some(OpenAiSse.Completion("", [d.toolCalls.value], model, Some(StringOr(d.finish, "tool_calls"))))
            else if d.functionCall.Some? then
              got == Some(OpenAiSse.Completion("", [Arr([d.functionCall.value])], model,
                                               Some(StringOr(d.finish, "function_call"))))
            else r == OpenAiSse.Response("application/json", Print(Body(d)))
  {
    BodyValid(d);
    PrintParse(Body(d));
    BodyReads(d);
    ChoiceReads(d);
    MessageReads(d);
    OpenAiSse.CachedMeaning(Print(Body(d)), fallback, stamp);
  }

  /** What a client reads of a completion without content, with tool calls. */
  function ReadToolCalls(calls: Json, finish: Option<Json>, model: string, fallback: string, stamp: OpenAiSse.Stamp)
    : Option<OpenAiSse.Completion>
  {
    var doc := Cached(Some(Null), Some(calls), None, finish, Some(Str(model)), None, []);
    OpenAiSse.ClientReads(OpenAiSse.CachedToSse(Print(Body(doc)), fallback, stamp))
  }

  lemma ToolCallsRead(calls: Json, finish: Option<Json>, model: string, fallback: string, stamp: OpenAiSse.Stamp)
    requires Valid(calls) && Within(calls, 123) && Fits(finish, 124)
    ensures ReadToolCalls(calls, finish, model, fallback, stamp) ==
            Some(OpenAiSse.Completion("", [calls], model, Some(StringOr(finish, "tool_calls"))))
  {
    CompletionShape(Cached(Some(Null), Some(calls), None, finish, Some(Str(model)), None, []), fallback, stamp);
  }

  /**
   Without content, with tool calls of any value: the calls, the model and a string finish
   reason survive; without one, or with one that is no string, it is `tool_calls`.
   */
  lemma ToolCallsSurvive(calls: Json, finish: string, model: string, other: Json, fallback: string,
                         stamp: OpenAiSse.Stamp)
    requires Valid(calls) && Within(calls, 123) && Valid(other) && Within(other, 124) && !other.Str?
    ensures ReadToolCalls(calls, Some(Str(finish)), model, fallback, stamp) ==
            Some(OpenAiSse.Completion("", [calls], model, Some(finish)))
    ensures ReadToolCalls(calls, None, model, fallback, stamp) ==
            ReadToolCalls(calls, Some(other), model, fallback, stamp) ==
            Some(OpenAiSse.Completion("", [calls], model, Some("tool_calls")))
  {
    ToolCallsRead(calls, Some(Str(finish)), model, fallback, stamp);
    ToolCallsRead(calls, None, model, fallback, stamp);
    ToolCallsRead(calls, Some(other), model, fallback, stamp);
  }

  /** A chunk carries the stamp and one choice of index 0. */
  predicate Stamped(c: Json, stamp: OpenAiSse.Stamp, model: string)
  {
    && Get(c, "id") == Some(Str(stamp.id)) && Get(c, "created") == Some(Int(stamp.created))
    && Get(c, "object") == Some(Str("chat.completion.chunk")) && Get(c, "model") == Some(Str(model))
    && Then(First(Get(c, "choices")), "index") == Some(Int(0))
  }

  lemma ChunkStamped(stamp: OpenAiSse.Stamp, model: string, delta: seq<Field>, end: Json)
    requires DistinctKeys(delta) && ValidFields(delta) && Valid(end)
    ensures var c := OpenAiSse.Chunk(stamp, model, delta, end);
            && Parse(Print(c)) == Some(c) && Stamped(c, stamp, model)
            && Then(First(Get(c, "choices")), "delta") == Some(Obj(delta))
  {
    var c, choice := OpenAiSse.Chunk(stamp, model, delta, end), OpenAiSse.Choice(delta, end);
    OpenAiSse.ChunkFacts(stamp, model, delta, end, "");
    PrintParse(c);
    FindAt(c.fields, "created", 1);
    FindAt(c.fields, "id", 2);
    FindAt(c.fields, "model", 3);
    FindAt(c.fields, "object", 4);
    FindAt(choice.fields, "index", 2);
  }

  /** Every chunk of a stream is stamped; the first names the role. */
  lemma ChunkShape(payload: Field, finish: string, model: string, stamp: OpenAiSse.Stamp, i: nat)
    requires i < 3 && Valid(payload.value)
    ensures var data := OpenAiSse.Frames(payload, finish, model, stamp)[i].data;
            Parse(data).Some? && Stamped(Parse(data).value, stamp, model)
            && (i == 0 ==>
                  Then(Then(First(Get(Parse(data).value, "choices")), "delta"), "role") == Some(Str("assistant")))
  {
    if i == 0 {
      var role := [Field("role", Str("assistant"))];
      FindAt(role, "role", 0);
      ChunkStamped(stamp, model, role, Null);
    } else if i == 1 {
      ChunkStamped(stamp, model, [payload], Null);
    } else {
      ChunkStamped(stamp, model, [], Str(finish));
    }
  }

  /** The handler's own completion has one choice, which ends in `stop`. */
  lemma HandlerShape(text: string, model: string)
    ensures var choice := First(Get(OpenAiSse.HandlerCompletion(text, model), "choices"));
            && Then(choice, "index") == Some(Int(0)) && Then(choice, "finish_reason") == Some(Str("stop"))
            && Then(Then(choice, "message"), "role") == Some(Str("assistant"))
            && Then(Then(choice, "message"), "content") == Some(Str(text))
            && Get(OpenAiSse.HandlerCompletion(text, model), "model") == Some(Str(model))
  {
    var choice := OpenAiSse.HandlerChoice(text);
    FindAt(OpenAiSse.HandlerCompletion(text, model).fields, "choices", 0);
    FindAt(OpenAiSse.HandlerCompletion(text, model).fields, "model", 1);
    FindAt(choice.fields, "message", 0);
    FindAt(choice.fields, "index", 1);
    FindAt(choice.fields, "finish_reason", 2);
    FindAt(OpenAiSse.HandlerMessage(text).fields, "role", 0);
    FindAt(OpenAiSse.HandlerMessage(text).fields, "content", 1);
  }

  // ----------------------------------------------------- Anthropic messages

  /** A cached message: the text of its first content block, what follows it, and the other members. */
  datatype Answer = Answer(text: Option<Json>, others: seq<Json>, model: Option<Json>, message: Option<Json>)

  function BlockMembers(d: Answer): seq<Member> { [Member("type", Some(Str("text"))), Member("text", d.text)] }

  function AnswerMembers(d: Answer): seq<Member>
  {
    [Member("content", Some(Arr([Obj(Written(BlockMembers(d)))] + d.others))), Member("model", d.model),
     Member("message", d.message)]
  }

  function AnswerBody(d: Answer): Json { Obj(Written(AnswerMembers(d))) }

  predicate ReadableAnswer(d: Answer)
  {
    && Fits(d.text, 124) && Fits(d.model, 126) && Fits(d.message, 126)
    && forall i :: 0 <= i < |d.others| ==> Valid(d.others[i]) && Within(d.others[i], 125)
  }

  /** The first block's text if it is a string, else the top-level message if that is one, else the body unchanged. */
  lemma AnswerShape(d: Answer, fallback: string, id: string)
    requires ReadableAnswer(d)
    ensures var r := AnthropicSse.CachedToSse(Print(AnswerBody(d)), fallback, id);
            var model := StringOr(d.model, fallback);
            if IsString(d.text) then
              AnthropicSse.ClientReads(r) == Some(AnthropicSse.Message(d.text.value.s, model, Some("end_turn")))
            else if IsString(d.message) then
              AnthropicSse.ClientReads(r) == Some(AnthropicSse.Message(d.message.value.s, model, Some("end_turn")))
            else r == OpenAiSse.Response("application/json", Print(AnswerBody(d)))
  {
    AnswerValid(d);
    PrintParse(AnswerBody(d));
    AnswerReads(d);
    AnthropicSse.CachedMeaning(Print(AnswerBody(d)), fallback, id);
  }

  lemma AnswerValid(d: Answer)
    requires ReadableAnswer(d)
    ensures Valid(AnswerBody(d)) && Within(AnswerBody(d), 127)
  {
    WrittenValid(BlockMembers(d), 124);
    var content := Arr([Obj(Written(BlockMembers(d)))] + d.others);
    assert Valid(content) && Within(content, 126);
    WrittenValid(AnswerMembers(d), 126);
  }

  lemma AnswerReads(d: Answer)
    ensures Then(First(Get(AnswerBody(d), "content")), "text") == d.text
    ensures Get(AnswerBody(d), "model") == d.model && Get(AnswerBody(d), "message") == d.message
  {
    FindWritten(AnswerMembers(d), 0);
    FindWritten(AnswerMembers(d), 1);
    FindWritten(AnswerMembers(d), 2);
    FindWritten(BlockMembers(d), 1);
  }

  predicate UsageIs(o: Option<Json>, input: int, output: int)
  {
    Then(o, "input_tokens") == Some(Int(input)) && Then(o, "output_tokens") == Some(Int(output))
  }

  /** Stream and plain answer carry the id given, and count a token for four bytes, at least one. */
  lemma AnthropicCounts(text: string, model: string, id: string)
    ensures var tokens := if ByteLen(text) < 8 then 1 else ByteLen(text) / 4;
            var payloads, json := AnthropicSse.Payloads(text, model, id), AnthropicSse.BuildJson(text, model, id);
            && Then(Get(payloads[5].1, "usage"), "output_tokens") == Some(Int(tokens))
            && Then(Get(payloads[0].1, "message"), "id") == Some(Str(id)) == Get(json, "id")
            && UsageIs(Get(json, "usage"), 0, tokens)
  {
    var tokens := AnthropicSse.EstimateTokens(text);
    var delta, start, json := AnthropicSse.MessageDelta(tokens), AnthropicSse.MessageStart(id, model),
      AnthropicSse.BuildJson(text, model, id);
    FindAt(delta.fields, "usage", 2);
    FindAt([Field("output_tokens", Int(tokens))], "output_tokens", 0);
    FindAt(start.fields, "message", 0);
    FindAt(AnthropicSse.StartMessage(id, model).fields, "id", 1);
    FindAt(json.fields, "id", 1);
    FindAt(json.fields, "usage", 7);
    FindAt(AnthropicSse.Usage(0, tokens).fields, "input_tokens", 0);
    FindAt(AnthropicSse.Usage(0, tokens).fields, "output_tokens", 1);
  }

  /** The plain answer is a complete message with the text in one block. */
  lemma PlainShape(text: string, model: string, id: string)
    ensures var json := AnthropicSse.BuildJson(text, model, id);
            && Get(json, "type") == Some(Str("message")) && Get(json, "role") == Some(Str("assistant"))
            && Get(json, "stop_reason") == Some(Str("end_turn")) && Get(json, "stop_sequence") == Some(Null)
            && Then(First(Get(json, "content")), "type") == Some(Str("text"))
            && Then(First(Get(json, "content")), "text") == Some(Str(text))
  {
    var json := AnthropicSse.BuildJson(text, model, id);
    FindAt(json.fields, "content", 0);
    FindAt(json.fields, "role", 3);
    FindAt(json.fields, "stop_reason", 4);
    FindAt(json.fields, "stop_sequence", 5);
    FindAt(json.fields, "type", 6);
    FindAt(AnthropicSse.TextBlock(text).fields, "text", 0);
    FindAt(AnthropicSse.TextBlock(text).fields, "type", 1);
  }

  /** The message that a stream starts with is empty, and the one text block, of index 0, starts empty too. */
  lemma StartShape(text: string, model: string, id: string)
    ensures var ps := AnthropicSse.Payloads(text, model, id);
            var message, block := Get(ps[0].1, "message"), Get(ps[1].1, "content_block");
            && Then(message, "role") == Some(Str("assistant")) && Then(message, "type") == Some(Str("message"))
            && Then(message, "content") == Some(Arr([])) && Then(message, "stop_reason") == Some(Null)
            && Then(message, "stop_sequence") == Some(Null) && UsageIs(Then(message, "usage"), 0, 0)
            && Then(block, "type") == Some(Str("text")) && Then(block, "text") == Some(Str(""))
            && Get(ps[1].1, "index") == Some(Int(0))
  {
    var start, block := AnthropicSse.MessageStart(id, model), AnthropicSse.BlockStart();
    var message := AnthropicSse.StartMessage(id, model);
    FindAt(start.fields, "message", 0);
    FindAt(message.fields, "content", 0);
    FindAt(message.fields, "role", 3);
    FindAt(message.fields, "stop_reason", 4);
    FindAt(message.fields, "stop_sequence", 5);
    FindAt(message.fields, "type", 6);
    FindAt(message.fields, "usage", 7);
    FindAt(AnthropicSse.Usage(0, 0).fields, "input_tokens", 0);
    FindAt(AnthropicSse.Usage(0, 0).fields, "output_tokens", 1);
    FindAt(block.fields, "index", 1);
    FindAt(block.fields, "content_block", 2);
    FindAt(AnthropicSse.EmptyBlock().fields, "type", 0);
    FindAt(AnthropicSse.EmptyBlock().fields, "text", 1);
  }

  /** All of the text comes in one delta of that block. */
  lemma DeltaShape(text: string, model: string, id: string)
    ensures var ps := AnthropicSse.Payloads(text, model, id);
            && Get(ps[3].1, "index") == Some(Int(0)) && Get(ps[4].1, "index") == Some(Int(0))
            && Then(Get(ps[3].1, "delta"), "type") == Some(Str("text_delta"))
            && Then(Get(ps[3].1, "delta"), "text") == Some(Str(text))
            && Then(Get(ps[5].1, "delta"), "stop_sequence") == Some(Null)
  {
    var ps := AnthropicSse.Payloads(text, model, id);
    FindAt(ps[3].1.fields, "delta", 0);
    FindAt(ps[3].1.fields, "index", 1);
    FindAt(AnthropicSse.TextDelta(text).fields, "text", 0);
    FindAt(AnthropicSse.TextDelta(text).fields, "type", 1);
    FindAt(ps[4].1.fields, "index", 1);
    FindAt(ps[5].1.fields, "delta", 1);
    FindAt(AnthropicSse.EndTurn().fields, "stop_sequence", 1);
  }
}
