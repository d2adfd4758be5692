/**
 The chat completions request of `src/models.rs` and its derived JSON encoding. A struct may
 be read from an object or from an array of its fields in order; `None` fields are left out
 when writing; a whole number read into a floating-point field is written with a fraction.
 */
module ChatRequest {
  import opened Utils
  import opened Json
  import opened Members

  datatype Content = Text(text: string) | Parts(parts: seq<Json>)

  datatype Message = Message(
    role: string, content: Option<Content>, name: Option<string>, toolCallId: Option<string>,
    toolCalls: Option<seq<Json>>, functionCall: Option<Json>)

  datatype Request = Request(
    model: string, messages: seq<Message>, tools: Option<seq<Json>>, toolChoice: Option<Json>,
    functions: Option<seq<Json>>, functionCall: Option<Json>, temperature: Option<Json>,
    maxTokens: Option<nat>, stream: Option<bool>)

  const U32_MAX := 0xFFFF_FFFF

  // --------------------------------------------------------------- decoding

  /** The value of a struct field: by name in an object, by position in an array; null counts as absent. */
  function Slot(j: Json, key: string, index: nat): Option<Json>
  {
    var v := if j.Arr? then (if index < |j.items| then Some(j.items[index]) else None) else Get(j, key);
    if v == Some(Null) then None else v
  }

  /** An optional field: absent, of the right form, or an error. */
  datatype Read<+T> = Absent | Present(value: T) | Malformed

  function Opt<T>(r: Read<T>): Option<T>
  {
    match r case Present(v) => Some(v) case _ => None
  }

  /** The reading that gave an optional field. */
  function OfOption<T>(o: Option<T>): (r: Read<T>)
    ensures Opt(r) == o && !r.Malformed?
  {
    match o case Some(v) => Present(v) case None => Absent
  }

  function ReadString(o: Option<Json>): Read<string>
  {
    match o case None => Absent case Some(Str(s)) => Present(s) case Some(_) => Malformed
  }

  function ReadList(o: Option<Json>): Read<seq<Json>>
  {
    match o case None => Absent case Some(Arr(xs)) => Present(xs) case Some(_) => Malformed
  }

  function ReadAny(o: Option<Json>): Read<Json>
  {
    match o case None => Absent case Some(j) => Present(j)
  }

  function ReadBool(o: Option<Json>): Read<bool>
  {
    match o case None => Absent case Some(Bool(b)) => Present(b) case Some(_) => Malformed
  }

  function ReadU32(o: Option<Json>): Read<nat>
  {
    match o
    case None => Absent
    case Some(Int(n)) => if 0 <= n <= U32_MAX then Present(n) else Malformed
    case Some(_) => Malformed
  }

  /** A number as a floating-point value. */
  function ReadFloat(o: Option<Json>): Read<Json>
  {
    match o
    case None => Absent
    case Some(Int(n)) => Present(Float(IntText(n) + ".0"))
    case Some(Float(l)) => Present(Float(l))
    case Some(_) => Malformed
  }

  /** The untagged choice between a string and a list. */
  function ReadContent(o: Option<Json>): Read<Content>
  {
    match o
    case None => Absent
    case Some(Str(s)) => Present(Text(s))
    case Some(Arr(xs)) => Present(Parts(xs))
    case Some(_) => Malformed
  }

  function DecodeMessage(j: Json): Option<Message>
  {
    if !(j.Obj? || (j.Arr? && 1 <= |j.items| <= 6)) then None
    else
      var role := ReadString(Slot(j, "role", 0));
      var content := ReadContent(Slot(j, "content", 1));
      var name, callId := ReadString(Slot(j, "name", 2)), ReadString(Slot(j, "tool_call_id", 3));
      var calls, call := ReadList(Slot(j, "tool_calls", 4)), ReadAny(Slot(j, "function_call", 5));
      if !role.Present? || content.Malformed? || name.Malformed? || callId.Malformed? || calls.Malformed? then None
      else Some(Message(role.value, Opt(content), Opt(name), Opt(callId), Opt(calls), Opt(call)))
  }

  function DecodeMessages(js: seq<Json>): (r: Option<seq<Message>>)
    ensures r.Some? ==> |r.value| == |js|
  {
    if js == [] then Some([])
    else
      var first, rest := DecodeMessage(js[0]), DecodeMessages(js[1..]);
      if first.None? || rest.None? then None else Some([first.value] + rest.value)
  }

  function Decode(j: Json): Option<Request>
  {
    if !(j.Obj? || (j.Arr? && |j.items| == 9)) then None
    else
      Assemble(ReadString(Slot(j, "model", 0)), ReadList(Slot(j, "messages", 1)), ReadList(Slot(j, "tools", 2)),
               ReadAny(Slot(j, "tool_choice", 3)), ReadList(Slot(j, "functions", 4)),
               ReadAny(Slot(j, "function_call", 5)), ReadFloat(Slot(j, "temperature", 6)),
               ReadU32(Slot(j, "max_tokens", 7)), ReadBool(Slot(j, "stream", 8)))
  }

  /** The request of the nine fields read: the first two are needed, none may be malformed. */
  function Assemble(model: Read<string>, list: Read<seq<Json>>, tools: Read<seq<Json>>, choice: Read<Json>,
                    functions: Read<seq<Json>>, call: Read<Json>, temperature: Read<Json>, maxTokens: Read<nat>,
                    stream: Read<bool>): Option<Request>
  {
    if !model.Present? || !list.Present? || tools.Malformed? || functions.Malformed? || temperature.Malformed?
       || maxTokens.Malformed? || stream.Malformed? then None
    else
      var messages := DecodeMessages(list.value);
      if messages.None? then None
      else Some(Request(model.value, messages.value, Opt(tools), Opt(choice), Opt(functions), Opt(call),
                        Opt(temperature), Opt(maxTokens), Opt(stream)))
  }

  // --------------------------------------------------------------- encoding

  function StrJson(o: Option<string>): Option<Json> { if o.Some? then Some(Str(o.value)) else None }

  function ListJson(o: Option<seq<Json>>): Option<Json> { if o.Some? then Some(Arr(o.value)) else None }

  function ContentJson(o: Option<Content>): Option<Json>
  {
    match o
    case Some(Text(s)) => Some(Str(s))
    case Some(Parts(xs)) => Some(Arr(xs))
    case None => None
  }

  function NatJson(o: Option<nat>): Option<Json> { if o.Some? then Some(Int(o.value)) else None }

  function BoolJson(o: Option<bool>): Option<Json> { if o.Some? then Some(Bool(o.value)) else None }

  function MessageMembers(m: Message): seq<Member>
  {
    [Member("role", Some(Str(m.role))), Member("content", ContentJson(m.content)), Member("name", StrJson(m.name)),
     Member("tool_call_id", StrJson(m.toolCallId)), Member("tool_calls", ListJson(m.toolCalls)),
     Member("function_call", m.functionCall)]
  }

  function EncodeMessage(m: Message): Json { Obj(Written(MessageMembers(m))) }

  function EncodeMessages(ms: seq<Message>): (r: seq<Json>)
    ensures |r| == |ms|
  {
    if ms == [] then [] else [EncodeMessage(ms[0])] + EncodeMessages(ms[1..])
  }

  function RequestMembers(r: Request): seq<Member>
  {
    [Member("model", Some(Str(r.model))), Member("messages", Some(Arr(EncodeMessages(r.messages)))),
     Member("tools", ListJson(r.tools)), Member("tool_choice", r.toolChoice),
     Member("functions", ListJson(r.functions)),
     Member("function_call", r.functionCall), Member("temperature", r.temperature),
     Member("max_tokens", NatJson(r.maxTokens)), Member("stream", BoolJson(r.stream))]
  }

  function Encode(r: Request): Json { Obj(Written(RequestMembers(r))) }

  /** The payload of the passthrough request: the encoding with the model inserted once more. */
  function Payload(r: Request): Json { Obj(SetField(Written(RequestMembers(r)), "model", Str(r.model))) }

  // ------------------------------------------------------------ normal form

  /** Requests that decoding can produce: no `Some(null)`, floats as floats, token limits in range. */
  predicate NormalMessage(m: Message) { m.functionCall != Some(Null) }

  predicate Normal(r: Request)
  {
    && r.toolChoice != Some(Null) && r.functionCall != Some(Null)
    && (r.temperature.Some? ==> r.temperature.value.Float?)
    && (r.maxTokens.Some? ==> r.maxTokens.value <= U32_MAX)
    && forall i :: 0 <= i < |r.messages| ==> NormalMessage(r.messages[i])
  }

  lemma {:induction false} DecodedMessagesNormal(js: seq<Json>)
    requires DecodeMessages(js).Some?
    ensures forall i :: 0 <= i < |js| ==> NormalMessage(DecodeMessages(js).value[i])
  {
    if js == [] {
    } else {
      DecodedMessagesNormal(js[1..]);
    }
  }

  lemma DecodedIsNormal(j: Json)
    requires Decode(j).Some?
    ensures Normal(Decode(j).value)
  {
    DecodedMessagesNormal(ReadList(Slot(j, "messages", 1)).value);
  }

  lemma MessageSlots(m: Message)
    ensures var j := EncodeMessage(m);
            && Get(j, "role") == Some(Str(m.role)) && Get(j, "content") == ContentJson(m.content)
            && Get(j, "name") == StrJson(m.name) && Get(j, "tool_call_id") == StrJson(m.toolCallId)
            && Get(j, "tool_calls") == ListJson(m.toolCalls) && Get(j, "function_call") == m.functionCall
  {
    var ms := MessageMembers(m);
    assert DistinctMembers(ms);
    FindWritten(ms, 0);
    FindWritten(ms, 1);
    FindWritten(ms, 2);
    FindWritten(ms, 3);
    FindWritten(ms, 4);
    FindWritten(ms, 5);
  }

  lemma MessageRoundTrip(m: Message)
    requires NormalMessage(m)
    ensures DecodeMessage(EncodeMessage(m)) == Some(m)
  {
    MessageSlots(m);
  }

  lemma {:induction false} MessagesRoundTrip(ms: seq<Message>)
    requires forall i :: 0 <= i < |ms| ==> NormalMessage(ms[i])
    ensures DecodeMessages(EncodeMessages(ms)) == Some(ms)
  {
    if ms == [] {
    } else {
      MessageRoundTrip(ms[0]);
      MessagesRoundTrip(ms[1..]);
      assert EncodeMessages(ms)[1..] == EncodeMessages(ms[1..]);
      assert [ms[0]] + ms[1..] == ms;
    }
  }

  lemma RequestKeysDistinct(r: Request)
    ensures DistinctMembers(RequestMembers(r))
  {
  }

  lemma RequestSlot(r: Request, i: nat)
    requires i < 9
    ensures var m := RequestMembers(r)[i]; Get(Encode(r), m.key) == m.value
  {
    RequestKeysDistinct(r);
    FindWritten(RequestMembers(r), i);
  }

  lemma RequiredSlots(r: Request)
    ensures var j := Encode(r);
            Get(j, "model") == Some(Str(r.model)) && Get(j, "messages") == Some(Arr(EncodeMessages(r.messages)))
  {
    RequestSlot(r, 0);
    RequestSlot(r, 1);
  }

  lemma ToolSlots(r: Request)
    ensures var j := Encode(r);
            && Get(j, "tools") == ListJson(r.tools) && Get(j, "tool_choice") == r.toolChoice
            && Get(j, "functions") == ListJson(r.functions) && Get(j, "function_call") == r.functionCall
  {
    RequestSlot(r, 2);
    RequestSlot(r, 3);
    RequestSlot(r, 4);
    RequestSlot(r, 5);
  }

  lemma SamplingSlots(r: Request)
    ensures var j := Encode(r);
            && Get(j, "temperature") == r.temperature && Get(j, "max_tokens") == NatJson(r.maxTokens)
            && Get(j, "stream") == BoolJson(r.stream)
  {
    RequestSlot(r, 6);
    RequestSlot(r, 7);
    RequestSlot(r, 8);
  }

  lemma ToolReads(r: Request)
    requires Normal(r)
    ensures var j := Encode(r);
            && ReadList(Slot(j, "tools", 2)) == OfOption(r.tools)
            && ReadAny(Slot(j, "tool_choice", 3)) == OfOption(r.toolChoice)
            && ReadList(Slot(j, "functions", 4)) == OfOption(r.functions)
            && ReadAny(Slot(j, "function_call", 5)) == OfOption(r.functionCall)
  {
    ToolSlots(r);
  }

  lemma SamplingReads(r: Request)
    requires Normal(r)
    ensures var j := Encode(r);
            && ReadFloat(Slot(j, "temperature", 6)) == OfOption(r.temperature)
            && ReadU32(Slot(j, "max_tokens", 7)) == OfOption(r.maxTokens)
            && ReadBool(Slot(j, "stream", 8)) == OfOption(r.stream)
  {
    SamplingSlots(r);
  }

  lemma {:induction false} Assembled(r: Request, list: seq<Json>)
    requires DecodeMessages(list) == Some(r.messages)
    ensures Assemble(Present(r.model), Present(list), OfOption(r.tools), OfOption(r.toolChoice), OfOption(r.functions),
                     OfOption(r.functionCall), OfOption(r.temperature), OfOption(r.maxTokens), OfOption(r.stream)) ==
            Some(r)
  {
  }

  lemma RequestRoundTrip(r: Request)
    requires Normal(r)
    ensures Decode(Encode(r)) == Some(r)
  {
    RequiredSlots(r);
    ToolReads(r);
    SamplingReads(r);
    MessagesRoundTrip(r.messages);
    Assembled(r, EncodeMessages(r.messages));
  }

  /**
   For every JSON value that decodes, writing the request and reading it again gives the same
   request, although the first reading drops unknown, null and positional fields.
   */
  lemma DecodeIsNormalForm(j: Json)
    requires Decode(j).Some?
    ensures Decode(Encode(Decode(j).value)) == Decode(j)
  {
    DecodedIsNormal(j);
    RequestRoundTrip(Decode(j).value);
  }

  /** Inserting the model again changes nothing, so the passthrough payload decodes to the request. */
  lemma PayloadIsEncoding(r: Request)
    ensures Payload(r) == Encode(r)
    ensures Normal(r) ==> Decode(Payload(r)) == Some(r)
  {
    var fields := Written(RequestMembers(r));
    assert fields[0] == Field("model", Str(r.model));
    assert [fields[0]] + fields[1..] == fields;
    if Normal(r) {
      RequestRoundTrip(r);
    }
  }

  /** Exactly the normal requests survive being written and read back. */
  lemma RoundTripIffNormal(r: Request)
    ensures Decode(Encode(r)) == Some(r) <==> Normal(r)
  {
    if Decode(Encode(r)) == Some(r) {
      DecodedIsNormal(Encode(r));
    }
    if Normal(r) {
      RequestRoundTrip(r);
    }
  }
}
