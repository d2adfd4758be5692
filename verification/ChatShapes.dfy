/**
 Which documents are chat completions requests, and what each field of the request is, by the
 member of the document that it comes from.
 */
module ChatShapes {
  import opened Utils
  import opened Json
  import ChatRequest

  // ------------------------------------------------------- numbers, as values

  function DigitsValue(t: string): real
  {
    if t == [] then 0.0
    else 10.0 * DigitsValue(t[..|t| - 1]) + (t[|t| - 1] as int - '0' as int) as real
  }

  /** The digits after a point: each counts a tenth of the one before. */
  function FractionValue(t: string): real
  {
    if t == [] then 0.0 else ((t[0] as int - '0' as int) as real + FractionValue(t[1..])) / 10.0
  }

  function PointAt(t: string): (n: nat)
    ensures n <= |t| && (n < |t| ==> t[n] == '.') && forall i :: 0 <= i < n ==> t[i] != '.'
  {
    if t == [] || t[0] == '.' then 0 else 1 + PointAt(t[1..])
  }

  /** The value of a decimal text without an exponent. */
  function RealValue(t: string): real
  {
    if t != [] && t[0] == '-' then -UnsignedValue(t[1..]) else UnsignedValue(t)
  }

  function UnsignedValue(t: string): real
  {
    var n := PointAt(t);
    DigitsValue(t[..n]) + if n < |t| then FractionValue(t[n + 1..]) else 0.0
  }

  lemma {:induction false} DecimalReads(n: nat)
    ensures DigitsValue(Decimal(n)) == n as real
  {
    if n < 10 {
      assert Decimal(n)[..0] == [];
    } else {
      DecimalReads(n / 10);
      var t := Decimal(n);
      assert t[..|t| - 1] == Decimal(n / 10);
    }
  }

  lemma WholeReads(n: nat)
    ensures UnsignedValue(Decimal(n) + ".0") == n as real
  {
    var t := Decimal(n) + ".0";
    assert AllDigits(Decimal(n));
    assert t[|Decimal(n)|] == '.' && forall i :: 0 <= i < |Decimal(n)| ==> t[i] == Decimal(n)[i];
    assert PointAt(t) == |Decimal(n)|;
    assert t[..PointAt(t)] == Decimal(n) && t[PointAt(t) + 1..] == "0";
    assert FractionValue("0") == 0.0 by { assert "0"[1..] == []; }
    DecimalReads(n);
  }

  lemma SignedReads(sign: string, t: string)
    requires t != [] && t[0] != '-' && (sign == "-" || sign == "")
    ensures RealValue(sign + t) == if sign == "-" then -UnsignedValue(t) else UnsignedValue(t)
  {
    if sign == "-" {
      assert (sign + t)[0] == '-' && (sign + t)[1..] == t;
    } else {
      assert sign + t == t;
    }
  }

  /** A whole number read into a floating-point field keeps its value. */
  lemma IntReads(n: int)
    ensures RealValue(IntText(n) + ".0") == n as real
  {
    var m: nat, sign := if n < 0 then -n else n, if n < 0 then "-" else "";
    var t := Decimal(m) + ".0";
    WholeReads(m);
    assert t[0] == Decimal(m)[0] && Digit(Decimal(m)[0]);
    SignedReads(sign, t);
    assert IntText(n) + ".0" == sign + t;
  }

  // ---------------------------------------------------------- one member each

  predicate Missing(o: Option<Json>) { o.None? || o == Some(Null) }

  predicate StringGives(o: Option<Json>, v: Option<string>)
  {
    match v case Some(s) => o == Some(Str(s)) case None => Missing(o)
  }

  predicate ListGives(o: Option<Json>, v: Option<seq<Json>>)
  {
    match v case Some(xs) => o == Some(Arr(xs)) case None => Missing(o)
  }

  predicate AnyGives(o: Option<Json>, v: Option<Json>)
  {
    match v case Some(j) => o == Some(j) && j != Null case None => Missing(o)
  }

  predicate BoolGives(o: Option<Json>, v: Option<bool>)
  {
    match v case Some(b) => o == Some(Bool(b)) case None => Missing(o)
  }

  predicate CountGives(o: Option<Json>, v: Option<nat>)
  {
    match v case Some(n) => o == Some(Int(n)) && n < 4_294_967_296 case None => Missing(o)
  }

  /** A float is the same float; a whole number is a float of the same value. */
  predicate NumberGives(o: Option<Json>, v: Option<Json>)
  {
    match v
    case Some(Float(l)) => o == Some(Float(l)) || (o.Some? && o.value.Int? && RealValue(l) == o.value.n as real)
    case Some(_) => false
    case None => Missing(o)
  }

  predicate ContentGives(o: Option<Json>, v: Option<ChatRequest.Content>)
  {
    match v
    case Some(Text(s)) => o == Some(Str(s))
    case Some(Parts(xs)) => o == Some(Arr(xs))
    case None => Missing(o)
  }

  predicate IsString(o: Option<Json>) { o.Some? && o.value.Str? }

  predicate IsList(o: Option<Json>) { o.Some? && o.value.Arr? }

  // ----------------------------------------------------------------- messages

  /** The members of a message written as an array, in the order of its fields. */
  function MessageFields(items: seq<Json>): seq<Field>
    requires |items| <= 6
  {
    var names := ["role", "content", "name", "tool_call_id", "tool_calls", "function_call"];
    seq(|items|, i requires 0 <= i < |items| => Field(names[i], items[i]))
  }

  /** A message is an object, or an array of up to six of its fields. */
  function AsMessage(j: Json): Option<Json>
  {
    if j.Obj? then Some(j)
    else if j.Arr? && 1 <= |j.items| <= 6 then Some(Obj(MessageFields(j.items)))
    else None
  }

  predicate MessageGives(j: Json, m: ChatRequest.Message)
  {
    && AsMessage(j).Some?
    && var o := AsMessage(j).value;
       && Get(o, "role") == Some(Str(m.role)) && ContentGives(Get(o, "content"), m.content)
       && StringGives(Get(o, "name"), m.name) && StringGives(Get(o, "tool_call_id"), m.toolCallId)
       && ListGives(Get(o, "tool_calls"), m.toolCalls) && AnyGives(Get(o, "function_call"), m.functionCall)
  }

  predicate IsMessage(j: Json)
  {
    && AsMessage(j).Some?
    && var o := AsMessage(j).value;
       && IsString(Get(o, "role"))
       && (Missing(Get(o, "content")) || IsString(Get(o, "content")) || IsList(Get(o, "content")))
       && (Missing(Get(o, "name")) || IsString(Get(o, "name")))
       && (Missing(Get(o, "tool_call_id")) || IsString(Get(o, "tool_call_id")))
       && (Missing(Get(o, "tool_calls")) || IsList(Get(o, "tool_calls")))
  }

  /** In an array the fields stand at these places. */
  lemma MessagePlace(items: seq<Json>, k: nat)
    requires |items| <= 6 && k < 6
    ensures var names := ["role", "content", "name", "tool_call_id", "tool_calls", "function_call"];
            Find(MessageFields(items), names[k]) == if k < |items| then Some(items[k]) else None
  {
    var names := ["role", "content", "name", "tool_call_id", "tool_calls", "function_call"];
    if k < |items| {
      FindAt(MessageFields(items), names[k], k);
    } else {
      FindNone(MessageFields(items), names[k]);
    }
  }

  lemma MessagePlaces(items: seq<Json>)
    requires 1 <= |items| <= 6
    ensures ChatRequest.DecodeMessage(Arr(items)) == ChatRequest.DecodeMessage(Obj(MessageFields(items)))
  {
    MessagePlace(items, 0);
    MessagePlace(items, 1);
    MessagePlace(items, 2);
    MessagePlace(items, 3);
    MessagePlace(items, 4);
    MessagePlace(items, 5);
  }

  lemma ObjectMessage(o: Json)
    requires o.Obj?
    ensures ChatRequest.DecodeMessage(o).Some? <==> IsMessage(o)
    ensures ChatRequest.DecodeMessage(o).Some? ==> MessageGives(o, ChatRequest.DecodeMessage(o).value)
  {
  }

  /** Which values are messages, and what each field of the message is. */
  lemma MessageShape(j: Json)
    ensures ChatRequest.DecodeMessage(j).Some? <==> IsMessage(j)
    ensures ChatRequest.DecodeMessage(j).Some? ==> MessageGives(j, ChatRequest.DecodeMessage(j).value)
  {
    if AsMessage(j).Some? {
      ObjectMessage(AsMessage(j).value);
      if j.Arr? {
        MessagePlaces(j.items);
      }
    }
  }

  lemma {:induction false} MessagesShape(js: seq<Json>)
    ensures ChatRequest.DecodeMessages(js).Some? <==> forall i :: 0 <= i < |js| ==> IsMessage(js[i])
    ensures ChatRequest.DecodeMessages(js).Some? ==>
              forall i :: 0 <= i < |js| ==> MessageGives(js[i], ChatRequest.DecodeMessages(js).value[i])
  {
    if js == [] {
    } else {
      MessageShape(js[0]);
      MessagesShape(js[1..]);
      assert forall i :: 0 <= i < |js| - 1 ==> js[1..][i] == js[i + 1];
      if forall i :: 0 <= i < |js| ==> IsMessage(js[i]) {
        assert forall i :: 0 <= i < |js| - 1 ==> IsMessage(js[1..][i]);
      }
      if ChatRequest.DecodeMessages(js).Some? {
        var first, rest := ChatRequest.DecodeMessage(js[0]).value, ChatRequest.DecodeMessages(js[1..]).value;
        assert ChatRequest.DecodeMessages(js).value == [first] + rest;
        forall i | 0 <= i < |js| ensures IsMessage(js[i]) && MessageGives(js[i], ([first] + rest)[i]) {
          if i > 0 {
            assert js[i] == js[1..][i - 1];
          }
        }
      }
    }
  }

  // ----------------------------------------------------------------- requests

  const REQUEST_NAMES: seq<string> := [
    "model", "messages", "tools", "tool_choice", "functions", "function_call", "temperature", "max_tokens", "stream"]

  /** The members of a request written as an array, in the order of its fields. */
  function RequestFields(items: seq<Json>): seq<Field>
    requires |items| == 9
  {
    seq(9, i requires 0 <= i < 9 => Field(REQUEST_NAMES[i], items[i]))
  }

  /** A request is an object, or an array of all nine of its fields. */
  function AsRequest(j: Json): Option<Json>
  {
    if j.Obj? then Some(j)
    else if j.Arr? && |j.items| == 9 then Some(Obj(RequestFields(j.items)))
    else None
  }

  predicate RequestGives(o: Json, r: ChatRequest.Request)
  {
    && Get(o, "model") == Some(Str(r.model))
    && IsList(Get(o, "messages")) && |Get(o, "messages").value.items| == |r.messages|
    && (forall i :: 0 <= i < |r.messages| ==> MessageGives(Get(o, "messages").value.items[i], r.messages[i]))
    && ListGives(Get(o, "tools"), r.tools) && AnyGives(Get(o, "tool_choice"), r.toolChoice)
    && ListGives(Get(o, "functions"), r.functions) && AnyGives(Get(o, "function_call"), r.functionCall)
    && NumberGives(Get(o, "temperature"), r.temperature) && CountGives(Get(o, "max_tokens"), r.maxTokens)
    && BoolGives(Get(o, "stream"), r.stream)
  }

  predicate IsRequest(o: Json)
  {
    && IsString(Get(o, "model")) && IsList(Get(o, "messages"))
    && (forall i :: 0 <= i < |Get(o, "messages").value.items| ==> IsMessage(Get(o, "messages").value.items[i]))
    && (Missing(Get(o, "tools")) || IsList(Get(o, "tools")))
    && (Missing(Get(o, "functions")) || IsList(Get(o, "functions")))
    && (Missing(Get(o, "temperature")) || Get(o, "temperature").value.Float? || Get(o, "temperature").value.Int?)
    && (Missing(Get(o, "max_tokens"))
        || (Get(o, "max_tokens").value.Int? && 0 <= Get(o, "max_tokens").value.n < 4_294_967_296))
    && (Missing(Get(o, "stream")) || Get(o, "stream").value.Bool?)
  }

  lemma RequestPlace(items: seq<Json>, k: nat)
    requires |items| == 9 && k < 9
    ensures Find(RequestFields(items), REQUEST_NAMES[k]) == Some(items[k])
  {
    FindAt(RequestFields(items), REQUEST_NAMES[k], k);
  }

  lemma RequestPlaces(items: seq<Json>)
    requires |items| == 9
    ensures ChatRequest.Decode(Arr(items)) == ChatRequest.Decode(Obj(RequestFields(items)))
  {
    forall k: nat | k < 9 ensures Find(RequestFields(items), REQUEST_NAMES[k]) == Some(items[k]) {
      RequestPlace(items, k);
    }
    assert REQUEST_NAMES[0] == "model" && REQUEST_NAMES[1] == "messages" && REQUEST_NAMES[2] == "tools";
    assert REQUEST_NAMES[3] == "tool_choice" && REQUEST_NAMES[4] == "functions" && REQUEST_NAMES[5] == "function_call";
    assert REQUEST_NAMES[6] == "temperature" && REQUEST_NAMES[7] == "max_tokens" && REQUEST_NAMES[8] == "stream";
  }

  /** Which objects are requests. */
  lemma ObjectDecodes(o: Json)
    requires o.Obj?
    ensures ChatRequest.Decode(o).Some? <==> IsRequest(o)
  {
    if IsList(Get(o, "messages")) {
      MessagesShape(Get(o, "messages").value.items);
    }
  }

  lemma ObjectGives(o: Json)
    requires o.Obj? && ChatRequest.Decode(o).Some?
    ensures RequestGives(o, ChatRequest.Decode(o).value)
  {
    MessagesShape(Get(o, "messages").value.items);
    var t := Get(o, "temperature");
    if t.Some? && t.value.Int? {
      IntReads(t.value.n);
    }
  }

  /**
   For every JSON value: it decodes exactly if it is a request, and then each field is that of
   the member it comes from. A whole temperature keeps its value, and a float stays as it is.
   */
  lemma DecodeShape(j: Json)
    ensures ChatRequest.Decode(j).Some? <==> AsRequest(j).Some? && IsRequest(AsRequest(j).value)
    ensures ChatRequest.Decode(j).Some? ==> RequestGives(AsRequest(j).value, ChatRequest.Decode(j).value)
  {
    if AsRequest(j).Some? {
      ObjectDecodes(AsRequest(j).value);
      if j.Arr? {
        RequestPlaces(j.items);
      }
      if ChatRequest.Decode(j).Some? {
        ObjectGives(AsRequest(j).value);
      }
    }
  }
}
