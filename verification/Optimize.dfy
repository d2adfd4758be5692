/**
 `optimize_request_body` of `src/compression/optimize.rs`, for any compression pipeline: the
 pipeline is a function `exec` that may keep a state of type `S` from one text to the next.
 */
module Optimize {
  import opened Utils
  import opened Json
  import opened JsonText
  import Pipeline

  type Output = Pipeline.Output

  type Exec<!S> = (S, string) -> (S, Output)

  datatype OptimizeResult = OptimizeResult(body: string, modified: bool, bytesSaved: nat, strategy: string)

  // --------------------------------------------------- the texts of a request

  function BlockTexts(blocks: seq<Json>): seq<string>
  {
    if blocks == [] then []
    else
      var t := AsStr(Get(blocks[0], "text"));
      (if t.Some? then [t.value] else []) + BlockTexts(blocks[1..])
  }

  /** `extract_text_from_value` */
  function ExtractText(val: Json): Option<string>
  {
    match val
    case Str(s) => Some(s)
    case Arr(blocks) =>
      var texts := BlockTexts(blocks);
      if texts == [] then None else Some(Join(texts, '\n'))
    case _ => None
  }

  function SystemText(doc: Json): Option<string>
  {
    match Get(doc, "system")
    case Some(v) => ExtractText(v)
    case None => None
  }

  predicate IsSystem(msg: Json) { AsStr(Get(msg, "role")) == Some("system") }

  function MessageText(msg: Json): Option<string>
  {
    if !IsSystem(msg) then None
    else
      match Get(msg, "content")
      case Some(v) => ExtractText(v)
      case None => None
  }

  function ToSeq(o: Option<string>): seq<string> { if o.Some? then [o.value] else [] }

  function MessageTexts(msgs: seq<Json>): seq<string>
  {
    if msgs == [] then [] else MessageTexts(msgs[..|msgs| - 1]) + ToSeq(MessageText(msgs[|msgs| - 1]))
  }

  function Messages(doc: Json): seq<Json>
  {
    match Get(doc, "messages")
    case Some(Arr(msgs)) => msgs
    case _ => []
  }

  /** Every text the pipeline may rewrite, in the order it sees them. */
  function Texts(doc: Json): seq<string> { ToSeq(SystemText(doc)) + MessageTexts(Messages(doc)) }

  // ------------------------------------------------ what the pipeline answers

  /** The pipeline's answers to a list of texts, its state threaded through. */
  function Outs<S>(exec: Exec<S>, st: S, texts: seq<string>): (r: (S, seq<Output>))
    ensures |r.1| == |texts|
  {
    if texts == [] then (st, [])
    else
      var (s1, outs) := Outs(exec, st, texts[..|texts| - 1]);
      var (s2, o) := exec(s1, texts[|texts| - 1]);
      (s2, outs + [o])
  }

  function Effective(text: string, o: Output): string { if o.modified then o.text else text }

  /** The texts after the pipeline has had its say. */
  function EffectiveAll(texts: seq<string>, outs: seq<Output>): (r: seq<string>)
    requires |outs| == |texts|
    ensures |r| == |texts| && forall i :: 0 <= i < |r| ==> r[i] == Effective(texts[i], outs[i])
  {
    seq(|texts|, i requires 0 <= i < |texts| => Effective(texts[i], outs[i]))
  }

  /** Accumulators of the rewrite: bytes saved, whether anything changed, and the strategy label. */
  datatype Totals = Totals(saved: nat, modified: bool, strategy: string)

  const NO_CHANGE := Totals(0, false, "none")

  function Note(t: Totals, o: Output): Totals
  {
    if o.modified then Totals(t.saved + o.saved, true, if t.strategy == "none" then o.strategy else t.strategy) else t
  }

  function NoteAll(outs: seq<Output>): Totals
  {
    if outs == [] then NO_CHANGE else Note(NoteAll(outs[..|outs| - 1]), outs[|outs| - 1])
  }

  // ------------------------------------------------------------- the rewrite

  function SystemValue(was: Json, text: string): Json
  {
    if was.Arr? then Arr([Obj([Field("text", Str(text)), Field("type", Str("text"))])]) else Str(text)
  }

  function WithSystem(doc: Json, o: Output): Json
    requires SystemText(doc).Some?
  {
    if o.modified then Obj(SetField(doc.fields, "system", SystemValue(Get(doc, "system").value, o.text))) else doc
  }

  function WithContent(msg: Json, o: Output): Json
    requires MessageText(msg).Some?
  {
    if o.modified then Obj(SetField(msg.fields, "content", Str(o.text))) else msg
  }

  /** The message loop: new messages, pipeline state, and the pipeline's answers. */
  function RewriteMessages<S>(exec: Exec<S>, st: S, msgs: seq<Json>): (S, seq<Json>, seq<Output>)
  {
    if msgs == [] then (st, [], [])
    else
      var (s1, done, outs) := RewriteMessages(exec, st, msgs[..|msgs| - 1]);
      var msg := msgs[|msgs| - 1];
      var text := MessageText(msg);
      if text.None? then (s1, done + [msg], outs)
      else
        var (s2, o) := exec(s1, text.value);
        (s2, done + [WithContent(msg, o)], outs + [o])
  }

  /** The top-level `system` field. */
  function RewriteSystem<S>(exec: Exec<S>, st: S, doc: Json): (S, Json, seq<Output>)
  {
    var text := SystemText(doc);
    if text.None? then (st, doc, [])
    else
      var (s, o) := exec(st, text.value);
      (s, WithSystem(doc, o), [o])
  }

  /** The whole rewrite of a parsed body. */
  function Rewrite<S>(exec: Exec<S>, st: S, doc: Json): (S, Json, seq<Output>)
  {
    var (s1, doc1, first) := RewriteSystem(exec, st, doc);
    match Get(doc1, "messages")
    case Some(Arr(msgs)) =>
      var (s2, msgs', outs) := RewriteMessages(exec, s1, msgs);
      (s2, Obj(SetField(doc1.fields, "messages", Arr(msgs'))), first + outs)
    case _ => (s1, doc1, first)
  }

  /** The loop over the messages; `first` is what the pipeline has answered before it. */
  method OptimizeMessages<S>(exec: Exec<S>, st: S, msgs: seq<Json>, totals: Totals, ghost first: seq<Output>)
    returns (st': S, done: seq<Json>, totals': Totals)
    requires totals == NoteAll(first)
    ensures var (s, rewritten, outs) := RewriteMessages(exec, st, msgs);
            st' == s && done == rewritten && totals' == NoteAll(first + outs)
  {
    st', done, totals' := st, [], totals;
    ghost var outs: seq<Output> := [];
    assert first + [] == first;
    for i := 0 to |msgs|
      invariant (st', done, outs) == RewriteMessages(exec, st, msgs[..i])
      invariant totals' == NoteAll(first + outs)
    {
      var msg := msgs[i];
      assert msgs[..i + 1][..i] == msgs[..i];
      var text := MessageText(msg);
      if text.None? {
        done := done + [msg];
        continue;
      }
      var (s, o) := exec(st', text.value);
      st' := s;
      done := done + [WithContent(msg, o)];
      totals' := Note(totals', o);
      assert (first + (outs + [o]))[..|first + outs|] == first + outs;
      outs := outs + [o];
    }
    assert msgs[..|msgs|] == msgs;
  }

  /** What becomes of a body: a body that cannot be read or is not modified stays, byte for byte. */
  function Optimized<S>(exec: Exec<S>, st: S, body: string): (OptimizeResult, S)
  {
    match FromText(body)
    case None => (OptimizeResult(body, false, 0, "none"), st)
    case Some(doc) =>
      var (s, doc', outs) := Rewrite(exec, st, doc);
      var totals := NoteAll(outs);
      (if totals.modified then OptimizeResult(Print(doc'), true, totals.saved, totals.strategy)
       else OptimizeResult(body, false, 0, "none"), s)
  }

  method OptimizeRequestBody<S>(body: string, exec: Exec<S>, st: S) returns (r: OptimizeResult, st': S)
    ensures (r, st') == Optimized(exec, st, body)
  {
    st' := st;
    var parsed := FromText(body);
    if parsed.None? {
      return OptimizeResult(body, false, 0, "none"), st';
    }
    var doc := parsed.value;
    var totals := NO_CHANGE;
    ghost var first: seq<Output> := [];
    var system := SystemText(doc);
    if system.Some? {
      var (s, o) := exec(st', system.value);
      st' := s;
      doc := WithSystem(doc, o);
      totals := Note(totals, o);
      first := [o];
      assert [o][..0] == [];
      assert NoteAll(first) == totals;
    }
    var messages := Get(doc, "messages");
    if messages.Some? && messages.value.Arr? {
      var done: seq<Json>;
      st', done, totals := OptimizeMessages(exec, st', messages.value.items, totals, first);
      doc := Obj(SetField(doc.fields, "messages", Arr(done)));
    }
    r := if totals.modified then OptimizeResult(Print(doc), true, totals.saved, totals.strategy)
         else OptimizeResult(body, false, 0, "none");
  }

  // ------------------------------------------------------- what may change

  /** Same object but for the value of one key that it already has. */
  predicate SameBut(a: Json, b: Json, key: string)
  {
    && a.Obj? && b.Obj? && |a.fields| == |b.fields|
    && forall i :: 0 <= i < |a.fields| ==>
         a.fields[i].key == b.fields[i].key && (a.fields[i].key != key ==> a.fields[i] == b.fields[i])
  }

  /** One message: untouched unless its text was changed, and then only its content is, to the new text. */
  predicate MessageFrame(msg: Json, msg': Json, o: Option<Output>)
  {
    if o.Some? && o.value.modified then SameBut(msg, msg', "content") && Get(msg', "content") == Some(Str(o.value.text))
    else msg' == msg
  }

  /** What the pipeline answered for message `i`; only messages with a text have an answer, in message order. */
  function AnswerTo(msgs: seq<Json>, outs: seq<Output>, i: nat): Option<Output>
    requires i < |msgs|
  {
    var k := |MessageTexts(msgs[..i])|;
    if MessageText(msgs[i]).Some? && k < |outs| then Some(outs[k]) else None
  }

  predicate MessagesFrame(msgs: seq<Json>, msgs': seq<Json>, outs: seq<Output>)
  {
    && |msgs'| == |msgs| && |outs| == |MessageTexts(msgs)|
    && forall i :: 0 <= i < |msgs| ==> MessageFrame(msgs[i], msgs'[i], AnswerTo(msgs, outs, i))
  }

  /** The same members in the same order, equal but for those two keys. */
  predicate SameOthers(doc: Json, doc': Json)
  {
    || doc' == doc
    || (&& doc.Obj? && doc'.Obj? && |doc.fields| == |doc'.fields|
        && forall i :: 0 <= i < |doc.fields| ==>
             && doc.fields[i].key == doc'.fields[i].key
             && (doc.fields[i].key !in {"system", "messages"} ==> doc.fields[i] == doc'.fields[i]))
  }

  /**
   The rewritten document, exactly. The system field is untouched unless its text was changed,
   and is then the new text, in a single block if it was a list; each message is as its own
   answer says; nothing else differs.
   */
  predicate Framed(doc: Json, doc': Json, outs: seq<Output>)
  {
    var head := |ToSeq(SystemText(doc))|;
    && head <= |outs| && SameOthers(doc, doc')
    && Get(doc', "system") == (if head > 0 && outs[0].modified
                               then Some(SystemValue(Get(doc, "system").value, outs[0].text))
                               else Get(doc, "system"))
    && match Get(doc, "messages")
       case Some(Arr(msgs)) =>
         Get(doc', "messages") == Some(Arr(Messages(doc'))) && MessagesFrame(msgs, Messages(doc'), outs[head..])
       case other => Get(doc', "messages") == other
  }

  lemma {:induction false} HasFound(fields: seq<Field>, key: string)
    requires Find(fields, key).Some?
    ensures HasKey(fields, key)
  {
    FindNone(fields, key);
  }

  lemma {:induction false} FindSetOther(fields: seq<Field>, key: string, value: Json, other: string)
    requires key != other
    ensures Find(SetField(fields, key, value), other) == Find(fields, other)
  {
    if fields != [] && fields[0].key != key {
      FindSetOther(fields[1..], key, value, other);
    } else if fields != [] {
      assert SetField(fields, key, value)[1..] == fields[1..];
    }
  }

  lemma WithContentFacts(msg: Json, o: Output)
    requires MessageText(msg).Some?
    ensures var msg' := WithContent(msg, o);
            && MessageFrame(msg, msg', Some(o))
            && IsSystem(msg')
            && MessageText(msg') == Some(Effective(MessageText(msg).value, o))
  {
    if o.modified {
      var fields := SetField(msg.fields, "content", Str(o.text));
      HasFound(msg.fields, "content");
      FindSetOther(msg.fields, "content", Str(o.text), "role");
      assert WithContent(msg, o) == Obj(fields) && Find(fields, "content") == Some(Str(o.text));
    }
  }

  lemma {:induction false} TextsPush(msgs: seq<Json>, msg: Json)
    ensures MessageTexts(msgs + [msg]) == MessageTexts(msgs) + ToSeq(MessageText(msg))
  {
    assert (msgs + [msg])[..|msgs|] == msgs;
  }

  lemma {:induction false} OutsPush<S>(exec: Exec<S>, st: S, texts: seq<string>, text: string)
    ensures var (s1, outs) := Outs(exec, st, texts);
            var (s2, o) := exec(s1, text);
            Outs(exec, st, texts + [text]) == (s2, outs + [o])
  {
    assert (texts + [text])[..|texts|] == texts;
  }

  lemma EffectivePush(texts: seq<string>, outs: seq<Output>, text: string, o: Output)
    requires |outs| == |texts|
    ensures EffectiveAll(texts + [text], outs + [o]) == EffectiveAll(texts, outs) + [Effective(text, o)]
  {
  }

  lemma {:induction false} TextsBefore(msgs: seq<Json>, i: nat)
    requires i < |msgs| && MessageText(msgs[i]).Some?
    ensures |MessageTexts(msgs[..i])| < |MessageTexts(msgs)|
    decreases |msgs|
  {
    var n := |msgs| - 1;
    if i == n {
    } else {
      assert msgs[..n][..i] == msgs[..i];
      TextsBefore(msgs[..n], i);
    }
  }

  lemma {:induction false} AnswerKept(msgs: seq<Json>, outs: seq<Output>, msg: Json, more: seq<Output>, i: nat)
    requires i < |msgs| && |outs| == |MessageTexts(msgs)|
    ensures AnswerTo(msgs + [msg], outs + more, i) == AnswerTo(msgs, outs, i)
  {
    assert (msgs + [msg])[..i] == msgs[..i];
    if MessageText(msgs[i]).Some? {
      TextsBefore(msgs, i);
    }
  }

  /** One more message, with its answer if it has one. */
  lemma FramePush(msgs: seq<Json>, done: seq<Json>, outs: seq<Output>, msg: Json, msg': Json,
                  more: seq<Output>)
    requires MessagesFrame(msgs, done, outs)
    requires |more| == |ToSeq(MessageText(msg))|
    requires MessageFrame(msg, msg', if more == [] then None else Some(more[0]))
    ensures MessagesFrame(msgs + [msg], done + [msg'], outs + more)
  {
    var all, n := msgs + [msg], |msgs|;
    TextsPush(msgs, msg);
    assert all[..n] == msgs;
    forall i | 0 <= i < |all| ensures MessageFrame(all[i], (done + [msg'])[i], AnswerTo(all, outs + more, i)) {
      if i < n {
        AnswerKept(msgs, outs, msg, more, i);
      }
    }
  }

  /** The result of the message loop: framed, and holding the pipeline's texts. */
  ghost predicate RewrittenAs<S>(exec: Exec<S>, st: S, msgs: seq<Json>, r: (S, seq<Json>, seq<Output>))
  {
    && (r.0, r.2) == Outs(exec, st, MessageTexts(msgs))
    && MessagesFrame(msgs, r.1, r.2)
    && |r.2| == |MessageTexts(msgs)|
    && MessageTexts(r.1) == EffectiveAll(MessageTexts(msgs), r.2)
  }

  lemma SkippedMessage<S>(exec: Exec<S>, st: S, msgs: seq<Json>, msg: Json, r: (S, seq<Json>,
                          seq<Output>))
    requires RewrittenAs(exec, st, msgs, r) && MessageText(msg).None?
    ensures RewrittenAs(exec, st, msgs + [msg], (r.0, r.1 + [msg], r.2))
  {
    TextsPush(msgs, msg);
    TextsPush(r.1, msg);
    FramePush(msgs, r.1, r.2, msg, msg, []);
    assert r.2 + [] == r.2;
    assert MessageTexts(msgs) + [] == MessageTexts(msgs) && MessageTexts(r.1) + [] == MessageTexts(r.1);
  }

  lemma AskedMessage<S>(exec: Exec<S>, st: S, msgs: seq<Json>, msg: Json, r: (S, seq<Json>,
                        seq<Output>))
    requires RewrittenAs(exec, st, msgs, r) && MessageText(msg).Some?
    ensures var (s, o) := exec(r.0, MessageText(msg).value);
            RewrittenAs(exec, st, msgs + [msg], (s, r.1 + [WithContent(msg, o)], r.2 + [o]))
  {
    var text := MessageText(msg).value;
    var o := exec(r.0, text).1;
    WithContentFacts(msg, o);
    TextsPush(msgs, msg);
    TextsPush(r.1, WithContent(msg, o));
    FramePush(msgs, r.1, r.2, msg, WithContent(msg, o), [o]);
    OutsPush(exec, st, MessageTexts(msgs), text);
    EffectivePush(MessageTexts(msgs), r.2, text, o);
  }

  lemma {:induction false} RewritePush<S>(exec: Exec<S>, st: S, msgs: seq<Json>, msg: Json)
    ensures var r := RewriteMessages(exec, st, msgs);
            RewriteMessages(exec, st, msgs + [msg]) ==
            if MessageText(msg).None? then (r.0, r.1 + [msg], r.2)
            else var (s, o) := exec(r.0, MessageText(msg).value); (s, r.1 + [WithContent(msg, o)], r.2 + [o])
  {
    assert (msgs + [msg])[..|msgs|] == msgs;
  }

  /** The message loop keeps the frame, and what it leaves are the pipeline's texts. */
  lemma {:induction false} MessagesRewritten<S>(exec: Exec<S>, st: S, msgs: seq<Json>)
    ensures RewrittenAs(exec, st, msgs, RewriteMessages(exec, st, msgs))
  {
    if msgs == [] {
      assert RewriteMessages(exec, st, msgs) == (st, [], []);
    } else {
      var init, msg := msgs[..|msgs| - 1], msgs[|msgs| - 1];
      var r := RewriteMessages(exec, st, init);
      MessagesRewritten(exec, st, init);
      MessageRewritten(exec, st, init, msg);
      assert init + [msg] == msgs;
    }
  }

  lemma {:induction false} MessageRewritten<S>(exec: Exec<S>, st: S, msgs: seq<Json>, msg: Json)
    requires RewrittenAs(exec, st, msgs, RewriteMessages(exec, st, msgs))
    ensures RewrittenAs(exec, st, msgs + [msg], RewriteMessages(exec, st, msgs + [msg]))
  {
    var r := RewriteMessages(exec, st, msgs);
    RewritePush(exec, st, msgs, msg);
    if MessageText(msg).None? {
      SkippedMessage(exec, st, msgs, msg, r);
    } else {
      AskedMessage(exec, st, msgs, msg, r);
    }
  }

  lemma WithSystemFacts(doc: Json, o: Output)
    requires SystemText(doc).Some?
    ensures var doc' := WithSystem(doc, o);
            && (doc' == doc || SameBut(doc, doc', "system"))
            && SystemText(doc') == Some(Effective(SystemText(doc).value, o))
            && Get(doc', "messages") == Get(doc, "messages")
            && Get(doc', "system") == if o.modified then Some(SystemValue(Get(doc, "system").value, o.text))
                                      else Get(doc, "system")
  {
    if o.modified {
      var v := SystemValue(Get(doc, "system").value, o.text);
      HasFound(doc.fields, "system");
      FindSetOther(doc.fields, "system", v, "messages");
      if v.Arr? {
        FindAt(v.items[0].fields, "text", 0);
        assert v.items[1..] == [];
        assert BlockTexts(v.items) == [o.text] + [];
      }
    }
  }

  lemma WithMessagesFacts(doc: Json, msgs: seq<Json>, msgs': seq<Json>)
    requires Get(doc, "messages") == Some(Arr(msgs))
    ensures var doc' := Obj(SetField(doc.fields, "messages", Arr(msgs')));
            && SameBut(doc, doc', "messages")
            && Get(doc', "messages") == Some(Arr(msgs'))
            && Get(doc', "system") == Get(doc, "system")
  {
    HasFound(doc.fields, "messages");
    FindSetOther(doc.fields, "messages", Arr(msgs'), "system");
  }

  lemma {:induction false} SetChangesFirst(fields: seq<Field>, key: string, value: Json)
    requires HasKey(fields, key)
    ensures var r := SetField(fields, key, value);
            forall i :: 0 <= i < |fields| && fields[i] != r[i] ==>
                          Find(fields, key) == Some(fields[i].value) && r[i].value == value
  {
    if fields[0].key != key {
      assert HasKey(fields[1..], key) by {
        var i :| 0 <= i < |fields| && fields[i].key == key;
        assert fields[1..][i - 1].key == key;
      }
      SetChangesFirst(fields[1..], key, value);
      var r := SetField(fields, key, value);
      forall i | 0 <= i < |fields| && fields[i] != r[i]
        ensures Find(fields, key) == Some(fields[i].value) && r[i].value == value
      {
        assert i > 0 && fields[i] == fields[1..][i - 1] && r[i] == SetField(fields[1..], key, value)[i - 1];
      }
    }
  }

  lemma {:induction false} OutsConcat<S>(exec: Exec<S>, st: S, a: seq<string>, b: seq<string>)
    ensures var (s1, o1) := Outs(exec, st, a);
            var (s2, o2) := Outs(exec, s1, b);
            Outs(exec, st, a + b) == (s2, o1 + o2)
  {
    var (s1, o1) := Outs(exec, st, a);
    if b == [] {
      assert a + b == a && o1 + [] == o1;
    } else {
      var init, last := b[..|b| - 1], b[|b| - 1];
      OutsConcat(exec, st, a, init);
      OutsPush(exec, st, a + init, last);
      OutsPush(exec, s1, init, last);
      assert init + [last] == b && (a + init) + [last] == a + b;
      var (s2, o2) := Outs(exec, s1, init);
      var o := exec(s2, last).1;
      assert (o1 + o2) + [o] == o1 + (o2 + [o]);
    }
  }

  lemma RewriteTexts<S>(exec: Exec<S>, st: S, doc: Json)
    ensures var (s, doc', outs) := Rewrite(exec, st, doc);
            && (s, outs) == Outs(exec, st, Texts(doc))
            && Texts(doc') == EffectiveAll(Texts(doc), outs)
  {
    var (s1, doc1, first) := RewriteSystem(exec, st, doc);
    SystemRewritten(exec, st, doc);
    var head := ToSeq(SystemText(doc));
    if Get(doc, "messages").Some? && Get(doc, "messages").value.Arr? {
      var msgs := Get(doc, "messages").value.items;
      var (s2, msgs', outs) := RewriteMessages(exec, s1, msgs);
      var doc2 := Obj(SetField(doc1.fields, "messages", Arr(msgs')));
      assert Rewrite(exec, st, doc) == (s2, doc2, first + outs);
      assert (s2, outs) == Outs(exec, s1, MessageTexts(msgs))
             && MessageTexts(msgs') == EffectiveAll(MessageTexts(msgs), outs) by {
        MessagesRewritten(exec, s1, msgs);
      }
      WithMessagesFacts(doc1, msgs, msgs');
      OutsConcat(exec, st, head, MessageTexts(msgs));
      EffectiveConcat(head, first, MessageTexts(msgs), outs);
    } else {
      assert Rewrite(exec, st, doc) == (s1, doc1, first);
      assert Messages(doc) == [] && Messages(doc1) == [];
      assert head + MessageTexts([]) == head;
      assert ToSeq(SystemText(doc1)) + MessageTexts([]) == ToSeq(SystemText(doc1));
    }
  }

  lemma FramedWithMessages(doc: Json, doc2: Json, first: seq<Output>, outs: seq<Output>,
                           msgs: seq<Json>, msgs': seq<Json>)
    requires SameOthers(doc, doc2) && |first| == |ToSeq(SystemText(doc))|
    requires Get(doc2, "system") == (if first != [] && first[0].modified
                                     then Some(SystemValue(Get(doc, "system").value, first[0].text))
                                     else Get(doc, "system"))
    requires Get(doc, "messages") == Some(Arr(msgs)) && Get(doc2, "messages") == Some(Arr(msgs'))
    requires MessagesFrame(msgs, msgs', outs)
    ensures Framed(doc, doc2, first + outs)
  {
    assert (first + outs)[|first|..] == outs;
    assert first != [] ==> (first + outs)[0] == first[0];
  }

  lemma RewriteFramed<S>(exec: Exec<S>, st: S, doc: Json)
    ensures Framed(doc, Rewrite(exec, st, doc).1, Rewrite(exec, st, doc).2)
  {
    var (s1, doc1, first) := RewriteSystem(exec, st, doc);
    SystemRewritten(exec, st, doc);
    if Get(doc, "messages").Some? && Get(doc, "messages").value.Arr? {
      var msgs := Get(doc, "messages").value.items;
      var (s2, msgs', outs) := RewriteMessages(exec, s1, msgs);
      var doc2 := Obj(SetField(doc1.fields, "messages", Arr(msgs')));
      assert MessagesFrame(msgs, msgs', outs) by {
        MessagesRewritten(exec, s1, msgs);
      }
      WithMessagesFacts(doc1, msgs, msgs');
      OthersCompose(doc, doc1, doc2);
      FramedWithMessages(doc, doc2, first, outs, msgs, msgs');
      assert Rewrite(exec, st, doc) == (s2, doc2, first + outs);
    } else {
      SystemFramed(doc, doc1, first);
      assert Rewrite(exec, st, doc) == (s1, doc1, first);
    }
  }

  lemma SystemFramed(doc: Json, doc1: Json, first: seq<Output>)
    requires doc1 == doc || SameBut(doc, doc1, "system")
    requires |first| == |ToSeq(SystemText(doc))|
    requires Get(doc1, "system") == (if first != [] && first[0].modified
                                     then Some(SystemValue(Get(doc, "system").value, first[0].text))
                                     else Get(doc, "system"))
    requires Get(doc1, "messages") == Get(doc, "messages")
    requires !(Get(doc, "messages").Some? && Get(doc, "messages").value.Arr?)
    ensures Framed(doc, doc1, first)
  {
  }

  lemma OthersCompose(doc: Json, doc1: Json, doc2: Json)
    requires doc1 == doc || SameBut(doc, doc1, "system")
    requires SameBut(doc1, doc2, "messages")
    ensures SameOthers(doc, doc2)
  {
  }

  /**
   Whatever the pipeline does: it is asked for the texts of the document and for nothing else;
   a field whose text it leaves alone is untouched, one whose text it changes holds the new
   text, and nothing else differs; so the texts of the result are its answers, in order.
   */
  lemma RewriteMeaning<S>(exec: Exec<S>, st: S, doc: Json)
    ensures var (s, doc', outs) := Rewrite(exec, st, doc);
            && (s, outs) == Outs(exec, st, Texts(doc))
            && Framed(doc, doc', outs)
            && Texts(doc') == EffectiveAll(Texts(doc), outs)
  {
    RewriteTexts(exec, st, doc);
    RewriteFramed(exec, st, doc);
  }

  lemma SystemRewritten<S>(exec: Exec<S>, st: S, doc: Json)
    ensures var (s1, doc1, first) := RewriteSystem(exec, st, doc);
            && Outs(exec, st, ToSeq(SystemText(doc))) == (s1, first) && |first| == |ToSeq(SystemText(doc))|
            && (doc1 == doc || SameBut(doc, doc1, "system"))
            && ToSeq(SystemText(doc1)) == EffectiveAll(ToSeq(SystemText(doc)), first)
            && Get(doc1, "system") == (if first != [] && first[0].modified
                                       then Some(SystemValue(Get(doc, "system").value, first[0].text))
                                       else Get(doc, "system"))
            && Get(doc1, "messages") == Get(doc, "messages")
  {
    if SystemText(doc).Some? {
      var text := SystemText(doc).value;
      var o := exec(st, text).1;
      WithSystemFacts(doc, o);
      OutsPush(exec, st, [], text);
      assert [] + [text] == [text] && [] + [o] == [o];
    }
  }

  lemma EffectiveConcat(a: seq<string>, oa: seq<Output>, b: seq<string>, ob: seq<Output>)
    requires |a| == |oa| && |b| == |ob|
    ensures EffectiveAll(a + b, oa + ob) == EffectiveAll(a, oa) + EffectiveAll(b, ob)
  {
  }

  // --------------------------------------------------- savings, second pass

  /**
   The strategy reported is that of the first text that was changed. `none` is the name a
   pipeline gives exactly to the texts it does not change.
   */
  lemma {:induction false} StrategyIsFirst(outs: seq<Output>) returns (i: nat)
    requires forall k :: 0 <= k < |outs| ==> (outs[k].modified <==> outs[k].strategy != "none")
    ensures NoteAll(outs).modified <==> i < |outs|
    ensures NoteAll(outs).strategy == if i < |outs| then outs[i].strategy else "none"
    ensures (i < |outs| ==> outs[i].modified) && forall k :: 0 <= k < |outs| && k < i ==> !outs[k].modified
  {
    i := 0;
    if outs == [] {
    } else {
      var n := |outs| - 1;
      i := StrategyIsFirst(outs[..n]);
      if i >= n {
        i := if outs[n].modified then n else n + 1;
      }
    }
  }


  function TotalBytes(texts: seq<string>): nat
  {
    if texts == [] then 0 else TotalBytes(texts[..|texts| - 1]) + ByteLen(texts[|texts| - 1])
  }

  /** The pipeline reports exactly what each text loses. */
  ghost predicate Exact<S(!new)>(exec: Exec<S>)
  {
    forall st: S, text :: Pipeline.SavesExactly(text, exec(st, text).1)
  }

  lemma {:induction false} SavingsAddUp<S(!new)>(exec: Exec<S>, st: S, texts: seq<string>)
    requires Exact(exec)
    ensures var outs := Outs(exec, st, texts).1;
            NoteAll(outs).saved + TotalBytes(EffectiveAll(texts, outs)) == TotalBytes(texts)
  {
    if texts == [] {
    } else {
      var n := |texts| - 1;
      SavingsAddUp(exec, st, texts[..n]);
      var (s, outs) := Outs(exec, st, texts[..n]);
      var o := exec(s, texts[n]).1;
      assert Pipeline.SavesExactly(texts[n], o);
      assert (outs + [o])[..n] == outs;
      assert EffectiveAll(texts, outs + [o])[..n] == EffectiveAll(texts[..n], outs);
    }
  }

  /** If each call reports its own loss exactly, `bytes_saved` is the total shrinkage of the texts. */
  lemma BytesSavedIsShrinkage<S(!new)>(exec: Exec<S>, st: S, doc: Json)
    requires Exact(exec)
    ensures var (_, doc', outs) := Rewrite(exec, st, doc);
            NoteAll(outs).saved + TotalBytes(Texts(doc')) == TotalBytes(Texts(doc))
  {
    RewriteMeaning(exec, st, doc);
    SavingsAddUp(exec, st, Texts(doc));
  }

  /** The pipeline the server builds; its state is the instruction cache. */
  function BuiltExec(dedup: bool, minify: bool, env: Pipeline.Env): Exec<Pipeline.Cache>
  {
    (cache: Pipeline.Cache, text: string) => Pipeline.Run(Pipeline.BuildPipeline(dedup, minify), env, cache, text)
  }

  /** For the pipeline the server builds, `bytes_saved` is the total shrinkage, whatever its cache holds. */
  lemma BuiltBytesSaved(dedup: bool, minify: bool, env: Pipeline.Env, cache: Pipeline.Cache,
                        doc: Json)
    requires forall t :: Pipeline.ShortHash(env.hash(t))
    ensures var (_, doc', outs) := Rewrite(BuiltExec(dedup, minify, env), cache, doc);
            NoteAll(outs).saved + TotalBytes(Texts(doc')) == TotalBytes(Texts(doc))
  {
    var exec := BuiltExec(dedup, minify, env);
    forall c: Pipeline.Cache, text: string ensures Pipeline.SavesExactly(text, exec(c, text).1) {
      Pipeline.BuiltPipeline(dedup, minify, env, c, text);
    }
    BytesSavedIsShrinkage(exec, cache, doc);
  }

  lemma {:induction false} NothingNoted(outs: seq<Output>)
    ensures NoteAll(outs) == NO_CHANGE <==> forall k :: 0 <= k < |outs| ==> !outs[k].modified
    ensures NoteAll(outs).modified <==> exists k :: 0 <= k < |outs| && outs[k].modified
  {
    if outs == [] {
    } else {
      var init := outs[..|outs| - 1];
      NothingNoted(init);
      assert forall k :: 0 <= k < |init| ==> init[k] == outs[k];
    }
  }

  lemma {:induction false} WithSystemValid(doc: Json, o: Output)
    requires Valid(doc) && SystemText(doc).Some?
    ensures Valid(WithSystem(doc, o))
  {
    if o.modified {
      var v := SystemValue(Get(doc, "system").value, o.text);
      HasFound(doc.fields, "system");
      if v.Arr? {
        assert Valid(v.items[0]);
      }
      SetValid(doc.fields, "system", v);
    }
  }

  lemma {:induction false} SetValid(fields: seq<Field>, key: string, value: Json)
    requires ValidFields(fields) && DistinctKeys(fields) && Valid(value) && HasKey(fields, key)
    ensures Valid(Obj(SetField(fields, key, value)))
  {
    var r := SetField(fields, key, value);
    SetChangesFirst(fields, key, value);
    forall i | 0 <= i < |r| ensures Valid(r[i].value) {
      if r[i] == fields[i] {
        assert Valid(fields[i].value);
      }
    }
  }

  lemma {:induction false} MessagesValid<S>(exec: Exec<S>, st: S, msgs: seq<Json>)
    requires ValidItems(msgs)
    ensures ValidItems(RewriteMessages(exec, st, msgs).1)
  {
    if msgs == [] {
    } else {
      var n := |msgs| - 1;
      MessagesValid(exec, st, msgs[..n]);
      var msg := msgs[n];
      if MessageText(msg).Some? {
        HasFound(msg.fields, "content");
        var o := exec(RewriteMessages(exec, st, msgs[..n]).0, MessageText(msg).value).1;
        assert Valid(msg);
        SetValid(msg.fields, "content", Str(o.text));
      }
    }
  }

  // --------------------------------------------------------- levels of nesting

  lemma {:induction false} SetWithin(fields: seq<Field>, key: string, value: Json, n: nat)
    requires WithinFields(fields, n) && HasKey(fields, key) && Within(value, n)
    ensures WithinFields(SetField(fields, key, value), n)
  {
    SetChangesFirst(fields, key, value);
    var r := SetField(fields, key, value);
    forall i | 0 <= i < |r| ensures Within(r[i].value, n) {
      if r[i] == fields[i] {
      } else {
        assert r[i].value == value;
      }
    }
  }

  lemma {:induction false} FoundWithin(fields: seq<Field>, key: string, n: nat)
    requires WithinFields(fields, n) && Find(fields, key).Some?
    ensures Within(Find(fields, key).value, n)
  {
    if fields[0].key == key {
    } else {
      FoundWithin(fields[1..], key, n);
    }
  }

  /** A list that holds a text is at least two levels deep, as is the block that replaces it. */
  lemma {:induction false} SystemValueWithin(was: Json, text: string, n: nat)
    requires Within(was, n) && ExtractText(was).Some?
    ensures Within(SystemValue(was, text), n)
  {
    if was.Arr? {
      var i := FirstTextBlock(was.items);
      assert Within(was.items[i], n - 1);
      assert Within(Obj([Field("text", Str(text)), Field("type", Str("text"))]), n - 1);
    }
  }

  lemma {:induction false} FirstTextBlock(blocks: seq<Json>) returns (i: nat)
    requires BlockTexts(blocks) != []
    ensures i < |blocks| && blocks[i].Obj?
  {
    if AsStr(Get(blocks[0], "text")).Some? {
      i := 0;
    } else {
      i := FirstTextBlock(blocks[1..]);
      i := i + 1;
    }
  }

  lemma {:induction false} MessagesWithin<S>(exec: Exec<S>, st: S, msgs: seq<Json>, n: nat)
    requires WithinItems(msgs, n)
    ensures WithinItems(RewriteMessages(exec, st, msgs).1, n)
  {
    if msgs == [] {
    } else {
      var init, msg := msgs[..|msgs| - 1], msgs[|msgs| - 1];
      MessagesWithin(exec, st, init, n);
      if MessageText(msg).Some? {
        var o := exec(RewriteMessages(exec, st, init).0, MessageText(msg).value).1;
        HasFound(msg.fields, "content");
        SetWithin(msg.fields, "content", Str(o.text), n - 1);
      }
    }
  }

  lemma {:induction false} WithSystemWithin(doc: Json, o: Output, n: nat)
    requires Within(doc, n) && SystemText(doc).Some?
    ensures Within(WithSystem(doc, o), n)
  {
    var was := Get(doc, "system").value;
    HasFound(doc.fields, "system");
    FoundWithin(doc.fields, "system", n - 1);
    SystemValueWithin(was, o.text, n - 1);
    SetWithin(doc.fields, "system", SystemValue(was, o.text), n - 1);
  }

  lemma {:induction false} RewriteWithin<S>(exec: Exec<S>, st: S, doc: Json, n: nat)
    requires Within(doc, n)
    ensures Within(Rewrite(exec, st, doc).1, n)
  {
    var (s1, doc1, first) := RewriteSystem(exec, st, doc);
    if SystemText(doc).Some? {
      WithSystemWithin(doc, first[0], n);
    }
    match Get(doc1, "messages") {
      case Some(Arr(msgs)) =>
        HasFound(doc1.fields, "messages");
        FoundWithin(doc1.fields, "messages", n - 1);
        MessagesWithin(exec, s1, msgs, n - 2);
        SetWithin(doc1.fields, "messages", Arr(RewriteMessages(exec, s1, msgs).1), n - 1);
      case _ =>
    }
  }

  /** The rewritten body is a JSON value that the gateway reads back as itself. */
  lemma {:induction false} RewriteValid<S>(exec: Exec<S>, st: S, doc: Json)
    requires Valid(doc) && Within(doc, MAX_LEVELS)
    ensures Valid(Rewrite(exec, st, doc).1)
    ensures FromText(Print(Rewrite(exec, st, doc).1)) == Some(Rewrite(exec, st, doc).1)
  {
    RewriteWithin(exec, st, doc, MAX_LEVELS);
    var (s1, doc1, first) := RewriteSystem(exec, st, doc);
    if SystemText(doc).Some? {
      WithSystemValid(doc, first[0]);
    }
    match Get(doc1, "messages") {
      case Some(Arr(msgs)) =>
        FindValid(doc1.fields, "messages");
        HasFound(doc1.fields, "messages");
        MessagesValid(exec, s1, msgs);
        SetValid(doc1.fields, "messages", Arr(RewriteMessages(exec, s1, msgs).1));
      case _ =>
    }
    PrintParse(Rewrite(exec, st, doc).1);
  }
}
