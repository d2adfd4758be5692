/**
 What `optimize_request_body` asks of the pipeline and changes, over the shapes of documents:
 which values are texts, in which order they are asked about, and what is never touched.
 */
module OptimizeShapes {
  import opened Utils
  import opened Json
  import opened Optimize

  // ----------------------------------------------------------- what is a text

  /** A block that holds a text, after blocks that hold none. */
  datatype Part = Part(gap: seq<Json>, block: Json, text: string)

  predicate Silent(blocks: seq<Json>)
  {
    forall i :: 0 <= i < |blocks| ==> AsStr(Get(blocks[i], "text")).None?
  }

  predicate Good(parts: seq<Part>)
  {
    forall i :: 0 <= i < |parts| ==> Silent(parts[i].gap) && Get(parts[i].block, "text") == Some(Str(parts[i].text))
  }

  function Weave(parts: seq<Part>, tail: seq<Json>): seq<Json>
  {
    if parts == [] then tail else parts[0].gap + ([parts[0].block] + Weave(parts[1..], tail))
  }

  function TextsOf(parts: seq<Part>): seq<string>
  {
    if parts == [] then [] else [parts[0].text] + TextsOf(parts[1..])
  }

  /** The blocks that hold a text hold these, in this order, and no other block holds one. */
  predicate HoldsAs(blocks: seq<Json>, parts: seq<Part>, tail: seq<Json>)
  {
    Good(parts) && Silent(tail) && blocks == Weave(parts, tail)
  }

  /** A value that is a text: a string, or a list of blocks whose texts are put on lines of their own. */
  ghost predicate Spells(v: Json, text: string)
  {
    || v == Str(text)
    || (v.Arr? && exists parts, tail ::
          HoldsAs(v.items, parts, tail) && parts != [] && text == Join(TextsOf(parts), '\n'))
  }

  lemma {:induction false} GapSkipped(gap: seq<Json>, rest: seq<Json>)
    requires Silent(gap)
    ensures BlockTexts(gap + rest) == BlockTexts(rest)
  {
    if gap == [] {
      assert gap + rest == rest;
    } else {
      assert (gap + rest)[1..] == gap[1..] + rest && (gap + rest)[0] == gap[0];
      GapSkipped(gap[1..], rest);
    }
  }

  lemma {:induction false} WeaveTexts(parts: seq<Part>, tail: seq<Json>)
    requires Good(parts) && Silent(tail)
    ensures BlockTexts(Weave(parts, tail)) == TextsOf(parts)
  {
    if parts == [] {
      GapSkipped(tail, []);
      assert tail + [] == tail;
    } else {
      var rest := Weave(parts[1..], tail);
      WeaveTexts(parts[1..], tail);
      GapSkipped(parts[0].gap, [parts[0].block] + rest);
      assert ([parts[0].block] + rest)[1..] == rest;
    }
  }

  lemma {:induction false} Unweave(blocks: seq<Json>) returns (parts: seq<Part>, tail: seq<Json>)
    ensures HoldsAs(blocks, parts, tail)
  {
    if blocks == [] {
      parts, tail := [], [];
    } else {
      parts, tail := Unweave(blocks[1..]);
      var first := AsStr(Get(blocks[0], "text"));
      if first.Some? {
        parts := PartAdded(blocks[0], first.value, parts, tail);
      } else if parts == [] {
        tail := [blocks[0]] + tail;
        assert tail == blocks;
      } else {
        parts := GapWidened(blocks[0], parts, tail);
      }
      assert [blocks[0]] + blocks[1..] == blocks;
    }
  }

  lemma PartAdded(block: Json, text: string, parts: seq<Part>, tail: seq<Json>) returns (r: seq<Part>)
    requires Good(parts) && Get(block, "text") == Some(Str(text))
    ensures Good(r) && Weave(r, tail) == [block] + Weave(parts, tail)
  {
    r := [Part([], block, text)] + parts;
    assert r[1..] == parts;
    assert [] + ([block] + Weave(parts, tail)) == [block] + Weave(parts, tail);
  }

  lemma GapWidened(block: Json, parts: seq<Part>, tail: seq<Json>) returns (r: seq<Part>)
    requires Good(parts) && parts != [] && AsStr(Get(block, "text")).None?
    ensures Good(r) && r != [] && Weave(r, tail) == [block] + Weave(parts, tail)
  {
    var p := parts[0];
    r := [p.(gap := [block] + p.gap)] + parts[1..];
    assert r[1..] == parts[1..];
    var rest := [p.block] + Weave(parts[1..], tail);
    assert ([block] + p.gap) + rest == [block] + (p.gap + rest);
  }

  /** The text that is found in a value is the one that it spells. */
  lemma ExtractIff(v: Json, text: string)
    ensures ExtractText(v) == Some(text) <==> Spells(v, text)
  {
    if v.Arr? {
      var found, end := Unweave(v.items);
      WeaveTexts(found, end);
      if parts, tail :| HoldsAs(v.items, parts, tail) && parts != [] && text == Join(TextsOf(parts), '\n') {
        WeaveTexts(parts, tail);
      }
    }
  }

  // ---------------------------------------------------- what is asked, and when

  /** What a message is asked about: its content, if its role is `system` and its content spells a text. */
  ghost predicate MessageAsks(msg: Json, o: Option<string>)
  {
    var asked := Get(msg, "role") == Some(Str("system")) && Get(msg, "content").Some?;
    match o
    case Some(text) => asked && Spells(Get(msg, "content").value, text)
    case None => !asked || forall text :: !Spells(Get(msg, "content").value, text)
  }

  ghost predicate SystemAsks(doc: Json, o: Option<string>)
  {
    match o
    case Some(text) => Get(doc, "system").Some? && Spells(Get(doc, "system").value, text)
    case None => Get(doc, "system").None? || forall text :: !Spells(Get(doc, "system").value, text)
  }

  lemma MessageAsksIs(msg: Json, o: Option<string>)
    requires MessageAsks(msg, o)
    ensures MessageText(msg) == o
  {
    if Get(msg, "content").Some? {
      forall text
        ensures ExtractText(Get(msg, "content").value) == Some(text) <==> Spells(Get(msg, "content").value, text)
      {
        ExtractIff(Get(msg, "content").value, text);
      }
    }
  }

  lemma SystemAsksIs(doc: Json, o: Option<string>)
    requires SystemAsks(doc, o)
    ensures SystemText(doc) == o
  {
    if Get(doc, "system").Some? {
      forall text
        ensures ExtractText(Get(doc, "system").value) == Some(text) <==> Spells(Get(doc, "system").value, text)
      {
        ExtractIff(Get(doc, "system").value, text);
      }
    }
  }

  function Present(os: seq<Option<string>>): seq<string>
  {
    if os == [] then [] else Present(os[..|os| - 1]) + ToSeq(os[|os| - 1])
  }

  lemma {:induction false} MessagesAsk(msgs: seq<Json>, os: seq<Option<string>>)
    requires |os| == |msgs| && forall i :: 0 <= i < |msgs| ==> MessageAsks(msgs[i], os[i])
    ensures MessageTexts(msgs) == Present(os)
  {
    if msgs == [] {
    } else {
      var n := |msgs| - 1;
      MessagesAsk(msgs[..n], os[..n]);
      MessageAsksIs(msgs[n], os[n]);
    }
  }

  /**
   The pipeline is asked about the text of `system` and then about those of the messages whose
   role is `system`, in message order, and about nothing else.
   */
  lemma AskedInOrder<S>(exec: Exec<S>, st: S, doc: Json, msgs: seq<Json>, system: Option<string>,
                       os: seq<Option<string>>)
    requires Get(doc, "messages") == Some(Arr(msgs)) && SystemAsks(doc, system)
    requires |os| == |msgs| && forall i :: 0 <= i < |msgs| ==> MessageAsks(msgs[i], os[i])
    ensures var (s, _, outs) := Rewrite(exec, st, doc); (s, outs) == Outs(exec, st, ToSeq(system) + Present(os))
  {
    SystemAsksIs(doc, system);
    MessagesAsk(msgs, os);
    RewriteMeaning(exec, st, doc);
  }

  // ------------------------------------------------------------ what is touched

  /**
   Messages of any other role are untouched, and so is a system message whose content is
   neither a string nor a list, or a list without a text.
   */
  lemma OthersUntouched<S>(exec: Exec<S>, st: S, doc: Json, msgs: seq<Json>, i: nat)
    requires Get(doc, "messages") == Some(Arr(msgs)) && i < |msgs|
    requires Get(msgs[i], "role") != Some(Str("system")) || MessageAsks(msgs[i], None)
    ensures var doc' := Rewrite(exec, st, doc).1;
            Get(doc', "messages") == Some(Arr(Messages(doc'))) && |Messages(doc')| == |msgs|
            && Messages(doc')[i] == msgs[i]
  {
    RewriteMeaning(exec, st, doc);
    if MessageAsks(msgs[i], None) {
      MessageAsksIs(msgs[i], None);
    }
    var doc', outs := Rewrite(exec, st, doc).1, Rewrite(exec, st, doc).2;
    Unanswered(msgs, Messages(doc'), outs[|ToSeq(SystemText(doc))|..], i);
  }

  lemma Unanswered(msgs: seq<Json>, msgs': seq<Json>, outs: seq<Output>, i: nat)
    requires MessagesFrame(msgs, msgs', outs) && i < |msgs| && MessageText(msgs[i]).None?
    ensures msgs'[i] == msgs[i]
  {
    assert MessageFrame(msgs[i], msgs'[i], AnswerTo(msgs, outs, i));
  }

  /** A changed `system` keeps its shape: a string stays a string, a list becomes one text block. */
  lemma SystemShape<S>(exec: Exec<S>, st: S, doc: Json, text: string)
    requires SystemAsks(doc, Some(text))
    ensures var doc', o := Rewrite(exec, st, doc).1, exec(st, text).1;
            var was := Get(doc, "system").value;
            Get(doc', "system") ==
            if !o.modified then Some(was)
            else if was.Str? then Some(Str(o.text))
            else Some(Arr([Obj([Field("text", Str(o.text)), Field("type", Str("text"))])]))
  {
    SystemAsksIs(doc, Some(text));
    RewriteMeaning(exec, st, doc);
    OutsFirst(exec, st, text, MessageTexts(Messages(doc)));
  }

  lemma {:induction false} OutsFirst<S>(exec: Exec<S>, st: S, text: string, more: seq<string>)
    ensures Outs(exec, st, [text] + more).1[0] == exec(st, text).1
  {
    if more == [] {
      assert [text] + more == [text] && [text][..0] == [];
    } else {
      var n := |more| - 1;
      OutsFirst(exec, st, text, more[..n]);
      assert ([text] + more)[..n + 1] == [text] + more[..n];
    }
  }
}
