/**
 Server-sent events: how the two SSE builders frame an event, and how a client reads a
 stream back (sections 9.2.5 and 9.2.6 of the WHATWG HTML standard).
 */
module EventStream {
  import opened Utils
  import opened Json
  import opened JsonText

  /** An event as the builders write it; without a name there is no `event:` line. */
  datatype Frame = Frame(event: Option<string>, data: string)

  /** An event as a client dispatches it. */
  datatype Event = Event(name: string, data: string)

  // ------------------------------------------------------------- writing

  function FrameText(f: Frame): string
  {
    (if f.event.Some? then "event: " + f.event.value + "\n" else "") + "data: " + f.data + "\n\n"
  }

  function StreamText(frames: seq<Frame>): string
  {
    if frames == [] then "" else FrameText(frames[0]) + StreamText(frames[1..])
  }

  // ------------------------------------------------------------- reading

  predicate LineEnd(c: char) { c == '\n' || c == '\r' }

  /** The first line and what follows its terminator (LF, CR or CRLF); None if no line is complete. */
  function NextLine(s: string): (r: Option<(string, string)>)
    ensures r.Some? ==> |r.value.1| < |s|
  {
    if s == [] then None
    else if s[0] == '\r' && |s| > 1 && s[1] == '\n' then Some(("", s[2..]))
    else if LineEnd(s[0]) then Some(("", s[1..]))
    else
      var r := NextLine(s[1..]);
      if r.None? then None else Some(([s[0]] + r.value.0, r.value.1))
  }

  function ColonAt(line: string): (n: nat)
    ensures n <= |line|
    ensures forall i :: 0 <= i < n ==> line[i] != ':'
    ensures n < |line| ==> line[n] == ':'
  {
    if line == [] || line[0] == ':' then 0 else 1 + ColonAt(line[1..])
  }

  /** Field name and value of a non-empty line; one leading space of the value is dropped. */
  function FieldOf(line: string): (string, string)
  {
    var n := ColonAt(line);
    if n == |line| then (line, "")
    else
      var v := line[n + 1..];
      (line[..n], if v != [] && v[0] == ' ' then v[1..] else v)
  }

  /** The dispatch loop, with the data and event-type buffers. */
  function Dispatch(s: string, data: string, name: string): seq<Event>
    decreases |s|
  {
    var l := NextLine(s);
    if l.None? then []
    else
      var (line, rest) := l.value;
      if line == "" then
        if data == "" then Dispatch(rest, "", "")
        else [Event(if name == "" then "message" else name, data[..|data| - 1])] + Dispatch(rest, "", "")
      else
        var (field, value) := FieldOf(line);
        if field == "event" then Dispatch(rest, data, value)
        else if field == "data" then Dispatch(rest, data + value + "\n", name)
        else Dispatch(rest, data, name)
  }

  /** A client's reading of a whole stream; a leading byte order mark is ignored. */
  function ReadStream(s: string): seq<Event>
  {
    Dispatch(if s != [] && s[0] as int == 0xFEFF then s[1..] else s, "", "")
  }

  // ---------------------------------------------------------- round trip

  /** What a frame needs in order to survive: no line break inside, and some data. */
  predicate Framable(f: Frame)
  {
    Clean(f.data) && f.data != "" && (f.event.Some? ==> Clean(f.event.value) && f.event.value != "")
  }

  function Received(f: Frame): Event
  {
    Event(if f.event.Some? then f.event.value else "message", f.data)
  }

  function ReceivedAll(frames: seq<Frame>): (r: seq<Event>)
    ensures |r| == |frames| && forall i :: 0 <= i < |r| ==> r[i] == Received(frames[i])
  {
    if frames == [] then [] else [Received(frames[0])] + ReceivedAll(frames[1..])
  }

  lemma {:induction false} LineReads(line: string, rest: string)
    requires Clean(line)
    ensures NextLine(line + "\n" + rest) == Some((line, rest))
  {
    var s := line + "\n" + rest;
    if line != [] {
      LineReads(line[1..], rest);
      assert s[1..] == line[1..] + "\n" + rest;
      assert [line[0]] + line[1..] == line;
    } else {
      assert s[1..] == rest;
    }
  }

  lemma FieldReads(name: string, value: string)
    requires name == "event" || name == "data"
    ensures FieldOf(name + ": " + value) == (name, value)
  {
    var line := name + ": " + value;
    assert line[|name|] == ':';
    assert forall i :: 0 <= i < |name| ==> line[i] == name[i] && line[i] != ':';
    var n := ColonAt(line);
    assert n == |name|;
    assert line[..n] == name;
    assert line[n + 1..][0] == ' ' && line[n + 1..][1..] == value;
  }

  lemma {:induction false} FieldDispatches(field: string, value: string, rest: string, data: string, name: string)
    requires field == "event" || field == "data"
    requires Clean(value)
    ensures Dispatch(field + ": " + value + "\n" + rest, data, name) ==
            if field == "event" then Dispatch(rest, data, value) else Dispatch(rest, data + value + "\n", name)
  {
    var line := field + ": " + value;
    assert Clean(line);
    LineReads(line, rest);
    FieldReads(field, value);
  }

  lemma FrameSplits(f: Frame, rest: string)
    ensures f.event.None? ==> FrameText(f) + rest == "data: " + f.data + "\n" + ("\n" + rest)
    ensures f.event.Some? ==>
              FrameText(f) + rest == "event: " + f.event.value + "\n" + ("data: " + f.data + "\n" + ("\n" + rest))
    ensures FrameText(f)[0] == if f.event.Some? then 'e' else 'd'
  {
    var d := "data: " + f.data + "\n\n";
    assert d + rest == "data: " + f.data + "\n" + ("\n" + rest);
    if f.event.Some? {
      var e := "event: " + f.event.value + "\n";
      assert FrameText(f) == e + d by { assert FrameText(f) == e + "data: " + f.data + "\n\n"; }
      assert (e + d) + rest == e + (d + rest);
    } else {
      assert FrameText(f) == d by { assert FrameText(f) == "" + "data: " + f.data + "\n\n"; }
    }
  }

  lemma {:induction false} BlankDispatches(data: string, rest: string, name: string)
    ensures Dispatch("\n" + rest, "" + data + "\n", name) ==
            [Event(if name == "" then "message" else name, data)] + Dispatch(rest, "", "")
  {
    LineReads("", rest);
    assert "" + "\n" + rest == "\n" + rest;
    var buffer := "" + data + "\n";
    assert buffer[..|buffer| - 1] == data;
  }

  lemma {:induction false} DataDispatches(data: string, rest: string, name: string)
    requires Clean(data)
    ensures Dispatch("data: " + data + "\n" + ("\n" + rest), "", name) ==
            [Event(if name == "" then "message" else name, data)] + Dispatch(rest, "", "")
  {
    var s := "data" + ": " + data + "\n" + ("\n" + rest);
    assert s == "data: " + data + "\n" + ("\n" + rest) by { assert "data" + ": " == "data: "; }
    FieldDispatches("data", data, "\n" + rest, "", name);
    BlankDispatches(data, rest, name);
  }

  lemma {:induction false} FrameDispatches(f: Frame, rest: string)
    requires Framable(f)
    ensures Dispatch(FrameText(f) + rest, "", "") == [Received(f)] + Dispatch(rest, "", "")
  {
    FrameSplits(f, rest);
    if f.event.Some? {
      var name := f.event.value;
      var dataLine := "data: " + f.data + "\n" + ("\n" + rest);
      var s := "event" + ": " + name + "\n" + dataLine;
      assert s == "event: " + name + "\n" + dataLine by { assert "event" + ": " == "event: "; }
      FieldDispatches("event", name, dataLine, "", "");
      DataDispatches(f.data, rest, name);
    } else {
      DataDispatches(f.data, rest, "");
    }
  }

  lemma {:induction false} FramesDispatch(frames: seq<Frame>)
    requires forall i :: 0 <= i < |frames| ==> Framable(frames[i])
    ensures Dispatch(StreamText(frames), "", "") == ReceivedAll(frames)
  {
    if frames == [] {
    } else {
      FramesDispatch(frames[1..]);
      FrameDispatches(frames[0], StreamText(frames[1..]));
    }
  }

  /** A client that reads the written stream dispatches exactly the written events, in order. */
  lemma {:induction false} StreamRoundTrip(frames: seq<Frame>)
    requires forall i :: 0 <= i < |frames| ==> Framable(frames[i])
    ensures ReadStream(StreamText(frames)) == ReceivedAll(frames)
  {
    FramesDispatch(frames);
    if frames != [] {
      FrameSplits(frames[0], "");
    }
  }
}
