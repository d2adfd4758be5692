/**
 The event-stream reader against its standard (sections 9.2.5 and 9.2.6 of the WHATWG HTML
 standard), over streams that the builders do not write as well.
 */
module EventShapes {
  import opened Utils
  import opened EventStream

  predicate Unbroken(s: string) { forall i :: 0 <= i < |s| ==> s[i] != '\n' && s[i] != '\r' }

  lemma {:induction false} LineBefore(line: string, end: string, rest: string)
    requires Unbroken(line) && NextLine(end) == Some(("", rest))
    ensures NextLine(line + end) == Some((line, rest))
  {
    if line == "" {
      assert line + end == end;
    } else {
      LineBefore(line[1..], end, rest);
      assert (line + end)[1..] == line[1..] + end && (line + end)[0] == line[0];
      assert [line[0]] + line[1..] == line;
    }
  }

  lemma {:induction false} Unended(line: string)
    requires Unbroken(line)
    ensures NextLine(line) == None
  {
    if line == "" {
    } else {
      Unended(line[1..]);
    }
  }

  /** A line ends in LF, CR or CRLF; one that does not end is not read. */
  lemma LineEnds(line: string, rest: string)
    requires Unbroken(line)
    ensures NextLine(line) == None
    ensures NextLine(line + ("\n" + rest)) == Some((line, rest)) == NextLine(line + ("\r\n" + rest))
    ensures rest == "" || rest[0] != '\n' ==> NextLine(line + ("\r" + rest)) == Some((line, rest))
  {
    Unended(line);
    assert ("\n" + rest)[1..] == rest && ("\r\n" + rest)[2..] == rest && ("\r" + rest)[1..] == rest;
    LineBefore(line, "\n" + rest, rest);
    LineBefore(line, "\r\n" + rest, rest);
    if rest == "" || rest[0] != '\n' {
      LineBefore(line, "\r" + rest, rest);
    }
  }

  predicate NoColon(s: string) { forall i :: 0 <= i < |s| ==> s[i] != ':' }

  lemma {:induction false} ColonIs(name: string, more: string)
    requires NoColon(name)
    ensures ColonAt(name) == |name| && ColonAt(name + (":" + more)) == |name|
  {
    assert (name + (":" + more))[|name|] == ':';
    assert forall i :: 0 <= i < |name| ==> (name + (":" + more))[i] == name[i];
  }

  /** A field is named up to the first colon; one space after that is dropped; without a colon the value is empty. */
  lemma FieldShape(name: string, value: string)
    requires NoColon(name)
    ensures FieldOf(name) == (name, "")
    ensures FieldOf(name + (": " + value)) == (name, value)
    ensures value == "" || value[0] != ' ' ==> FieldOf(name + (":" + value)) == (name, value)
  {
    ColonIs(name, " " + value);
    ColonIs(name, value);
    var spaced, plain := name + (": " + value), name + (":" + value);
    assert ": " + value == ":" + (" " + value);
    assert spaced[..|name|] == name && spaced[|name| + 1..] == " " + value && (" " + value)[1..] == value;
    assert plain[..|name|] == name && plain[|name| + 1..] == value;
  }

  /** Fields of other names, and comments, which have none, are ignored; `data` adds a line, `event` names the event. */
  lemma {:induction false} FieldActs(field: string, value: string, rest: string, data: string, name: string)
    requires NoColon(field) && Unbroken(field) && Unbroken(value)
    ensures Dispatch(field + (": " + value) + ("\n" + rest), data, name) ==
            if field == "data" then Dispatch(rest, data + value + "\n", name)
            else if field == "event" then Dispatch(rest, data, value)
            else Dispatch(rest, data, name)
  {
    var line := field + (": " + value);
    assert Unbroken(line);
    LineEnds(line, rest);
    FieldShape(field, value);
  }

  /** A blank line dispatches what has been collected, unless there is no data, and starts afresh. */
  lemma {:induction false} BlankActs(rest: string, text: string, name: string)
    ensures Dispatch("\n" + rest, text + "\n", name) ==
            [Event(if name == "" then "message" else name, text)] + Dispatch(rest, "", "")
    ensures Dispatch("\n" + rest, "", name) == Dispatch(rest, "", "")
  {
    LineEnds("", rest);
    assert "" + ("\n" + rest) == "\n" + rest;
    assert (text + "\n")[..|text|] == text;
  }
}
