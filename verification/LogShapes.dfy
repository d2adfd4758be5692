/** What minification keeps and drops, line by line and block by block, in so many words. */
module LogShapes {
  import opened LogCrunch
  import opened TextLines
  import opened Utils

  predicate StartsWith(t: string, p: string) { |p| <= |t| && forall i :: 0 <= i < |p| ==> t[i] == p[i] }

  predicate EndsWith(t: string, p: string)
  {
    |p| <= |t| && forall i :: 0 <= i < |p| ==> t[|t| - |p| + i] == p[i]
  }

  predicate HasAt(t: string, p: string, k: nat) { k + |p| <= |t| && t[k..k + |p|] == p }

  ghost predicate Contains(t: string, p: string) { exists k: nat :: HasAt(t, p, k) }

  predicate Opens(line: string) { StartsWith(Trim(line), "<!--") }

  predicate ClosesAtEnd(line: string) { EndsWith(Trim(line), "-->") }

  ghost predicate Closes(line: string) { Contains(Trim(line), "-->") }

  /** A line of decoration: more than three bytes, all of them box drawing, `=` or `-`. */
  predicate Ruled(t: string)
  {
    ByteLen(t) > 3 && forall i :: 0 <= i < |t| ==> t[i] == '=' || t[i] == '-' || t[i] as int in {0x2500, 0x2501, 0x2550}
  }

  lemma StartsIs(t: string)
    ensures StartsComment(t) <==> StartsWith(t, "<!--")
  {
  }

  lemma EndsIs(t: string)
    ensures EndsComment(t) <==> EndsWith(t, "-->")
  {
  }

  lemma {:induction false} CloseIs(t: string)
    ensures HasCommentEnd(t) <==> Contains(t, "-->")
  {
    if |t| >= 3 {
      CloseIs(t[1..]);
      if k: nat :| HasAt(t, "-->", k) {
        if k > 0 {
          assert HasAt(t[1..], "-->", k - 1);
        }
      }
      if k: nat :| HasAt(t[1..], "-->", k) {
        assert HasAt(t, "-->", k + 1);
      }
      if t[..3] == "-->" {
        assert HasAt(t, "-->", 0);
      }
    }
  }

  /** A line outside comments goes exactly if it opens one, is one of three rules, or is decoration. */
  lemma PlainSpelledOut(line: string)
    ensures Plain(line) <==> !Opens(line) && Trim(line) !in {"---", "***", "___"} && !Ruled(Trim(line))
  {
    StartsIs(Trim(line));
  }

  lemma OutsideStep(line: string, rest: seq<string>, inComment: bool)
    ensures Outside([line] + rest, inComment) ==
            var t := Trim(line);
            if inComment then Outside(rest, !HasCommentEnd(t))
            else if StartsComment(t) then Outside(rest, !EndsComment(t))
            else [line] + Outside(rest, false)
  {
    assert ([line] + rest)[1..] == rest;
  }

  /** Lines of an open comment that do not close it. */
  lemma {:induction false} StillOpen(mids: seq<string>, rest: seq<string>)
    requires forall i :: 0 <= i < |mids| ==> !Closes(mids[i])
    ensures Outside(mids + rest, true) == Outside(rest, true)
  {
    if mids == [] {
      assert mids + rest == rest;
    } else {
      CloseIs(Trim(mids[0]));
      assert mids + rest == [mids[0]] + (mids[1..] + rest);
      OutsideStep(mids[0], mids[1..] + rest, true);
      StillOpen(mids[1..], rest);
    }
  }

  /**
   Comments: one on a single line goes; one that is left open goes with all lines up to and
   including the first that holds its end, or with all that follow if none does; any other
   line stays.
   */
  lemma CommentsSpelledOut(line: string, mids: seq<string>, close: string, rest: seq<string>)
    requires forall i :: 0 <= i < |mids| ==> !Closes(mids[i])
    ensures !Opens(line) ==> Outside([line] + rest, false) == [line] + Outside(rest, false)
    ensures Opens(line) && ClosesAtEnd(line) ==> Outside([line] + rest, false) == Outside(rest, false)
    ensures Opens(line) && !ClosesAtEnd(line) && Closes(close) ==>
              Outside([line] + (mids + ([close] + rest)), false) == Outside(rest, false)
    ensures Opens(line) && !ClosesAtEnd(line) ==> Outside([line] + mids, false) == []
  {
    StartsIs(Trim(line));
    EndsIs(Trim(line));
    OutsideStep(line, rest, false);
    CloseIs(Trim(close));
    OutsideStep(line, mids + ([close] + rest), false);
    StillOpen(mids, [close] + rest);
    OutsideStep(close, rest, true);
    OutsideStep(line, mids, false);
    StillOpen(mids, []);
    assert mids + [] == mids;
  }

  predicate Unbroken(s: string) { '\n' !in s }

  lemma {:induction false} FeedLine(line: string, rest: string)
    requires Unbroken(line)
    ensures Lines(line + "\n" + rest) == [StripCr(line)] + Lines(rest)
  {
    assert line + "\n" + rest == line + ['\n'] + rest;
    FirstLine(line, rest);
  }

  /** A line ends at a line feed, and one carriage return before it belongs to the ending; the last line needs none. */
  lemma {:induction false} LinesSpelledOut(line: string, rest: string)
    requires Unbroken(line)
    ensures Lines("") == []
    ensures line != "" ==> Lines(line) == [line]
    ensures Lines(line + "\r\n" + rest) == [line] + Lines(rest)
    ensures (line == "" || line[|line| - 1] != '\r') ==> Lines(line + "\n" + rest) == [line] + Lines(rest)
  {
    if line != "" {
      LogCrunch.OneLine(line);
    }
    var cr := line + "\r";
    FeedLine(cr, rest);
    assert cr[..|line|] == line && line + "\r\n" + rest == cr + "\n" + rest;
    FeedLine(line, rest);
  }
}
