/**
 `LogCrunchStage::minify` of `src/compression/stages/log_crunch.rs`: drops comments, rules,
 decoration lines and repeated blank lines from a text.
 */
module LogCrunch {
  import opened TextLines
  import opened Utils

  // ---------------------------------------------------------- what is dropped

  predicate StartsComment(t: string) { |t| >= 4 && t[..4] == "<!--" }

  predicate EndsComment(t: string) { |t| >= 3 && t[|t| - 3..] == "-->" }

  predicate HasCommentEnd(t: string)
  {
    |t| >= 3 && (t[..3] == "-->" || HasCommentEnd(t[1..]))
  }

  predicate Rule(t: string) { t == "---" || t == "***" || t == "___" }

  predicate DecorationChar(c: char)
  {
    c as int == 0x2550 || c as int == 0x2500 || c as int == 0x2501 || c == '=' || c == '-'
  }

  /** Longer than three bytes and nothing but decoration. */
  predicate Decoration(t: string)
  {
    ByteLen(t) > 3 && forall i :: 0 <= i < |t| ==> DecorationChar(t[i])
  }

  predicate Blank(line: string) { Trim(line) == "" }

  /** A line outside a comment block that is kept unless it repeats a blank line. */
  predicate Plain(line: string)
  {
    var t := Trim(line);
    !StartsComment(t) && !Rule(t) && !Decoration(t)
  }

  /** The filter, given what is kept so far and whether a comment block is open. */
  function Crunch(lines: seq<string>, kept: seq<string>, inComment: bool): seq<string>
    decreases |lines|
  {
    if lines == [] then kept
    else
      var line, rest, t := lines[0], lines[1..], Trim(lines[0]);
      if !inComment && StartsComment(t) && !EndsComment(t) then Crunch(rest, kept, true)
      else if inComment then Crunch(rest, kept, !HasCommentEnd(t))
      else if StartsComment(t) && EndsComment(t) then Crunch(rest, kept, false)
      else if Rule(t) then Crunch(rest, kept, false)
      else if t == "" && kept != [] && Blank(kept[|kept| - 1]) then Crunch(rest, kept, false)
      else if Decoration(t) then Crunch(rest, kept, false)
      else Crunch(rest, kept + [line], false)
  }

  function Kept(text: string): seq<string> { Crunch(Lines(text), [], false) }

  function Minified(text: string): string { Join(Kept(text), '\n') }

  function Saved(text: string): nat
  {
    if ByteLen(Minified(text)) < ByteLen(text) then ByteLen(text) - ByteLen(Minified(text)) else 0
  }

  method Minify(text: string) returns (result: string, saved: nat)
    ensures result == Minified(text) && saved == Saved(text)
  {
    var all := Lines(text);
    var lines: seq<string> := [];
    var inComment := false;
    for i := 0 to |all|
      invariant Crunch(all[i..], lines, inComment) == Kept(text)
    {
      var line := all[i];
      var trimmed := Trim(line);
      assert all[i..][0] == line && all[i..][1..] == all[i + 1..];
      if !inComment && StartsComment(trimmed) && !EndsComment(trimmed) {
        inComment := true;
        continue;
      }
      if inComment {
        if HasCommentEnd(trimmed) {
          inComment := false;
        }
        continue;
      }
      if StartsComment(trimmed) && EndsComment(trimmed) {
        continue;
      }
      if Rule(trimmed) {
        continue;
      }
      if trimmed == "" && lines != [] && Blank(lines[|lines| - 1]) {
        continue;
      }
      if Decoration(trimmed) {
        continue;
      }
      lines := lines + [line];
    }
    assert all[|all|..] == [];
    result := Join(lines, '\n');
    saved := if ByteLen(result) < ByteLen(text) then ByteLen(text) - ByteLen(result) else 0;
  }

  // ---------------------------------------------------- what is kept is clean

  /** Every line passes the filter on its own and no two blank lines are adjacent. */
  predicate Clean(kept: seq<string>)
  {
    && (forall i :: 0 <= i < |kept| ==> Plain(kept[i]) && '\n' !in kept[i])
    && (forall i :: 0 < i < |kept| ==> !(Blank(kept[i - 1]) && Blank(kept[i])))
  }

  lemma CleanPush(kept: seq<string>, line: string)
    requires Clean(kept) && Plain(line) && '\n' !in line
    requires !(kept != [] && Blank(kept[|kept| - 1]) && Blank(line))
    ensures Clean(kept + [line])
  {
  }

  lemma {:induction false} CrunchClean(lines: seq<string>, kept: seq<string>, inComment: bool)
    requires Clean(kept)
    requires forall i :: 0 <= i < |lines| ==> '\n' !in lines[i]
    ensures Clean(Crunch(lines, kept, inComment))
    decreases |lines|
  {
    if lines == [] {
    } else {
      var line, rest, t := lines[0], lines[1..], Trim(lines[0]);
      if !inComment && StartsComment(t) && !EndsComment(t) {
        CrunchClean(rest, kept, true);
      } else if inComment {
        CrunchClean(rest, kept, !HasCommentEnd(t));
      } else if StartsComment(t) || Rule(t) || (t == "" && kept != [] && Blank(kept[|kept| - 1])) || Decoration(t) {
        CrunchClean(rest, kept, false);
      } else {
        CleanPush(kept, line);
        CrunchClean(rest, kept + [line], false);
      }
    }
  }

  /** Filtering what has been filtered keeps every line. */
  lemma {:induction false} CrunchKeepsClean(lines: seq<string>, kept: seq<string>)
    requires Clean(kept + lines)
    ensures Crunch(lines, kept, false) == kept + lines
    decreases |lines|
  {
    if lines == [] {
      assert kept + lines == kept;
    } else {
      var all := kept + lines;
      assert all[|kept|] == lines[0];
      assert kept != [] ==> all[|kept| - 1] == kept[|kept| - 1];
      assert (kept + [lines[0]]) + lines[1..] == all;
      CrunchKeepsClean(lines[1..], kept + [lines[0]]);
    }
  }

  // --------------------------------------------------- one pass as three passes

  /** The lines that belong to no comment, whether of one line or of several. */
  function Outside(lines: seq<string>, inComment: bool): seq<string>
    decreases |lines|
  {
    if lines == [] then []
    else
      var t, rest := Trim(lines[0]), lines[1..];
      if inComment then Outside(rest, !HasCommentEnd(t))
      else if StartsComment(t) then Outside(rest, !EndsComment(t))
      else [lines[0]] + Outside(rest, false)
  }

  function OnlyPlain(lines: seq<string>): seq<string>
    decreases |lines|
  {
    if lines == [] then [] else (if Plain(lines[0]) then [lines[0]] else []) + OnlyPlain(lines[1..])
  }

  /** Of each run of blank lines the first. */
  function Squeeze(lines: seq<string>, afterBlank: bool): seq<string>
    decreases |lines|
  {
    if lines == [] then []
    else if afterBlank && Blank(lines[0]) then Squeeze(lines[1..], true)
    else [lines[0]] + Squeeze(lines[1..], Blank(lines[0]))
  }

  predicate EndsBlank(kept: seq<string>) { kept != [] && Blank(kept[|kept| - 1]) }

  lemma {:induction false} CrunchIsPasses(lines: seq<string>, kept: seq<string>, inComment: bool)
    ensures Crunch(lines, kept, inComment) == kept + Squeeze(OnlyPlain(Outside(lines, inComment)), EndsBlank(kept))
    decreases |lines|
  {
    if lines == [] {
    } else {
      var line, rest, t := lines[0], lines[1..], Trim(lines[0]);
      if inComment {
        CrunchIsPasses(rest, kept, !HasCommentEnd(t));
      } else if StartsComment(t) {
        CrunchIsPasses(rest, kept, !EndsComment(t));
      } else {
        var after := Outside(rest, false);
        assert ([line] + after)[1..] == after;
        PassesStep(line, OnlyPlain(after), kept);
        if Plain(line) && !(Blank(line) && EndsBlank(kept)) {
          CrunchIsPasses(rest, kept + [line], false);
        } else {
          CrunchIsPasses(rest, kept, false);
        }
      }
    }
  }

  lemma {:induction false} PassesStep(line: string, more: seq<string>, kept: seq<string>)
    ensures kept + Squeeze([line] + more, EndsBlank(kept)) ==
            if Blank(line) && EndsBlank(kept) then kept + Squeeze(more, EndsBlank(kept))
            else (kept + [line]) + Squeeze(more, EndsBlank(kept + [line]))
    ensures [] + more == more
  {
    assert ([line] + more)[1..] == more;
  }

  /**
   The single loop with its comment flag amounts to three passes: take the lines outside
   comments, drop rules and decoration, and keep one of each run of blank lines.
   */
  lemma {:induction false} KeptIsThreePasses(text: string)
    ensures Kept(text) == Squeeze(OnlyPlain(Outside(Lines(text), false)), false)
  {
    CrunchIsPasses(Lines(text), [], false);
    assert [] + Kept(text) == Kept(text);
  }

  // ------------------------------------------------- splitting what was joined

  /** Joined lines split back into themselves: no line but the last ends in CR, and the last is not empty. */
  predicate Splittable(kept: seq<string>)
  {
    && (forall i :: 0 <= i < |kept| - 1 ==> StripCr(kept[i]) == kept[i])
    && (|kept| > 1 ==> kept[|kept| - 1] != "")
  }

  lemma {:induction false} NewlineAfter(line: string, rest: string)
    requires '\n' !in line
    ensures NewlineAt(line + ['\n'] + rest) == |line|
    ensures (line + ['\n'] + rest)[..|line|] == line && (line + ['\n'] + rest)[|line| + 1..] == rest
  {
    var s := line + ['\n'] + rest;
    var n := NewlineAt(s);
    assert s[|line|] == '\n';
    assert forall i :: 0 <= i < |line| ==> s[i] == line[i] && s[i] in line;
  }

  lemma {:induction false} FirstLine(line: string, rest: string)
    requires '\n' !in line
    ensures Lines(line + ['\n'] + rest) == [StripCr(line)] + Lines(rest)
  {
    NewlineAfter(line, rest);
  }

  lemma {:induction false} LinesOfJoin(kept: seq<string>)
    requires forall i :: 0 <= i < |kept| ==> '\n' !in kept[i]
    requires kept != [] && kept[|kept| - 1] != "" && forall i :: 0 <= i < |kept| - 1 ==> StripCr(kept[i]) == kept[i]
    ensures Lines(Join(kept, '\n')) == kept
    decreases |kept|
  {
    if |kept| == 1 {
      OneLine(kept[0]);
    } else {
      FirstLine(kept[0], Join(kept[1..], '\n'));
      LinesOfJoin(kept[1..]);
      assert [kept[0]] + kept[1..] == kept;
    }
  }

  lemma {:induction false} OneLine(s: string)
    requires '\n' !in s && s != ""
    ensures Lines(s) == [s]
  {
    assert forall i :: 0 <= i < |s| ==> s[i] in s;
  }

  // ------------------------------------------------------------ measuring loss

  function Size(lines: seq<string>): nat
  {
    if lines == [] then 0 else |lines[0]| + 1 + Size(lines[1..])
  }

  lemma {:induction false} SizePush(lines: seq<string>, line: string)
    ensures Size(lines + [line]) == Size(lines) + |line| + 1
    decreases |lines|
  {
    if lines == [] {
      assert ([] + [line])[1..] == [];
    } else {
      assert (lines + [line])[1..] == lines[1..] + [line];
      SizePush(lines[1..], line);
    }
  }

  lemma {:induction false} JoinSize(lines: seq<string>)
    ensures lines != [] ==> |Join(lines, '\n')| + 1 == Size(lines)
    decreases |lines|
  {
    if |lines| > 1 {
      JoinSize(lines[1..]);
    } else if |lines| == 1 {
      assert lines[1..] == [];
    }
  }

  lemma {:induction false} CrunchSize(lines: seq<string>, kept: seq<string>, inComment: bool)
    ensures Size(Crunch(lines, kept, inComment)) <= Size(kept) + Size(lines)
    ensures |Crunch(lines, kept, inComment)| >= |kept|
    decreases |lines|
  {
    if lines == [] {
    } else {
      var line, rest, t := lines[0], lines[1..], Trim(lines[0]);
      if !inComment && StartsComment(t) && !EndsComment(t) {
        CrunchSize(rest, kept, true);
      } else if inComment {
        CrunchSize(rest, kept, !HasCommentEnd(t));
      } else if StartsComment(t) || Rule(t) || (t == "" && kept != [] && Blank(kept[|kept| - 1])) || Decoration(t) {
        CrunchSize(rest, kept, false);
      } else {
        SizePush(kept, line);
        CrunchSize(rest, kept + [line], false);
      }
    }
  }

  /** Splitting loses at least the carriage returns and the final line feed. */
  lemma {:induction false} LinesSize(s: string)
    ensures Size(Lines(s)) <= |s| + 1
    ensures s != [] && s[|s| - 1] == '\n' ==> Size(Lines(s)) <= |s|
    decreases |s|
  {
    if s == [] {
    } else {
      var n := NewlineAt(s);
      if n == |s| {
        assert [s][1..] == [];
      } else {
        LinesSize(s[n + 1..]);
        assert Lines(s)[1..] == Lines(s[n + 1..]);
      }
    }
  }

  lemma {:induction false} FirstLineSize(line: string, rest: string)
    requires '\n' !in line
    ensures Size(Lines(line + ['\n'] + rest)) == |StripCr(line)| + 1 + Size(Lines(rest))
  {
    FirstLine(line, rest);
    assert ([StripCr(line)] + Lines(rest))[1..] == Lines(rest);
  }

  lemma {:induction false} CrLoses(kept: seq<string>, i: nat)
    requires forall k :: 0 <= k < |kept| ==> '\n' !in kept[k]
    requires i + 1 < |kept| && StripCr(kept[i]) != kept[i]
    ensures Size(Lines(Join(kept, '\n'))) <= |Join(kept, '\n')|
    decreases |kept|
  {
    var tail := kept[1..];
    var rest := Join(tail, '\n');
    assert Join(kept, '\n') == kept[0] + ['\n'] + rest;
    if i == 0 {
      LinesSize(rest);
    } else {
      assert tail[i - 1] == kept[i];
      CrLoses(tail, i - 1);
    }
    FirstLineSize(kept[0], rest);
    assert |StripCr(kept[0])| <= |kept[0]| - if i == 0 then 1 else 0;
  }

  lemma {:induction false} EmptyLastEndsInNewline(kept: seq<string>)
    requires |kept| > 1 && kept[|kept| - 1] == ""
    ensures Join(kept, '\n') != [] && Join(kept, '\n')[|Join(kept, '\n')| - 1] == '\n'
    decreases |kept|
  {
    if |kept| > 2 {
      EmptyLastEndsInNewline(kept[1..]);
    } else {
      assert Join(kept[1..], '\n') == kept[1];
    }
  }

  /**
   Minifying twice is the same as minifying once exactly when the kept lines split back into
   themselves. Otherwise the second pass drops a trailing line feed or a carriage return.
   */
  lemma StableIffSplittable(text: string)
    ensures Minified(Minified(text)) == Minified(text) <==> Splittable(Kept(text))
    ensures |Minified(Minified(text))| <= |Minified(text)|
  {
    var kept := Kept(text);
    var once := Join(kept, '\n');
    CrunchClean(Lines(text), [], false);
    CrunchSize(Lines(once), [], false);
    JoinSize(kept);
    JoinSize(Kept(once));
    LinesSize(once);
    if Splittable(kept) {
      if once == "" {
        assert Lines(once) == [];
      } else {
        assert kept[|kept| - 1] != "";
        LinesOfJoin(kept);
        assert [] + kept == kept;
        CrunchKeepsClean(kept, []);
      }
    } else if |kept| > 1 && kept[|kept| - 1] == "" {
      EmptyLastEndsInNewline(kept);
    } else {
      var i :| 0 <= i < |kept| - 1 && StripCr(kept[i]) != kept[i];
      CrLoses(kept, i);
    }
  }

  predicate Letter(c: char) { 'a' <= c <= 'z' }

  /** One line that starts and ends with a letter is kept as it is. */
  lemma LineKept(s: string)
    requires s != "" && '\n' !in s && Letter(s[0]) && Letter(s[|s| - 1])
    ensures Minified(s) == s && Saved(s) == 0
  {
    assert TrimStart(s) == s && TrimEnd(s) == s;
    assert Plain(s) && Clean([s]);
    OneLine(s);
    assert [] + [s] == [s];
    CrunchKeepsClean([s], []);
  }

  // -------------------------------------------- the condition on the input text

  /** Line `i` of the plain lines is kept: it is not blank, or starts a run of blank lines. */
  predicate KeptAt(plain: seq<string>, i: nat)
    requires i < |plain|
  {
    !Blank(plain[i]) || i == 0 || !Blank(plain[i - 1])
  }

  /** A kept line, other than the last of them, ends in a carriage return. */
  predicate CrInside(plain: seq<string>)
  {
    exists i, k :: 0 <= i < k < |plain| && KeptAt(plain, i) && KeptAt(plain, k) && StripCr(plain[i]) != plain[i]
  }

  /** After some other line, the lines end in a run of blank ones that starts with an empty line. */
  predicate EmptyTail(plain: seq<string>)
  {
    exists i :: 0 < i < |plain| && KeptAt(plain, i) && plain[i] == "" && BlankFrom(plain, i)
  }

  predicate BlankFrom(lines: seq<string>, i: nat) { forall k :: i <= k < |lines| ==> Blank(lines[k]) }

  predicate NoCr(lines: seq<string>) { forall i :: 0 <= i < |lines| ==> StripCr(lines[i]) == lines[i] }

  predicate NoKeptCr(plain: seq<string>)
  {
    forall i :: 0 <= i < |plain| && KeptAt(plain, i) ==> StripCr(plain[i]) == plain[i]
  }

  lemma {:induction false} SqueezePush(lines: seq<string>, line: string, afterBlank: bool)
    ensures var blankBefore := if lines == [] then afterBlank else Blank(lines[|lines| - 1]);
            Squeeze(lines + [line], afterBlank) ==
            Squeeze(lines, afterBlank) + if blankBefore && Blank(line) then [] else [line]
    decreases |lines|
  {
    var all := lines + [line];
    if lines == [] {
      assert all[1..] == [];
    } else {
      assert all[1..] == lines[1..] + [line];
      SqueezePush(lines[1..], line, Blank(lines[0]));
    }
  }

  /** The last kept line, and what is kept before it. */
  lemma {:induction false} LastKept(plain: seq<string>) returns (b: nat)
    requires plain != []
    ensures b < |plain| && KeptAt(plain, b) && forall k :: b < k < |plain| ==> Blank(plain[k]) && !KeptAt(plain, k)
    ensures Squeeze(plain, false) == Squeeze(plain[..b], false) + [plain[b]]
  {
    var n := |plain| - 1;
    var init := plain[..n];
    assert init + [plain[n]] == plain;
    SqueezePush(init, plain[n], false);
    if KeptAt(plain, n) {
      b := n;
    } else {
      b := LastKept(init);
      assert init[..b] == plain[..b];
      forall k | b < k < |plain| ensures Blank(plain[k]) && !KeptAt(plain, k) {
        if k < n {
          assert !KeptAt(init, k) && Blank(init[k]);
        }
      }
    }
  }

  lemma NoKeptCrAt(plain: seq<string>, b: nat)
    requires b < |plain| && KeptAt(plain, b) && forall k :: b < k < |plain| ==> !KeptAt(plain, k)
    ensures NoKeptCr(plain) <==> NoKeptCr(plain[..b]) && StripCr(plain[b]) == plain[b]
    ensures CrInside(plain) <==> !NoKeptCr(plain[..b])
  {
    assert forall i :: 0 <= i < b ==> (KeptAt(plain, i) <==> KeptAt(plain[..b], i)) && plain[..b][i] == plain[i];
  }

  lemma NoCrPush(lines: seq<string>, line: string)
    ensures NoCr(lines + [line]) <==> NoCr(lines) && StripCr(line) == line
    ensures Splittable(lines + [line]) <==> NoCr(lines) && (lines != [] ==> line != "")
  {
    var all := lines + [line];
    assert forall i :: 0 <= i < |lines| ==> all[i] == lines[i];
    assert all[|lines|] == line;
  }

  lemma {:induction false} KeptLines(plain: seq<string>)
    ensures NoCr(Squeeze(plain, false)) <==> NoKeptCr(plain)
    ensures Squeeze(plain, false) == [] <==> plain == []
    decreases |plain|
  {
    if plain == [] {
    } else {
      var b := LastKept(plain);
      KeptLines(plain[..b]);
      NoKeptCrAt(plain, b);
      NoCrPush(Squeeze(plain[..b], false), plain[b]);
    }
  }

  lemma {:induction false} SplittableIffSteady(plain: seq<string>)
    ensures Splittable(Squeeze(plain, false)) <==> !CrInside(plain) && !EmptyTail(plain)
  {
    if plain == [] {
    } else {
      var b := LastKept(plain);
      KeptLines(plain[..b]);
      NoKeptCrAt(plain, b);
      NoCrPush(Squeeze(plain[..b], false), plain[b]);
      EmptyTailAt(plain, b);
    }
  }

  lemma EmptyTailAt(plain: seq<string>, b: nat)
    requires b < |plain| && KeptAt(plain, b) && forall k :: b < k < |plain| ==> Blank(plain[k]) && !KeptAt(plain, k)
    ensures EmptyTail(plain) <==> b > 0 && plain[b] == ""
  {
    if b > 0 && plain[b] == "" {
      assert BlankFrom(plain, b);
    }
    if EmptyTail(plain) {
      var i :| 0 < i < |plain| && KeptAt(plain, i) && plain[i] == "" && BlankFrom(plain, i);
      assert i >= b;
    }
  }

  /**
   Minifying twice is minifying once, read off the input: of its plain lines outside comments,
   no kept line but the last ends in a carriage return, and what follows the last line with
   text does not start with an empty line.
   */
  lemma {:induction false} StableIffSteady(text: string)
    ensures var plain := OnlyPlain(Outside(Lines(text), false));
            Minified(Minified(text)) == Minified(text) <==> !CrInside(plain) && !EmptyTail(plain)
  {
    StableIffSplittable(text);
    KeptIsThreePasses(text);
    SplittableIffSteady(OnlyPlain(Outside(Lines(text), false)));
  }

  /** A text on which the second pass changes the result of the first. */
  lemma NotStable()
    ensures Minified("a\n\n") == "a\n" && Minified("a\n") == "a"
  {
    NewlineAfter("a", "\n");
    NewlineAfter("a", "");
    NewlineAfter("", "");
    assert "a" + ['\n'] + "\n" == "a\n\n" && "a" + ['\n'] + "" == "a\n" && "" + ['\n'] + "" == "\n";
    assert Lines("\n") == [""];
    assert Lines("a\n") == ["a"];
    assert Lines("a\n\n") == ["a", ""];
    ShortLines();
    CrunchKeepsClean(["a", ""], []);
    CrunchKeepsClean(["a"], []);
    assert [] + ["a", ""] == ["a", ""] && [] + ["a"] == ["a"];
    assert ["a", ""][1..] == [""];
  }

  lemma ShortLines()
    ensures Clean([] + ["a", ""]) && Clean([] + ["a"])
  {
    assert TrimStart("a") == "a" && TrimEnd("a") == "a";
    assert Plain("a") && Plain("") && !Blank("a");
  }
}
