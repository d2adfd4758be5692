/**
 `src/cli/logs.rs`: the bounded tail of a log file and the follower that polls it. File
 contents are parameters; `lossy` is the decoding applied to what is written out.
 */
module Logs {
  import opened TextLines
  import opened Utils

  // --------------------------------------------------------------- the tail

  /** The last `n` lines, or all of them if there are fewer. */
  function LastLines(lines: seq<string>, n: nat): seq<string>
  {
    if |lines| <= n then lines else lines[|lines| - n..]
  }

  lemma LastLinesPush(lines: seq<string>, line: string, n: nat)
    ensures n >= 1 ==>
              LastLines(lines + [line], n) ==
              (if |LastLines(lines, n)| == n then LastLines(lines, n)[1..] else LastLines(lines, n)) + [line]
  {
  }

  /**
   The tail buffer. With a limit of zero the length test never matches once a line is in,
   so nothing is dropped and every line is returned.
   */
  method ReadLastLines(content: string, maxLines: nat) returns (r: string)
    ensures r == Join(if maxLines == 0 then Lines(content) else LastLines(Lines(content), maxLines), '\n')
  {
    var all := Lines(content);
    var lines: seq<string> := [];
    for i := 0 to |all|
      invariant lines == if maxLines == 0 then all[..i] else LastLines(all[..i], maxLines)
    {
      if |lines| == maxLines && lines != [] {
        lines := lines[1..];
      }
      lines := lines + [all[i]];
      LastLinesPush(all[..i], all[i], maxLines);
      assert all[..i + 1] == all[..i] + [all[i]];
    }
    assert all[..|all|] == all;
    r := Join(lines, '\n');
  }

  /** Lines written out again, each with its line feed. */
  function Unlines(lines: seq<string>): string
  {
    if lines == [] then [] else lines[0] + ['\n'] + Unlines(lines[1..])
  }

  lemma {:induction false} UnlinesConcat(a: seq<string>, b: seq<string>)
    ensures Unlines(a + b) == Unlines(a) + Unlines(b)
  {
    if a == [] {
      assert a + b == b;
    } else {
      UnlinesConcat(a[1..], b);
      assert (a + b)[1..] == a[1..] + b;
    }
  }

  lemma {:induction false} UnlinesIsJoin(lines: seq<string>)
    requires lines != []
    ensures Unlines(lines) == Join(lines, '\n') + ['\n']
  {
    if |lines| == 1 {
      assert Unlines(lines[1..]) == [];
    } else {
      UnlinesIsJoin(lines[1..]);
    }
  }

  /** Complete lines without carriage returns. */
  predicate Complete(s: string) { '\r' !in s && (s != [] ==> s[|s| - 1] == '\n') }

  lemma FirstLineOf(s: string) returns (line: string, rest: string)
    requires Complete(s) && s != []
    ensures s == line + ['\n'] + rest && Lines(s) == [line] + Lines(rest)
    ensures Complete(rest) && |rest| < |s|
  {
    var n := NewlineAt(s);
    assert n < |s| by {
      assert s[|s| - 1] == '\n';
    }
    line, rest := s[..n], s[n + 1..];
    assert '\r' !in line && '\r' !in rest;
    NoCr(line);
    assert rest != [] ==> rest[|rest| - 1] == s[|s| - 1];
  }

  lemma NoCr(line: string)
    requires '\r' !in line
    ensures StripCr(line) == line
  {
    if line != [] {
      assert line[|line| - 1] in line;
    }
  }

  lemma {:induction false} UnlinesFirst(line: string, rest: seq<string>)
    ensures Unlines([line] + rest) == line + ['\n'] + Unlines(rest)
  {
    assert ([line] + rest)[1..] == rest;
  }

  /** A log made of complete lines without carriage returns is its lines, written out. */
  lemma {:induction false} UnlinesOfLines(s: string)
    requires Complete(s)
    ensures Unlines(Lines(s)) == s
    decreases |s|
  {
    if s == [] {
    } else {
      var line, rest := FirstLineOf(s);
      UnlinesOfLines(rest);
      UnlinesFirst(line, Lines(rest));
    }
  }

  /** For such a log the tail is the end of the file, cut at the start of a line. */
  lemma {:induction false} TailIsEndOfFile(content: string, n: nat)
    requires Complete(content) && content != [] && n >= 1
    ensures var tail, lines := LastLines(Lines(content), n), Lines(content);
            && |tail| == (if |lines| < n then |lines| else n)
            && content == Unlines(lines[..|lines| - |tail|]) + (Join(tail, '\n') + ['\n'])
  {
    var lines := Lines(content);
    var tail := LastLines(lines, n);
    var cut := |lines| - |tail|;
    assert lines == lines[..cut] + tail;
    calc {
      content;
      { UnlinesOfLines(content); }
      Unlines(lines);
      { UnlinesConcat(lines[..cut], tail); }
      Unlines(lines[..cut]) + Unlines(tail);
      { UnlinesIsJoin(tail); }
      Unlines(lines[..cut]) + (Join(tail, '\n') + ['\n']);
    }
  }

  // ----------------------------------------------------------- the follower

  const MARKER := "\n--- log file truncated; restarting from beginning ---\n"

  /** One poll: the file when its length is read and, later, when it is read to the end. */
  datatype Poll = Poll(measured: string, read: string)

  datatype Position = Position(offset: nat, output: string)

  /** What a poll picks up from an offset; seeking past the end reads nothing. */
  function NewBytes(offset: nat, file: string): string
  {
    if offset <= |file| then file[offset..] else []
  }

  /** The bytes a poll picks up: all of a file that was measured shorter than the offset. */
  function Piece(offset: nat, poll: Poll): string
  {
    NewBytes(if |poll.measured| < offset then 0 else offset, poll.read)
  }

  function Emitted(p: Position, poll: Poll, lossy: string -> string): Position
  {
    var truncated := |poll.measured| < p.offset;
    var piece := Piece(p.offset, poll);
    Position((if truncated then 0 else p.offset) + |piece|,
             p.output + (if truncated then MARKER else []) + (if piece != [] then lossy(piece) else []))
  }

  class Follower {
    var offset: nat
    var output: string

    /** Following starts at the present end of the file. */
    constructor (file: string)
      ensures offset == |file| && output == []
    {
      offset, output := |file|, [];
    }

    method EmitNewLogBytes(poll: Poll, lossy: string -> string)
      modifies this
      ensures Position(offset, output) == Emitted(Position(old(offset), old(output)), poll, lossy)
    {
      if |poll.measured| < offset {
        output := output + MARKER;
        offset := 0;
      }
      var buffer := NewBytes(offset, poll.read);
      if buffer != [] {
        output := output + lossy(buffer);
      }
      offset := offset + |buffer|;
    }
  }

  /**
   Which bytes of a replaced file a poll misses: none if and only if the poll notices that the
   file has shrunk, or the offset is zero, or the file is empty. A file truncated and regrown
   to the offset or beyond loses exactly its first `offset` bytes.
   */
  lemma WholeFileShownIff(offset: nat, poll: Poll)
    ensures Piece(offset, poll) == poll.read <==> |poll.measured| < offset || offset == 0 || poll.read == []
    ensures offset <= |poll.measured| && offset <= |poll.read| ==>
              poll.read == poll.read[..offset] + Piece(offset, poll)
  {
  }

  function Follow(start: nat, polls: seq<Poll>, lossy: string -> string): Position
  {
    if polls == [] then Position(start, [])
    else Emitted(Follow(start, polls[..|polls| - 1], lossy), polls[|polls| - 1], lossy)
  }

  /** The file at the latest reading. */
  function Latest(file: string, polls: seq<Poll>): string
  {
    if polls == [] then file else polls[|polls| - 1].read
  }

  /** The file only ever grows at its end, also between measuring and reading. */
  predicate AppendOnly(file: string, polls: seq<Poll>)
  {
    polls == [] ||
    (var init, last := polls[..|polls| - 1], polls[|polls| - 1];
     AppendOnly(file, init) && Latest(file, init) <= last.measured <= last.read)
  }

  /** The bytes each poll picked up, one after the other. */
  function Pieces(file: string, polls: seq<Poll>): (r: seq<string>)
    requires AppendOnly(file, polls)
    ensures |r| == |polls|
  {
    if polls == [] then []
    else
      var init := polls[..|polls| - 1];
      var before := Latest(file, init);
      Pieces(file, init) + [polls[|polls| - 1].read[|before|..]]
  }

  function Concat(pieces: seq<string>): string
  {
    if pieces == [] then [] else Concat(pieces[..|pieces| - 1]) + pieces[|pieces| - 1]
  }

  function Decoded(pieces: seq<string>, lossy: string -> string): string
  {
    if pieces == [] then []
    else
      var last := pieces[|pieces| - 1];
      Decoded(pieces[..|pieces| - 1], lossy) + if last != [] then lossy(last) else []
  }

  lemma EmitsTheAppended(p: Position, poll: Poll, before: string, lossy: string -> string)
    requires p.offset == |before| && before <= poll.measured <= poll.read
    ensures var piece := poll.read[|before|..];
            Emitted(p, poll, lossy) == Position(|poll.read|, p.output + if piece != [] then lossy(piece) else [])
  {
    assert p.output + [] == p.output;
  }

  lemma {:induction false} PiecePushed(pieces: seq<string>, piece: string, lossy: string -> string)
    ensures Decoded(pieces + [piece], lossy) == Decoded(pieces, lossy) + if piece != [] then lossy(piece) else []
    ensures Concat(pieces + [piece]) == Concat(pieces) + piece
  {
    assert (pieces + [piece])[..|pieces|] == pieces;
  }

  /**
   On an append-only file, however appends fall between and within polls: the offset is the
   length of the file as last read, the pieces picked up are the file from the starting
   point on, each byte once and in order, and the output is their decoding piece by piece.
   */
  lemma {:induction false} FollowsAppends(file: string, polls: seq<Poll>, lossy: string -> string)
    requires AppendOnly(file, polls)
    ensures file <= Latest(file, polls)
    ensures Follow(|file|, polls, lossy) == Position(|Latest(file, polls)|, Decoded(Pieces(file, polls), lossy))
    ensures Concat(Pieces(file, polls)) == Latest(file, polls)[|file|..]
  {
    if polls == [] {
    } else {
      var init, last := polls[..|polls| - 1], polls[|polls| - 1];
      var before := Latest(file, init);
      FollowsAppends(file, init, lossy);
      assert before <= last.measured <= last.read;
      assert before <= last.read;
      EmitsTheAppended(Follow(|file|, init, lossy), last, before, lossy);
      PiecePushed(Pieces(file, init), last.read[|before|..], lossy);
      TailAfter(file, before, last.read);
    }
  }

  lemma TailAfter(file: string, before: string, now: string)
    requires file <= before <= now
    ensures file <= now && now[|file|..] == before[|file|..] + now[|before|..]
  {
  }

  /** Where decoding changes nothing, the output is exactly the file from the starting point on. */
  lemma {:induction false} FollowIsVerbatim(file: string, polls: seq<Poll>, lossy: string -> string)
    requires AppendOnly(file, polls)
    requires forall i :: 0 <= i < |Pieces(file, polls)| ==> lossy(Pieces(file, polls)[i]) == Pieces(file, polls)[i]
    ensures file + Follow(|file|, polls, lossy).output == Latest(file, polls)
  {
    FollowsAppends(file, polls, lossy);
    DecodedIsConcat(Pieces(file, polls), lossy);
  }

  lemma {:induction false} DecodedIsConcat(pieces: seq<string>, lossy: string -> string)
    requires forall i :: 0 <= i < |pieces| ==> lossy(pieces[i]) == pieces[i]
    ensures Decoded(pieces, lossy) == Concat(pieces)
  {
    if pieces == [] {
    } else {
      DecodedIsConcat(pieces[..|pieces| - 1], lossy);
    }
  }
}
