/** Splitting text into lines the way `str::lines` and `BufRead::lines` do. */
module TextLines {
  function NewlineAt(s: string): (n: nat)
    ensures n <= |s|
    ensures forall i :: 0 <= i < n ==> s[i] != '\n'
    ensures n < |s| ==> s[n] == '\n'
  {
    if s == [] || s[0] == '\n' then 0 else 1 + NewlineAt(s[1..])
  }

  /** One carriage return right before a line feed belongs to the line ending. */
  function StripCr(line: string): string
  {
    if line != [] && line[|line| - 1] == '\r' then line[..|line| - 1] else line
  }

  /** `str::lines` */
  function Lines(s: string): (r: seq<string>)
    ensures forall i :: 0 <= i < |r| ==> '\n' !in r[i]
  {
    if s == [] then []
    else
      var n := NewlineAt(s);
      if n == |s| then [s] else [StripCr(s[..n])] + Lines(s[n + 1..])
  }
}
