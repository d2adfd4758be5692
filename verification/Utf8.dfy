/** Byte lengths and white space, by the standards they come from: section 3 of RFC 3629, and Unicode's White_Space. */
module Utf8 {
  import opened Utils

  /** The bytes of a character. */
  function Encode(c: char): seq<int>
  {
    var n := c as int;
    var low, mid, high := n % 0x40, n / 0x40 % 0x40, n / 0x40 / 0x40 % 0x40;
    if n < 0x80 then [n]
    else if n < 0x800 then [0xC0 + n / 0x40, 0x80 + low]
    else if n < 0x1_0000 then [0xE0 + n / 0x40 / 0x40, 0x80 + mid, 0x80 + low]
    else [0xF0 + n / 0x40 / 0x40 / 0x40, 0x80 + high, 0x80 + mid, 0x80 + low]
  }

  /** The bits that the bytes of one character carry: those after the marks in the first and in the others. */
  function Decode(bytes: seq<int>): int
  {
    if |bytes| == 1 then bytes[0]
    else if |bytes| == 2 then (bytes[0] - 0xC0) * 0x40 + (bytes[1] - 0x80)
    else if |bytes| == 3 then ((bytes[0] - 0xE0) * 0x40 + (bytes[1] - 0x80)) * 0x40 + (bytes[2] - 0x80)
    else if |bytes| == 4 then
      (((bytes[0] - 0xF0) * 0x40 + (bytes[1] - 0x80)) * 0x40 + (bytes[2] - 0x80)) * 0x40 + (bytes[3] - 0x80)
    else -1
  }

  /** What the first byte says about how many there are; the others are continuation bytes. */
  predicate Marked(bytes: seq<int>)
  {
    && bytes != []
    && (|bytes| == 1 <==> 0 <= bytes[0] < 0x80)
    && (|bytes| == 2 <==> 0xC0 <= bytes[0] < 0xE0)
    && (|bytes| == 3 <==> 0xE0 <= bytes[0] < 0xF0)
    && (|bytes| == 4 <==> 0xF0 <= bytes[0] < 0xF8)
    && forall i :: 0 < i < |bytes| ==> 0x80 <= bytes[i] < 0xC0
  }

  lemma Split(n: nat)
    ensures n == n / 0x40 * 0x40 + n % 0x40 && 0 <= n % 0x40 < 0x40
  {
  }

  lemma EncodeDecodes(c: char)
    ensures Decode(Encode(c)) == c as int && Marked(Encode(c))
  {
    var n := c as int;
    Split(n);
    Split(n / 0x40);
    Split(n / 0x40 / 0x40);
    assert n >= 0x1_0000 ==> n / 0x40 / 0x40 / 0x40 < 8;
  }

  function EncodeAll(s: string): seq<int>
  {
    if s == [] then [] else Encode(s[0]) + EncodeAll(s[1..])
  }

  /** The length of a string is the number of its bytes. */
  lemma {:induction false} ByteLenIsEncoded(s: string)
    ensures ByteLen(s) == |EncodeAll(s)|
  {
    if s == [] {
    } else {
      ByteLenIsEncoded(s[1..]);
    }
  }

  /** The 25 characters of white space. */
  lemma WhiteSpaceIs(c: char)
    ensures IsWhitespace(c) <==>
            c as int in {9, 10, 11, 12, 13, 32, 133, 160, 5760, 8192, 8193, 8194, 8195, 8196, 8197, 8198, 8199, 8200,
                         8201, 8202, 8232, 8233, 8239, 8287, 12288}
  {
  }
}
