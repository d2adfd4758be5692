/**
 What the JSON reader makes of texts that the printer does not write (sections 2, 4, 6 and 7 of
 RFC 8259): white space, every kind of escape, repeated keys, and numbers of every form.
 */
module JsonReading {
  import opened Utils
  import opened Json

  // ------------------------------------------------------------- white space

  /** Space, tab, line feed and carriage return. */
  predicate Space(ws: string) { forall i :: 0 <= i < |ws| ==> ws[i] as int in {0x20, 0x09, 0x0A, 0x0D} }

  lemma {:induction false} SpaceSkipped(ws: string, s: string)
    requires Space(ws)
    ensures SkipWs(ws + s) == SkipWs(s)
  {
    if ws == [] {
      assert ws + s == s;
    } else {
      assert (ws + s)[0] == ws[0] && (ws + s)[1..] == ws[1..] + s;
      assert ws[0] in {' ', '\t', '\n', '\r'};
      SpaceSkipped(ws[1..], s);
    }
  }

  lemma SkipTwice(s: string)
    ensures SkipWs(SkipWs(s)) == SkipWs(s)
  {
  }

  /** Space is allowed before a value, an element, a member and the ends of lists and objects. */
  lemma SpaceAround(ws: string, s: string, first: bool)
    requires Space(ws)
    ensures ParseValue(ws + s) == ParseValue(s)
    ensures ParseItems(ws + s, first) == ParseItems(s, first)
    ensures ParseFields(ws + s, first) == ParseFields(s, first)
    ensures ParseField(ws + s) == ParseField(s)
  {
    SpaceSkipped(ws, s);
  }

  /** And it is allowed before the colon of a member, and after the whole value. */
  lemma SpaceAfter(key: string, name: string, ws: string, more: string, text: string, value: Json)
    requires Space(ws)
    ensures ParseStr(key) == Some((name, ws + (":" + more))) ==>
              ParseField("\"" + key) ==
              match ParseValue(more) case Some((v, rest)) => Some((Field(name, v), rest)) case None => None
    ensures ParseValue(text) == Some((value, ws)) ==> ParseTree(text) == Some(value)
  {
    var s := "\"" + key;
    assert s[0] == '\"' && s[1..] == key && (":" + more)[1..] == more;
    SpaceSkipped(ws, ":" + more);
    SpaceSkipped(ws, "");
    assert ws + "" == ws;
  }

  // ----------------------------------------------------------------- escapes

  /** The short escapes: the character after the backslash and the code that it stands for. */
  const SHORT: seq<(char, int)> := [
    ('\"', 0x22), ('\\', 0x5C), ('/', 0x2F), ('b', 0x08), ('f', 0x0C), ('n', 0x0A), ('r', 0x0D), ('t', 0x09)]

  lemma ShortEscapes(k: nat, rest: string)
    requires k < |SHORT|
    ensures ParseStr(['\\', SHORT[k].0] + rest) == Cons(SHORT[k].1 as char, ParseStr(rest))
  {
    var s := ['\\', SHORT[k].0] + rest;
    assert s[0] == '\\' && s[1] == SHORT[k].0 && s[2..] == rest;
  }

  /** A hexadecimal digit in either case. */
  predicate IsHex(c: char, d: nat)
  {
    || (d < 10 && c as int == 0x30 + d)
    || (10 <= d < 16 && (c as int == 0x41 + d - 10 || c as int == 0x61 + d - 10))
  }

  /** Four hexadecimal digits of a number. */
  predicate IsHex4(h: string, n: nat)
  {
    && |h| == 4 && n < 0x1_0000
    && IsHex(h[0], n / 0x1000) && IsHex(h[1], n / 0x100 % 0x10) && IsHex(h[2], n / 0x10 % 0x10) && IsHex(h[3], n % 0x10)
  }

  lemma HexIs(c: char, d: nat)
    requires IsHex(c, d)
    ensures HexValue(c) == Some(d)
  {
  }

  lemma Hex4Is(h: string, n: nat, rest: string)
    requires IsHex4(h, n)
    ensures Hex4(h + rest) == Some(n)
  {
    var s := h + rest;
    HexIs(h[0], n / 0x1000);
    HexIs(h[1], n / 0x100 % 0x10);
    HexIs(h[2], n / 0x10 % 0x10);
    HexIs(h[3], n % 0x10);
    assert s[0] == h[0] && s[1] == h[1] && s[2] == h[2] && s[3] == h[3];
    Nibbles(n);
  }

  lemma Nibbles(n: nat)
    requires n < 0x1_0000
    ensures n == 4096 * (n / 0x1000) + 256 * (n / 0x100 % 0x10) + 16 * (n / 0x10 % 0x10) + n % 0x10
  {
    var a := n / 0x10;
    var b := a / 0x10;
    assert n / 0x100 == b && n / 0x1000 == b / 0x10;
  }

  /** Every character up to U+FFFF can be spelled by its code, in digits of either case. */
  lemma CodeEscapes(c: char, h: string, rest: string)
    requires c as int < 0x1_0000 && IsHex4(h, c as int)
    ensures ParseStr("\\u" + h + rest) == Cons(c, ParseStr(rest))
  {
    var s := "\\u" + h + rest;
    assert s[0] == '\\' && s[1] == 'u' && s[2..] == h + rest && s[6..] == rest;
    Hex4Is(h, c as int, rest);
  }

  /** The others are spelled by a pair of surrogates. */
  lemma PairEscapes(c: char, h: string, l: string, rest: string)
    requires c as int >= 0x1_0000
    requires IsHex4(h, 0xD800 + (c as int - 0x1_0000) / 0x400) && IsHex4(l, 0xDC00 + (c as int - 0x1_0000) % 0x400)
    ensures ParseStr("\\u" + h + "\\u" + l + rest) == Cons(c, ParseStr(rest))
  {
    var s, after := "\\u" + h + "\\u" + l + rest, "\\u" + l + rest;
    var hi, lo := 0xD800 + (c as int - 0x1_0000) / 0x400, 0xDC00 + (c as int - 0x1_0000) % 0x400;
    PairPlaces(h, l, rest);
    Hex4Is(h, hi, after);
    Hex4Is(l, lo, rest);
    assert 0x1_0000 + 1024 * (hi - 0xD800) + (lo - 0xDC00) == c as int;
  }

  lemma PairPlaces(h: string, l: string, rest: string)
    requires |h| == 4 && |l| == 4
    ensures var s := "\\u" + h + "\\u" + l + rest;
            && s[0] == '\\' && s[1] == 'u' && s[2..] == h + ("\\u" + l + rest)
            && s[6..8] == "\\u" && s[8..] == l + rest && s[12..] == rest
  {
    var s := "\\u" + h + "\\u" + l + rest;
    assert s == "\\u" + h + ("\\u" + l + rest);
  }

  /** A raw control character is refused, and so is a low surrogate on its own. */
  lemma Refused(c: char, h: string, n: nat, rest: string)
    requires c as int < 32 && IsHex4(h, n) && 0xDC00 <= n < 0xE000
    ensures ParseStr([c] + rest) == None && ParseStr("\\u" + h + rest) == None
  {
    assert ([c] + rest)[0] == c;
    var s := "\\u" + h + rest;
    assert s[0] == '\\' && s[1] == 'u' && s[2..] == h + rest;
    Hex4Is(h, n, rest);
  }

  // ----------------------------------------------------------- repeated keys

  /** Of members with one key the last is the one that counts. */
  lemma {:induction false} LastCounts(fields: seq<Field>, key: string, value: Json)
    requires WellFormedFields(fields) && WellFormed(value)
    ensures WellFormedFields(fields + [Field(key, value)])
    ensures Find(MergedFields(fields + [Field(key, value)]), key) == Some(Merged(value))
  {
    var all := fields + [Field(key, value)];
    if fields == [] {
      assert all[1..] == [];
    } else {
      LastCounts(fields[1..], key, value);
      assert all[1..] == fields[1..] + [Field(key, value)] && all[0] == fields[0];
      var more := MergedFields(all[1..]);
      FindNone(more, key);
      assert MergedFields(all) == more || MergedFields(all)[1..] == more;
    }
  }

  /** A key that is not repeated keeps its value. */
  lemma {:induction false} OnlyCounts(fields: seq<Field>, i: nat)
    requires WellFormedFields(fields) && i < |fields|
    requires forall k :: 0 <= k < |fields| && k != i ==> fields[k].key != fields[i].key
    ensures Find(MergedFields(fields), fields[i].key) == Some(Merged(fields[i].value))
  {
    var key, more := fields[i].key, MergedFields(fields[1..]);
    if i == 0 {
      AbsentKey(fields[1..], key);
    } else {
      OnlyCounts(fields[1..], i - 1);
      assert MergedFields(fields) == more || MergedFields(fields)[1..] == more;
    }
  }

  lemma {:induction false} AbsentKey(fields: seq<Field>, key: string)
    requires WellFormedFields(fields) && forall k :: 0 <= k < |fields| ==> fields[k].key != key
    ensures !HasKey(MergedFields(fields), key)
  {
    if fields == [] {
    } else {
      AbsentKey(fields[1..], key);
      var more, all := MergedFields(fields[1..]), MergedFields(fields);
      if all != more {
        assert all[0].key == fields[0].key && all[1..] == more;
        forall k | 0 <= k < |all| ensures all[k].key != key {
          if k > 0 {
            assert all[k] == more[k - 1];
          }
        }
      }
    }
  }

  // ----------------------------------------------------------------- numbers

  predicate Nonempty(digits: string) { digits != "" && AllDigits(digits) }

  /** `int`: zero, or digits that do not start with zero. */
  predicate IntPart(t: string) { t == "0" || (Nonempty(t) && t[0] != '0') }

  predicate FracPart(t: string) { t == "" || (t[0] == '.' && Nonempty(t[1..])) }

  predicate ExpPart(t: string)
  {
    t == "" || ((t[0] == 'e' || t[0] == 'E') &&
                (Nonempty(t[1..]) || (|t| > 1 && (t[1] == '+' || t[1] == '-') && Nonempty(t[2..]))))
  }

  lemma {:induction false} ScanPush(t: string, c: char)
    ensures Scan(t + [c]) == NumStep(Scan(t), c)
  {
    assert (t + [c])[..|t|] == t;
  }

  lemma {:induction false} ScanDigitsFrom(t: string, digits: string, q: NumState)
    requires Nonempty(digits) && q in {Digits, Frac, Exp} && NumStep(Scan(t), digits[0]) == q
    ensures Scan(t + digits) == q
    decreases |digits|
  {
    var init, last := digits[..|digits| - 1], digits[|digits| - 1];
    assert digits == init + [last];
    if init == "" {
      ScanPush(t, last);
      assert t + [last] == t + digits;
    } else {
      ScanDigitsFrom(t, init, q);
      ScanPush(t + init, last);
      assert (t + init) + [last] == t + digits;
    }
  }

  lemma {:induction false} IntScans(sign: string, int_: string)
    requires (sign == "" || sign == "-") && IntPart(int_)
    ensures Scan(sign + int_) == if int_ != "0" then Digits else if sign == "-" then NegZero else Zero
  {
    assert Scan("") == Start;
    if sign == "-" {
      ScanPush("", '-');
      assert "" + ['-'] == "-";
    }
    assert Scan(sign) == if sign == "-" then Minus else Start;
    if int_ == "0" {
      ScanPush(sign, '0');
    } else {
      ScanDigitsFrom(sign, int_, Digits);
    }
  }

  lemma {:induction false} FracScans(t: string, frac: string)
    requires Scan(t) in {Zero, NegZero, Digits} && FracPart(frac)
    ensures Scan(t + frac) == if frac == "" then Scan(t) else Frac
  {
    if frac == "" {
      assert t + frac == t;
    } else {
      ScanPush(t, '.');
      ScanDigitsFrom(t + ['.'], frac[1..], Frac);
      assert (t + ['.']) + frac[1..] == t + frac;
    }
  }

  lemma {:induction false} SignScans(t: string, digits: string)
    requires Scan(t) == E && |digits| > 1 && (digits[0] == '+' || digits[0] == '-') && Nonempty(digits[1..])
    ensures Scan(t + digits) == Exp
  {
    ScanPush(t, digits[0]);
    ScanDigitsFrom(t + [digits[0]], digits[1..], Exp);
    assert (t + [digits[0]]) + digits[1..] == t + digits;
  }

  lemma {:induction false} ExpScans(t: string, exp: string)
    requires Scan(t) in {Zero, NegZero, Digits, Frac} && ExpPart(exp) && exp != ""
    ensures Scan(t + exp) == Exp
  {
    var u, more := t + [exp[0]], exp[1..];
    ScanPush(t, exp[0]);
    assert u + more == t + exp;
    if Nonempty(more) {
      ScanDigitsFrom(u, more, Exp);
    } else {
      assert exp[2..] == more[1..];
      SignScans(u, more);
    }
  }

  lemma {:induction false} ExpOrNone(t: string, exp: string)
    requires Scan(t) in {Zero, NegZero, Digits, Frac} && ExpPart(exp)
    ensures Scan(t + exp) == if exp == "" then Scan(t) else Exp
  {
    if exp == "" {
      assert t + exp == t;
    } else {
      ExpScans(t, exp);
    }
  }

  /**
   Every number of the grammar is accepted. It is an integer if it has neither fraction nor
   exponent and is not a negative zero.
   */
  lemma {:induction false} NumbersRead(sign: string, int_: string, frac: string, exp: string)
    requires (sign == "" || sign == "-") && IntPart(int_) && FracPart(frac) && ExpPart(exp)
    ensures Scan(sign + int_ + frac + exp) ==
            if exp != "" then Exp
            else if frac != "" then Frac
            else if int_ != "0" then Digits
            else if sign == "-" then NegZero
            else Zero
  {
    IntScans(sign, int_);
    FracScans(sign + int_, frac);
    ExpOrNone(sign + int_ + frac, exp);
  }
}
