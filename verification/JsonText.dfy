/**
 Printing and reading JSON: what is printed reads back as itself, also in the middle of more
 text, and holds no control character.
 */
module JsonText {
  import opened Utils
  import opened Json

  lemma FromTextWithin(s: string)
    ensures FromText(s).Some? ==> Within(FromText(s).value, MAX_LEVELS)
  {
    if FromText(s).Some? {
      MergedWithin(ParseTree(s).value, MAX_LEVELS);
    }
  }

  // ------------------------------------------------------------ round trip

  /** The text after a value cannot be taken for more of a number. */
  predicate Stops(k: string) { k == [] || !NumChar(k[0]) }

  lemma {:induction false} NumSpanOf(t: string, k: string)
    requires AllNumChars(t)
    requires Stops(k)
    ensures NumSpan(t + k) == |t| && (t + k)[..|t|] == t && (t + k)[|t|..] == k
  {
    if t == [] {
      assert t + k == k;
    } else {
      assert (t + k)[1..] == t[1..] + k;
      NumSpanOf(t[1..], k);
    }
  }

  lemma {:induction false} EscapedCharParses(c: char, rest: string)
    ensures ParseStr(EscChar(c) + rest) == Cons(c, ParseStr(rest))
  {
    var e := EscChar(c);
    var s := e + rest;
    assert s[|e|..] == rest;
    if |e| == 6 {
      var n := c as int;
      assert s[2..][0] == '0' && s[2..][1] == '0';
      assert s[2..][2] == HexChar(n / 16) && s[2..][3] == HexChar(n % 16);
      assert HexValue(HexChar(n / 16)) == Some(n / 16);
      assert HexValue(HexChar(n % 16)) == Some(n % 16);
      assert Hex4(s[2..]) == Some(n);
    }
  }

  /** An escaped string reads back as itself, whatever characters it holds. */
  lemma {:induction false} StringRoundTrip(s: string, k: string)
    ensures ParseStr(EscTo(s, "\"" + k)) == Some((s, k))
  {
    if s == [] {
      assert ("\"" + k)[1..] == k;
    } else {
      StringRoundTrip(s[1..], k);
      EscapedCharParses(s[0], EscTo(s[1..], "\"" + k));
      assert [s[0]] + s[1..] == s;
    }
  }

  /** Text whose first character starts no literal is not mistaken for one. */
  lemma {:induction false} NoLiteral(s: string)
    requires s != [] && s[0] !in {'n', 't', 'f', ' ', '\t', '\n', '\r'}
    ensures !StartsWith(s, "null") && !StartsWith(s, "true") && !StartsWith(s, "false")
    ensures SkipWs(s) == s
  {
  }

  lemma {:induction false} LiteralsParse(k: string)
    ensures ParseValue("null" + k) == Some((Null, k))
    ensures ParseValue("true" + k) == Some((Bool(true), k))
    ensures ParseValue("false" + k) == Some((Bool(false), k))
  {
    var n, t, f := "null" + k, "true" + k, "false" + k;
    assert n[0] == 'n' && n[..4] == "null" && n[4..] == k;
    assert t[0] == 't' && t[..4] == "true" && t[4..] == k;
    assert f[0] == 'f' && f[..5] == "false" && f[5..] == k;
    assert SkipWs(n) == n && SkipWs(t) == t && SkipWs(f) == f;
  }

  lemma {:induction false} NumberDispatch(s: string)
    requires s != [] && NumChar(s[0])
    ensures ParseValue(s) == ParseNumber(s)
  {
    NoLiteral(s);
  }

  lemma IntParses(n: int, k: string)
    requires Stops(k)
    ensures ParseNumber(IntText(n) + k) == Some((Int(n), k))
  {
    var t := IntText(n);
    ScanInt(n);
    NumSpanOf(t, k);
    if n < 0 {
      assert t[1..] == Decimal(-n);
    }
  }

  lemma FloatParses(t: string, k: string)
    requires Stops(k) && WellFormed(Float(t))
    ensures ParseNumber(t + k) == Some((Float(t), k))
  {
    NumSpanOf(t, k);
  }

  lemma {:induction false} NumberParses(t: string, k: string, j: Json)
    requires Stops(k)
    requires (j.Int? && t == IntText(j.n)) || (j.Float? && t == j.lexeme && WellFormed(j))
    ensures ParseValue(t + k) == Some((j, k))
  {
    if j.Int? {
      ScanInt(j.n);
      IntParses(j.n, k);
    } else {
      FloatParses(t, k);
    }
    assert NumChar(t[0]) && (t + k)[0] == t[0];
    NumberDispatch(t + k);
  }

  /** Printing then parsing gives the value back and leaves exactly what followed it. */
  lemma {:induction false} ValueRoundTrip(j: Json, k: string)
    requires WellFormed(j) && Stops(k)
    ensures ParseValue(PrintTo(j, k)) == Some((j, k))
    decreases j, 1
  {
    match j
    case Null => LiteralsParse(k);
    case Bool(b) => LiteralsParse(k);
    case Int(n) => NumberParses(IntText(n), k, j);
    case Float(l) => NumberParses(l, k, j);
    case Str(t) =>
      StringRoundTrip(t, k);
      Opened("\"", EscTo(t, "\"" + k));
    case Arr(items) =>
      ItemsRoundTrip(items, true, k);
      Opened("[", ItemsTo(items, true, k));
    case Obj(fields) =>
      FieldsRoundTrip(fields, true, k);
      Opened("{", FieldsTo(fields, true, k));
  }

  lemma {:induction false} Opened(q: string, body: string)
    requires q == "\"" || q == "[" || q == "{"
    ensures (q + body)[0] == q[0] && (q + body)[1..] == body
    ensures !StartsWith(q + body, "null") && !StartsWith(q + body, "true") && !StartsWith(q + body, "false")
    ensures SkipWs(q + body) == q + body
  {
    NoLiteral(q + body);
  }

  lemma {:induction false} FirstChar(j: Json, k: string)
    requires WellFormed(j)
    ensures PrintTo(j, k) != [] && PrintTo(j, k)[0] !in {' ', '\t', '\n', '\r', ']', '}', ','}
  {
    if j.Int? { ScanInt(j.n); }
    if j.Float? { assert NumChar(j.lexeme[0]); }
    if j.Int? { assert NumChar(IntText(j.n)[0]); }
  }

  lemma {:induction false} ItemsRoundTrip(items: seq<Json>, first: bool, k: string)
    requires WellFormedItems(items)
    ensures ParseItems(ItemsTo(items, first, k), first) == Some((items, k))
    ensures !first ==> Stops(ItemsTo(items, first, k))
    decreases items, 0
  {
    var s := ItemsTo(items, first, k);
    if items == [] {
      assert s[0] == ']' && s[1..] == k;
    } else {
      var rest := ItemsTo(items[1..], false, k);
      ItemsRoundTrip(items[1..], false, k);
      ValueRoundTrip(items[0], rest);
      FirstChar(items[0], rest);
      var body := PrintTo(items[0], rest);
      if first {
        assert SkipWs(s) == s;
      } else {
        assert s[0] == ',' && s[1..] == body;
      }
      assert [items[0]] + items[1..] == items;
    }
  }

  lemma {:induction false} FieldsRoundTrip(fields: seq<Field>, first: bool, k: string)
    requires WellFormedFields(fields)
    ensures ParseFields(FieldsTo(fields, first, k), first) == Some((fields, k))
    ensures !first ==> Stops(FieldsTo(fields, first, k))
    decreases fields, 0
  {
    if fields == [] {
      var s := FieldsTo(fields, first, k);
      assert s[0] == '}' && s[1..] == k;
    } else {
      var f, more, rest := fields[0], fields[1..], FieldsTo(fields[1..], false, k);
      assert FieldsTo(fields, first, k) == if first then FieldTo(f, rest) else "," + FieldTo(f, rest);
      assert ParseFields(rest, false) == Some((more, k)) && Stops(rest) by {
        FieldsRoundTrip(more, false, k);
      }
      assert ParseField(FieldTo(f, rest)) == Some((f, rest)) by {
        ValueRoundTrip(f.value, rest);
        FieldRoundTrip(f, rest);
      }
      MoreFields(f, more, rest, k, first);
      assert [f] + more == fields;
    }
  }

  /** One member, after its comma unless it is the first, then the members that follow. */
  lemma MoreFields(f: Field, more: seq<Field>, rest: string, k: string, first: bool)
    requires ParseField(FieldTo(f, rest)) == Some((f, rest))
    requires ParseFields(rest, false) == Some((more, k))
    ensures ParseFields(if first then FieldTo(f, rest) else "," + FieldTo(f, rest), first) == Some(([f] + more, k))
    ensures Stops("," + FieldTo(f, rest))
  {
    var body := FieldTo(f, rest);
    assert body[0] == '\"';
    var s := if first then body else "," + body;
    assert SkipWs(s) == s;
    assert !first ==> s[1..] == body;
  }

  lemma {:induction false} FieldRoundTrip(f: Field, k: string)
    requires ParseValue(PrintTo(f.value, k)) == Some((f.value, k))
    ensures ParseField(FieldTo(f, k)) == Some((f, k))
  {
    var after := ":" + PrintTo(f.value, k);
    StringRoundTrip(f.key, after);
    var s := FieldTo(f, k);
    assert s[0] == '\"' && s[1..] == EscTo(f.key, "\"" + after);
    assert after[0] == ':' && after[1..] == PrintTo(f.value, k);
  }

  lemma {:induction false} ValidIsWellFormed(j: Json)
    requires Valid(j)
    ensures WellFormed(j)
  {
    match j
    case Arr(items) =>
      forall i | 0 <= i < |items| ensures WellFormed(items[i]) {
        ValidIsWellFormed(items[i]);
      }
    case Obj(fields) =>
      forall i | 0 <= i < |fields| ensures WellFormed(fields[i].value) {
        ValidIsWellFormed(fields[i].value);
      }
    case _ =>
  }

  /**
   Printing a value and reading it gives the value. The gateway's own reader does so exactly
   up to its limit on nesting, beyond which it refuses its own output.
   */
  lemma {:induction false} PrintParse(j: Json)
    requires Valid(j)
    ensures Parse(Print(j)) == Some(j)
    ensures FromText(Print(j)) == (if Within(j, MAX_LEVELS) then Some(j) else None)
    ensures ParseTree(Print(j)) == Some(j)
  {
    ValidIsWellFormed(j);
    ValueRoundTrip(j, "");
  }

  // ------------------------------------------------- no control characters

  predicate Clean(s: string) { forall i :: 0 <= i < |s| ==> s[i] as int >= 32 }

  lemma {:induction false} EscClean(s: string, k: string)
    requires Clean(k)
    ensures Clean(EscTo(s, k))
  {
    if s == [] {
    } else {
      EscClean(s[1..], k);
      assert Clean(EscChar(s[0]));
    }
  }

  /** Printed JSON holds no raw control character, so no CR and no LF. */
  lemma {:induction false} PrintClean(j: Json, k: string)
    requires Valid(j) && Clean(k)
    ensures Clean(PrintTo(j, k))
    decreases j, 1
  {
    match j
    case Null =>
    case Bool(_) =>
    case Int(n) => ScanInt(n); NumCharsClean(IntText(n));
    case Float(l) => NumCharsClean(l);
    case Str(s) => EscClean(s, "\"" + k);
    case Arr(items) => ItemsClean(items, true, k);
    case Obj(fields) => FieldsClean(fields, true, k);
  }

  lemma NumCharsClean(t: string)
    requires AllNumChars(t)
    ensures Clean(t)
  {
    forall i | 0 <= i < |t| ensures t[i] as int >= 32 {
      assert t[i] in t;
    }
  }

  lemma {:induction false} ItemsClean(items: seq<Json>, first: bool, k: string)
    requires ValidItems(items) && Clean(k)
    ensures Clean(ItemsTo(items, first, k))
    decreases items, 0
  {
    if items == [] {
    } else {
      ItemsClean(items[1..], false, k);
      PrintClean(items[0], ItemsTo(items[1..], false, k));
    }
  }

  lemma {:induction false} FieldsClean(fields: seq<Field>, first: bool, k: string)
    requires ValidFields(fields) && Clean(k)
    ensures Clean(FieldsTo(fields, first, k))
    decreases fields, 0
  {
    if fields == [] {
    } else {
      var rest := FieldsTo(fields[1..], false, k);
      FieldsClean(fields[1..], false, k);
      PrintClean(fields[0].value, rest);
      EscClean(fields[0].key, "\"" + (":" + PrintTo(fields[0].value, rest)));
    }
  }
}
