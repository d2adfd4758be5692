/**
 JSON values, the compact printer (`serde_json::to_string`) and the parser
 (`serde_json::from_str`) used on both ends of the caches and of the event streams.

 The printer is written with an explicit continuation `k`, the text that follows the
 value: `PrintTo(j, k)` is the printed value followed by `k`.
 Grammar: RFC 8259, sections 2 to 7.
 */
module Json {
  import opened Utils

  datatype Json =
    | Null
    | Bool(b: bool)
    | Int(n: int)
    | Float(lexeme: string)
    | Str(s: string)
    | Arr(items: seq<Json>)
    | Obj(fields: seq<Field>)

  datatype Field = Field(key: string, value: Json)

  // ------------------------------------------------------------------ access

  predicate HasKey(fields: seq<Field>, key: string)
  {
    exists i :: 0 <= i < |fields| && fields[i].key == key
  }

  function Find(fields: seq<Field>, key: string): Option<Json>
  {
    if fields == [] then None
    else if fields[0].key == key then Some(fields[0].value)
    else Find(fields[1..], key)
  }

  /** `Value::get(key)`: only objects have members. */
  function Get(j: Json, key: string): Option<Json>
  {
    if j.Obj? then Find(j.fields, key) else None
  }

  /** `opt.and_then(|v| v.get(key))` */
  function Then(o: Option<Json>, key: string): Option<Json>
  {
    match o
    case Some(j) => Get(j, key)
    case None => None
  }

  /** `opt.and_then(|v| v.as_array()).and_then(|a| a.first())` */
  function First(o: Option<Json>): Option<Json>
  {
    if o.Some? && o.value.Arr? && |o.value.items| > 0 then Some(o.value.items[0]) else None
  }

  /** `opt.and_then(|v| v.as_str())` */
  function AsStr(o: Option<Json>): Option<string>
  {
    if o.Some? && o.value.Str? then Some(o.value.s) else None
  }

  /** `map.insert(key, value)` on an object's members. */
  function SetField(fields: seq<Field>, key: string, value: Json): (r: seq<Field>)
    ensures Find(r, key) == Some(value)
    ensures HasKey(fields, key) ==>
              |r| == |fields| && forall i :: 0 <= i < |r| ==>
                r[i].key == fields[i].key && (fields[i].key != key ==> r[i] == fields[i])
    ensures !HasKey(fields, key) ==> r == fields + [Field(key, value)]
  {
    if fields == [] then [Field(key, value)]
    else if fields[0].key == key then [Field(key, value)] + fields[1..]
    else
      var rest := SetField(fields[1..], key, value);
      assert HasKey(fields, key) ==> HasKey(fields[1..], key);
      assert HasKey(fields[1..], key) ==> HasKey(fields, key) by {
        if HasKey(fields[1..], key) {
          var i :| 0 <= i < |fields[1..]| && fields[1..][i].key == key;
          assert fields[i + 1].key == key;
        }
      }
      [fields[0]] + rest
  }

  lemma {:induction false} FindAt(fields: seq<Field>, key: string, i: nat)
    requires i < |fields| && fields[i].key == key
    requires forall k :: 0 <= k < i ==> fields[k].key != key
    ensures Find(fields, key) == Some(fields[i].value)
  {
    if i == 0 {
    } else {
      FindAt(fields[1..], key, i - 1);
    }
  }

  lemma {:induction false} FindNone(fields: seq<Field>, key: string)
    ensures Find(fields, key).None? <==> !HasKey(fields, key)
  {
    if fields == [] {
    } else {
      FindNone(fields[1..], key);
      if HasKey(fields[1..], key) {
        var i :| 0 <= i < |fields[1..]| && fields[1..][i].key == key;
        assert fields[i + 1].key == key;
      }
      if HasKey(fields, key) && fields[0].key != key {
        var i :| 0 <= i < |fields| && fields[i].key == key;
        assert fields[1..][i - 1].key == key;
      }
    }
  }

  // -------------------------------------------------------------- validity

  predicate DistinctKeys(fields: seq<Field>)
  {
    forall i, k :: 0 <= i < k < |fields| ==> fields[i].key != fields[k].key
  }

  /** What `serde_json::Value` can hold: object keys are unique, floats are float tokens. */
  predicate Valid(j: Json)
  {
    match j
    case Float(l) => Scan(l) in {Frac, Exp, NegZero}
    case Arr(items) => ValidItems(items)
    case Obj(fields) => DistinctKeys(fields) && ValidFields(fields)
    case _ => true
  }

  predicate ValidItems(items: seq<Json>)
  {
    forall i :: 0 <= i < |items| ==> Valid(items[i])
  }

  predicate ValidFields(fields: seq<Field>)
  {
    forall i :: 0 <= i < |fields| ==> Valid(fields[i].value)
  }

  /** What a text can spell: like `Valid`, but a key may be repeated. */
  predicate WellFormed(j: Json)
  {
    match j
    case Float(l) => Scan(l) in {Frac, Exp, NegZero}
    case Arr(items) => WellFormedItems(items)
    case Obj(fields) => WellFormedFields(fields)
    case _ => true
  }

  predicate WellFormedItems(items: seq<Json>)
  {
    forall i :: 0 <= i < |items| ==> WellFormed(items[i])
  }

  predicate WellFormedFields(fields: seq<Field>)
  {
    forall i :: 0 <= i < |fields| ==> WellFormed(fields[i].value)
  }

  /** Arrays and objects are nested at most `levels` deep. */
  predicate Within(j: Json, levels: nat)
  {
    match j
    case Arr(items) => levels > 0 && WithinItems(items, levels - 1)
    case Obj(fields) => levels > 0 && WithinFields(fields, levels - 1)
    case _ => true
  }

  predicate WithinItems(items: seq<Json>, levels: nat)
  {
    forall i :: 0 <= i < |items| ==> Within(items[i], levels)
  }

  predicate WithinFields(fields: seq<Field>, levels: nat)
  {
    forall i :: 0 <= i < |fields| ==> Within(fields[i].value, levels)
  }

  /** The value of a spelling: of two members with one key the later stays. */
  function Merged(j: Json): (r: Json)
    requires WellFormed(j)
    ensures Valid(r) && (Valid(j) ==> r == j)
    decreases j, 1
  {
    match j
    case Arr(items) => Arr(MergedItems(items))
    case Obj(fields) => Obj(MergedFields(fields))
    case _ => j
  }

  function MergedItems(items: seq<Json>): (r: seq<Json>)
    requires WellFormedItems(items)
    ensures ValidItems(r) && (ValidItems(items) ==> r == items)
    decreases items, 0
  {
    if items == [] then [] else [Merged(items[0])] + MergedItems(items[1..])
  }

  function MergedFields(fields: seq<Field>): (r: seq<Field>)
    requires WellFormedFields(fields)
    ensures ValidFields(r) && DistinctKeys(r) && (ValidFields(fields) && DistinctKeys(fields) ==> r == fields)
    decreases fields, 0
  {
    if fields == [] then []
    else
      var f, more := fields[0], MergedFields(fields[1..]);
      if HasKey(more, f.key) then more else [Field(f.key, Merged(f.value))] + more
  }

  lemma {:induction false} Looser(j: Json, n: nat, m: nat)
    requires Within(j, n) && n <= m
    ensures Within(j, m)
  {
    match j
    case Arr(items) =>
      forall i | 0 <= i < |items| ensures Within(items[i], m - 1) {
        Looser(items[i], n - 1, m - 1);
      }
    case Obj(fields) =>
      forall i | 0 <= i < |fields| ensures Within(fields[i].value, m - 1) {
        Looser(fields[i].value, n - 1, m - 1);
      }
    case _ =>
  }

  lemma {:induction false} MergedWithin(j: Json, n: nat)
    requires WellFormed(j) && Within(j, n)
    ensures Within(Merged(j), n)
    decreases j, 1
  {
    match j
    case Arr(items) => MergedItemsWithin(items, n - 1);
    case Obj(fields) => MergedFieldsWithin(fields, n - 1);
    case _ =>
  }

  lemma {:induction false} MergedItemsWithin(items: seq<Json>, n: nat)
    requires WellFormedItems(items) && WithinItems(items, n)
    ensures WithinItems(MergedItems(items), n)
    decreases items, 0
  {
    if items == [] {
    } else {
      MergedWithin(items[0], n);
      MergedItemsWithin(items[1..], n);
    }
  }

  lemma {:induction false} MergedFieldsWithin(fields: seq<Field>, n: nat)
    requires WellFormedFields(fields) && WithinFields(fields, n)
    ensures WithinFields(MergedFields(fields), n)
    decreases fields, 0
  {
    if fields == [] {
    } else {
      MergedWithin(fields[0].value, n);
      MergedFieldsWithin(fields[1..], n);
    }
  }

  lemma {:induction false} FindValid(fields: seq<Field>, key: string)
    requires ValidFields(fields)
    ensures Find(fields, key).Some? ==> Valid(Find(fields, key).value)
  {
    if fields != [] && fields[0].key != key {
      FindValid(fields[1..], key);
    }
  }

  lemma ThenValid(o: Option<Json>, key: string)
    requires o.Some? ==> Valid(o.value)
    ensures Then(o, key).Some? ==> Valid(Then(o, key).value)
  {
    if o.Some? && o.value.Obj? {
      FindValid(o.value.fields, key);
    }
  }

  // --------------------------------------------------------------- numbers

  /** States of the number recogniser of section 6 of RFC 8259. */
  datatype NumState = Start | Minus | Zero | NegZero | Digits | Dot | Frac | E | ESign | Exp | Bad

  predicate Digit(c: char) { '0' <= c <= '9' }

  predicate NumChar(c: char) { Digit(c) || c == '-' || c == '+' || c == '.' || c == 'e' || c == 'E' }

  predicate AllDigits(t: string) { forall i :: 0 <= i < |t| ==> Digit(t[i]) }

  predicate AllNumChars(t: string) { forall i :: 0 <= i < |t| ==> NumChar(t[i]) }

  function NumStep(q: NumState, c: char): NumState
  {
    match q
    case Start => if c == '-' then Minus else if c == '0' then Zero else if Digit(c) then Digits else Bad
    case Minus => if c == '0' then NegZero else if Digit(c) then Digits else Bad
    case Zero => if c == '.' then Dot else if c in {'e', 'E'} then E else Bad
    case NegZero => if c == '.' then Dot else if c in {'e', 'E'} then E else Bad
    case Digits => if Digit(c) then Digits else if c == '.' then Dot else if c in {'e', 'E'} then E else Bad
    case Dot => if Digit(c) then Frac else Bad
    case Frac => if Digit(c) then Frac else if c in {'e', 'E'} then E else Bad
    case E => if c in {'+', '-'} then ESign else if Digit(c) then Exp else Bad
    case ESign => if Digit(c) then Exp else Bad
    case Exp => if Digit(c) then Exp else Bad
    case Bad => Bad
  }

  function Scan(t: string): (q: NumState)
    ensures q != Bad ==> AllNumChars(t)
    ensures q == Start <==> t == []
    ensures q in {Zero, Digits} ==> t != [] && if t[0] == '-' then AllDigits(t[1..]) else AllDigits(t)
    ensures q == Minus ==> t == "-"
  {
    if t == [] then Start
    else
      NumStep(Scan(t[..|t| - 1]), t[|t| - 1])
  }

  function DigitChar(d: nat): char
    requires d < 10
  {
    '0' + d as char
  }

  function Decimal(n: nat): (t: string)
    ensures |t| > 0
    ensures AllDigits(t)
    ensures n > 0 ==> t[0] != '0'
    ensures n == 0 ==> t == "0"
    ensures DecimalValue(t) == n
  {
    if n < 10 then [DigitChar(n)]
    else
      var t := Decimal(n / 10) + [DigitChar(n % 10)];
      assert t[..|t| - 1] == Decimal(n / 10);
      t
  }

  function DecimalValue(t: string): (n: nat)
    requires AllDigits(t)
  {
    if t == [] then 0
    else 10 * DecimalValue(t[..|t| - 1]) + (t[|t| - 1] as int - '0' as int)
  }

  function IntText(n: int): string
  {
    if n < 0 then "-" + Decimal(-n) else Decimal(n)
  }

  lemma {:induction false} ScanDigits(t: string, sign: nat)
    requires sign <= 1 && (sign == 1 ==> t != [] && t[0] == '-')
    requires sign < |t| && t[sign] != '0' && forall i :: sign <= i < |t| ==> Digit(t[i])
    ensures Scan(t) == Digits
    decreases |t|
  {
    var init := t[..|t| - 1];
    if |t| > sign + 1 {
      ScanDigits(init, sign);
    } else if sign == 1 {
      assert init == "-" && init[..0] == [];
      assert Scan(init[..0]) == Start;
      assert Scan(init) == Minus;
    } else {
      assert init == [];
    }
  }

  lemma ScanInt(n: int)
    ensures Scan(IntText(n)) == if n == 0 then Zero else Digits
    ensures AllNumChars(IntText(n))
  {
    if n == 0 {
      assert Scan("0"[..0]) == Start;
    } else {
      ScanDigits(IntText(n), if n < 0 then 1 else 0);
    }
  }

  // --------------------------------------------------------------- printer

  function HexChar(d: nat): char
    requires d < 16
  {
    if d < 10 then '0' + d as char else 'a' + (d - 10) as char
  }

  /** String escapes of `serde_json`'s compact formatter. */
  function EscChar(c: char): string
  {
    if c == '\"' then "\\\""
    else if c == '\\' then "\\\\"
    else if c as int == 8 then "\\b"
    else if c == '\t' then "\\t"
    else if c == '\n' then "\\n"
    else if c as int == 12 then "\\f"
    else if c == '\r' then "\\r"
    else if c as int < 32 then "\\u00" + [HexChar(c as int / 16), HexChar(c as int % 16)]
    else [c]
  }

  function EscTo(s: string, k: string): string
  {
    if s == [] then k else EscChar(s[0]) + EscTo(s[1..], k)
  }

  function StrTo(s: string, k: string): string
  {
    "\"" + EscTo(s, "\"" + k)
  }

  function PrintTo(j: Json, k: string): string
  {
    match j
    case Null => "null" + k
    case Bool(b) => (if b then "true" else "false") + k
    case Int(n) => IntText(n) + k
    case Float(l) => l + k
    case Str(s) => StrTo(s, k)
    case Arr(items) => "[" + ItemsTo(items, true, k)
    case Obj(fields) => "{" + FieldsTo(fields, true, k)
  }

  function ItemsTo(items: seq<Json>, first: bool, k: string): string
  {
    if items == [] then "]" + k
    else if first then PrintTo(items[0], ItemsTo(items[1..], false, k))
    else "," + PrintTo(items[0], ItemsTo(items[1..], false, k))
  }

  function FieldsTo(fields: seq<Field>, first: bool, k: string): string
  {
    if fields == [] then "}" + k
    else if first then FieldTo(fields[0], FieldsTo(fields[1..], false, k))
    else "," + FieldTo(fields[0], FieldsTo(fields[1..], false, k))
  }

  function FieldTo(f: Field, k: string): string
  {
    StrTo(f.key, ":" + PrintTo(f.value, k))
  }

  /** `serde_json::to_string` */
  function Print(j: Json): string { PrintTo(j, "") }

  // ---------------------------------------------------------------- parser

  function SkipWs(s: string): (r: string)
    ensures |r| <= |s|
  {
    if s != [] && s[0] in {' ', '\t', '\n', '\r'} then SkipWs(s[1..]) else s
  }

  predicate StartsWith(s: string, p: string): (b: bool)
    ensures b && p != [] ==> s != [] && s[0] == p[0]
  {
    |p| <= |s| && s[..|p|] == p
  }

  function NumSpan(s: string): (n: nat)
    ensures n <= |s|
  {
    if s != [] && NumChar(s[0]) then 1 + NumSpan(s[1..]) else 0
  }

  function HexValue(c: char): (r: Option<nat>)
    ensures r.Some? ==> r.value < 16
  {
    if Digit(c) then Some(c as int - '0' as int)
    else if 'a' <= c <= 'f' then Some(c as int - 'a' as int + 10)
    else if 'A' <= c <= 'F' then Some(c as int - 'A' as int + 10)
    else None
  }

  /** The code unit of a four-digit hexadecimal escape at the front of `s`. */
  function Hex4(s: string): (r: Option<nat>)
    ensures r.Some? ==> |s| >= 4 && r.value < 0x1_0000
  {
    if |s| < 4 then None
    else
      var a, b, c, d := HexValue(s[0]), HexValue(s[1]), HexValue(s[2]), HexValue(s[3]);
      if a.None? || b.None? || c.None? || d.None? then None
      else Some(4096 * a.value + 256 * b.value + 16 * c.value + d.value)
  }

  /** The body of a string literal, after its opening quote. */
  function ParseStr(s: string): (r: Option<(string, string)>)
    ensures r.Some? ==> |r.value.1| < |s|
  {
    if s == [] then None
    else if s[0] == '\"' then Some(("", s[1..]))
    else if s[0] as int < 32 then None
    else if s[0] != '\\' then Cons(s[0], ParseStr(s[1..]))
    else if |s| < 2 then None
    else if s[1] == '\"' then Cons('\"', ParseStr(s[2..]))
    else if s[1] == '\\' then Cons('\\', ParseStr(s[2..]))
    else if s[1] == '/' then Cons('/', ParseStr(s[2..]))
    else if s[1] == 'b' then Cons(8 as char, ParseStr(s[2..]))
    else if s[1] == 'f' then Cons(12 as char, ParseStr(s[2..]))
    else if s[1] == 'n' then Cons('\n', ParseStr(s[2..]))
    else if s[1] == 'r' then Cons('\r', ParseStr(s[2..]))
    else if s[1] == 't' then Cons('\t', ParseStr(s[2..]))
    else if s[1] != 'u' then None
    else
      var hi := Hex4(s[2..]);
      if hi.None? then None
      else if !(0xD800 <= hi.value < 0xE000) then Cons(hi.value as char, ParseStr(s[6..]))
      else if hi.value >= 0xDC00 || !StartsWith(s[6..], "\\u") then None
      else
        var lo := Hex4(s[8..]);
        if lo.None? || !(0xDC00 <= lo.value < 0xE000) then None
        else Cons((0x1_0000 + 1024 * (hi.value - 0xD800) + (lo.value - 0xDC00)) as char, ParseStr(s[12..]))
  }

  function Cons(c: char, r: Option<(string, string)>): Option<(string, string)>
  {
    if r.Some? then Some(([c] + r.value.0, r.value.1)) else None
  }

  function ParseNumber(s: string): (r: Option<(Json, string)>)
    ensures r.Some? ==> |r.value.1| < |s| && WellFormed(r.value.0)
  {
    var n := NumSpan(s);
    var t := s[..n];
    match Scan(t)
    case Zero => Some((Int(0), s[n..]))
    case Digits =>
      var v: int := if t[0] == '-' then 0 - DecimalValue(t[1..]) else DecimalValue(t);
      Some((Int(v), s[n..]))
    case Frac => Some((Float(t), s[n..]))
    case Exp => Some((Float(t), s[n..]))
    case NegZero => Some((Float(t), s[n..]))
    case _ => None
  }

  function ParseValue(s: string): (r: Option<(Json, string)>)
    ensures r.Some? ==> |r.value.1| < |s| && WellFormed(r.value.0)
    decreases |s|, 2
  {
    var t := SkipWs(s);
    if t == [] then None
    else if StartsWith(t, "null") then Some((Null, t[4..]))
    else if StartsWith(t, "true") then Some((Bool(true), t[4..]))
    else if StartsWith(t, "false") then Some((Bool(false), t[5..]))
    else if t[0] == '\"' then
      var r := ParseStr(t[1..]);
      if r.None? then None else Some((Str(r.value.0), r.value.1))
    else if t[0] == '[' then
      var r := ParseItems(t[1..], true);
      if r.None? then None else Some((Arr(r.value.0), r.value.1))
    else if t[0] == '{' then
      var r := ParseFields(t[1..], true);
      if r.None? then None else Some((Obj(r.value.0), r.value.1))
    else ParseNumber(t)
  }

  /** Array elements up to the closing bracket; after the first, each needs a comma. */
  function ParseItems(s: string, first: bool): (r: Option<(seq<Json>, string)>)
    ensures r.Some? ==> |r.value.1| < |s| && WellFormedItems(r.value.0)
    decreases |s|, 3
  {
    var t := SkipWs(s);
    if t == [] then None
    else if t[0] == ']' then Some(([], t[1..]))
    else if !first && t[0] != ',' then None
    else
      var v := ParseValue(if first then t else t[1..]);
      if v.None? then None
      else
        var more := ParseItems(v.value.1, false);
        if more.None? then None else Some(([v.value.0] + more.value.0, more.value.1))
  }

  /** Object members up to the closing brace, repeated keys included. */
  function ParseFields(s: string, first: bool): (r: Option<(seq<Field>, string)>)
    ensures r.Some? ==> |r.value.1| < |s| && WellFormedFields(r.value.0)
    decreases |s|, 3
  {
    var t := SkipWs(s);
    if t == [] then None
    else if t[0] == '}' then Some(([], t[1..]))
    else if !first && t[0] != ',' then None
    else
      var f := ParseField(if first then t else t[1..]);
      if f.None? then None
      else
        var more := ParseFields(f.value.1, false);
        if more.None? then None else Some(([f.value.0] + more.value.0, more.value.1))
  }

  function ParseField(s: string): (r: Option<(Field, string)>)
    ensures r.Some? ==> |r.value.1| < |s| && WellFormed(r.value.0.value)
    decreases |s|, 1
  {
    var t := SkipWs(s);
    if t == [] || t[0] != '\"' then None
    else
      var key := ParseStr(t[1..]);
      if key.None? then None
      else
        var u := SkipWs(key.value.1);
        if u == [] || u[0] != ':' then None
        else
          var v := ParseValue(u[1..]);
          if v.None? then None else Some((Field(key.value.0, v.value.0), v.value.1))
  }

  /** The whole text as one value, then only white space; repeated keys are all there. */
  function ParseTree(s: string): (r: Option<Json>)
    ensures r.Some? ==> WellFormed(r.value)
  {
    var v := ParseValue(s);
    if v.Some? && SkipWs(v.value.1) == [] then Some(v.value.0) else None
  }

  /** The value of a text for a reader without a limit on nesting. */
  function Parse(s: string): (r: Option<Json>)
    ensures r.Some? ==> Valid(r.value)
  {
    match ParseTree(s)
    case Some(tree) => Some(Merged(tree))
    case None => None
  }

  /** `serde_json` refuses to enter an array or object at its 128th level. */
  const MAX_LEVELS := 127

  /** `serde_json::from_str::<Value>`: as `Parse`, but with the limit on nesting. */
  function FromText(s: string): (r: Option<Json>)
    ensures r.Some? ==> Valid(r.value) && Parse(s) == r
  {
    match ParseTree(s)
    case Some(tree) => if Within(tree, MAX_LEVELS) then Some(Merged(tree)) else None
    case None => None
  }
}
