/**
 The compression pipeline: `CompressionPipeline::execute` of `src/compression/pipeline.rs`
 with the three built-in stages. Hashing and lower-casing are parameters; timing is left out.
 */
module Pipeline {
  import opened Utils
  import Json
  import Instructions
  import LogCrunch

  const MIN_INSTRUCTION_LEN := 200

  /** What a stage is given besides the text. */
  datatype Env = Env(scope: Option<string>, hash: string -> string, lower: string -> string)

  /** What the classifier looks for in the lower-cased text. */
  const MARKERS: seq<string> := [
    "custom_instruction", "copilot_instruction", "claude.md", "copilot-instructions", "<custom_instructions>",
    "</custom_instructions>", "<available_skills>", "# copilot instructions", "you are an ai", "you are a helpful",
    "code_change_instructions", "rules_for_code_changes", "<environment_context>", "version_information",
    "<session_context>", "<tool_calling>", "<thinking", "model_information", "<tips_and_tricks>"]

  predicate Contains(s: string, part: string)
  {
    |part| <= |s| && (s[..|part|] == part || (s != [] && Contains(s[1..], part)))
  }

  predicate Marked(env: Env, text: string)
  {
    exists i :: 0 <= i < |MARKERS| && Contains(env.lower(text), MARKERS[i])
  }

  type Cache = map<string, Instructions.Seen>

  datatype Stage = Classifier | Dedup | Crunch

  datatype StageOutput = StageOutput(text: string, modified: bool, saved: nat, shortCircuit: bool)

  function Unchanged(text: string): StageOutput { StageOutput(text, false, 0, false) }

  function Name(stage: Stage): string
  {
    match stage case Classifier => "classifier" case Dedup => "dedup" case Crunch => "log_crunch"
  }

  /** `a.saturating_sub(b)` */
  function Shrinkage(a: nat, b: nat): nat { if a > b then a - b else 0 }

  function Reference(hash: string, turn: nat): string
  {
    "[Context instructions " + "unchanged since turn 1 (hash=" + hash + ", turn=" + Json.Decimal(turn)
    + "). Follow the same instructions as before.]"
  }

  /** One stage; only the dedup stage reads or changes the cache. */
  function Process(stage: Stage, env: Env, cache: Cache, text: string): (Cache, StageOutput)
  {
    match stage
    case Classifier =>
      (cache, Unchanged(text).(shortCircuit := ByteLen(text) < MIN_INSTRUCTION_LEN || !Marked(env, text)))
    case Dedup =>
      if env.scope.None? then (cache, Unchanged(text))
      else
        var hash := env.hash(text);
        var (cache', turn) := Instructions.Update(cache, env.scope.value, hash);
        if turn.Some? then
          var reference := Reference(hash, turn.value);
          (cache', StageOutput(reference, true, Shrinkage(ByteLen(text), ByteLen(reference)), true))
        else (cache', Unchanged(text))
    case Crunch =>
      var saved := LogCrunch.Saved(text);
      (cache, if saved > 0 then StageOutput(LogCrunch.Minified(text), true, saved, false) else Unchanged(text))
  }

  // ----------------------------------------------------------- the executor

  /** The text so far, whether and by how much it was changed, and the names of the stages that did. */
  datatype Progress = Progress(text: string, modified: bool, saved: nat, parts: seq<string>)

  datatype Output = Output(text: string, modified: bool, saved: nat, strategy: string)

  function Absorb(p: Progress, stage: Stage, o: StageOutput): Progress
  {
    if o.modified then Progress(o.text, true, p.saved + o.saved, p.parts + [Name(stage)]) else p
  }

  function RunFrom(stages: seq<Stage>, env: Env, cache: Cache, p: Progress): (Cache, Progress)
    decreases |stages|
  {
    if stages == [] then (cache, p)
    else
      var (cache', o) := Process(stages[0], env, cache, p.text);
      var p' := Absorb(p, stages[0], o);
      if o.shortCircuit then (cache', p') else RunFrom(stages[1..], env, cache', p')
  }

  function Finish(p: Progress): Output
  {
    Output(p.text, p.modified, p.saved, if p.parts == [] then "none" else Join(p.parts, '+'))
  }

  function Run(stages: seq<Stage>, env: Env, cache: Cache, text: string): (Cache, Output)
  {
    var (cache', p) := RunFrom(stages, env, cache, Progress(text, false, 0, []));
    (cache', Finish(p))
  }

  method Execute(stages: seq<Stage>, env: Env, cache: Cache, text: string) returns (cache': Cache, out: Output)
    ensures (cache', out) == Run(stages, env, cache, text)
  {
    cache' := cache;
    var p := Progress(text, false, 0, []);
    ghost var result := RunFrom(stages, env, cache, p);
    var i := 0;
    while i < |stages|
      invariant i <= |stages| && RunFrom(stages[i..], env, cache', p) == result
    {
      var (c, o) := Process(stages[i], env, cache', p.text);
      RunAt(stages, i, env, cache', p);
      cache' := c;
      p := Absorb(p, stages[i], o);
      i := i + 1;
      if o.shortCircuit {
        assert (cache', p) == result;
        break;
      }
    }
    if i == |stages| {
      assert stages[i..] == [];
    }
    out := Finish(p);
  }

  lemma {:induction false} RunAt(stages: seq<Stage>, i: nat, env: Env, cache: Cache, p: Progress)
    requires i < |stages|
    ensures RunFrom(stages[i..], env, cache, p) ==
            var (cache', o) := Process(stages[i], env, cache, p.text);
            var p' := Absorb(p, stages[i], o);
            if o.shortCircuit then (cache', p') else RunFrom(stages[i + 1..], env, cache', p')
  {
    RunStep(stages[i], stages[i + 1..], env, cache, p);
    assert stages[i..] == [stages[i]] + stages[i + 1..];
  }

  /** `build_pipeline` */
  function BuildPipeline(dedup: bool, minify: bool): seq<Stage>
  {
    [Classifier] + (if dedup then [Dedup] else []) + (if minify then [Crunch] else [])
  }

  // ------------------------------------------------- the built pipeline, exactly

  predicate ShortHash(hash: string)
  {
    |hash| == 16 && forall i :: 0 <= i < |hash| ==> hash[i] as int < 128
  }

  lemma {:induction false} DecimalLength(n: nat, k: nat)
    requires 1 <= k && n < Pow10(k)
    ensures |Json.Decimal(n)| <= k
  {
    if n >= 10 {
      DecimalLength(n / 10, k - 1);
    }
  }

  function Pow10(k: nat): nat { if k == 0 then 1 else 10 * Pow10(k - 1) }

  predicate Ascii(s: string) { forall i :: 0 <= i < |s| ==> s[i] as int < 128 }

  lemma AsciiMembers(s: string)
    requires forall c :: c in s ==> c as int < 128
    ensures Ascii(s)
  {
    assert forall i :: 0 <= i < |s| ==> s[i] in s;
  }

  lemma AsciiConcat(a: string, b: string)
    requires Ascii(a) && Ascii(b)
    ensures Ascii(a + b)
  {
  }

  lemma AsciiStart()
    ensures Ascii("[Context instructions " + "unchanged since turn 1 (hash=")
  {
    AsciiMembers("[Context instructions ");
    AsciiMembers("unchanged since turn 1 (hash=");
    AsciiConcat("[Context instructions ", "unchanged since turn 1 (hash=");
  }

  lemma AsciiEnd()
    ensures Ascii(", turn=") && Ascii("). Follow the same instructions as before.]")
  {
    AsciiMembers(", turn=");
    AsciiMembers("). Follow the same instructions as before.]");
  }

  /** A reference is always shorter than what the classifier lets through. */
  lemma ReferenceIsShort(hash: string, turn: nat)
    requires ShortHash(hash) && turn < Instructions.TURN_MODULUS
    ensures ByteLen(Reference(hash, turn)) < MIN_INSTRUCTION_LEN
  {
    assert Pow10(10) == 10_000_000_000;
    DecimalLength(turn, 10);
    AsciiStart();
    AsciiEnd();
    AsciiPieces("[Context instructions " + "unchanged since turn 1 (hash=", hash, ", turn=", Json.Decimal(turn),
                "). Follow the same instructions as before.]");
  }

  lemma {:induction false} AsciiPieces(a: string, b: string, c: string, d: string, e: string)
    requires Ascii(a) && Ascii(b) && Ascii(c) && Ascii(d) && Ascii(e)
    ensures ByteLen(a + b + c + d + e) == |a| + |b| + |c| + |d| + |e|
  {
    AsciiConcat(a, b);
    AsciiConcat(a + b, c);
    AsciiConcat(a + b + c, d);
    AsciiConcat(a + b + c + d, e);
    ByteLenAscii(a + b + c + d + e);
  }

  /** What one run of the built pipeline can do to a text. */
  predicate SavesExactly(text: string, o: Output)
  {
    if o.modified then ByteLen(o.text) + o.saved == ByteLen(text) && o.saved > 0
    else o.text == text && o.saved == 0
  }

  /**
   For every choice of stages: a modified text is strictly shorter and the bytes reported are
   exactly the bytes saved; an unmodified text is untouched. Either dedup or minification
   applies, never both, so the strategy is one of three words.
   */
  lemma {:induction false} BuiltPipeline(dedup: bool, minify: bool, env: Env, cache: Cache, text: string)
    requires forall t :: ShortHash(env.hash(t))
    ensures var o := Run(BuildPipeline(dedup, minify), env, cache, text).1;
            && SavesExactly(text, o)
            && o.strategy in {"none", "dedup", "log_crunch"}
            && (o.modified <==> o.strategy != "none")
            && (o.modified ==> ByteLen(text) >= MIN_INSTRUCTION_LEN && Marked(env, text))
  {
    var tail := (if dedup then [Dedup] else []) + (if minify then [Crunch] else []);
    assert BuildPipeline(dedup, minify) == [Classifier] + tail;
    RunStep(Classifier, tail, env, cache, Progress(text, false, 0, []));
    if ByteLen(text) >= MIN_INSTRUCTION_LEN && Marked(env, text) {
      AfterClassifier(dedup, minify, env, cache, text);
    }
  }

  lemma AfterClassifier(dedup: bool, minify: bool, env: Env, cache: Cache, text: string)
    requires forall t :: ShortHash(env.hash(t))
    requires ByteLen(text) >= MIN_INSTRUCTION_LEN
    ensures var tail := (if dedup then [Dedup] else []) + (if minify then [Crunch] else []);
            var o := Finish(RunFrom(tail, env, cache, Progress(text, false, 0, [])).1);
            && SavesExactly(text, o)
            && o.strategy in {"none", "dedup", "log_crunch"}
            && (o.modified <==> o.strategy != "none")
  {
    var crunch := if minify then [Crunch] else [];
    if dedup {
      RunStep(Dedup, crunch, env, cache, Progress(text, false, 0, []));
      var (cache', o) := Process(Dedup, env, cache, text);
      if o.modified {
        DedupSaves(env, cache, text);
      } else {
        CrunchOnly(minify, env, cache', text);
      }
    } else {
      assert [] + crunch == crunch;
      CrunchOnly(minify, env, cache, text);
    }
  }

  lemma {:induction false} RunStep(stage: Stage, rest: seq<Stage>, env: Env, cache: Cache, p: Progress)
    ensures RunFrom([stage] + rest, env, cache, p) ==
            var (cache', o) := Process(stage, env, cache, p.text);
            if o.shortCircuit then (cache', Absorb(p, stage, o)) else RunFrom(rest, env, cache', Absorb(p, stage, o))
  {
    assert ([stage] + rest)[1..] == rest;
  }

  lemma {:induction false} DedupSaves(env: Env, cache: Cache, text: string)
    requires forall t :: ShortHash(env.hash(t))
    requires ByteLen(text) >= MIN_INSTRUCTION_LEN && Process(Dedup, env, cache, text).1.modified
    ensures var o := Finish(Absorb(Progress(text, false, 0, []), Dedup, Process(Dedup, env, cache, text).1));
            SavesExactly(text, o) && o.modified && o.strategy == "dedup"
  {
    var turn := Instructions.Update(cache, env.scope.value, env.hash(text)).1.value;
    ReferenceIsShort(env.hash(text), turn);
    assert [] + ["dedup"] == ["dedup"];
  }

  lemma CrunchOnly(minify: bool, env: Env, cache: Cache, text: string)
    ensures var o := Finish(RunFrom(if minify then [Crunch] else [], env, cache, Progress(text, false, 0, [])).1);
            && SavesExactly(text, o)
            && o.strategy in {"none", "log_crunch"}
            && (o.modified <==> o.strategy != "none")
  {
    if minify {
      RunStep(Crunch, [], env, cache, Progress(text, false, 0, []));
      assert [Crunch] + [] == [Crunch];
      assert [] + ["log_crunch"] == ["log_crunch"];
    }
  }

  // -------------------------------------------------- when a text is changed

  /** The classifier lets the text through. */
  predicate Passes(env: Env, text: string) { ByteLen(text) >= MIN_INSTRUCTION_LEN && Marked(env, text) }

  /** The hash last recorded for the session. */
  function Recorded(env: Env, cache: Cache): Option<string>
  {
    if env.scope.Some? && env.scope.value in cache then Some(cache[env.scope.value].hash) else None
  }

  function RecordedAfter(dedup: bool, env: Env, before: Option<string>, text: string): Option<string>
  {
    if dedup && env.scope.Some? && Passes(env, text) then Some(env.hash(text)) else before
  }

  /** The text passes the classifier and repeats the last instruction, or has something to minify. */
  predicate Changeable(dedup: bool, minify: bool, env: Env, before: Option<string>, text: string)
  {
    && Passes(env, text)
    && (|| (dedup && env.scope.Some? && before == Some(env.hash(text)))
        || (minify && LogCrunch.Saved(text) > 0))
  }

  lemma CrunchChanges(minify: bool, env: Env, cache: Cache, text: string)
    ensures var (cache', p) := RunFrom(if minify then [Crunch] else [], env, cache, Progress(text, false, 0, []));
            cache' == cache && (p.modified <==> minify && LogCrunch.Saved(text) > 0)
  {
    if minify {
      RunStep(Crunch, [], env, cache, Progress(text, false, 0, []));
      assert [Crunch] + [] == [Crunch];
    }
  }

  lemma {:induction false} TailChanges(dedup: bool, minify: bool, env: Env, cache: Cache, text: string)
    requires Passes(env, text)
    ensures var tail := (if dedup then [Dedup] else []) + (if minify then [Crunch] else []);
            var (cache', p) := RunFrom(tail, env, cache, Progress(text, false, 0, []));
            && (p.modified <==> Changeable(dedup, minify, env, Recorded(env, cache), text))
            && Recorded(env, cache') == RecordedAfter(dedup, env, Recorded(env, cache), text)
  {
    var crunch := if minify then [Crunch] else [];
    if dedup {
      RunStep(Dedup, crunch, env, cache, Progress(text, false, 0, []));
      var (cache', o) := Process(Dedup, env, cache, text);
      if !o.modified {
        CrunchChanges(minify, env, cache', text);
      }
    } else {
      assert [] + crunch == crunch;
      CrunchChanges(minify, env, cache, text);
    }
  }

  /** Exactly when the built pipeline changes a text, and what it records of it. */
  lemma RunChangesIff(dedup: bool, minify: bool, env: Env, cache: Cache, text: string)
    ensures var (cache', o) := Run(BuildPipeline(dedup, minify), env, cache, text);
            && (o.modified <==> Changeable(dedup, minify, env, Recorded(env, cache), text))
            && Recorded(env, cache') == RecordedAfter(dedup, env, Recorded(env, cache), text)
  {
    var tail := (if dedup then [Dedup] else []) + (if minify then [Crunch] else []);
    assert BuildPipeline(dedup, minify) == [Classifier] + tail;
    RunStep(Classifier, tail, env, cache, Progress(text, false, 0, []));
    if Passes(env, text) {
      TailChanges(dedup, minify, env, cache, text);
    }
  }

  /** A run touches the record of its own session only. */
  lemma {:induction false} RunKeepsOthers(dedup: bool, minify: bool, env: Env, cache: Cache, text: string, other: Env)
    requires other.scope != env.scope
    ensures Recorded(other, Run(BuildPipeline(dedup, minify), env, cache, text).0) == Recorded(other, cache)
  {
    var tail := (if dedup then [Dedup] else []) + (if minify then [Crunch] else []);
    assert BuildPipeline(dedup, minify) == [Classifier] + tail;
    var p := Progress(text, false, 0, []);
    RunStep(Classifier, tail, env, cache, p);
    if Passes(env, text) {
      var crunch := if minify then [Crunch] else [];
      if dedup {
        RunStep(Dedup, crunch, env, cache, p);
        CrunchChanges(minify, env, Process(Dedup, env, cache, text).0, text);
      } else {
        assert [] + crunch == crunch;
        CrunchChanges(minify, env, cache, text);
      }
    }
  }

  // ------------------------------------------------------ the words for it

  predicate At(s: string, part: string, k: nat) { k + |part| <= |s| && s[k..k + |part|] == part }

  lemma {:induction false} ContainsIff(s: string, part: string)
    ensures Contains(s, part) <==> exists k: nat :: At(s, part, k)
  {
    if At(s, part, 0) {
      assert s[0..0 + |part|] == s[..|part|];
    } else if |part| <= |s| {
      assert !(s[..|part|] == part) by {
        assert s[0..0 + |part|] == s[..|part|];
      }
      if s != [] {
        ContainsIff(s[1..], part);
        if Contains(s[1..], part) {
          var k: nat :| At(s[1..], part, k);
          assert s[1..][k..k + |part|] == s[k + 1..k + 1 + |part|];
          assert At(s, part, k + 1);
        }
        forall k: nat | At(s, part, k) ensures Contains(s[1..], part) {
          assert k > 0 && s[1..][k - 1..k - 1 + |part|] == s[k..k + |part|];
          assert At(s[1..], part, k - 1);
        }
      }
    }
  }

  /** A text passes if it takes 200 bytes or more and its lower-cased form has a marker in it. */
  lemma PassesIff(env: Env, text: string)
    ensures Passes(env, text) <==>
            ByteLen(text) >= 200 && exists i, k: nat :: 0 <= i < |MARKERS| && At(env.lower(text), MARKERS[i], k)
  {
    forall i | 0 <= i < |MARKERS|
      ensures Contains(env.lower(text), MARKERS[i]) <==> exists k: nat :: At(env.lower(text), MARKERS[i], k)
    {
      ContainsIff(env.lower(text), MARKERS[i]);
    }
  }

  /** A reference tells the hash and the turn. */
  lemma ReferenceTells(h1: string, t1: nat, h2: string, t2: nat)
    requires |h1| == |h2| && Reference(h1, t1) == Reference(h2, t2)
    ensures h1 == h2 && t1 == t2
  {
    var start, end := "[Context instructions " + "unchanged since turn 1 (hash=",
                      "). Follow the same instructions as before.]";
    SamePieces(start, ", turn=", end, h1, Json.Decimal(t1), h2, Json.Decimal(t2));
  }

  lemma SamePieces(a: string, b: string, c: string, x1: string, y1: string, x2: string, y2: string)
    requires |x1| == |x2| && a + x1 + b + y1 + c == a + x2 + b + y2 + c
    ensures x1 == x2 && y1 == y2
  {
    var s, n, m := a + x1 + b + y1 + c, |a| + |x1|, |a| + |x1| + |b|;
    assert x1 == s[|a|..n] && x2 == s[|a|..n];
    assert y1 == s[m..|s| - |c|] && y2 == s[m..|s| - |c|];
  }

  lemma CrunchText(minify: bool, env: Env, cache: Cache, text: string)
    ensures RunFrom(if minify then [Crunch] else [], env, cache, Progress(text, false, 0, [])).1.text ==
            if minify && LogCrunch.Saved(text) > 0 then LogCrunch.Minified(text) else text
  {
    if minify {
      RunStep(Crunch, [], env, cache, Progress(text, false, 0, []));
      assert [Crunch] + [] == [Crunch];
    }
  }

  /** What a repeated instruction is replaced by. */
  function Repeat(env: Env, cache: Cache, text: string): string
    requires Recorded(env, cache).Some?
  {
    Reference(env.hash(text), (cache[env.scope.value].turn + 1) % 4_294_967_296)
  }

  /** The dedup stage replaces exactly what repeats the last instruction, and then nothing follows. */
  lemma DedupText(env: Env, cache: Cache, text: string)
    ensures var o := Process(Dedup, env, cache, text).1;
            && (o.shortCircuit <==> o.modified)
            && (o.modified <==> Recorded(env, cache) == Some(env.hash(text)))
            && o.text == if o.modified then Repeat(env, cache, text) else text
  {
  }

  lemma {:induction false} DedupTailText(crunch: seq<Stage>, env: Env, cache: Cache, text: string)
    ensures var p := Progress(text, false, 0, []);
            var cache' := Process(Dedup, env, cache, text).0;
            RunFrom([Dedup] + crunch, env, cache, p).1.text ==
            if Recorded(env, cache) == Some(env.hash(text)) then Repeat(env, cache, text)
            else RunFrom(crunch, env, cache', p).1.text
  {
    RunStep(Dedup, crunch, env, cache, Progress(text, false, 0, []));
    DedupText(env, cache, text);
  }

  lemma {:induction false} TailText(dedup: bool, minify: bool, env: Env, cache: Cache, text: string)
    ensures var tail := (if dedup then [Dedup] else []) + (if minify then [Crunch] else []);
            RunFrom(tail, env, cache, Progress(text, false, 0, [])).1.text ==
            if dedup && Recorded(env, cache) == Some(env.hash(text)) then Repeat(env, cache, text)
            else if minify && LogCrunch.Saved(text) > 0 then LogCrunch.Minified(text)
            else text
  {
    var crunch := if minify then [Crunch] else [];
    if dedup {
      DedupTailText(crunch, env, cache, text);
      CrunchText(minify, env, Process(Dedup, env, cache, text).0, text);
    } else {
      assert [] + crunch == crunch;
      CrunchText(minify, env, cache, text);
    }
  }

  /** What the built pipeline makes of a text: a reference, the minified text, or the text itself. */
  lemma RunText(dedup: bool, minify: bool, env: Env, cache: Cache, text: string)
    ensures Run(BuildPipeline(dedup, minify), env, cache, text).1.text ==
            if !Passes(env, text) then text
            else if dedup && Recorded(env, cache) == Some(env.hash(text)) then Repeat(env, cache, text)
            else if minify && LogCrunch.Saved(text) > 0 then LogCrunch.Minified(text)
            else text
  {
    var tail := (if dedup then [Dedup] else []) + (if minify then [Crunch] else []);
    assert BuildPipeline(dedup, minify) == [Classifier] + tail;
    RunStep(Classifier, tail, env, cache, Progress(text, false, 0, []));
    if Passes(env, text) {
      TailText(dedup, minify, env, cache, text);
    }
  }
}
