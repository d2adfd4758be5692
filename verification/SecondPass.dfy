/**
 A request body that is optimized a second time: when the second pass is idle, for any pipeline
 and for the one the server builds.
 */
module SecondPass {
  import opened Utils
  import opened Json
  import opened JsonText
  import opened Optimize
  import LogCrunch
  import Pipeline

  // ------------------------------------------------------------- any pipeline

  /**
   A second pass over a rewritten body, the pipeline being in any state, does nothing exactly
   if the pipeline then leaves alone each of the answers that it gave in the first.
   */
  lemma {:induction false} SecondPassIsIdle<S>(exec: Exec<S>, st: S, doc: Json, st2: S)
    requires Valid(doc) && Within(doc, MAX_LEVELS)
    ensures var (_, doc', outs) := Rewrite(exec, st, doc);
            var answers := EffectiveAll(Texts(doc), Outs(exec, st, Texts(doc)).1);
            && FromText(Print(doc')) == Some(doc')
            && (!NoteAll(Rewrite(exec, st2, doc').2).modified <==>
                forall k :: 0 <= k < |answers| ==> !Outs(exec, st2, answers).1[k].modified)
  {
    RewriteValid(exec, st, doc);
    RewriteMeaning(exec, st, doc);
    RewriteMeaning(exec, st2, Rewrite(exec, st, doc).1);
    NothingNoted(Rewrite(exec, st2, Rewrite(exec, st, doc).1).2);
  }

  /**
   For every body: the gateway reads what it sends on, which is the rewritten document if it
   says modified and the document it was given if not; either way its texts are exactly what
   the pipeline answered.
   */
  lemma BodyReads<S>(exec: Exec<S>, st: S, body: string)
    ensures var r := Optimized(exec, st, body).0;
            match FromText(body)
            case None => !r.modified && r.body == body
            case Some(doc) =>
              && FromText(r.body) == Some(if r.modified then Rewrite(exec, st, doc).1 else doc)
              && Texts(FromText(r.body).value) == EffectiveAll(Texts(doc), Outs(exec, st, Texts(doc)).1)
  {
    match FromText(body)
    case None =>
    case Some(doc) =>
      FromTextWithin(body);
      RewriteValid(exec, st, doc);
      RewriteMeaning(exec, st, doc);
      NothingNoted(Rewrite(exec, st, doc).2);
  }

  /**
   For every body: optimizing it twice modifies it the second time exactly if the pipeline, in
   the state it is in by then, modifies one of its own answers of the first time.
   */
  lemma BodyTwice<S>(exec: Exec<S>, st: S, body: string, st2: S)
    ensures var again := Optimized(exec, st2, Optimized(exec, st, body).0.body).0;
            match FromText(body)
            case None => again == OptimizeResult(body, false, 0, "none")
            case Some(doc) =>
              var answers := EffectiveAll(Texts(doc), Outs(exec, st, Texts(doc)).1);
              again.modified <==> exists k :: 0 <= k < |answers| && Outs(exec, st2, answers).1[k].modified
  {
    BodyReads(exec, st, body);
    match FromText(body)
    case None =>
    case Some(_) =>
      var second := FromText(Optimized(exec, st, body).0.body).value;
      RewriteMeaning(exec, st2, second);
      NothingNoted(Rewrite(exec, st2, second).2);
  }

  // ------------------------------------------------------ the server's pipeline

  /** The hash the session has recorded after a pass over some texts, given the one before. */
  function RecordedAfterAll(dedup: bool, env: Pipeline.Env, before: Option<string>, texts: seq<string>): Option<string>
  {
    if texts == [] then before
    else
      Pipeline.RecordedAfter(dedup, env, RecordedAfterAll(dedup, env, before, texts[..|texts| - 1]), texts[|texts| - 1])
  }

  /** A pass over these texts, with that hash recorded before, changes text `k`. */
  predicate ChangesAt(dedup: bool, minify: bool, env: Pipeline.Env, before: Option<string>, texts: seq<string>, k: nat)
    requires k < |texts|
  {
    Pipeline.Changeable(dedup, minify, env, RecordedAfterAll(dedup, env, before, texts[..k]), texts[k])
  }

  lemma {:induction false} OutsAt<S>(exec: Exec<S>, st: S, texts: seq<string>, k: nat)
    requires k < |texts|
    ensures Outs(exec, st, texts).1[k] == exec(Outs(exec, st, texts[..k]).0, texts[k]).1
    decreases |texts|
  {
    var n := |texts| - 1;
    if k == n {
    } else {
      assert texts[..n][..k] == texts[..k];
      OutsAt(exec, st, texts[..n], k);
    }
  }

  lemma {:induction false} PassRecords(dedup: bool, minify: bool, env: Pipeline.Env, cache: Pipeline.Cache,
                                       texts: seq<string>)
    ensures Pipeline.Recorded(env, Outs(BuiltExec(dedup, minify, env), cache, texts).0) ==
            RecordedAfterAll(dedup, env, Pipeline.Recorded(env, cache), texts)
  {
    if texts == [] {
    } else {
      var n := |texts| - 1;
      PassRecords(dedup, minify, env, cache, texts[..n]);
      Pipeline.RunChangesIff(dedup, minify, env, Outs(BuiltExec(dedup, minify, env), cache, texts[..n]).0, texts[n]);
    }
  }

  lemma {:induction false} PassChangesAt(dedup: bool, minify: bool, env: Pipeline.Env, cache: Pipeline.Cache,
                                         texts: seq<string>, k: nat)
    requires k < |texts|
    ensures Outs(BuiltExec(dedup, minify, env), cache, texts).1[k].modified <==>
            ChangesAt(dedup, minify, env, Pipeline.Recorded(env, cache), texts, k)
  {
    var exec := BuiltExec(dedup, minify, env);
    OutsAt(exec, cache, texts, k);
    PassRecords(dedup, minify, env, cache, texts[..k]);
    Pipeline.RunChangesIff(dedup, minify, env, Outs(exec, cache, texts[..k]).0, texts[k]);
  }

  /** Exactly when a pass of the built pipeline over some texts changes any of them. */
  lemma {:induction false} PassChangesIff(dedup: bool, minify: bool, env: Pipeline.Env, cache: Pipeline.Cache,
                                          texts: seq<string>)
    ensures NoteAll(Outs(BuiltExec(dedup, minify, env), cache, texts).1).modified <==>
            exists k :: 0 <= k < |texts| && ChangesAt(dedup, minify, env, Pipeline.Recorded(env, cache), texts, k)
  {
    var outs := Outs(BuiltExec(dedup, minify, env), cache, texts).1;
    NothingNoted(outs);
    forall k | 0 <= k < |texts|
      ensures outs[k].modified <==> ChangesAt(dedup, minify, env, Pipeline.Recorded(env, cache), texts, k)
    {
      PassChangesAt(dedup, minify, env, cache, texts, k);
    }
  }

  /**
   The server's own pipeline does not leave its results alone. A second pass, with the cache
   the first left, changes the body exactly if one of its texts passes the classifier and
   either repeats the instruction last recorded for the session or has something to minify.
   */
  lemma {:induction false} SecondPassChangesIff(dedup: bool, minify: bool, env: Pipeline.Env, cache: Pipeline.Cache,
                                                doc: Json)
    requires Valid(doc) && Within(doc, MAX_LEVELS)
    ensures var exec := BuiltExec(dedup, minify, env);
            var (cache', doc', _) := Rewrite(exec, cache, doc);
            var last := RecordedAfterAll(dedup, env, Pipeline.Recorded(env, cache), Texts(doc));
            && FromText(Print(doc')) == Some(doc')
            && (NoteAll(Rewrite(exec, cache', doc').2).modified <==>
                exists k :: 0 <= k < |Texts(doc')| && ChangesAt(dedup, minify, env, last, Texts(doc'), k))
  {
    var exec := BuiltExec(dedup, minify, env);
    var (cache', doc', _) := Rewrite(exec, cache, doc);
    RewriteValid(exec, cache, doc);
    RewriteMeaning(exec, cache, doc);
    RewriteMeaning(exec, cache', doc');
    PassRecords(dedup, minify, env, cache, Texts(doc));
    PassChangesIff(dedup, minify, env, cache', Texts(doc'));
  }

  /** The same for every body that can be read, from the bytes of the request to those of the second result. */
  lemma {:induction false} BodyTwiceIff(dedup: bool, minify: bool, env: Pipeline.Env, cache: Pipeline.Cache,
                                        body: string)
    requires FromText(body).Some?
    ensures var exec := BuiltExec(dedup, minify, env);
            var (once, cache') := Optimized(exec, cache, body);
            var last := RecordedAfterAll(dedup, env, Pipeline.Recorded(env, cache), Texts(FromText(body).value));
            && FromText(once.body).Some?
            && var texts := Texts(FromText(once.body).value);
               Optimized(exec, cache', once.body).0.modified <==>
               exists k :: 0 <= k < |texts| && ChangesAt(dedup, minify, env, last, texts, k)
  {
    var exec := BuiltExec(dedup, minify, env);
    var doc := FromText(body).value;
    var (once, cache') := Optimized(exec, cache, body);
    BodyReads(exec, cache, body);
    var second := FromText(once.body).value;
    RewriteMeaning(exec, cache, doc);
    RewriteMeaning(exec, cache', second);
    PassRecords(dedup, minify, env, cache, Texts(doc));
    PassChangesIff(dedup, minify, env, cache', Texts(second));
  }

  /** A system text of 200 characters with a marker of instructions in it. */
  const SAMPLE: string := "you are an ai" + seq(187, _ => 'a')

  lemma SamplePasses(env: Pipeline.Env)
    requires env.lower(SAMPLE) == SAMPLE
    ensures Pipeline.Passes(env, SAMPLE) && LogCrunch.Saved(SAMPLE) == 0
  {
    var head := "you are an ai";
    assert Pipeline.MARKERS[8] == head && SAMPLE[..|head|] == head;
    assert Pipeline.Contains(SAMPLE, Pipeline.MARKERS[8]);
    assert forall i :: 0 <= i < |SAMPLE| ==> SAMPLE[i] as int < 128 && SAMPLE[i] != '\n' by {
      assert forall i :: 0 <= i < |head| ==> SAMPLE[i] == head[i] && head[i] in head;
    }
    ByteLenAscii(SAMPLE);
    LogCrunch.LineKept(SAMPLE);
  }

  function SystemBody(text: string): Json { Obj([Field("system", Str(text))]) }

  lemma SystemBodyPass<S>(exec: Exec<S>, st: S, text: string)
    ensures var (s, doc', outs) := Rewrite(exec, st, SystemBody(text));
            && (s, outs) == (exec(st, text).0, [exec(st, text).1])
            && (!exec(st, text).1.modified ==> doc' == SystemBody(text))
  {
    var doc := SystemBody(text);
    FindAt(doc.fields, "system", 0);
    FindNone(doc.fields, "messages");
    FindSetOther(doc.fields, "system", Str(exec(st, text).1.text), "messages");
  }

  /** A new instruction in a session is left alone the first time and replaced the second. */
  lemma RepeatIsReplaced(minify: bool, env: Pipeline.Env, cache: Pipeline.Cache, text: string)
    requires env.scope.Some? && Pipeline.Passes(env, text) && LogCrunch.Saved(text) == 0
    requires Pipeline.Recorded(env, cache) != Some(env.hash(text))
    ensures var exec := BuiltExec(true, minify, env);
            var (cache', doc', outs) := Rewrite(exec, cache, SystemBody(text));
            && !NoteAll(outs).modified && doc' == SystemBody(text)
            && NoteAll(Rewrite(exec, cache', doc').2).modified
  {
    var exec := BuiltExec(true, minify, env);
    var (cache', o) := exec(cache, text);
    Pipeline.RunChangesIff(true, minify, env, cache, text);
    SystemBodyPass(exec, cache, text);
    NothingNoted([o]);
    Pipeline.RunChangesIff(true, minify, env, cache', text);
    SystemBodyPass(exec, cache', text);
    NothingNoted([exec(cache', text).1]);
  }

  /** A body on which the second pass is not idle, in any session that has not just seen it. */
  lemma SecondPassChanges(minify: bool, env: Pipeline.Env, cache: Pipeline.Cache)
    requires env.scope.Some? && env.lower(SAMPLE) == SAMPLE
    requires Pipeline.Recorded(env, cache) != Some(env.hash(SAMPLE))
    ensures var exec := BuiltExec(true, minify, env);
            var (cache', doc', outs) := Rewrite(exec, cache, SystemBody(SAMPLE));
            && !NoteAll(outs).modified && doc' == SystemBody(SAMPLE)
            && NoteAll(Rewrite(exec, cache', doc').2).modified
  {
    SamplePasses(env);
    RepeatIsReplaced(minify, env, cache, SAMPLE);
  }
}
