/**
 Requests optimized at the same time. The instruction cache is locked once for each text, so
 texts of several requests, of one session or of many, are checked in between one another.
 Every interleaving is a schedule, and what happened is kept in a log.
 */
module InterleavedPasses {
  import opened Utils
  import opened Json
  import opened Optimize
  import Instructions
  import Pipeline
  import SecondPass

  /** What all requests share but the cache. */
  datatype Server = Server(dedup: bool, minify: bool, hash: string -> string, lower: string -> string)

  function EnvOf(server: Server, scope: Option<string>): Pipeline.Env
  {
    Pipeline.Env(scope, server.hash, server.lower)
  }

  /** A request body in its session; the first texts of the body have their answers. */
  datatype Request = Request(scope: Option<string>, body: string, outs: seq<Output>)

  /** One text run through the pipeline, by a request of a session. */
  datatype Event = Event(request: nat, scope: Option<string>, text: string, out: Output)

  datatype System = System(cache: Pipeline.Cache, requests: seq<Request>, log: seq<Event>)

  /** A request arrives, or request `i` has its next text optimized. */
  datatype Choice = Arrive(scope: Option<string>, body: string) | Step(i: nat)

  function BodyTexts(body: string): seq<string>
  {
    match FromText(body)
    case Some(doc) => Texts(doc)
    case None => []
  }

  function Process(server: Server, scope: Option<string>, cache: Pipeline.Cache, text: string): (Pipeline.Cache, Output)
  {
    Pipeline.Run(Pipeline.BuildPipeline(server.dedup, server.minify), EnvOf(server, scope), cache, text)
  }

  function Next(server: Server, s: System, choice: Choice): System
  {
    match choice
    case Arrive(scope, body) => s.(requests := s.requests + [Request(scope, body, [])])
    case Step(i) =>
      if i < |s.requests| && |s.requests[i].outs| < |BodyTexts(s.requests[i].body)| then
        var q := s.requests[i];
        var text := BodyTexts(q.body)[|q.outs|];
        var (cache, o) := Process(server, q.scope, s.cache, text);
        System(cache, s.requests[i := q.(outs := q.outs + [o])], s.log + [Event(i, q.scope, text, o)])
      else s
  }

  function Execute(server: Server, schedule: seq<Choice>): System
  {
    if schedule == [] then System(map[], [], [])
    else Next(server, Execute(server, schedule[..|schedule| - 1]), schedule[|schedule| - 1])
  }

  // ---------------------------------------------------------- read off the log

  /** The hash of the latest instruction that any request of the session has had checked. */
  function LastHash(server: Server, log: seq<Event>, scope: Option<string>): Option<string>
  {
    if log == [] then None
    else
      var before, last := LastHash(server, log[..|log| - 1], scope), log[|log| - 1];
      if last.scope == scope then Pipeline.RecordedAfter(server.dedup, EnvOf(server, scope), before, last.text)
      else before
  }

  /** What an event must be after others: changed under the guards of the stages, and its loss reported exactly. */
  predicate Allowed(server: Server, before: seq<Event>, e: Event)
  {
    && (e.out.modified <==> Pipeline.Changeable(server.dedup, server.minify, EnvOf(server, e.scope),
                                                LastHash(server, before, e.scope), e.text))
    && Pipeline.SavesExactly(e.text, e.out)
  }

  predicate Lawful(server: Server, log: seq<Event>)
  {
    forall k :: 0 <= k < |log| ==> Allowed(server, log[..k], log[k])
  }

  /** The events of one request, in order. */
  function EventsOf(log: seq<Event>, i: nat): seq<Event>
  {
    if log == [] then []
    else EventsOf(log[..|log| - 1], i) + if log[|log| - 1].request == i then [log[|log| - 1]] else []
  }

  /** The answers a request has are those of its events, which are its texts in order. */
  predicate RequestSound(log: seq<Event>, i: nat, q: Request)
  {
    var events, texts := EventsOf(log, i), BodyTexts(q.body);
    && |events| == |q.outs| <= |texts|
    && forall k :: 0 <= k < |events| ==> events[k] == Event(i, q.scope, texts[k], q.outs[k])
  }

  ghost predicate CacheSound(server: Server, log: seq<Event>, cache: Pipeline.Cache)
  {
    forall scope :: Pipeline.Recorded(EnvOf(server, scope), cache) == LastHash(server, log, scope)
  }

  predicate RequestsSound(log: seq<Event>, requests: seq<Request>)
  {
    && (forall i :: 0 <= i < |requests| ==> RequestSound(log, i, requests[i]))
    && (forall k :: 0 <= k < |log| ==> log[k].request < |requests|)
  }

  ghost predicate Sound(server: Server, s: System)
  {
    Lawful(server, s.log) && CacheSound(server, s.log, s.cache) && RequestsSound(s.log, s.requests)
  }

  // -------------------------------------------------------------- one event

  lemma LawfulPush(server: Server, log: seq<Event>, e: Event)
    requires Lawful(server, log) && Allowed(server, log, e)
    ensures Lawful(server, log + [e])
  {
    var log' := log + [e];
    forall k | 0 <= k < |log'| ensures Allowed(server, log'[..k], log'[k]) {
      if k < |log| {
        assert log'[..k] == log[..k];
      } else {
        assert log'[..k] == log;
      }
    }
  }

  lemma {:induction false} LastHashPush(server: Server, log: seq<Event>, e: Event, scope: Option<string>)
    ensures LastHash(server, log + [e], scope) ==
            if e.scope == scope
            then Pipeline.RecordedAfter(server.dedup, EnvOf(server, scope), LastHash(server, log, scope), e.text)
            else LastHash(server, log, scope)
  {
    assert (log + [e])[..|log|] == log;
  }

  lemma {:induction false} EventsPush(log: seq<Event>, e: Event, i: nat)
    ensures EventsOf(log + [e], i) == EventsOf(log, i) + if e.request == i then [e] else []
  {
    assert (log + [e])[..|log|] == log;
  }

  lemma CacheStepped(server: Server, log: seq<Event>, cache: Pipeline.Cache, i: nat, scope: Option<string>,
                     text: string)
    requires CacheSound(server, log, cache)
    ensures var (cache', o) := Process(server, scope, cache, text);
            CacheSound(server, log + [Event(i, scope, text, o)], cache')
  {
    var (cache', o) := Process(server, scope, cache, text);
    var e := Event(i, scope, text, o);
    forall s ensures Pipeline.Recorded(EnvOf(server, s), cache') == LastHash(server, log + [e], s) {
      LastHashPush(server, log, e, s);
      if s == scope {
        Pipeline.RunChangesIff(server.dedup, server.minify, EnvOf(server, s), cache, text);
      } else {
        Pipeline.RunKeepsOthers(server.dedup, server.minify, EnvOf(server, scope), cache, text, EnvOf(server, s));
      }
    }
  }

  lemma EventAllowed(server: Server, log: seq<Event>, cache: Pipeline.Cache, i: nat, scope: Option<string>,
                     text: string)
    requires CacheSound(server, log, cache) && forall t :: Pipeline.ShortHash(server.hash(t))
    ensures Allowed(server, log, Event(i, scope, text, Process(server, scope, cache, text).1))
  {
    var env := EnvOf(server, scope);
    assert Pipeline.Recorded(env, cache) == LastHash(server, log, scope);
    Pipeline.RunChangesIff(server.dedup, server.minify, env, cache, text);
    Pipeline.BuiltPipeline(server.dedup, server.minify, env, cache, text);
  }

  lemma RequestStepped(log: seq<Event>, i: nat, q: Request, o: Output)
    requires RequestSound(log, i, q) && |q.outs| < |BodyTexts(q.body)|
    ensures RequestSound(log + [Event(i, q.scope, BodyTexts(q.body)[|q.outs|], o)], i, q.(outs := q.outs + [o]))
  {
    EventsPush(log, Event(i, q.scope, BodyTexts(q.body)[|q.outs|], o), i);
  }

  lemma RequestKept(log: seq<Event>, e: Event, i: nat, q: Request)
    requires RequestSound(log, i, q) && e.request != i
    ensures RequestSound(log + [e], i, q)
  {
    EventsPush(log, e, i);
  }

  lemma RequestsStepped(log: seq<Event>, requests: seq<Request>, i: nat, o: Output)
    requires RequestsSound(log, requests) && i < |requests| && |requests[i].outs| < |BodyTexts(requests[i].body)|
    ensures var q := requests[i];
            var e := Event(i, q.scope, BodyTexts(q.body)[|q.outs|], o);
            RequestsSound(log + [e], requests[i := q.(outs := q.outs + [o])])
  {
    var q := requests[i];
    var e, requests' := Event(i, q.scope, BodyTexts(q.body)[|q.outs|], o), requests[i := q.(outs := q.outs + [o])];
    RequestStepped(log, i, q, o);
    forall k | 0 <= k < |requests'| ensures RequestSound(log + [e], k, requests'[k]) {
      if k != i {
        RequestKept(log, e, k, requests[k]);
      }
    }
  }

  lemma {:induction false} NoEventsYet(log: seq<Event>, i: nat)
    requires forall k :: 0 <= k < |log| ==> log[k].request < i
    ensures EventsOf(log, i) == []
  {
    if log == [] {
    } else {
      NoEventsYet(log[..|log| - 1], i);
    }
  }

  lemma RequestsArrived(log: seq<Event>, requests: seq<Request>, q: Request)
    requires RequestsSound(log, requests) && q.outs == []
    ensures RequestsSound(log, requests + [q])
  {
    NoEventsYet(log, |requests|);
    var requests' := requests + [q];
    forall i | 0 <= i < |requests'| ensures RequestSound(log, i, requests'[i]) {
      if i < |requests| {
        assert requests'[i] == requests[i];
      }
    }
  }

  lemma {:induction false} ArriveSound(server: Server, s: System, scope: Option<string>, body: string)
    requires Sound(server, s)
    ensures Sound(server, Next(server, s, Arrive(scope, body)))
  {
    RequestsArrived(s.log, s.requests, Request(scope, body, []));
  }

  lemma {:induction false} StepSound(server: Server, s: System, i: nat)
    requires Sound(server, s) && forall t :: Pipeline.ShortHash(server.hash(t))
    requires i < |s.requests| && |s.requests[i].outs| < |BodyTexts(s.requests[i].body)|
    ensures Sound(server, Next(server, s, Step(i)))
  {
    var q := s.requests[i];
    var text := BodyTexts(q.body)[|q.outs|];
    var (cache, o) := Process(server, q.scope, s.cache, text);
    var e := Event(i, q.scope, text, o);
    assert Next(server, s, Step(i)) == System(cache, s.requests[i := q.(outs := q.outs + [o])], s.log + [e]);
    assert CacheSound(server, s.log + [e], cache) by {
      CacheStepped(server, s.log, s.cache, i, q.scope, text);
    }
    assert Lawful(server, s.log + [e]) by {
      EventAllowed(server, s.log, s.cache, i, q.scope, text);
      LawfulPush(server, s.log, e);
    }
    RequestsStepped(s.log, s.requests, i, o);
  }

  lemma {:induction false} NextSound(server: Server, s: System, choice: Choice)
    requires Sound(server, s) && forall t :: Pipeline.ShortHash(server.hash(t))
    ensures Sound(server, Next(server, s, choice))
  {
    match choice
    case Arrive(scope, body) => ArriveSound(server, s, scope, body);
    case Step(i) =>
      if i < |s.requests| && |s.requests[i].outs| < |BodyTexts(s.requests[i].body)| {
        StepSound(server, s, i);
      }
  }

  // --------------------------------------------------------- every schedule

  /**
   In every interleaving, each text is changed exactly if it passes the classifier and repeats
   the instruction that the session, through whichever request, had checked last, or has
   something to minify; and what is reported as saved of it is what it lost.
   */
  lemma {:induction false} EveryInterleaving(server: Server, schedule: seq<Choice>)
    requires forall t :: Pipeline.ShortHash(server.hash(t))
    ensures Sound(server, Execute(server, schedule))
  {
    if schedule == [] {
    } else {
      var init := schedule[..|schedule| - 1];
      EveryInterleaving(server, init);
      NextSound(server, Execute(server, init), schedule[|schedule| - 1]);
    }
  }

  /** A pipeline whose answers are given. */
  function Given(): Exec<seq<Output>>
  {
    (st: seq<Output>, text: string) =>
      if st == [] then (st, Output.Output(text, false, 0, "none")) else (st[1..], st[0])
  }

  lemma {:induction false} GivenOuts(outs: seq<Output>, rest: seq<Output>, texts: seq<string>)
    requires |outs| == |texts|
    ensures Outs(Given(), outs + rest, texts) == (rest, outs)
  {
    if texts == [] {
      assert outs + rest == rest;
    } else {
      var n := |texts| - 1;
      assert outs + rest == outs[..n] + ([outs[n]] + rest);
      GivenOuts(outs[..n], [outs[n]] + rest, texts[..n]);
      assert ([outs[n]] + rest)[1..] == rest && outs[..n] + [outs[n]] == outs;
    }
  }

  /** The result of a request whose texts all have their answers. */
  function Result(q: Request): OptimizeResult { Optimized(Given(), q.outs, q.body).0 }

  /** Event `k` of the log is a text of the request that was to be changed. */
  predicate ChangedBy(server: Server, log: seq<Event>, i: nat, k: nat)
    requires k < |log|
  {
    var e := log[k];
    && e.request == i
    && Pipeline.Changeable(server.dedup, server.minify, EnvOf(server, e.scope), LastHash(server, log[..k], e.scope),
                           e.text)
  }

  predicate AnyModified(events: seq<Event>) { exists k :: 0 <= k < |events| && events[k].out.modified }

  predicate AnyModifiedOf(log: seq<Event>, i: nat)
  {
    exists k :: 0 <= k < |log| && log[k].request == i && log[k].out.modified
  }

  lemma AnyModifiedPush(log: seq<Event>, e: Event, i: nat)
    ensures AnyModified(log + [e]) <==> AnyModified(log) || e.out.modified
    ensures AnyModifiedOf(log + [e], i) <==> AnyModifiedOf(log, i) || (e.request == i && e.out.modified)
  {
    var all := log + [e];
    assert all[|log|] == e && forall k :: 0 <= k < |log| ==> all[k] == log[k];
  }

  lemma {:induction false} EventsAreFrom(log: seq<Event>, i: nat)
    ensures AnyModifiedOf(log, i) <==> AnyModified(EventsOf(log, i))
    ensures forall e :: e in EventsOf(log, i) ==> e in log
  {
    if log == [] {
    } else {
      var init, last := log[..|log| - 1], log[|log| - 1];
      EventsAreFrom(init, i);
      assert init + [last] == log && EventsOf(init, i) + [] == EventsOf(init, i);
      AnyModifiedPush(init, last, i);
      AnyModifiedPush(EventsOf(init, i), last, i);
    }
  }

  lemma {:induction false} SavedInAll(texts: seq<string>, outs: seq<Output>)
    requires |texts| == |outs| && forall k :: 0 <= k < |outs| ==> Pipeline.SavesExactly(texts[k], outs[k])
    ensures NoteAll(outs).saved + TotalBytes(EffectiveAll(texts, outs)) == TotalBytes(texts)
  {
    if texts == [] {
    } else {
      var n := |texts| - 1;
      SavedInAll(texts[..n], outs[..n]);
      assert EffectiveAll(texts, outs)[..n] == EffectiveAll(texts[..n], outs[..n]);
    }
  }

  /** The answers of a request, in every interleaving, one by one. */
  lemma AnswersSound(server: Server, s: System, i: nat)
    requires Sound(server, s) && i < |s.requests|
    ensures var q, texts := s.requests[i], BodyTexts(s.requests[i].body);
            && |q.outs| <= |texts|
            && (forall k :: 0 <= k < |q.outs| ==> Pipeline.SavesExactly(texts[k], q.outs[k]))
    ensures (exists k :: 0 <= k < |s.requests[i].outs| && s.requests[i].outs[k].modified) <==>
            (exists k :: 0 <= k < |s.log| && ChangedBy(server, s.log, i, k))
  {
    var q, texts, events := s.requests[i], BodyTexts(s.requests[i].body), EventsOf(s.log, i);
    assert RequestSound(s.log, i, q);
    EventsAreFrom(s.log, i);
    ChangedIffModified(server, s.log, i);
    forall k | 0 <= k < |q.outs| ensures Pipeline.SavesExactly(texts[k], q.outs[k]) && q.outs[k] == events[k].out {
      assert events[k] in s.log;
      var j :| 0 <= j < |s.log| && s.log[j] == events[k];
      assert Allowed(server, s.log[..j], s.log[j]);
    }
  }

  lemma ChangedIffModified(server: Server, log: seq<Event>, i: nat)
    requires Lawful(server, log)
    ensures (exists k :: 0 <= k < |log| && ChangedBy(server, log, i, k)) <==> AnyModifiedOf(log, i)
  {
    forall k | 0 <= k < |log| ensures ChangedBy(server, log, i, k) <==> log[k].request == i && log[k].out.modified {
      assert Allowed(server, log[..k], log[k]);
    }
  }

  /** The result that answers make, whoever gave them. */
  lemma ResultOf(q: Request)
    requires FromText(q.body).Some? && |q.outs| == |BodyTexts(q.body)|
    ensures var r := Result(q);
            && (r.modified <==> exists k :: 0 <= k < |q.outs| && q.outs[k].modified)
            && FromText(r.body).Some? && BodyTexts(r.body) == EffectiveAll(BodyTexts(q.body), q.outs)
            && r.bytesSaved == NoteAll(q.outs).saved
  {
    assert q.outs + [] == q.outs;
    GivenOuts(q.outs, [], BodyTexts(q.body));
    SecondPass.BodyReads(Given(), q.outs, q.body);
    RewriteMeaning(Given(), q.outs, FromText(q.body).value);
    NothingNoted(q.outs);
  }

  /**
   What a finished request reports, in every interleaving: it is modified exactly if one of its
   texts was to be changed when it was checked, and its `bytes_saved` is the total that its
   texts lost, whatever other requests did in between.
   */
  lemma {:induction false} FinishedReport(server: Server, schedule: seq<Choice>, i: nat)
    requires forall t :: Pipeline.ShortHash(server.hash(t))
    requires var s := Execute(server, schedule);
             i < |s.requests| && FromText(s.requests[i].body).Some?
             && |s.requests[i].outs| == |BodyTexts(s.requests[i].body)|
    ensures var s := Execute(server, schedule);
            var q := s.requests[i];
            var r := Result(q);
            && (r.modified <==> exists k :: 0 <= k < |s.log| && ChangedBy(server, s.log, i, k))
            && FromText(r.body).Some?
            && r.bytesSaved + TotalBytes(BodyTexts(r.body)) == TotalBytes(BodyTexts(q.body))
  {
    var s := Execute(server, schedule);
    var q := s.requests[i];
    EveryInterleaving(server, schedule);
    AnswersSound(server, s, i);
    ResultOf(q);
    SavedInAll(BodyTexts(q.body), q.outs);
  }

  // -------------------------------------------------------------- undisturbed

  function Steps(server: Server, s: System, i: nat, n: nat): System
  {
    if n == 0 then s else Next(server, Steps(server, s, i, n - 1), Step(i))
  }

  /** A request that nothing interrupts comes to what the pass over its body does in one go. */
  lemma {:induction false} Undisturbed(server: Server, s: System, i: nat, n: nat)
    requires i < |s.requests| && s.requests[i].outs == [] && n <= |BodyTexts(s.requests[i].body)|
    ensures var q, s' := s.requests[i], Steps(server, s, i, n);
            var exec := BuiltExec(server.dedup, server.minify, EnvOf(server, q.scope));
            var (cache, outs) := Outs(exec, s.cache, BodyTexts(q.body)[..n]);
            s'.cache == cache && s'.requests == s.requests[i := q.(outs := outs)]
  {
    var q := s.requests[i];
    if n == 0 {
      assert s.requests[i := q] == s.requests;
    } else {
      var texts, exec := BodyTexts(q.body), BuiltExec(server.dedup, server.minify, EnvOf(server, q.scope));
      var s0 := Steps(server, s, i, n - 1);
      var (cache, outs) := Outs(exec, s.cache, texts[..n - 1]);
      Undisturbed(server, s, i, n - 1);
      assert s0.requests[i] == q.(outs := outs) && |outs| == n - 1;
      StepOnce(server, s0, i);
      OutsNext(exec, s.cache, texts, n - 1);
      var o := Process(server, q.scope, cache, texts[n - 1]).1;
      assert exec(cache, texts[n - 1]) == Process(server, q.scope, cache, texts[n - 1]);
      SetTwice(s.requests, i, q.(outs := outs), q.(outs := outs + [o]));
    }
  }

  lemma SetTwice(requests: seq<Request>, i: nat, a: Request, b: Request)
    requires i < |requests|
    ensures requests[i := a][i := b] == requests[i := b]
  {
  }

  lemma {:induction false} StepOnce(server: Server, s: System, i: nat)
    requires i < |s.requests| && |s.requests[i].outs| < |BodyTexts(s.requests[i].body)|
    ensures var q, s' := s.requests[i], Next(server, s, Step(i));
            var (cache, o) := Process(server, q.scope, s.cache, BodyTexts(q.body)[|q.outs|]);
            s'.cache == cache && s'.requests == s.requests[i := q.(outs := q.outs + [o])]
  {
  }

  lemma OutsNext<S>(exec: Exec<S>, st: S, texts: seq<string>, n: nat)
    requires n < |texts|
    ensures var (s1, outs) := Outs(exec, st, texts[..n]);
            var (s2, o) := exec(s1, texts[n]);
            Outs(exec, st, texts[..n + 1]) == (s2, outs + [o])
  {
    OutsPush(exec, st, texts[..n], texts[n]);
    assert texts[..n] + [texts[n]] == texts[..n + 1];
  }
}
