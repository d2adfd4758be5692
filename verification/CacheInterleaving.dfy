/**
 Stores and lookups at the same time. A store writes L1a and then, the embedding computed,
 L1b, each under its own lock; a lookup reads them in the same order. Every interleaving of
 these steps, with L1a dropping keys at any time, is a schedule, kept in a log.
 */
module CacheInterleaving {
  import opened Utils
  import CacheScope
  import SemanticCache
  import TwoLevelCache

  /** What a call is about; the embedding is absent if the embedder fails. */
  datatype Job =
    | Store(prompt: string, scope: Option<string>, value: string, embedding: Option<seq<real>>)
    | Lookup(prompt: string, scope: Option<string>, embedding: Option<seq<real>>)

  function Key(job: Job): string { CacheScope.KeyInput("native", job.prompt, job.scope) }

  /** A call, how many of its steps are done (2 if it is over), and what it answered. */
  datatype Call = Call(job: Job, pc: nat, answer: TwoLevelCache.Http)

  datatype Event =
    | Put(call: nat, job: Job)
    | Insert(call: nat, job: Job, now: nat)
    | Got(call: nat, job: Job, value: Option<string>)
    | Searched(call: nat, job: Job, now: nat, value: Option<string>)
    | Forgot(keys: set<string>)

  datatype System = System(caches: TwoLevelCache.Caches, now: nat, calls: seq<Call>, log: seq<Event>)

  datatype Choice = Begin(job: Job) | Step(i: nat) | Forget(keys: set<string>) | Tick(ticks: nat)

  type Setup = TwoLevelCache.Setup

  /** Nothing has been answered yet. */
  const PENDING := TwoLevelCache.Http(0, "", "pending")
  const STORED := TwoLevelCache.Http(200, "", "stored")
  const MISS := TwoLevelCache.Http(204, "", "")

  predicate Inserts(setup: Setup, job: Job) { job.embedding.Some? && setup.cfg.maxCapacity >= 1 }

  function EntryOf(job: Job, now: nat): SemanticCache.Entry
    requires job.Store? && job.embedding.Some?
  {
    SemanticCache.Entry(job.embedding.value, job.value, now, job.scope)
  }

  function QueryOf(job: Job, now: nat): SemanticCache.Query
    requires job.Lookup? && job.embedding.Some?
  {
    SemanticCache.Query(job.embedding.value, job.scope, now)
  }

  function ValueAt(exact: map<string, string>, key: string): Option<string>
  {
    if key in exact then Some(exact[key]) else None
  }

  function Search(setup: Setup, q: SemanticCache.Query, h: seq<SemanticCache.Entry>): Option<string>
  {
    SemanticCache.Answer(setup.sqrt, setup.cfg, q, h)
  }

  function Hit(layer: string, value: Option<string>): TwoLevelCache.Http
  {
    match value
    case Some(v) => TwoLevelCache.Http(200, layer, v)
    case None => MISS
  }

  /** The next step of call `i`: the new caches, the event if there is one, and the call. */
  function StepOf(setup: Setup, c: TwoLevelCache.Caches, now: nat, i: nat, call: Call)
    : (TwoLevelCache.Caches, seq<Event>, Call)
    requires call.pc < 2
  {
    var job := call.job;
    if job.Store? && call.pc == 0 then
      (c.(exact := c.exact[Key(job) := job.value]), [Put(i, job)], call.(pc := 1))
    else if job.Store? then
      if Inserts(setup, job) then
        (c.(history := c.history + [EntryOf(job, now)]), [Insert(i, job, now)], call.(pc := 2, answer := STORED))
      else
        (c, [], call.(pc := 2, answer := if job.embedding.None? then STORED else TwoLevelCache.NO_RESPONSE))
    else if call.pc == 0 then
      var value := ValueAt(c.exact, Key(job));
      (c, [Got(i, job, value)],
       if value.Some? || job.embedding.None? then call.(pc := 2, answer := Hit("l1a", value)) else call.(pc := 1))
    else if job.embedding.None? then (c, [], call.(pc := 2, answer := MISS))
    else
      var value := Search(setup, QueryOf(job, now), c.history);
      (c, [Searched(i, job, now, value)], call.(pc := 2, answer := Hit("l1b", value)))
  }

  function Next(setup: Setup, s: System, choice: Choice): System
  {
    match choice
    case Begin(job) => s.(calls := s.calls + [Call(job, 0, PENDING)])
    case Step(i) =>
      if i < |s.calls| && s.calls[i].pc < 2 then
        var (caches, events, call) := StepOf(setup, s.caches, s.now, i, s.calls[i]);
        System(caches, s.now, s.calls[i := call], s.log + events)
      else s
    case Forget(keys) => s.(caches := s.caches.(exact := s.caches.exact - keys), log := s.log + [Forgot(keys)])
    case Tick(ticks) => s.(now := s.now + ticks)
  }

  function Execute(setup: Setup, schedule: seq<Choice>): System
  {
    if schedule == [] then System(TwoLevelCache.Caches(map[], []), 0, [], [])
    else Next(setup, Execute(setup, schedule[..|schedule| - 1]), schedule[|schedule| - 1])
  }

  // ---------------------------------------------------------- read off the log

  function ExactOf(log: seq<Event>): map<string, string>
  {
    if log == [] then map[]
    else
      var before := ExactOf(log[..|log| - 1]);
      match log[|log| - 1]
      case Put(_, job) => if job.Store? then before[Key(job) := job.value] else before
      case Forgot(keys) => before - keys
      case _ => before
  }

  function HistoryOf(log: seq<Event>): seq<SemanticCache.Entry>
  {
    if log == [] then []
    else
      var before := HistoryOf(log[..|log| - 1]);
      match log[|log| - 1]
      case Insert(_, job, now) => if job.Store? && job.embedding.Some? then before + [EntryOf(job, now)] else before
      case _ => before
  }

  predicate OfCall(e: Event, i: nat) { !e.Forgot? && e.call == i }

  predicate Untouched(log: seq<Event>, i: nat) { forall k :: 0 <= k < |log| ==> !OfCall(log[k], i) }

  /** Each step reads or writes what the steps before it have left, in the order of its call. */
  predicate Allowed(setup: Setup, before: seq<Event>, e: Event)
  {
    match e
    case Put(call, job) => job.Store? && Untouched(before, call)
    case Insert(call, job, _) => job.Store? && job.embedding.Some? && Put(call, job) in before
    case Got(call, job, value) =>
      job.Lookup? && Untouched(before, call) && value == ValueAt(ExactOf(before), Key(job))
    case Searched(call, job, now, value) =>
      && job.Lookup? && job.embedding.Some? && Got(call, job, None) in before
      && value == Search(setup, QueryOf(job, now), HistoryOf(before))
    case Forgot(_) => true
  }

  predicate Lawful(setup: Setup, log: seq<Event>)
  {
    forall k :: 0 <= k < |log| ==> Allowed(setup, log[..k], log[k])
  }

  /** Where the answer of a finished lookup comes from. */
  ghost predicate Answered(log: seq<Event>, i: nat, call: Call)
    requires call.job.Lookup?
  {
    || (exists v :: Got(i, call.job, Some(v)) in log && call.answer == Hit("l1a", Some(v)))
    || (call.job.embedding.None? && Got(i, call.job, None) in log && call.answer == MISS)
    || (exists now, value :: Searched(i, call.job, now, value) in log && call.answer == Hit("l1b", value))
  }

  ghost predicate CallSound(log: seq<Event>, i: nat, call: Call)
  {
    && (call.pc == 0 ==> Untouched(log, i))
    && (call.pc == 1 ==> if call.job.Store? then Put(i, call.job) in log
                         else call.job.embedding.Some? && Got(i, call.job, None) in log)
    && (call.pc >= 2 && call.job.Lookup? ==> Answered(log, i, call))
  }

  ghost predicate CallsSound(log: seq<Event>, calls: seq<Call>)
  {
    && (forall i :: 0 <= i < |calls| ==> CallSound(log, i, calls[i]))
    && (forall k :: 0 <= k < |log| && !log[k].Forgot? ==> log[k].call < |calls|)
  }

  /** The inserts are in the order of time, as the semantic cache needs. */
  predicate Timely(h: seq<SemanticCache.Entry>, now: nat)
  {
    SemanticCache.Sorted(h) && forall k :: 0 <= k < |h| ==> h[k].createdAt <= now
  }

  ghost predicate Sound(setup: Setup, s: System)
  {
    && Lawful(setup, s.log)
    && s.caches == TwoLevelCache.Caches(ExactOf(s.log), HistoryOf(s.log))
    && CallsSound(s.log, s.calls)
    && Timely(s.caches.history, s.now)
  }

  // -------------------------------------------------------------- one event

  lemma LawfulPush(setup: Setup, log: seq<Event>, e: Event)
    requires Lawful(setup, log) && Allowed(setup, log, e)
    ensures Lawful(setup, log + [e])
  {
    var log' := log + [e];
    forall k | 0 <= k < |log'| ensures Allowed(setup, log'[..k], log'[k]) {
      if k < |log| {
        assert log'[..k] == log[..k];
      } else {
        assert log'[..k] == log;
      }
    }
  }

  lemma {:induction false} CachesPush(log: seq<Event>, e: Event)
    ensures ExactOf(log + [e]) ==
            if e.Put? && e.job.Store? then ExactOf(log)[Key(e.job) := e.job.value]
            else if e.Forgot? then ExactOf(log) - e.keys
            else ExactOf(log)
    ensures HistoryOf(log + [e]) ==
            if e.Insert? && e.job.Store? && e.job.embedding.Some? then HistoryOf(log) + [EntryOf(e.job, e.now)]
            else HistoryOf(log)
  {
    assert (log + [e])[..|log|] == log;
  }

  lemma CallKept(log: seq<Event>, e: Event, i: nat, call: Call)
    requires CallSound(log, i, call) && !OfCall(e, i)
    ensures CallSound(log + [e], i, call)
  {
  }

  lemma CallsKept(log: seq<Event>, keys: set<string>, calls: seq<Call>)
    requires CallsSound(log, calls)
    ensures CallsSound(log + [Forgot(keys)], calls)
  {
    forall i | 0 <= i < |calls| ensures CallSound(log + [Forgot(keys)], i, calls[i]) {
      CallKept(log, Forgot(keys), i, calls[i]);
    }
  }

  lemma CallStepped(setup: Setup, c: TwoLevelCache.Caches, now: nat, log: seq<Event>, i: nat, call: Call)
    requires CallSound(log, i, call) && call.pc < 2
    ensures var (_, events, call') := StepOf(setup, c, now, i, call);
            CallSound(log + events, i, call')
  {
    var (_, events, call') := StepOf(setup, c, now, i, call);
    if events == [] {
      assert log + events == log;
    } else {
      assert (log + events)[|log|] == events[0];
    }
  }

  lemma CallsStepped(setup: Setup, c: TwoLevelCache.Caches, now: nat, log: seq<Event>, calls: seq<Call>, i: nat)
    requires CallsSound(log, calls) && i < |calls| && calls[i].pc < 2
    ensures var (_, events, call) := StepOf(setup, c, now, i, calls[i]);
            CallsSound(log + events, calls[i := call])
  {
    var (_, events, call) := StepOf(setup, c, now, i, calls[i]);
    var calls' := calls[i := call];
    CallStepped(setup, c, now, log, i, calls[i]);
    forall k | 0 <= k < |calls'| ensures CallSound(log + events, k, calls'[k]) {
      if k != i {
        if events == [] {
          assert log + events == log;
        } else {
          assert events == [events[0]];
          CallKept(log, events[0], k, calls[k]);
        }
      }
    }
  }

  lemma {:induction false} EventAllowed(setup: Setup, now: nat, log: seq<Event>, i: nat, call: Call)
    requires CallSound(log, i, call) && call.pc < 2
    ensures var (c', events, _) := StepOf(setup, TwoLevelCache.Caches(ExactOf(log), HistoryOf(log)), now, i, call);
            if events == [] then c' == TwoLevelCache.Caches(ExactOf(log), HistoryOf(log))
            else
              && events == [events[0]] && Allowed(setup, log, events[0])
              && c' == TwoLevelCache.Caches(ExactOf(log + events), HistoryOf(log + events))
  {
    var (_, events, _) := StepOf(setup, TwoLevelCache.Caches(ExactOf(log), HistoryOf(log)), now, i, call);
    if events != [] {
      CachesPush(log, events[0]);
    }
  }

  lemma StepTimely(setup: Setup, c: TwoLevelCache.Caches, now: nat, i: nat, call: Call)
    requires Timely(c.history, now) && call.pc < 2
    ensures Timely(StepOf(setup, c, now, i, call).0.history, now)
  {
  }

  lemma StepSound(setup: Setup, s: System, i: nat)
    requires Sound(setup, s) && i < |s.calls| && s.calls[i].pc < 2
    ensures Sound(setup, Next(setup, s, Step(i)))
  {
    var (c, events, call) := StepOf(setup, s.caches, s.now, i, s.calls[i]);
    EventAllowed(setup, s.now, s.log, i, s.calls[i]);
    CallsStepped(setup, s.caches, s.now, s.log, s.calls, i);
    StepTimely(setup, s.caches, s.now, i, s.calls[i]);
    if events == [] {
      assert s.log + events == s.log;
    } else {
      LawfulPush(setup, s.log, events[0]);
    }
  }

  lemma NextSound(setup: Setup, s: System, choice: Choice)
    requires Sound(setup, s)
    ensures Sound(setup, Next(setup, s, choice))
  {
    match choice
    case Begin(job) =>
    case Step(i) =>
      if i < |s.calls| && s.calls[i].pc < 2 {
        StepSound(setup, s, i);
      }
    case Forget(keys) =>
      LawfulPush(setup, s.log, Forgot(keys));
      CachesPush(s.log, Forgot(keys));
      CallsKept(s.log, keys, s.calls);
    case Tick(_) =>
  }

  // --------------------------------------------------------- every schedule

  /** In every interleaving each step reads and writes exactly what the log says it met. */
  lemma {:induction false} EveryInterleaving(setup: Setup, schedule: seq<Choice>)
    ensures Sound(setup, Execute(setup, schedule))
  {
    if schedule == [] {
    } else {
      var init := schedule[..|schedule| - 1];
      EveryInterleaving(setup, init);
      NextSound(setup, Execute(setup, init), schedule[|schedule| - 1]);
    }
  }

  /** The last put under a key, which no drop of the key has followed. */
  predicate LastPut(log: seq<Event>, a: nat, key: string, value: string)
  {
    && a < |log| && log[a].Put? && log[a].job.Store? && Key(log[a].job) == key && log[a].job.value == value
    && forall k :: a < k < |log| ==> !(log[k].Put? && Key(log[k].job) == key) && !(log[k].Forgot? && key in log[k].keys)
  }

  lemma LawfulBefore(setup: Setup, log: seq<Event>)
    requires Lawful(setup, log) && log != []
    ensures Lawful(setup, log[..|log| - 1])
  {
    var init := log[..|log| - 1];
    forall k | 0 <= k < |init| ensures Allowed(setup, init[..k], init[k]) {
      assert init[..k] == log[..k];
    }
  }

  lemma {:induction false} ExactIsLastPut(setup: Setup, log: seq<Event>, key: string) returns (a: nat)
    requires Lawful(setup, log) && key in ExactOf(log)
    ensures LastPut(log, a, key, ExactOf(log)[key])
  {
    var n := |log| - 1;
    var init := log[..n];
    assert init + [log[n]] == log;
    CachesPush(init, log[n]);
    assert Allowed(setup, log[..n], log[n]);
    if log[n].Put? && Key(log[n].job) == key {
      a := n;
    } else {
      LawfulBefore(setup, log);
      a := ExactIsLastPut(setup, init, key);
      assert forall k :: 0 <= k < n ==> init[k] == log[k];
    }
  }

  /** The insert that put an entry into L1b. */
  lemma {:induction false} InsertOf(setup: Setup, log: seq<Event>, k: nat) returns (a: nat)
    requires Lawful(setup, log) && k < |HistoryOf(log)|
    ensures a < |log| && log[a].Insert? && log[a].job.Store? && log[a].job.embedding.Some?
    ensures HistoryOf(log)[k] == EntryOf(log[a].job, log[a].now) && |HistoryOf(log[..a])| == k
    ensures Put(log[a].call, log[a].job) in log[..a]
  {
    var n := |log| - 1;
    var init := log[..n];
    assert init + [log[n]] == log;
    CachesPush(init, log[n]);
    assert Allowed(setup, log[..n], log[n]);
    if k < |HistoryOf(init)| {
      LawfulBefore(setup, log);
      a := InsertOf(setup, init, k);
      assert init[..a] == log[..a];
    } else {
      a := n;
    }
  }

  /** Scopes are digests, which hold no bar. */
  predicate BarFree(job: Job) { job.scope.Some? ==> CacheScope.NoBar(job.scope.value) }

  /** The same prompt in the same scope, unless one of the two spells out the other's key. */
  predicate SameRequest(x: Job, y: Job)
  {
    || (x.scope == y.scope && x.prompt == y.prompt)
    || (x.scope.None? && y.scope.Some? && CacheScope.Shadows(x.prompt, y.scope.value, y.prompt))
    || (x.scope.Some? && y.scope.None? && CacheScope.Shadows(y.prompt, x.scope.value, x.prompt))
  }

  /** From L1a: the value of the last put under the key, which had not been dropped since. */
  predicate FromExact(log: seq<Event>, i: nat, job: Job, value: string, d: nat, a: nat)
  {
    && d < |log| && log[d] == Got(i, job, Some(value)) && LastPut(log[..d], a, Key(job), value)
    && (BarFree(job) && BarFree(log[a].job) ==> SameRequest(log[a].job, job))
  }

  /** From L1b, read after L1a did not have the key: the oldest best of all inserts made by then. */
  predicate FromSemantic(setup: Setup, log: seq<Event>, i: nat, job: Job, value: string, d: nat, a: nat)
  {
    && d < |log| && log[d].Searched? && log[d] == Searched(i, job, log[d].now, Some(value))
    && job.Lookup? && job.embedding.Some?
    && Got(i, job, None) in log[..d]
    && a < d && log[a].Insert? && log[a].job.Store? && Put(log[a].call, log[a].job) in log[..a]
    && log[a].job.value == value && log[a].job.scope == job.scope
    && var h := HistoryOf(log[..d]);
       SemanticCache.IsOldestBest(setup.sqrt, setup.cfg, QueryOf(job, log[d].now), h,
                                  SemanticCache.Reach(h, setup.cfg), |HistoryOf(log[..a])|)
  }

  /** Nowhere: L1a did not have the key and, if there was an embedding, nothing eligible had been inserted. */
  predicate Nowhere(setup: Setup, log: seq<Event>, i: nat, job: Job, d: nat)
    requires job.Lookup?
  {
    && d < |log|
    && if job.embedding.None? then log[d] == Got(i, job, None) && Key(job) !in ExactOf(log[..d])
       else
         && log[d].Searched? && log[d] == Searched(i, job, log[d].now, None) && Got(i, job, None) in log[..d]
         && var h := HistoryOf(log[..d]);
            SemanticCache.NoneEligible(setup.sqrt, setup.cfg, QueryOf(job, log[d].now), h,
                                       SemanticCache.Reach(h, setup.cfg))
  }

  lemma LawfulPrefix(setup: Setup, log: seq<Event>, d: nat)
    requires Lawful(setup, log) && d <= |log|
    ensures Lawful(setup, log[..d])
  {
    forall k | 0 <= k < d ensures Allowed(setup, log[..d][..k], log[..d][k]) {
      assert log[..d][..k] == log[..k];
    }
  }

  lemma GotValue(setup: Setup, log: seq<Event>, i: nat, job: Job, value: string) returns (d: nat, a: nat)
    requires Lawful(setup, log) && Got(i, job, Some(value)) in log
    ensures FromExact(log, i, job, value, d, a)
  {
    d :| 0 <= d < |log| && log[d] == Got(i, job, Some(value));
    assert Allowed(setup, log[..d], log[d]);
    LawfulPrefix(setup, log, d);
    a := ExactIsLastPut(setup, log[..d], Key(job));
    var put := log[a].job;
    if BarFree(job) && BarFree(put) {
      CacheScope.KeysCollide("native", put.prompt, put.scope, job.prompt, job.scope);
    }
  }

  lemma SearchedValue(setup: Setup, log: seq<Event>, i: nat, job: Job, now: nat, value: string) returns (d: nat, a: nat)
    requires Lawful(setup, log) && Searched(i, job, now, Some(value)) in log
    ensures FromSemantic(setup, log, i, job, value, d, a)
  {
    d :| 0 <= d < |log| && log[d] == Searched(i, job, now, Some(value));
    assert Allowed(setup, log[..d], log[d]);
    LawfulPrefix(setup, log, d);
    var k := SemanticCache.AnswerMeaning(setup.sqrt, setup.cfg, QueryOf(job, now), HistoryOf(log[..d]));
    a := InsertOf(setup, log[..d], k);
    assert log[..d][..a] == log[..a];
  }

  lemma SearchedNothing(setup: Setup, log: seq<Event>, i: nat, job: Job, now: nat) returns (d: nat)
    requires Lawful(setup, log) && Searched(i, job, now, None) in log
    ensures job.Lookup? && Nowhere(setup, log, i, job, d)
  {
    d :| 0 <= d < |log| && log[d] == Searched(i, job, now, None);
    assert Allowed(setup, log[..d], log[d]);
    var _ := SemanticCache.AnswerMeaning(setup.sqrt, setup.cfg, QueryOf(job, now), HistoryOf(log[..d]));
  }

  lemma GotNothing(setup: Setup, log: seq<Event>, i: nat, job: Job) returns (d: nat)
    requires Lawful(setup, log) && Got(i, job, None) in log && job.Lookup? && job.embedding.None?
    ensures Nowhere(setup, log, i, job, d)
  {
    d :| 0 <= d < |log| && log[d] == Got(i, job, None);
    assert Allowed(setup, log[..d], log[d]);
  }

  /**
   Where an answer comes from, in every interleaving. The lookup read at event `d`. From L1a it
   has the value of the store whose put `a` was the last under the key by then; from L1b that
   of the store whose insert `a` is the oldest best of all made by then, and whose put came
   before it; and a miss means that neither level had anything for it when it was read.
   */
  lemma EveryAnswer(setup: Setup, schedule: seq<Choice>, i: nat) returns (d: nat, a: nat)
    requires var s := Execute(setup, schedule);
             i < |s.calls| && s.calls[i].job.Lookup? && s.calls[i].pc >= 2
    ensures var s := Execute(setup, schedule);
            var job, answer := s.calls[i].job, s.calls[i].answer;
            || (answer == Hit("l1a", Some(answer.body)) && FromExact(s.log, i, job, answer.body, d, a))
            || (answer == Hit("l1b", Some(answer.body)) && FromSemantic(setup, s.log, i, job, answer.body, d, a))
            || (answer == MISS && Nowhere(setup, s.log, i, job, d))
  {
    EveryInterleaving(setup, schedule);
    var s := Execute(setup, schedule);
    var log, job, answer := s.log, s.calls[i].job, s.calls[i].answer;
    assert CallSound(log, i, s.calls[i]);
    d, a := 0, 0;
    if v :| Got(i, job, Some(v)) in log && answer == Hit("l1a", Some(v)) {
      d, a := GotValue(setup, log, i, job, v);
    } else if job.embedding.None? && Got(i, job, None) in log && answer == MISS {
      d := GotNothing(setup, log, i, job);
    } else {
      var now, value :| Searched(i, job, now, value) in log && answer == Hit("l1b", value);
      if value.Some? {
        d, a := SearchedValue(setup, log, i, job, now, value.value);
      } else {
        d := SearchedNothing(setup, log, i, job, now);
      }
    }
  }

  /** The vector that is really stored, cut down by the inserts, gives the answer of the whole history. */
  lemma {:induction false} VectorAnswers(setup: Setup, schedule: seq<Choice>, q: SemanticCache.Query)
    requires q.now == Execute(setup, schedule).now
    ensures var h := Execute(setup, schedule).caches.history;
            && SemanticCache.Sorted(h)
            && Search(setup, q, h) ==
               match SemanticCache.Best(setup.sqrt, setup.cfg, q, SemanticCache.Window(h, setup.cfg))
               case Some(e) => Some(e.response)
               case None => None
  {
    EveryInterleaving(setup, schedule);
    SemanticCache.WindowAnswers(setup.sqrt, setup.cfg, q, Execute(setup, schedule).caches.history);
  }

  // -------------------------------------------------------------- undisturbed

  /** A call that nothing interrupts is what the endpoint does in one go. */
  lemma {:induction false} StoreUndisturbed(setup: Setup, s: System, body: string, headers: map<string, string>,
                                            embedding: Option<seq<real>>)
    requires ByteLen(body) <= TwoLevelCache.MAX_STORE_BODY && TwoLevelCache.DecodeStore(body).Some?
    ensures var req := TwoLevelCache.DecodeStore(body).value;
            var job := Store(req.prompt, CacheScope.Scope(setup.digest, headers, body),
                             TwoLevelCache.StoredJson(req.response, req.model), embedding);
            var n := |s.calls|;
            var s' := Next(setup, Next(setup, Next(setup, s, Begin(job)), Step(n)), Step(n));
            (s'.caches, s'.calls[n].answer) == TwoLevelCache.StoreIn(setup, s.caches, body, headers, embedding, s.now)
  {
  }

  lemma {:induction false} LookupUndisturbed(setup: Setup, s: System, body: string, headers: map<string, string>,
                                             embedding: Option<seq<real>>)
    requires ByteLen(body) <= TwoLevelCache.MAX_LOOKUP_BODY && TwoLevelCache.PromptOf(body) != ""
    ensures var job := Lookup(TwoLevelCache.PromptOf(body), CacheScope.Scope(setup.digest, headers, body), embedding);
            var n := |s.calls|;
            var s' := Next(setup, Next(setup, Next(setup, s, Begin(job)), Step(n)), Step(n));
            && s'.caches == s.caches
            && s'.calls[n].answer == TwoLevelCache.LookupIn(setup, s.caches, body, headers, embedding, s.now)
  {
  }
}
