/**
 `record_cache_lookup_prompt` of `src/handler.rs`: one lookup updates several counters, each
 under its own acquisition of the statistics lock, so lookups interleave between updates.
 Here every interleaving of any number of lookups, by any tools, is a schedule.
 */
module LookupStats {
  import opened Utils
  import opened Visibility

  datatype Outcome = HitL1a | HitL1b | Miss

  /** The label the lookup endpoint passes for an outcome. */
  function LayerName(o: Outcome): string
  {
    match o case HitL1a => "l1a" case HitL1b => "l1b" case Miss => "miss"
  }

  function LookupEntry(layer: string, deflected: bool, latencyMs: nat, statusCode: nat, tool: string): Entry
  {
    Entry("mcp", "copilot", layer, deflected, latencyMs, statusCode, tool)
  }

  function Length(o: Outcome): nat { if o.HitL1a? then 3 else 4 }

  /** The locked updates of one lookup, in program order. */
  function Steps(c: Call): (ops: seq<Op>)
    ensures |ops| == Length(c.outcome)
  {
    match c.outcome
    case HitL1a => [CacheEvents(c.tool, "l1a", "hit"), CacheEvents(c.tool, "l1", "hit"), Final(c)]
    case HitL1b =>
      [CacheEvents(c.tool, "l1a", "miss"), CacheEvents(c.tool, "l1b", "hit"), CacheEvents(c.tool, "l1", "hit"),
       Final(c)]
    case Miss =>
      [CacheEvents(c.tool, "l1a", "miss"), CacheEvents(c.tool, "l1b", "miss"), CacheEvents(c.tool, "l1", "miss"),
       Final(c)]
  }

  function Final(c: Call): Op
  {
    var status := if c.outcome.Miss? then 204 else 200;
    Recorded(LookupEntry(LayerName(c.outcome), !c.outcome.Miss?, c.latencyMs, status, c.tool))
  }

  /** What is recorded of a lookup, last of all. */
  lemma LastStep(c: Call)
    ensures var tool, e := c.tool, Steps(c)[|Steps(c)| - 1].entry;
            && e.latencyMs == c.latencyMs && e.tool == tool
            && match c.outcome
               case HitL1a => e == Entry("mcp", "copilot", "l1a", true, c.latencyMs, 200, tool)
               case HitL1b => e == Entry("mcp", "copilot", "l1b", true, c.latencyMs, 200, tool)
               case Miss => e == Entry("mcp", "copilot", "miss", false, c.latencyMs, 204, tool)
  {
  }

  function ApplyAll(s: Stats, ops: seq<Op>): Stats
    decreases |ops|
  {
    if ops == [] then s else ApplyAll(Apply(s, ops[0]), ops[1..])
  }

  /** The function itself, run without interference: exactly its steps, in order. */
  method RecordCacheLookupPrompt(state: PromptVisibilityState, layer: string, deflected: bool, latencyMs: nat,
                                 statusCode: nat, tool: string)
    modifies state
    ensures forall o: Outcome ::
              layer == LayerName(o) && deflected == !o.Miss? && statusCode == (if o.Miss? then 204 else 200) ==>
              state.View() == ApplyAll(old(state.View()), Steps(Call(tool, o, latencyMs, 0)))
  {
    if layer == "l1a" {
      state.RecordCacheEvent(tool, "l1a", "hit");
    } else if layer == "l1b" {
      state.RecordCacheEvent(tool, "l1a", "miss");
      state.RecordCacheEvent(tool, "l1b", "hit");
    } else if layer == "miss" {
      state.RecordCacheEvent(tool, "l1a", "miss");
      state.RecordCacheEvent(tool, "l1b", "miss");
    }
    state.RecordCacheEvent(tool, "l1", if deflected then "hit" else "miss");
    state.RecordPrompt(LookupEntry(layer, deflected, latencyMs, statusCode, tool));
    forall o: Outcome | layer == LayerName(o) && deflected == !o.Miss? && statusCode == (if o.Miss? then 204 else 200)
      ensures state.View() == ApplyAll(old(state.View()), Steps(Call(tool, o, latencyMs, 0)))
    {
      StepsUnfold(old(state.View()), Call(tool, o, latencyMs, 0));
    }
  }

  lemma {:induction false} StepsUnfold(s: Stats, c: Call)
    ensures var ops := Steps(c);
            ApplyAll(s, ops) ==
            if |ops| == 3 then Apply(Apply(Apply(s, ops[0]), ops[1]), ops[2])
            else Apply(Apply(Apply(Apply(s, ops[0]), ops[1]), ops[2]), ops[3])
  {
    var ops := Steps(c);
    ApplyOne(s, ops, 0);
    var s1 := Apply(s, ops[0]);
    ApplyOne(s1, ops, 1);
    var s2 := Apply(s1, ops[1]);
    ApplyOne(s2, ops, 2);
    if |ops| == 4 {
      ApplyOne(Apply(s2, ops[2]), ops, 3);
    }
  }

  lemma {:induction false} ApplyOne(s: Stats, ops: seq<Op>, i: nat)
    requires i < |ops|
    ensures ApplyAll(s, ops[i..]) == ApplyAll(Apply(s, ops[i]), ops[i + 1..])
    ensures ops[0..] == ops && (i + 1 == |ops| ==> ApplyAll(s, ops[i..]) == Apply(s, ops[i]))
  {
    assert ops[i..][1..] == ops[i + 1..];
  }

  // ---------------------------------------------------------- interleavings

  /** A lookup being recorded; `pc` of its updates are done. */
  datatype Call = Call(tool: string, outcome: Outcome, latencyMs: nat, pc: nat)

  datatype System = System(calls: seq<Call>, stats: Stats)

  /** A scheduling choice: a lookup begins, or lookup `i` makes its next update. */
  datatype Choice = Begin(tool: string, outcome: Outcome, latencyMs: nat) | Step(i: nat)

  function Next(s: System, choice: Choice): System
  {
    match choice
    case Begin(tool, outcome, latencyMs) => s.(calls := s.calls + [Call(tool, outcome, latencyMs, 0)])
    case Step(i) =>
      if i < |s.calls| && s.calls[i].pc < Length(s.calls[i].outcome) then
        var c := s.calls[i];
        System(s.calls[i := c.(pc := c.pc + 1)], Apply(s.stats, Steps(c)[c.pc]))
      else s
  }

  function Execute(schedule: seq<Choice>): System
  {
    if schedule == [] then System([], EMPTY)
    else Next(Execute(schedule[..|schedule| - 1]), schedule[|schedule| - 1])
  }

  // ------------------------------------------------- counting what is done

  /** The lookup counters of an agent: its requests and its cache counters. */
  datatype Slot = Requests | Cache(counter: Counter)

  function Value(a: Agent, slot: Slot): nat
  {
    match slot
    case Requests => a.requests
    case Cache(L1Hit) => a.cacheHits
    case Cache(L1Miss) => a.cacheMisses
    case Cache(L1aHit) => a.l1aHits
    case Cache(L1aMiss) => a.l1aMisses
    case Cache(L1bHit) => a.l1bHits
    case Cache(L1bMiss) => a.l1bMisses
    case Cache(Unknown) => 0
  }

  /** The counter one locked update of a lookup adds to. */
  function SlotOf(op: Op): Slot
  {
    match op
    case Recorded(_) => Requests
    case CacheEvents(_, layer, outcome) => Cache(CounterOf(layer, outcome))
    case _ => Cache(Unknown)
  }

  function ToolOf(op: Op): string
  {
    match op
    case Recorded(e) => e.tool
    case CacheEvents(t, _, _) => t
    case Retried(t, _) => t
    case Failed(t) => t
  }

  function One(b: bool): nat { if b then 1 else 0 }

  /** How often the first `pc` updates of a call have added to a counter. */
  function Done(c: Call, pc: nat, slot: Slot): nat
    requires pc <= Length(c.outcome)
  {
    if pc == 0 then 0 else Done(c, pc - 1, slot) + One(SlotOf(Steps(c)[pc - 1]) == slot)
  }

  predicate InRange(calls: seq<Call>)
  {
    forall i :: 0 <= i < |calls| ==> calls[i].pc <= Length(calls[i].outcome)
  }

  function Total(calls: seq<Call>, tool: string, slot: Slot): nat
    requires InRange(calls)
  {
    if calls == [] then 0
    else
      var n := |calls| - 1;
      Total(calls[..n], tool, slot) + if calls[n].tool == tool then Done(calls[n], calls[n].pc, slot) else 0
  }

  /** Calls of the tool that have made their first update but not their last. */
  function InFlight(calls: seq<Call>, tool: string): nat
  {
    if calls == [] then 0
    else
      var n := |calls| - 1;
      InFlight(calls[..n], tool) + One(calls[n].tool == tool && 0 < calls[n].pc < Length(calls[n].outcome))
  }

  ghost predicate Counted(s: System)
  {
    && InRange(s.calls)
    && forall tool, slot: Slot :: tool != "" && slot != Cache(Unknown) ==>
         Value(AgentOf(s.stats.byAgent, tool), slot) == Total(s.calls, tool, slot)
  }

  lemma CountAdds(a: Agent, counter: Counter, slot: Slot)
    requires slot != Cache(Unknown)
    ensures Value(Count(a, counter), slot) == Value(a, slot) + One(slot == Cache(counter))
  {
  }

  lemma AgentAfter(s: Stats, op: Op, tool: string)
    requires tool != "" && (op.Recorded? || op.CacheEvents?)
    ensures AgentOf(Apply(s, op).byAgent, tool) ==
            var a := AgentOf(s.byAgent, tool);
            if tool != ToolOf(op) then a
            else if op.Recorded? then a.(requests := a.requests + 1, latencyMs := a.latencyMs + op.entry.latencyMs)
            else Count(a, CounterOf(op.layer, op.outcome))
  {
  }

  /** One update adds one to its own counter of its own tool, and changes no other. */
  lemma ApplyAdds(s: Stats, op: Op, tool: string, slot: Slot)
    requires tool != "" && slot != Cache(Unknown) && (op.Recorded? || op.CacheEvents?)
    ensures Value(AgentOf(Apply(s, op).byAgent, tool), slot) ==
            Value(AgentOf(s.byAgent, tool), slot) + One(tool == ToolOf(op) && slot == SlotOf(op))
  {
    AgentAfter(s, op, tool);
    if op.CacheEvents? {
      CountAdds(AgentOf(s.byAgent, tool), CounterOf(op.layer, op.outcome), slot);
    }
  }

  lemma {:induction false} DoneIgnoresPc(c: Call, c': Call, pc: nat, slot: Slot)
    requires c' == c.(pc := c'.pc) && pc <= Length(c.outcome)
    ensures Done(c', pc, slot) == Done(c, pc, slot)
  {
    if pc == 0 {
    } else {
      DoneIgnoresPc(c, c', pc - 1, slot);
    }
  }

  lemma {:induction false} TotalAdvances(calls: seq<Call>, i: nat, c': Call, tool: string, slot: Slot)
    requires InRange(calls) && i < |calls| && calls[i].pc < Length(calls[i].outcome)
    requires c' == calls[i].(pc := calls[i].pc + 1)
    ensures InRange(calls[i := c'])
    ensures Total(calls[i := c'], tool, slot) ==
            Total(calls, tool, slot) + One(tool == calls[i].tool && slot == SlotOf(Steps(calls[i])[calls[i].pc]))
  {
    var n := |calls| - 1;
    if i < n {
      assert calls[i := c'][..n] == calls[..n][i := c'];
      TotalAdvances(calls[..n], i, c', tool, slot);
    } else {
      assert calls[i := c'][..n] == calls[..n];
      DoneIgnoresPc(calls[i], c', calls[i].pc, slot);
    }
  }

  lemma StepOps(c: Call, k: nat)
    requires k < Length(c.outcome)
    ensures (Steps(c)[k].Recorded? || Steps(c)[k].CacheEvents?) && ToolOf(Steps(c)[k]) == c.tool
  {
  }

  lemma StepCounted(s: System, i: nat)
    requires Counted(s) && i < |s.calls| && s.calls[i].pc < Length(s.calls[i].outcome)
    ensures Counted(Next(s, Step(i)))
  {
    var c := s.calls[i];
    var op, c' := Steps(c)[c.pc], c.(pc := c.pc + 1);
    StepOps(c, c.pc);
    TotalAdvances(s.calls, i, c', "", Requests);
    forall tool, slot: Slot | tool != "" && slot != Cache(Unknown)
      ensures Value(AgentOf(Apply(s.stats, op).byAgent, tool), slot) == Total(s.calls[i := c'], tool, slot)
    {
      ApplyAdds(s.stats, op, tool, slot);
      TotalAdvances(s.calls, i, c', tool, slot);
    }
  }

  lemma BeginCounted(s: System, c: Call)
    requires Counted(s) && c.pc == 0
    ensures Counted(s.(calls := s.calls + [c]))
  {
    var calls := s.calls + [c];
    assert calls[..|s.calls|] == s.calls;
    forall tool, slot: Slot | tool != "" && slot != Cache(Unknown)
      ensures Value(AgentOf(s.stats.byAgent, tool), slot) == Total(calls, tool, slot)
    {
    }
  }

  lemma {:induction false} AlwaysCounted(schedule: seq<Choice>)
    ensures Counted(Execute(schedule))
  {
    if schedule == [] {
    } else {
      var s, choice := Execute(schedule[..|schedule| - 1]), schedule[|schedule| - 1];
      AlwaysCounted(schedule[..|schedule| - 1]);
      match choice
      case Begin(tool, outcome, latencyMs) => BeginCounted(s, Call(tool, outcome, latencyMs, 0));
      case Step(i) =>
        if i < |s.calls| && s.calls[i].pc < Length(s.calls[i].outcome) {
          StepCounted(s, i);
        }
    }
  }

  lemma CounterNames()
    ensures CounterOf("l1", "hit") == L1Hit && CounterOf("l1", "miss") == L1Miss
    ensures CounterOf("l1a", "hit") == L1aHit && CounterOf("l1a", "miss") == L1aMiss
    ensures CounterOf("l1b", "hit") == L1bHit && CounterOf("l1b", "miss") == L1bMiss
  {
  }

  /** The counters each step of each outcome adds to. */
  lemma SlotsOfSteps(c: Call)
    ensures c.outcome.HitL1a? ==>
              SlotOf(Steps(c)[0]) == Cache(L1aHit) && SlotOf(Steps(c)[1]) == Cache(L1Hit)
              && SlotOf(Steps(c)[2]) == Requests
    ensures c.outcome.HitL1b? ==>
              SlotOf(Steps(c)[0]) == Cache(L1aMiss) && SlotOf(Steps(c)[1]) == Cache(L1bHit)
              && SlotOf(Steps(c)[2]) == Cache(L1Hit) && SlotOf(Steps(c)[3]) == Requests
    ensures c.outcome.Miss? ==>
              SlotOf(Steps(c)[0]) == Cache(L1aMiss) && SlotOf(Steps(c)[1]) == Cache(L1bMiss)
              && SlotOf(Steps(c)[2]) == Cache(L1Miss) && SlotOf(Steps(c)[3]) == Requests
  {
    CounterNames();
  }

  /** A call has added to a counter once it is past the step that does so. */
  lemma {:induction false} DoneValue(c: Call, pc: nat, slot: Slot)
    requires pc <= Length(c.outcome)
    ensures Done(c, pc, slot) ==
            match (c.outcome, slot)
            case (HitL1a, Cache(L1aHit)) => One(pc > 0)
            case (HitL1a, Cache(L1Hit)) => One(pc > 1)
            case (HitL1a, Requests) => One(pc > 2)
            case (HitL1b, Cache(L1aMiss)) => One(pc > 0)
            case (HitL1b, Cache(L1bHit)) => One(pc > 1)
            case (HitL1b, Cache(L1Hit)) => One(pc > 2)
            case (HitL1b, Requests) => One(pc > 3)
            case (Miss, Cache(L1aMiss)) => One(pc > 0)
            case (Miss, Cache(L1bMiss)) => One(pc > 1)
            case (Miss, Cache(L1Miss)) => One(pc > 2)
            case (Miss, Requests) => One(pc > 3)
            case _ => 0
  {
    if pc == 0 {
    } else {
      DoneValue(c, pc - 1, slot);
      SlotsOfSteps(c);
    }
  }

  /** The orders between the seven counters, with `open` calls under way. */
  predicate Ordered(requests: nat, hits: nat, misses: nat, aHits: nat, aMisses: nat, bHits: nat, bMisses: nat,
                    open: nat)
  {
    && requests <= hits + misses <= aHits + aMisses
    && hits <= aHits + bHits
    && misses <= bMisses
    && bHits + bMisses <= aMisses
    && aHits + aMisses == requests + open
  }

  lemma {:induction false} TotalsOrdered(calls: seq<Call>, tool: string)
    requires InRange(calls)
    ensures Ordered(Total(calls, tool, Requests), Total(calls, tool, Cache(L1Hit)), Total(calls, tool, Cache(L1Miss)),
                    Total(calls, tool, Cache(L1aHit)), Total(calls, tool, Cache(L1aMiss)),
                    Total(calls, tool, Cache(L1bHit)), Total(calls, tool, Cache(L1bMiss)), InFlight(calls, tool))
  {
    if calls == [] {
    } else {
      var n := |calls| - 1;
      TotalsOrdered(calls[..n], tool);
      CallOrdered(calls[n]);
    }
  }

  lemma {:induction false} CallOrdered(c: Call)
    requires c.pc <= Length(c.outcome)
    ensures Ordered(Done(c, c.pc, Requests), Done(c, c.pc, Cache(L1Hit)), Done(c, c.pc, Cache(L1Miss)),
                    Done(c, c.pc, Cache(L1aHit)), Done(c, c.pc, Cache(L1aMiss)),
                    Done(c, c.pc, Cache(L1bHit)), Done(c, c.pc, Cache(L1bMiss)), One(0 < c.pc < Length(c.outcome)))
  {
    DoneValue(c, c.pc, Requests);
    DoneValue(c, c.pc, Cache(L1Hit));
    DoneValue(c, c.pc, Cache(L1Miss));
    DoneValue(c, c.pc, Cache(L1aHit));
    DoneValue(c, c.pc, Cache(L1aMiss));
    DoneValue(c, c.pc, Cache(L1bHit));
    DoneValue(c, c.pc, Cache(L1bMiss));
  }

  /**
   Whatever the interleaving, a reader of the statistics sees, for every tool, these orders
   between the counters. The calls past their first update but not finished are exactly the
   gap between the L1a counters and the requests; when there are none all are equalities.
   */
  lemma {:induction false} EveryInterleaving(schedule: seq<Choice>, tool: string)
    requires tool != ""
    ensures var s := Execute(schedule);
            var a, open := AgentOf(s.stats.byAgent, tool), InFlight(s.calls, tool);
            && a.requests <= a.cacheHits + a.cacheMisses <= a.l1aHits + a.l1aMisses
            && a.cacheHits <= a.l1aHits + a.l1bHits
            && a.cacheMisses <= a.l1bMisses
            && a.l1bHits + a.l1bMisses <= a.l1aMisses
            && a.l1aHits + a.l1aMisses - a.requests == open
            && (open == 0 ==>
                  && a.requests == a.cacheHits + a.cacheMisses == a.l1aHits + a.l1aMisses
                  && a.cacheHits == a.l1aHits + a.l1bHits
                  && a.cacheMisses == a.l1bMisses
                  && a.l1bHits + a.l1bMisses == a.l1aMisses)
  {
    AlwaysCounted(schedule);
    CountersOrdered(Execute(schedule), tool);
  }

  lemma {:induction false} CountersOrdered(s: System, tool: string)
    requires Counted(s) && tool != ""
    ensures var a := AgentOf(s.stats.byAgent, tool);
            Ordered(a.requests, a.cacheHits, a.cacheMisses, a.l1aHits, a.l1aMisses, a.l1bHits, a.l1bMisses,
                    InFlight(s.calls, tool))
  {
    TotalsOrdered(s.calls, tool);
    var a := AgentOf(s.stats.byAgent, tool);
    assert forall slot: Slot :: slot != Cache(Unknown) ==> Value(a, slot) == Total(s.calls, tool, slot);
    assert Value(a, Requests) == a.requests;
    assert Value(a, Cache(L1Hit)) == a.cacheHits && Value(a, Cache(L1Miss)) == a.cacheMisses;
    assert Value(a, Cache(L1aHit)) == a.l1aHits && Value(a, Cache(L1aMiss)) == a.l1aMisses;
    assert Value(a, Cache(L1bHit)) == a.l1bHits && Value(a, Cache(L1bMiss)) == a.l1bMisses;
  }

  // ------------------------------------------------- the prompts of the lookups

  predicate Finished(c: Call) { c.pc >= Length(c.outcome) }

  /** How many lookups have finished with this outcome. */
  function FinishedAs(calls: seq<Call>, o: Outcome): nat
  {
    if calls == [] then 0
    else
      var last := calls[|calls| - 1];
      FinishedAs(calls[..|calls| - 1], o) + One(Finished(last) && last.outcome == o)
  }

  function CountAt(m: map<string, nat>, key: string): nat { if key in m then m[key] else 0 }

  /** The prompt totals are those of the finished lookups, by outcome. */
  ghost predicate Tallied(stats: Stats, l1a: nat, l1b: nat, miss: nat)
  {
    && stats.total == l1a + l1b + miss && stats.deflected == l1a + l1b
    && CountAt(stats.byLayer, "l1a") == l1a && CountAt(stats.byLayer, "l1b") == l1b
    && CountAt(stats.byLayer, "miss") == miss && stats.byLayer.Keys <= {"l1a", "l1b", "miss"}
    && CountAt(stats.bySurface, "mcp") == stats.total && stats.bySurface.Keys <= {"mcp"}
    && CountAt(stats.byClient, "copilot") == stats.total && stats.byClient.Keys <= {"copilot"}
  }

  lemma {:induction false} FinishedAdvances(calls: seq<Call>, i: nat, c': Call, o: Outcome)
    requires i < |calls| && !Finished(calls[i]) && c' == calls[i].(pc := calls[i].pc + 1)
    ensures FinishedAs(calls[i := c'], o) == FinishedAs(calls, o) + One(Finished(c') && c'.outcome == o)
  {
    var n := |calls| - 1;
    if i < n {
      assert calls[i := c'][..n] == calls[..n][i := c'];
      FinishedAdvances(calls[..n], i, c', o);
    } else {
      assert calls[i := c'][..n] == calls[..n];
    }
  }

  /** Each step but the last leaves the prompt totals as they are; the last one adds its prompt. */
  lemma StepTallies(stats: Stats, c: Call, l1a: nat, l1b: nat, miss: nat)
    requires Tallied(stats, l1a, l1b, miss) && !Finished(c)
    ensures var last := c.pc + 1 == Length(c.outcome);
            Tallied(Apply(stats, Steps(c)[c.pc]), l1a + One(last && c.outcome.HitL1a?),
                    l1b + One(last && c.outcome.HitL1b?), miss + One(last && c.outcome.Miss?))
  {
    if c.pc + 1 == Length(c.outcome) {
      assert Steps(c)[c.pc] == Final(c);
    } else {
      assert Steps(c)[c.pc].CacheEvents?;
    }
  }

  ghost predicate AllTallied(s: System)
  {
    Tallied(s.stats, FinishedAs(s.calls, HitL1a), FinishedAs(s.calls, HitL1b), FinishedAs(s.calls, Miss))
  }

  lemma {:induction false} FinishedBegins(calls: seq<Call>, c: Call, o: Outcome)
    requires c.pc == 0
    ensures FinishedAs(calls + [c], o) == FinishedAs(calls, o)
  {
    assert (calls + [c])[..|calls|] == calls;
  }

  lemma {:induction false} AdvanceTallies(s: System, i: nat)
    requires AllTallied(s) && i < |s.calls| && !Finished(s.calls[i])
    ensures AllTallied(Next(s, Step(i)))
  {
    var c := s.calls[i];
    var c' := c.(pc := c.pc + 1);
    var l1a, l1b, miss := FinishedAs(s.calls, HitL1a), FinishedAs(s.calls, HitL1b), FinishedAs(s.calls, Miss);
    var s' := Next(s, Step(i));
    assert s' == System(s.calls[i := c'], Apply(s.stats, Steps(c)[c.pc]));
    var last := c.pc + 1 == Length(c.outcome);
    assert Tallied(s'.stats, l1a + One(last && c.outcome.HitL1a?), l1b + One(last && c.outcome.HitL1b?),
                   miss + One(last && c.outcome.Miss?)) by {
      StepTallies(s.stats, c, l1a, l1b, miss);
    }
    assert Finished(c') <==> last;
    FinishedAdvances(s.calls, i, c', HitL1a);
    FinishedAdvances(s.calls, i, c', HitL1b);
    FinishedAdvances(s.calls, i, c', Miss);
  }

  lemma {:induction false} NextTallies(s: System, choice: Choice)
    requires AllTallied(s)
    ensures AllTallied(Next(s, choice))
  {
    match choice {
      case Begin(tool, outcome, latencyMs) =>
        var c := Call(tool, outcome, latencyMs, 0);
        FinishedBegins(s.calls, c, HitL1a);
        FinishedBegins(s.calls, c, HitL1b);
        FinishedBegins(s.calls, c, Miss);
      case Step(i) =>
        if i < |s.calls| && s.calls[i].pc < Length(s.calls[i].outcome) {
          AdvanceTallies(s, i);
        }
    }
  }

  /**
   In every interleaving the recorded prompts are those of the finished lookups: the total is
   their number, the deflected ones are the hits, and each is counted under its own layer, the
   surface `mcp` and the client `copilot`.
   */
  lemma {:induction false} PromptsOfFinished(schedule: seq<Choice>)
    ensures var s := Execute(schedule);
            Tallied(s.stats, FinishedAs(s.calls, HitL1a), FinishedAs(s.calls, HitL1b), FinishedAs(s.calls, Miss))
  {
    if schedule == [] {
    } else {
      var init := schedule[..|schedule| - 1];
      PromptsOfFinished(init);
      NextTallies(Execute(init), schedule[|schedule| - 1]);
    }
  }
}
