/**
 `PromptVisibilityState` of `src/visibility.rs`. `Stats` is its value; the class updates the
 same fields in place. Counters are 64-bit in the source and unbounded here.
 */
module Visibility {
  import opened Utils

  const RECENT_CAPACITY := 200

  datatype Entry = Entry(
    surface: string, client: string, layer: string, deflected: bool, latencyMs: nat, statusCode: nat, tool: string)

  datatype Agent = Agent(
    requests: nat, cacheHits: nat, cacheMisses: nat, l1aHits: nat, l1aMisses: nat, l1bHits: nat, l1bMisses: nat,
    latencyMs: nat, retries: nat, errors: nat)

  const NEW_AGENT := Agent(0, 0, 0, 0, 0, 0, 0, 0, 0, 0)

  datatype Stats = Stats(
    total: nat, deflected: nat,
    byLayer: map<string, nat>, bySurface: map<string, nat>, byClient: map<string, nat>, byTool: map<string, nat>,
    byAgent: map<string, Agent>, recent: seq<Entry>)

  const EMPTY := Stats(0, 0, map[], map[], map[], map[], map[], [])

  /** `*map.entry(key).or_insert(0) += 1` */
  function Bump(m: map<string, nat>, key: string): map<string, nat>
  {
    m[key := 1 + if key in m then m[key] else 0]
  }

  /** `map.entry(tool).or_default()` */
  function AgentOf(m: map<string, Agent>, tool: string): Agent
  {
    if tool in m then m[tool] else NEW_AGENT
  }

  // ---------------------------------------------------------- the operations

  function AddRequest(m: map<string, Agent>, e: Entry): map<string, Agent>
  {
    var agent := AgentOf(m, e.tool);
    m[e.tool := agent.(requests := agent.requests + 1, latencyMs := agent.latencyMs + e.latencyMs)]
  }

  /** The deque after dropping what is over its capacity from the back. */
  function Newest(front: seq<Entry>): seq<Entry>
  {
    if |front| > RECENT_CAPACITY then front[..RECENT_CAPACITY] else front
  }

  function Record(s: Stats, e: Entry): Stats
  {
    Stats(s.total + 1,
          s.deflected + if e.deflected then 1 else 0,
          Bump(s.byLayer, e.layer), Bump(s.bySurface, e.surface), Bump(s.byClient, e.client),
          if e.tool == "" then s.byTool else Bump(s.byTool, e.tool),
          if e.tool == "" then s.byAgent
          else AddRequest(s.byAgent, e),
          Newest([e] + s.recent))
  }

  /** The six cache counters of an agent, and none for a label pair that is not known. */
  datatype Counter = L1Hit | L1Miss | L1aHit | L1aMiss | L1bHit | L1bMiss | Unknown

  function CounterOf(layer: string, outcome: string): Counter
  {
    match (layer, outcome)
    case ("l1", "hit") => L1Hit
    case ("l1", "miss") => L1Miss
    case ("l1a", "hit") => L1aHit
    case ("l1a", "miss") => L1aMiss
    case ("l1b", "hit") => L1bHit
    case ("l1b", "miss") => L1bMiss
    case _ => Unknown
  }

  function Count(a: Agent, counter: Counter): Agent
  {
    match counter
    case L1Hit => a.(cacheHits := a.cacheHits + 1)
    case L1Miss => a.(cacheMisses := a.cacheMisses + 1)
    case L1aHit => a.(l1aHits := a.l1aHits + 1)
    case L1aMiss => a.(l1aMisses := a.l1aMisses + 1)
    case L1bHit => a.(l1bHits := a.l1bHits + 1)
    case L1bMiss => a.(l1bMisses := a.l1bMisses + 1)
    case Unknown => a
  }

  function CacheEvent(s: Stats, tool: string, layer: string, outcome: string): Stats
  {
    if tool == "" then s
    else s.(byAgent := s.byAgent[tool := Count(AgentOf(s.byAgent, tool), CounterOf(layer, outcome))])
  }

  /** `attempts` is the 1-based count of tries; the first is not a retry. */
  function Retry(s: Stats, tool: string, attempts: nat): Stats
  {
    var a := AgentOf(s.byAgent, tool);
    if tool == "" then s
    else s.(byAgent := s.byAgent[tool := a.(retries := a.retries + if attempts > 0 then attempts - 1 else 0)])
  }

  function AgentError(s: Stats, tool: string): Stats
  {
    var a := AgentOf(s.byAgent, tool);
    if tool == "" then s else s.(byAgent := s.byAgent[tool := a.(errors := a.errors + 1)])
  }

  function Snapshot(s: Stats, limit: nat): seq<Entry>
  {
    var n := if limit < RECENT_CAPACITY then limit else RECENT_CAPACITY;
    if n < |s.recent| then s.recent[..n] else s.recent
  }

  class PromptVisibilityState {
    var total: nat
    var deflected: nat
    var byLayer: map<string, nat>
    var bySurface: map<string, nat>
    var byClient: map<string, nat>
    var byTool: map<string, nat>
    var byAgent: map<string, Agent>
    var recent: seq<Entry>

    function View(): Stats
      reads this
    {
      Stats(total, deflected, byLayer, bySurface, byClient, byTool, byAgent, recent)
    }

    constructor ()
      ensures View() == EMPTY
    {
      total, deflected := 0, 0;
      byLayer, bySurface, byClient, byTool := map[], map[], map[], map[];
      byAgent, recent := map[], [];
    }

    method RecordPrompt(e: Entry)
      modifies this
      ensures View() == Record(old(View()), e)
    {
      total := total + 1;
      if e.deflected {
        deflected := deflected + 1;
      }
      byLayer := Bump(byLayer, e.layer);
      bySurface := Bump(bySurface, e.surface);
      byClient := Bump(byClient, e.client);
      RecordTool(e);
      PushRecent(e);
    }

    /** Entries that name no tool are not counted by tool. */
    method RecordTool(e: Entry)
      modifies `byTool, `byAgent
      ensures byTool == if e.tool == "" then old(byTool) else Bump(old(byTool), e.tool)
      ensures byAgent == if e.tool == "" then old(byAgent) else AddRequest(old(byAgent), e)
    {
      if e.tool == "" {
        return;
      }
      byTool := Bump(byTool, e.tool);
      byAgent := AddRequest(byAgent, e);
    }

    /** `push_front`, then `pop_back` while the deque is over its capacity. */
    method PushRecent(e: Entry)
      modifies `recent
      ensures recent == Newest([e] + old(recent))
    {
      recent := [e] + recent;
      ghost var front := recent;
      while |recent| > RECENT_CAPACITY
        invariant recent <= front
        invariant if |front| > RECENT_CAPACITY then |recent| >= RECENT_CAPACITY else recent == front
      {
        recent := recent[..|recent| - 1];
      }
    }

    method RecordCacheEvent(tool: string, layer: string, outcome: string)
      modifies this
      ensures View() == CacheEvent(old(View()), tool, layer, outcome)
    {
      if tool == "" {
        return;
      }
      byAgent := byAgent[tool := Count(AgentOf(byAgent, tool), CounterOf(layer, outcome))];
    }

    method RecordRetry(tool: string, attempts: nat)
      modifies this
      ensures View() == Retry(old(View()), tool, attempts)
    {
      if tool == "" {
        return;
      }
      var agent := AgentOf(byAgent, tool);
      byAgent := byAgent[tool := agent.(retries := agent.retries + if attempts > 0 then attempts - 1 else 0)];
    }

    method RecordError(tool: string)
      modifies this
      ensures View() == AgentError(old(View()), tool)
    {
      if tool == "" {
        return;
      }
      var agent := AgentOf(byAgent, tool);
      byAgent := byAgent[tool := agent.(errors := agent.errors + 1)];
    }
  }

  // ------------------------------------------------- statistics over any run

  /** One locked operation on the statistics. */
  datatype Op =
    | Recorded(entry: Entry)
    | CacheEvents(tool: string, layer: string, outcome: string)
    | Retried(tool: string, attempts: nat)
    | Failed(tool: string)

  function Apply(s: Stats, op: Op): Stats
  {
    match op
    case Recorded(e) => Record(s, e)
    case CacheEvents(t, l, o) => CacheEvent(s, t, l, o)
    case Retried(t, n) => Retry(s, t, n)
    case Failed(t) => AgentError(s, t)
  }

  function Run(ops: seq<Op>): Stats
  {
    if ops == [] then EMPTY else Apply(Run(ops[..|ops| - 1]), ops[|ops| - 1])
  }

  /** The prompts recorded in a run, oldest first. */
  function Entries(ops: seq<Op>): seq<Entry>
  {
    if ops == [] then []
    else
      var rest := Entries(ops[..|ops| - 1]);
      if ops[|ops| - 1].Recorded? then rest + [ops[|ops| - 1].entry] else rest
  }

  function Reverse(es: seq<Entry>): (r: seq<Entry>)
    ensures |r| == |es| && forall i :: 0 <= i < |r| ==> r[i] == es[|es| - 1 - i]
  {
    if es == [] then [] else [es[|es| - 1]] + Reverse(es[..|es| - 1])
  }

  /** The four text columns that prompts are counted by. */
  datatype Key = ByLayer | BySurface | ByClient | ByTool

  function KeyOf(e: Entry, key: Key): string
  {
    match key
    case ByLayer => e.layer
    case BySurface => e.surface
    case ByClient => e.client
    case ByTool => e.tool
  }

  function Column(es: seq<Entry>, key: Key): multiset<string>
  {
    if es == [] then multiset{} else Column(es[..|es| - 1], key) + multiset{KeyOf(es[|es| - 1], key)}
  }

  function Deflected(es: seq<Entry>): nat
  {
    if es == [] then 0 else Deflected(es[..|es| - 1]) + if es[|es| - 1].deflected then 1 else 0
  }

  function WithTool(es: seq<Entry>): seq<Entry>
  {
    if es == [] then []
    else
      var rest := WithTool(es[..|es| - 1]);
      if es[|es| - 1].tool != "" then rest + [es[|es| - 1]] else rest
  }

  /** The counter map holds exactly the multiplicities of the multiset. */
  ghost predicate Tallies(m: map<string, nat>, ms: multiset<string>)
  {
    forall k :: (k in m <==> k in ms) && (k in m ==> m[k] == ms[k])
  }

  ghost function Sum(m: map<string, nat>): nat
  {
    if m == map[] then 0
    else
      var k :| k in m;
      m[k] + Sum(m - {k})
  }

  lemma {:induction false} SumOfTally(m: map<string, nat>, ms: multiset<string>)
    requires Tallies(m, ms)
    ensures Sum(m) == |ms|
    decreases m
  {
    if m == map[] {
      assert forall k :: k !in ms;
      assert ms == multiset{};
    } else {
      var k :| k in m && Sum(m) == m[k] + Sum(m - {k});
      SumOfTally(m - {k}, ms[k := 0]);
    }
  }

  lemma BumpTallies(m: map<string, nat>, ms: multiset<string>, key: string)
    requires Tallies(m, ms)
    ensures Tallies(Bump(m, key), ms + multiset{key})
  {
  }

  lemma {:induction false} ColumnSize(es: seq<Entry>, key: Key)
    ensures |Column(es, key)| == |es|
  {
    if es == [] {
    } else {
      ColumnSize(es[..|es| - 1], key);
    }
  }

  /** Agent requests and tool counts agree for every tool. */
  ghost predicate AgentsAgree(s: Stats)
  {
    && "" !in s.byTool
    && forall t :: AgentOf(s.byAgent, t).requests == if t in s.byTool then s.byTool[t] else 0
  }

  ghost predicate ExactCounts(s: Stats, es: seq<Entry>)
  {
    && s.total == |es|
    && s.deflected == Deflected(es)
    && Tallies(s.byLayer, Column(es, ByLayer))
    && Tallies(s.bySurface, Column(es, BySurface))
    && Tallies(s.byClient, Column(es, ByClient))
  }

  ghost predicate ExactTools(s: Stats, es: seq<Entry>)
  {
    && Tallies(s.byTool, Column(WithTool(es), ByTool))
    && AgentsAgree(s)
    && s.recent == Reverse(es)[..if |es| < RECENT_CAPACITY then |es| else RECENT_CAPACITY]
  }

  /** Exactly what the statistics hold after any run, in terms of the prompts recorded in it. */
  ghost predicate Exact(s: Stats, es: seq<Entry>)
  {
    ExactCounts(s, es) && ExactTools(s, es)
  }

  lemma {:induction false} Pushed(es: seq<Entry>, e: Entry, key: Key)
    ensures Column(es + [e], key) == Column(es, key) + multiset{KeyOf(e, key)}
    ensures Deflected(es + [e]) == Deflected(es) + if e.deflected then 1 else 0
    ensures WithTool(es + [e]) == if e.tool != "" then WithTool(es) + [e] else WithTool(es)
    ensures Reverse(es + [e]) == [e] + Reverse(es)
  {
    assert (es + [e])[..|es|] == es;
  }

  lemma {:induction false} RecordTallies(m: map<string, nat>, es: seq<Entry>, e: Entry, key: Key)
    requires Tallies(m, Column(es, key))
    ensures Tallies(Bump(m, KeyOf(e, key)), Column(es + [e], key))
  {
    Pushed(es, e, key);
    BumpTallies(m, Column(es, key), KeyOf(e, key));
  }

  lemma RecordAgrees(s: Stats, e: Entry)
    requires AgentsAgree(s)
    ensures AgentsAgree(Record(s, e))
  {
  }

  lemma {:induction false} RecordRecent(s: Stats, es: seq<Entry>, e: Entry)
    requires s.recent == Reverse(es)[..if |es| < RECENT_CAPACITY then |es| else RECENT_CAPACITY]
    ensures Record(s, e).recent == Reverse(es + [e])[..if |es| + 1 < RECENT_CAPACITY then |es| + 1 else RECENT_CAPACITY]
  {
    Pushed(es, e, ByLayer);
  }

  lemma RecordCounts(s: Stats, es: seq<Entry>, e: Entry)
    requires ExactCounts(s, es)
    ensures ExactCounts(Record(s, e), es + [e])
  {
    RecordTallies(s.byLayer, es, e, ByLayer);
    RecordTallies(s.bySurface, es, e, BySurface);
    RecordTallies(s.byClient, es, e, ByClient);
    Pushed(es, e, ByLayer);
  }

  lemma RecordTools(s: Stats, es: seq<Entry>, e: Entry)
    requires ExactTools(s, es)
    ensures ExactTools(Record(s, e), es + [e])
  {
    RecordTallies(s.byTool, WithTool(es), e, ByTool);
    RecordAgrees(s, e);
    RecordRecent(s, es, e);
    Pushed(es, e, ByTool);
  }

  /** The other operations touch no count of prompts, only the agents' own counters. */
  lemma OtherKeeps(s: Stats, op: Op)
    requires AgentsAgree(s) && !op.Recorded?
    ensures AgentsAgree(Apply(s, op)) && Apply(s, op) == s.(byAgent := Apply(s, op).byAgent)
  {
  }

  lemma {:induction false} RunExact(ops: seq<Op>)
    ensures Exact(Run(ops), Entries(ops))
  {
    if ops == [] {
    } else {
      var n := |ops| - 1;
      RunExact(ops[..n]);
      if ops[n].Recorded? {
        RecordCounts(Run(ops[..n]), Entries(ops[..n]), ops[n].entry);
        RecordTools(Run(ops[..n]), Entries(ops[..n]), ops[n].entry);
      } else {
        OtherKeeps(Run(ops[..n]), ops[n]);
      }
    }
  }

  /**
   Conservation over any run of locked operations: the layer, surface and client counts each
   add up to the total, the tool counts to the number of prompts that named a tool, and every
   agent's requests equal its tool count.
   */
  lemma {:induction false} Conservation(ops: seq<Op>)
    ensures var s, es := Run(ops), Entries(ops);
            && Sum(s.byLayer) == Sum(s.bySurface) == Sum(s.byClient) == s.total == |es|
            && Sum(s.byTool) == |WithTool(es)|
            && s.deflected == Deflected(es)
            && AgentsAgree(s)
  {
    RunExact(ops);
    SumsExact(Run(ops), Entries(ops));
  }

  lemma {:induction false} SumsExact(s: Stats, es: seq<Entry>)
    requires Exact(s, es)
    ensures Sum(s.byLayer) == Sum(s.bySurface) == Sum(s.byClient) == |es|
    ensures Sum(s.byTool) == |WithTool(es)|
  {
    SumOfTally(s.byLayer, Column(es, ByLayer));
    SumOfTally(s.bySurface, Column(es, BySurface));
    SumOfTally(s.byClient, Column(es, ByClient));
    SumOfTally(s.byTool, Column(WithTool(es), ByTool));
    ColumnSize(es, ByLayer);
    ColumnSize(es, BySurface);
    ColumnSize(es, ByClient);
    ColumnSize(WithTool(es), ByTool);
  }

  /** A snapshot is the newest min(limit, 200, n) prompts of the run, newest first. */
  lemma {:induction false} SnapshotIsNewestFirst(ops: seq<Op>, limit: nat)
    ensures var es, shot := Entries(ops), Snapshot(Run(ops), limit);
            && |shot| == Min(limit, Min(200, |es|))
            && forall i :: 0 <= i < |shot| ==> shot[i] == es[|es| - 1 - i]
  {
    RunExact(ops);
    SnapshotOf(Run(ops), Entries(ops), limit);
  }

  lemma SnapshotOf(s: Stats, es: seq<Entry>, limit: nat)
    requires ExactTools(s, es)
    ensures |Snapshot(s, limit)| == Min(limit, Min(RECENT_CAPACITY, |es|))
    ensures forall i :: 0 <= i < |Snapshot(s, limit)| ==> Snapshot(s, limit)[i] == es[|es| - 1 - i]
  {
    var r := Reverse(es);
    assert |r| == |es|;
    assert forall i :: 0 <= i < |s.recent| ==> s.recent[i] == r[i];
  }

  function Min(a: nat, b: nat): nat { if a < b then a else b }

  // ------------------------------------------------------- every agent counter

  /** A quantity added up over the operations of a run. */
  function Total(ops: seq<Op>, f: Op -> nat): nat
  {
    if ops == [] then 0 else Total(ops[..|ops| - 1], f) + f(ops[|ops| - 1])
  }

  /** One for a cache event of the tool with these labels. */
  function Labelled(tool: string, layer: string, outcome: string): Op -> nat
  {
    (op: Op) => if op == CacheEvents(tool, layer, outcome) then 1 else 0
  }

  /** What the run says about a tool, read off its operations one counter at a time. */
  function AgentSpec(ops: seq<Op>, tool: string): Agent
  {
    Agent(
      Total(ops, (op: Op) => if op.Recorded? && op.entry.tool == tool then 1 else 0),
      Total(ops, Labelled(tool, "l1", "hit")), Total(ops, Labelled(tool, "l1", "miss")),
      Total(ops, Labelled(tool, "l1a", "hit")), Total(ops, Labelled(tool, "l1a", "miss")),
      Total(ops, Labelled(tool, "l1b", "hit")), Total(ops, Labelled(tool, "l1b", "miss")),
      Total(ops, (op: Op) => if op.Recorded? && op.entry.tool == tool then op.entry.latencyMs else 0),
      Total(ops, (op: Op) => if op.Retried? && op.tool == tool && op.attempts > 0 then op.attempts - 1 else 0),
      Total(ops, (op: Op) => if op.Failed? && op.tool == tool then 1 else 0))
  }

  lemma SpecStep(ops: seq<Op>, op: Op, tool: string)
    ensures AgentSpec(ops + [op], tool) ==
            var a := AgentSpec(ops, tool);
            match op
            case Recorded(e) =>
              if e.tool == tool then a.(requests := a.requests + 1, latencyMs := a.latencyMs + e.latencyMs) else a
            case CacheEvents(t, layer, outcome) => if t == tool then Count(a, CounterOf(layer, outcome)) else a
            case Retried(t, n) => if t == tool then a.(retries := a.retries + if n > 0 then n - 1 else 0) else a
            case Failed(t) => if t == tool then a.(errors := a.errors + 1) else a
  {
    assert (ops + [op])[..|ops|] == ops;
  }

  lemma ApplyAgent(s: Stats, op: Op, tool: string)
    requires tool != ""
    ensures AgentOf(Apply(s, op).byAgent, tool) ==
            var a := AgentOf(s.byAgent, tool);
            match op
            case Recorded(e) =>
              if e.tool == tool then a.(requests := a.requests + 1, latencyMs := a.latencyMs + e.latencyMs) else a
            case CacheEvents(t, layer, outcome) => if t == tool then Count(a, CounterOf(layer, outcome)) else a
            case Retried(t, n) => if t == tool then a.(retries := a.retries + if n > 0 then n - 1 else 0) else a
            case Failed(t) => if t == tool then a.(errors := a.errors + 1) else a
  {
  }

  /** After any run, each of a tool's ten counters is the total of exactly its own operations. */
  lemma {:induction false} AgentsExact(ops: seq<Op>, tool: string)
    requires tool != ""
    ensures AgentOf(Run(ops).byAgent, tool) == AgentSpec(ops, tool)
  {
    if ops == [] {
    } else {
      var init, last := ops[..|ops| - 1], ops[|ops| - 1];
      AgentsExact(init, tool);
      SpecStep(init, last, tool);
      ApplyAgent(Run(init), last, tool);
      assert init + [last] == ops;
    }
  }
}
