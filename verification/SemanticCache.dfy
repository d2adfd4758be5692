/**
 `src/vector_cache.rs`: the semantic cache. Clock readings are parameters in ticks; `insert`
 reads the clock while it holds the write lock and `search` while it holds the read lock, so
 readings never go back from one call to the next.
 */
module SemanticCache {
  import opened Utils
  import Cosine

  datatype Entry = Entry(embedding: seq<real>, response: string, createdAt: nat, scope: Option<string>)

  datatype Config = Config(threshold: real, ttl: nat, maxCapacity: nat)

  /** One search: the query vector, the session scope and the clock reading. */
  datatype Query = Query(embedding: seq<real>, scope: Option<string>, now: nat)

  // ------------------------------------------------- the two list operations

  /** `now.duration_since(created_at)`, which saturates at zero. */
  function Age(now: nat, createdAt: nat): nat
  {
    if now >= createdAt then now - createdAt else 0
  }

  predicate Live(e: Entry, now: nat, ttl: nat) { Age(now, e.createdAt) <= ttl }

  /** `entries.retain(|e| now.duration_since(e.created_at) <= ttl)` */
  function Retain(es: seq<Entry>, now: nat, ttl: nat): (r: seq<Entry>)
    ensures |r| <= |es|
  {
    if es == [] then []
    else
      var n := |es| - 1;
      Retain(es[..n], now, ttl) + (if Live(es[n], now, ttl) then [es[n]] else [])
  }

  function LastN(h: seq<Entry>, n: nat): (r: seq<Entry>)
    ensures |r| <= n && |r| <= |h|
  {
    if |h| <= n then h else h[|h| - n..]
  }

  predicate Sorted(h: seq<Entry>)
  {
    forall i, j :: 0 <= i < j < |h| ==> h[i].createdAt <= h[j].createdAt
  }

  /** The specification: of the last `maxCapacity` inserts, those unexpired at the last insert. */
  function Window(h: seq<Entry>, cfg: Config): seq<Entry>
  {
    if h == [] then [] else Retain(LastN(h, cfg.maxCapacity), h[|h| - 1].createdAt, cfg.ttl)
  }

  // -------------------------------------------------------------- retaining

  lemma {:induction false} RetainConcat(a: seq<Entry>, b: seq<Entry>, now: nat, ttl: nat)
    ensures Retain(a + b, now, ttl) == Retain(a, now, ttl) + Retain(b, now, ttl)
  {
    if b == [] {
      assert a + b == a;
    } else {
      var n := |b| - 1;
      assert (a + b)[..|a + b| - 1] == a + b[..n];
      RetainConcat(a, b[..n], now, ttl);
    }
  }

  /** Retaining twice, the second time later, is retaining once at the later time. */
  lemma {:induction false} RetainLater(es: seq<Entry>, t1: nat, t2: nat, ttl: nat)
    requires t1 <= t2
    ensures Retain(Retain(es, t1, ttl), t2, ttl) == Retain(es, t2, ttl)
  {
    if es == [] {
    } else {
      var n := |es| - 1;
      RetainLater(es[..n], t1, t2, ttl);
      var last := if Live(es[n], t1, ttl) then [es[n]] else [];
      RetainConcat(Retain(es[..n], t1, ttl), last, t2, ttl);
      if last != [] {
        assert last[..0] == [];
      }
    }
  }

  lemma {:induction false} RetainAll(es: seq<Entry>, now: nat, ttl: nat)
    requires forall i :: 0 <= i < |es| ==> Live(es[i], now, ttl)
    ensures Retain(es, now, ttl) == es
  {
    if es == [] {
    } else {
      RetainAll(es[..|es| - 1], now, ttl);
    }
  }

  lemma {:induction false} RetainNone(es: seq<Entry>, now: nat, ttl: nat)
    requires forall i :: 0 <= i < |es| ==> !Live(es[i], now, ttl)
    ensures Retain(es, now, ttl) == []
  {
    if es == [] {
    } else {
      RetainNone(es[..|es| - 1], now, ttl);
    }
  }

  /** In a list sorted by time the expired entries come first, so retaining drops a prefix. */
  lemma RetainIsSuffix(es: seq<Entry>, now: nat, ttl: nat) returns (k: nat)
    requires Sorted(es)
    ensures k <= |es| && Retain(es, now, ttl) == es[k..]
    ensures forall i :: 0 <= i < k ==> !Live(es[i], now, ttl)
    ensures forall i :: k <= i < |es| ==> Live(es[i], now, ttl)
  {
    k := 0;
    while k < |es| && !Live(es[k], now, ttl)
      invariant k <= |es|
      invariant forall i :: 0 <= i < k ==> !Live(es[i], now, ttl)
    {
      k := k + 1;
    }
    if k < |es| {
      LiveStays(es, k, now, ttl);
    }
    RetainFrom(es, k, now, ttl);
  }

  lemma LiveStays(es: seq<Entry>, k: nat, now: nat, ttl: nat)
    requires Sorted(es) && k < |es| && Live(es[k], now, ttl)
    ensures forall i :: k <= i < |es| ==> Live(es[i], now, ttl)
  {
    forall i | k <= i < |es| ensures Live(es[i], now, ttl) {
      assert es[k].createdAt <= es[i].createdAt;
    }
  }

  lemma {:induction false} RetainFrom(es: seq<Entry>, k: nat, now: nat, ttl: nat)
    requires k <= |es|
    requires forall i :: 0 <= i < k ==> !Live(es[i], now, ttl)
    requires forall i :: k <= i < |es| ==> Live(es[i], now, ttl)
    ensures Retain(es, now, ttl) == es[k..]
  {
    RetainNone(es[..k], now, ttl);
    RetainAll(es[k..], now, ttl);
    RetainConcat(es[..k], es[k..], now, ttl);
    assert es[..k] + es[k..] == es;
  }

  // ------------------------------------------------------------ one insert

  /** What `insert` makes of the stored vector: retain, drop the first if full, push. */
  function Inserted(es: seq<Entry>, e: Entry, cfg: Config): seq<Entry>
    requires cfg.maxCapacity >= 1
  {
    var kept := Retain(es, e.createdAt, cfg.ttl);
    (if |kept| >= cfg.maxCapacity then kept[1..] else kept) + [e]
  }

  lemma {:induction false} RetainOne(e: Entry, now: nat, ttl: nat)
    ensures Retain([e], now, ttl) == if Live(e, now, ttl) then [e] else []
  {
    assert [e][..0] == [];
  }

  /** Dropping the first of a full list before or after retaining comes to the same. */
  lemma DropThenRetain(last: seq<Entry>, now: nat, ttl: nat, c: nat)
    requires Sorted(last) && |last| <= c && c >= 1
    ensures var kept := Retain(last, now, ttl);
            (if |kept| >= c then kept[1..] else kept) == Retain(if |last| == c then last[1..] else last, now, ttl)
  {
    var k := RetainIsSuffix(last, now, ttl);
    if |last| == c {
      var first, rest := last[0], last[1..];
      assert last == [first] + rest;
      RetainConcat([first], rest, now, ttl);
      RetainOne(first, now, ttl);
      if k == 0 {
        assert last[0..] == last;
        assert Retain(rest, now, ttl) == rest by {
          assert [first] + Retain(rest, now, ttl) == [first] + rest;
          assert ([first] + Retain(rest, now, ttl))[1..] == ([first] + rest)[1..];
        }
      } else {
        assert !Live(first, now, ttl);
        assert [] + Retain(rest, now, ttl) == Retain(rest, now, ttl);
      }
    }
  }

  lemma SortedLast(h: seq<Entry>, e: Entry, c: nat)
    requires Sorted(h + [e])
    ensures Sorted(h) && Sorted(LastN(h, c))
    ensures forall i :: 0 <= i < |h| ==> h[i].createdAt <= e.createdAt
  {
    assert forall i :: 0 <= i < |h| ==> (h + [e])[i] == h[i];
    assert (h + [e])[|h|] == e;
  }

  lemma LastNPush(h: seq<Entry>, e: Entry, c: nat)
    requires c >= 1
    ensures LastN(h + [e], c) == (if |LastN(h, c)| == c then LastN(h, c)[1..] else LastN(h, c)) + [e]
  {
  }

  lemma WindowRetained(h: seq<Entry>, e: Entry, cfg: Config)
    requires cfg.maxCapacity >= 1 && Sorted(h + [e])
    ensures Retain(Window(h, cfg), e.createdAt, cfg.ttl) == Retain(LastN(h, cfg.maxCapacity), e.createdAt, cfg.ttl)
    ensures Window(h + [e], cfg) == Retain(LastN(h + [e], cfg.maxCapacity), e.createdAt, cfg.ttl)
  {
    SortedLast(h, e, cfg.maxCapacity);
    if h != [] {
      RetainLater(LastN(h, cfg.maxCapacity), h[|h| - 1].createdAt, e.createdAt, cfg.ttl);
    }
  }

  /** One insert turns the window of a history into the window of the longer history. */
  lemma InsertKeepsWindow(h: seq<Entry>, e: Entry, cfg: Config)
    requires cfg.maxCapacity >= 1 && Sorted(h + [e])
    ensures Inserted(Window(h, cfg), e, cfg) == Window(h + [e], cfg)
  {
    var c, now, ttl := cfg.maxCapacity, e.createdAt, cfg.ttl;
    var last := LastN(h, c);
    var dropped := if |last| == c then last[1..] else last;
    SortedLast(h, e, c);
    WindowRetained(h, e, cfg);
    DropThenRetain(last, now, ttl, c);
    calc {
      Inserted(Window(h, cfg), e, cfg);
      Retain(dropped, now, ttl) + [e];
      { RetainOne(e, now, ttl); }
      Retain(dropped, now, ttl) + Retain([e], now, ttl);
      { RetainConcat(dropped, [e], now, ttl); }
      Retain(dropped + [e], now, ttl);
      { LastNPush(h, e, c); }
      Window(h + [e], cfg);
    }
  }

  /** The insert that fails: the vector counts as full and yet has nothing to drop. */
  predicate RemovesFromEmpty(es: seq<Entry>, e: Entry, cfg: Config)
  {
    var kept := Retain(es, e.createdAt, cfg.ttl);
    |kept| >= cfg.maxCapacity && kept == []
  }

  /** After any history, inserting fails if and only if the configured capacity is zero. */
  lemma InsertFailsIffNoCapacity(h: seq<Entry>, e: Entry, cfg: Config)
    ensures RemovesFromEmpty(Window(h, cfg), e, cfg) <==> cfg.maxCapacity == 0
  {
  }

  lemma SortedSuffix(h: seq<Entry>, k: nat)
    requires Sorted(h) && k <= |h|
    ensures Sorted(h[k..])
  {
  }

  /** Insert `i` is one of the last `maxCapacity` and is not older than `ttl` at the last of all. */
  predicate InWindow(h: seq<Entry>, cfg: Config, i: nat)
    requires i < |h|
  {
    i >= |h| - cfg.maxCapacity && h[|h| - 1].createdAt <= h[i].createdAt + cfg.ttl
  }

  /**
   The window is a suffix of the history, at most `maxCapacity` long and sorted by time; it
   begins where the inserts begin that are neither expired nor beyond the capacity.
   */
  lemma WindowIsSuffix(h: seq<Entry>, cfg: Config) returns (k: nat)
    requires Sorted(h)
    ensures k <= |h| && Window(h, cfg) == h[k..]
    ensures |Window(h, cfg)| <= cfg.maxCapacity && Sorted(Window(h, cfg))
    ensures forall i :: 0 <= i < |h| ==> (k <= i <==> InWindow(h, cfg, i))
  {
    k := 0;
    if h != [] {
      var last := LastN(h, cfg.maxCapacity);
      var d, now := |h| - |last|, h[|h| - 1].createdAt;
      assert last == h[d..];
      SortedSuffix(h, d);
      var m := RetainIsSuffix(last, now, cfg.ttl);
      k := d + m;
      assert last[m..] == h[k..];
      SortedSuffix(h, k);
      forall i | 0 <= i < |h| ensures k <= i <==> InWindow(h, cfg, i) {
        if i >= d {
          assert h[i] == last[i - d];
          assert Live(h[i], now, cfg.ttl) <==> now <= h[i].createdAt + cfg.ttl;
        }
      }
    }
  }

  // --------------------------------------------------------------- a lookup

  function Sim(sqrt: real -> real, q: Query, e: Entry): real
  {
    Cosine.Score(sqrt, q.embedding, e.embedding)
  }

  predicate Eligible(sqrt: real -> real, cfg: Config, q: Query, e: Entry)
  {
    Live(e, q.now, cfg.ttl) && e.scope == q.scope && Sim(sqrt, q, e) >= cfg.threshold
  }

  /** The scan: a later entry replaces the best so far only if its score is strictly greater. */
  function Best(sqrt: real -> real, cfg: Config, q: Query, es: seq<Entry>): Option<Entry>
  {
    if es == [] then None
    else
      var n := |es| - 1;
      var best := Best(sqrt, cfg, q, es[..n]);
      if Eligible(sqrt, cfg, q, es[n])
         && (best.None?
             || Sim(sqrt, q, es[n]) > Sim(sqrt, q, best.value))
      then Some(es[n]) else best
  }

  /** The answer the whole insertion history determines. */
  function Answer(sqrt: real -> real, cfg: Config, q: Query, h: seq<Entry>): Option<string>
  {
    var best := Best(sqrt, cfg, q, LastN(h, cfg.maxCapacity));
    if best.Some? then Some(best.value.response) else None
  }

  /** The inserts of a history that can still be stored start here. */
  function Reach(h: seq<Entry>, cfg: Config): nat
  {
    if |h| <= cfg.maxCapacity then 0 else |h| - cfg.maxCapacity
  }

  /** Entry `i` is the oldest of the eligible entries from `lo` on that have the greatest score. */
  predicate IsOldestBest(sqrt: real -> real, cfg: Config, q: Query, es: seq<Entry>, lo: nat, i: nat)
  {
    && lo <= i < |es| && Eligible(sqrt, cfg, q, es[i])
    && (forall j :: lo <= j < |es| && Eligible(sqrt, cfg, q, es[j]) ==> Sim(sqrt, q, es[j]) <= Sim(sqrt, q, es[i]))
    && (forall j :: lo <= j < i && Eligible(sqrt, cfg, q, es[j]) ==> Sim(sqrt, q, es[j]) < Sim(sqrt, q, es[i]))
  }

  predicate NoneEligible(sqrt: real -> real, cfg: Config, q: Query, es: seq<Entry>, lo: nat)
  {
    forall j :: lo <= j < |es| ==> !Eligible(sqrt, cfg, q, es[j])
  }

  /** The scan finds the oldest entry of greatest score, and nothing only if nothing is eligible. */
  lemma {:induction false} BestIsOldestBest(sqrt: real -> real, cfg: Config, q: Query, es: seq<Entry>) returns (i: nat)
    ensures Best(sqrt, cfg, q, es).None? <==> NoneEligible(sqrt, cfg, q, es, 0)
    ensures Best(sqrt, cfg, q, es).Some? ==>
              IsOldestBest(sqrt, cfg, q, es, 0, i) && Best(sqrt, cfg, q, es).value == es[i]
  {
    i := 0;
    if es == [] {
    } else {
      var n := |es| - 1;
      var init := es[..n];
      i := BestIsOldestBest(sqrt, cfg, q, init);
      assert forall j :: 0 <= j < n ==> init[j] == es[j];
      var best := Best(sqrt, cfg, q, init);
      if Eligible(sqrt, cfg, q, es[n]) && (best.None? || Sim(sqrt, q, es[n]) > Sim(sqrt, q, best.value)) {
        i := n;
      }
    }
  }

  lemma OldestBestShifts(sqrt: real -> real, cfg: Config, q: Query, h: seq<Entry>, lo: nat, k: nat)
    requires lo <= |h|
    ensures NoneEligible(sqrt, cfg, q, h[lo..], 0) <==> NoneEligible(sqrt, cfg, q, h, lo)
    ensures IsOldestBest(sqrt, cfg, q, h[lo..], 0, k) ==> IsOldestBest(sqrt, cfg, q, h, lo, lo + k)
  {
    var es := h[lo..];
    assert forall j :: lo <= j < |h| ==> h[j] == es[j - lo];
    assert forall j :: 0 <= j < |es| ==> es[j] == h[lo + j];
  }

  lemma {:induction false} BestOfPush(sqrt: real -> real, cfg: Config, q: Query, es: seq<Entry>, e: Entry)
    ensures Best(sqrt, cfg, q, es + [e]) ==
            var best := Best(sqrt, cfg, q, es);
            if Eligible(sqrt, cfg, q, e)
               && (best.None?
                   || Sim(sqrt, q, e) > Sim(sqrt, q, best.value))
            then Some(e) else best
  {
    assert (es + [e])[..|es|] == es;
  }

  lemma {:induction false} BestAt(sqrt: real -> real, cfg: Config, q: Query, es: seq<Entry>, i: nat)
    requires i < |es|
    ensures Best(sqrt, cfg, q, es[..i + 1]) ==
            var best := Best(sqrt, cfg, q, es[..i]);
            if Eligible(sqrt, cfg, q, es[i])
               && (best.None?
                   || Sim(sqrt, q, es[i]) > Sim(sqrt, q, best.value))
            then Some(es[i]) else best
  {
    assert es[..i + 1] == es[..i] + [es[i]];
    BestOfPush(sqrt, cfg, q, es[..i], es[i]);
  }

  /** Entries that had expired before the query's time can be missing without any effect. */
  lemma {:induction false} BestIgnoresExpired(sqrt: real -> real, cfg: Config, q: Query, es: seq<Entry>, t: nat)
    requires t <= q.now
    ensures Best(sqrt, cfg, q, Retain(es, t, cfg.ttl)) == Best(sqrt, cfg, q, es)
  {
    if es == [] {
    } else {
      var init, e := es[..|es| - 1], es[|es| - 1];
      var kept := Retain(init, t, cfg.ttl);
      BestIgnoresExpired(sqrt, cfg, q, init, t);
      assert init + [e] == es;
      BestOfPush(sqrt, cfg, q, init, e);
      if Live(e, t, cfg.ttl) {
        BestOfPush(sqrt, cfg, q, kept, e);
      } else {
        LaterExpired(e, t, q.now, cfg.ttl);
        assert kept + [] == kept;
      }
    }
  }

  lemma LaterExpired(e: Entry, t1: nat, t2: nat, ttl: nat)
    requires t1 <= t2 && !Live(e, t1, ttl)
    ensures !Live(e, t2, ttl)
  {
  }

  /** What is stored answers every later query exactly as the whole history would. */
  lemma {:induction false} WindowAnswers(sqrt: real -> real, cfg: Config, q: Query, h: seq<Entry>)
    requires h != [] ==> h[|h| - 1].createdAt <= q.now
    ensures Best(sqrt, cfg, q, Window(h, cfg)) == Best(sqrt, cfg, q, LastN(h, cfg.maxCapacity))
  {
    if h != [] {
      BestIgnoresExpired(sqrt, cfg, q, LastN(h, cfg.maxCapacity), h[|h| - 1].createdAt);
    }
  }

  /** The best so far with its score, as the scan keeps it. */
  function Scored(sqrt: real -> real, q: Query, best: Option<Entry>): Option<(Entry, real)>
  {
    match best
    case Some(e) => Some((e, Sim(sqrt, q, e)))
    case None => None
  }

  // --------------------------------------------------------------- the cache

  class VectorCache {
    const sqrt: real -> real
    const cfg: Config
    var entries: seq<Entry>
    ghost var history: seq<Entry>

    ghost predicate Valid()
      reads this
    {
      Sorted(history) && entries == Window(history, cfg)
    }

    /** The clock has not gone back since the last insert. */
    ghost predicate ClockAt(now: nat)
      reads this
    {
      history != [] ==> history[|history| - 1].createdAt <= now
    }

    constructor (sqrt: real -> real, cfg: Config)
      ensures Valid() && history == [] && this.sqrt == sqrt && this.cfg == cfg
    {
      this.sqrt := sqrt;
      this.cfg := cfg;
      entries := [];
      history := [];
    }

    /** Not `ok` is the panic of removing the first entry of an empty vector; nothing is inserted then. */
    method Insert(embedding: seq<real>, response: string, scope: Option<string>, now: nat) returns (ok: bool)
      requires Valid() && ClockAt(now)
      modifies this
      ensures Valid()
      ensures ok <==> cfg.maxCapacity >= 1
      ensures history == if ok then old(history) + [Entry(embedding, response, now, scope)] else old(history)
    {
      var e := Entry(embedding, response, now, scope);
      InsertFailsIffNoCapacity(history, e, cfg);
      entries := Retain(entries, now, cfg.ttl);
      if |entries| >= cfg.maxCapacity {
        if entries == [] {
          return false;
        }
        entries := entries[1..];
      }
      entries := entries + [e];
      ghost var h := history;
      history := history + [e];
      InsertKeepsWindow(h, e, cfg);
      ok := true;
    }

    /** The answer is a function of the insertion history, the query and the clock alone. */
    method Search(query: seq<real>, scope: Option<string>, now: nat) returns (r: Option<string>)
      requires Valid() && ClockAt(now)
      ensures r == Answer(sqrt, cfg, Query(query, scope, now), history)
    {
      ghost var q := Query(query, scope, now);
      var best: Option<(Entry, real)> := None;
      for i := 0 to |entries|
        invariant best == Scored(sqrt, q, Best(sqrt, cfg, q, entries[..i]))
      {
        var entry := entries[i];
        BestAt(sqrt, cfg, q, entries, i);
        if Age(now, entry.createdAt) > cfg.ttl {
          continue;
        }
        if entry.scope != scope {
          continue;
        }
        var score := Cosine.CosineSimilarity(sqrt, query, entry.embedding);
        if score >= cfg.threshold && (best.None? || score > best.value.1) {
          best := Some((entry, score));
        }
      }
      assert entries[..|entries|] == entries;
      WindowAnswers(sqrt, cfg, q, history);
      if best.Some? {
        r := Some(best.value.0.response);
      } else {
        r := None;
      }
    }
  }

  // ------------------------------------------------ what a client can rely on

  /**
   The declarative reading of a search over the whole history: nothing if and only if no
   unexpired insert of the scope among the last `maxCapacity` reaches the threshold, else the
   response of the oldest insert of greatest score.
   */
  lemma AnswerMeaning(sqrt: real -> real, cfg: Config, q: Query, h: seq<Entry>) returns (i: nat)
    ensures Answer(sqrt, cfg, q, h).None? <==> NoneEligible(sqrt, cfg, q, h, Reach(h, cfg))
    ensures Answer(sqrt, cfg, q, h).Some? ==>
              IsOldestBest(sqrt, cfg, q, h, Reach(h, cfg), i) && Answer(sqrt, cfg, q, h).value == h[i].response
  {
    var lo := Reach(h, cfg);
    assert LastN(h, cfg.maxCapacity) == h[lo..];
    var k := BestIsOldestBest(sqrt, cfg, q, h[lo..]);
    OldestBestShifts(sqrt, cfg, q, h, lo, k);
    i := lo + k;
  }

  /** There is at most one such entry, so the answer is its response. */
  lemma OldestBestAnswers(sqrt: real -> real, cfg: Config, q: Query, h: seq<Entry>, i: nat)
    requires IsOldestBest(sqrt, cfg, q, h, Reach(h, cfg), i)
    ensures Answer(sqrt, cfg, q, h) == Some(h[i].response)
  {
    var k := AnswerMeaning(sqrt, cfg, q, h);
    assert k == i;
  }

  /** Insert `i` can answer: one of the last `maxCapacity`, not older than `ttl`, same scope, near enough. */
  predicate CanAnswer(sqrt: real -> real, cfg: Config, q: Query, h: seq<Entry>, i: nat)
  {
    && i < |h| && |h| - i <= cfg.maxCapacity && q.now <= h[i].createdAt + cfg.ttl
    && h[i].scope == q.scope && Cosine.Score(sqrt, q.embedding, h[i].embedding) >= cfg.threshold
  }

  /** Insert `i` scores no worse than `j`, and better if `j` is older. */
  predicate Precedes(sqrt: real -> real, q: Query, h: seq<Entry>, i: nat, j: nat)
    requires i < |h| && j < |h|
  {
    var a, b := Cosine.Score(sqrt, q.embedding, h[i].embedding), Cosine.Score(sqrt, q.embedding, h[j].embedding);
    a > b || (a == b && i <= j)
  }

  /** A text is the answer exactly if it was inserted by the first in this order of those that can answer. */
  lemma AnswerIff(sqrt: real -> real, cfg: Config, q: Query, h: seq<Entry>, text: string)
    ensures Answer(sqrt, cfg, q, h) == Some(text) <==>
            exists i: nat :: && CanAnswer(sqrt, cfg, q, h, i) && h[i].response == text
                        && forall j: nat :: CanAnswer(sqrt, cfg, q, h, j) ==> Precedes(sqrt, q, h, i, j)
  {
    var lo := Reach(h, cfg);
    var k := AnswerMeaning(sqrt, cfg, q, h);
    assert forall i: nat :: CanAnswer(sqrt, cfg, q, h, i) <==> lo <= i < |h| && Eligible(sqrt, cfg, q, h[i]);
    if Answer(sqrt, cfg, q, h).Some? {
      assert CanAnswer(sqrt, cfg, q, h, k);
      assert forall j: nat :: CanAnswer(sqrt, cfg, q, h, j) ==> Precedes(sqrt, q, h, k, j);
      forall i: nat | && CanAnswer(sqrt, cfg, q, h, i)
                 && forall j: nat :: CanAnswer(sqrt, cfg, q, h, j) ==> Precedes(sqrt, q, h, i, j)
        ensures i == k
      {
        assert Precedes(sqrt, q, h, i, k) && Precedes(sqrt, q, h, k, i);
      }
    }
  }

  /** A just-inserted nonzero embedding is found again, at score 1, until it expires. */
  lemma JustInsertedHits(sqrt: real -> real, cfg: Config, q: Query, h: seq<Entry>,
                         e: Entry) returns (i: nat)
    requires Cosine.IsSqrt(sqrt) && cfg.maxCapacity >= 1 && cfg.threshold <= 1.0
    requires Cosine.Nonzero(e.embedding)
    requires q.embedding == e.embedding && q.scope == e.scope && Live(e, q.now, cfg.ttl)
    ensures i < |h + [e]| && Sim(sqrt, q, (h + [e])[i]) == 1.0
    ensures Answer(sqrt, cfg, q, h + [e]) == Some((h + [e])[i].response)
  {
    var h' := h + [e];
    Cosine.SelfScore(sqrt, e.embedding, e.embedding);
    assert h'[|h|] == e && Eligible(sqrt, cfg, q, h'[|h|]);
    i := AnswerMeaning(sqrt, cfg, q, h');
    Cosine.ScoreBounds(sqrt, q.embedding, h'[i].embedding);
  }

  /**
   An insert that scores no better than the present best, a repeat of its embedding for
   instance, does not change the answer while the best is not evicted.
   */
  lemma OlderAnswerStays(sqrt: real -> real, cfg: Config, q: Query, h: seq<Entry>, i: nat, e: Entry)
    requires IsOldestBest(sqrt, cfg, q, h, Reach(h, cfg), i)
    requires Reach(h + [e], cfg) <= i
    requires Sim(sqrt, q, e) <= Sim(sqrt, q, h[i])
    ensures Answer(sqrt, cfg, q, h + [e]) == Answer(sqrt, cfg, q, h) == Some(h[i].response)
  {
    var h' := h + [e];
    assert forall j :: 0 <= j < |h| ==> h'[j] == h[j];
    assert h'[|h|] == e;
    assert IsOldestBest(sqrt, cfg, q, h', Reach(h', cfg), i);
    OldestBestAnswers(sqrt, cfg, q, h, i);
    OldestBestAnswers(sqrt, cfg, q, h', i);
  }

  // --------------------------------------------------------- scope projection

  function OnlyScope(h: seq<Entry>, scope: Option<string>): (r: seq<Entry>)
    ensures |r| <= |h|
  {
    if h == [] then []
    else
      var n := |h| - 1;
      OnlyScope(h[..n], scope) + (if h[n].scope == scope then [h[n]] else [])
  }

  lemma {:induction false} OnlyScopeConcat(a: seq<Entry>, b: seq<Entry>, scope: Option<string>)
    ensures OnlyScope(a + b, scope) == OnlyScope(a, scope) + OnlyScope(b, scope)
  {
    if b == [] {
      assert a + b == a;
    } else {
      var n := |b| - 1;
      assert (a + b)[..|a + b| - 1] == a + b[..n];
      OnlyScopeConcat(a, b[..n], scope);
    }
  }

  lemma OtherScopeUnseen(h: seq<Entry>, e: Entry, scope: Option<string>)
    requires e.scope != scope
    ensures OnlyScope(h + [e], scope) == OnlyScope(h, scope)
  {
    assert (h + [e])[..|h|] == h;
    assert OnlyScope(h, scope) + [] == OnlyScope(h, scope);
  }

  lemma {:induction false} BestSeesOneScope(sqrt: real -> real, cfg: Config, q: Query, es: seq<Entry>)
    ensures Best(sqrt, cfg, q, OnlyScope(es, q.scope)) == Best(sqrt, cfg, q, es)
  {
    if es == [] {
    } else {
      var n := |es| - 1;
      BestSeesOneScope(sqrt, cfg, q, es[..n]);
      var kept := OnlyScope(es[..n], q.scope);
      BestOfPush(sqrt, cfg, q, kept, es[n]);
      assert kept + [] == kept;
    }
  }

  /**
   A scope sees the shared cache as a private one fed only its own inserts, whose capacity is
   the number of its inserts among the last `maxCapacity` of all: other scopes can push its
   entries out but never supply an answer. While the inserts of all scopes together fit, the
   two caches answer alike at full capacity.
   */
  lemma {:induction false} ScopeProjection(sqrt: real -> real, cfg: Config, q: Query, h: seq<Entry>)
    ensures var own := |OnlyScope(LastN(h, cfg.maxCapacity), q.scope)|;
            own <= cfg.maxCapacity &&
            Answer(sqrt, cfg, q, h) == Answer(sqrt, cfg.(maxCapacity := own), q, OnlyScope(h, q.scope))
    ensures |h| <= cfg.maxCapacity ==> Answer(sqrt, cfg, q, h) == Answer(sqrt, cfg, q, OnlyScope(h, q.scope))
  {
    var last := LastN(h, cfg.maxCapacity);
    var own := OnlyScope(last, q.scope);
    BestSeesOneScope(sqrt, cfg, q, last);
    OwnTail(h, cfg.maxCapacity, q.scope);
    BestIgnoresCapacity(sqrt, cfg, q, own, |own|);
  }

  /** A scope's share of the last inserts is the tail of its own inserts. */
  lemma {:induction false} OwnTail(h: seq<Entry>, c: nat, scope: Option<string>)
    ensures var own := OnlyScope(LastN(h, c), scope);
            LastN(OnlyScope(h, scope), |own|) == own
    ensures |h| <= c ==> LastN(OnlyScope(h, scope), c) == OnlyScope(h, scope) == OnlyScope(LastN(h, c), scope)
  {
    var last := LastN(h, c);
    var d := |h| - |last|;
    OnlyScopeConcat(h[..d], last, scope);
    assert h == h[..d] + last;
  }

  lemma {:induction false} BestIgnoresCapacity(sqrt: real -> real, cfg: Config, q: Query, es: seq<Entry>, c: nat)
    ensures Best(sqrt, cfg.(maxCapacity := c), q, es) == Best(sqrt, cfg, q, es)
  {
    if es == [] {
    } else {
      BestIgnoresCapacity(sqrt, cfg, q, es[..|es| - 1], c);
    }
  }
}
