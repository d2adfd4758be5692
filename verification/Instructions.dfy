/**
 `src/compression/cache.rs`: per-session memory of the last instruction hash and of how many
 turns in a row it was seen. The turn is a `u32`, which wraps in a release build.
 */
module Instructions {
  import opened Utils

  const TURN_MODULUS := 0x1_0000_0000

  datatype Seen = Seen(hash: string, turn: nat)

  /** `check_and_update` as a function of the map. */
  function Update(seen: map<string, Seen>, scope: string, hash: string): (map<string, Seen>, Option<nat>)
  {
    if scope in seen && seen[scope].hash == hash then
      var turn := (seen[scope].turn + 1) % TURN_MODULUS;
      (seen[scope := Seen(hash, turn)], Some(turn))
    else (seen[scope := Seen(hash, 1)], None)
  }

  // ------------------------------------------------------------ the history

  datatype Event = Checked(scope: string, hash: string) | Evicted(scope: string)

  /** The hashes checked under a scope since it was last evicted, oldest first. */
  function Calls(log: seq<Event>, scope: string): seq<string>
  {
    if log == [] then []
    else
      var rest, e := Calls(log[..|log| - 1], scope), log[|log| - 1];
      match e
      case Checked(s, hash) => if s == scope then rest + [hash] else rest
      case Evicted(s) => if s == scope then [] else rest
  }

  /** How many of the latest hashes are the same. */
  function RunLength(calls: seq<string>): (n: nat)
    ensures calls != [] ==> 1 <= n <= |calls|
  {
    var n := |calls|;
    if n <= 1 then n
    else if calls[n - 1] == calls[n - 2] then 1 + RunLength(calls[..n - 1])
    else 1
  }

  /** The last `n` hashes agree and no longer run ending here does. */
  predicate MaximalRun(calls: seq<string>, n: nat)
  {
    && 1 <= n <= |calls|
    && (forall i :: |calls| - n <= i < |calls| ==> calls[i] == calls[|calls| - 1])
    && (n < |calls| ==> calls[|calls| - n - 1] != calls[|calls| - 1])
  }

  lemma {:induction false} RunLengthIsMaximal(calls: seq<string>)
    requires calls != []
    ensures MaximalRun(calls, RunLength(calls))
    ensures forall n: nat :: MaximalRun(calls, n) ==> n == RunLength(calls)
  {
    var k := |calls|;
    if k > 1 && calls[k - 1] == calls[k - 2] {
      var init := calls[..k - 1];
      RunLengthIsMaximal(init);
      assert forall i :: 0 <= i < k - 1 ==> init[i] == calls[i];
    }
    MaximalUnique(calls, RunLength(calls));
  }

  lemma NotBothMaximal(calls: seq<string>, n: nat, m: nat)
    requires n < m
    ensures !(MaximalRun(calls, n) && MaximalRun(calls, m))
  {
    if 1 <= n && m <= |calls| {
      assert |calls| - m <= |calls| - n - 1;
    }
  }

  lemma MaximalUnique(calls: seq<string>, n: nat)
    requires MaximalRun(calls, n)
    ensures forall m: nat :: MaximalRun(calls, m) ==> m == n
  {
    forall m: nat ensures MaximalRun(calls, m) ==> m == n {
      if m < n {
        NotBothMaximal(calls, m, n);
      } else if n < m {
        NotBothMaximal(calls, n, m);
      }
    }
  }

  predicate ReflectsAt(seen: map<string, Seen>, calls: seq<string>, s: string)
  {
    && (s in seen <==> calls != [])
    && (s in seen ==> seen[s] == Seen(calls[|calls| - 1], RunLength(calls) % TURN_MODULUS))
  }

  /** What the map must hold after a history. */
  ghost predicate Reflects(seen: map<string, Seen>, log: seq<Event>)
  {
    forall s :: ReflectsAt(seen, Calls(log, s), s)
  }

  lemma {:induction false} RunLengthPush(calls: seq<string>, hash: string)
    ensures RunLength(calls + [hash]) == if calls != [] && calls[|calls| - 1] == hash then 1 + RunLength(calls) else 1
  {
    assert (calls + [hash])[..|calls|] == calls;
  }

  lemma {:induction false} CallsPush(log: seq<Event>, scope: string, hash: string, s: string)
    ensures Calls(log + [Checked(scope, hash)], s) == if s == scope then Calls(log, s) + [hash] else Calls(log, s)
  {
    assert (log + [Checked(scope, hash)])[..|log|] == log;
  }

  lemma NextTurn(n: nat)
    ensures (n % TURN_MODULUS + 1) % TURN_MODULUS == (n + 1) % TURN_MODULUS
  {
  }

  lemma {:induction false} UpdateReflectsHere(seen: map<string, Seen>, calls: seq<string>, scope: string, hash: string)
    requires ReflectsAt(seen, calls, scope)
    ensures ReflectsAt(Update(seen, scope, hash).0, calls + [hash], scope)
    ensures Update(seen, scope, hash).1 ==
            if RunLength(calls + [hash]) >= 2 then Some(RunLength(calls + [hash]) % TURN_MODULUS) else None
  {
    RunLengthPush(calls, hash);
    NextTurn(RunLength(calls));
  }

  lemma {:induction false} UpdateReflects(seen: map<string, Seen>, log: seq<Event>, scope: string, hash: string)
    requires Reflects(seen, log)
    ensures Reflects(Update(seen, scope, hash).0, log + [Checked(scope, hash)])
    ensures var calls := Calls(log + [Checked(scope, hash)], scope);
            Update(seen, scope, hash).1 ==
            if RunLength(calls) >= 2 then Some(RunLength(calls) % TURN_MODULUS) else None
  {
    var log', seen' := log + [Checked(scope, hash)], Update(seen, scope, hash).0;
    UpdateReflectsHere(seen, Calls(log, scope), scope, hash);
    CallsPush(log, scope, hash, scope);
    forall s ensures ReflectsAt(seen', Calls(log', s), s) {
      CallsPush(log, scope, hash, s);
      assert ReflectsAt(seen, Calls(log, s), s);
    }
  }

  lemma {:induction false} UpdateReports(seen: map<string, Seen>, log: seq<Event>, scope: string, hash: string)
    requires Reflects(seen, log)
    ensures Reflects(Update(seen, scope, hash).0, log + [Checked(scope, hash)])
    ensures var calls := Calls(log + [Checked(scope, hash)], scope);
            && calls != [] && MaximalRun(calls, RunLength(calls))
            && Update(seen, scope, hash).1 ==
               if RunLength(calls) >= 2 then Some(RunLength(calls) % TURN_MODULUS) else None
  {
    UpdateReflects(seen, log, scope, hash);
    CallsPush(log, scope, hash, scope);
    RunLengthIsMaximal(Calls(log + [Checked(scope, hash)], scope));
  }

  lemma EvictReflects(seen: map<string, Seen>, log: seq<Event>, scope: string)
    requires Reflects(seen, log)
    ensures Reflects(seen - {scope}, log + [Evicted(scope)])
  {
    assert (log + [Evicted(scope)])[..|log|] == log;
    forall s ensures ReflectsAt(seen - {scope}, Calls(log + [Evicted(scope)], s), s) {
      assert ReflectsAt(seen, Calls(log, s), s);
    }
  }

  class InstructionCache {
    var seen: map<string, Seen>
    ghost var log: seq<Event>

    ghost predicate Valid()
      reads this
    {
      Reflects(seen, log)
    }

    constructor ()
      ensures Valid() && seen == map[] && log == []
    {
      seen, log := map[], [];
    }

    /**
     Some(n) exactly if this call ends a run of at least two calls with one hash on this
     scope since its last eviction; n is the length of the longest such run (modulo 2^32).
     */
    method CheckAndUpdate(scope: string, hash: string) returns (r: Option<nat>)
      requires Valid()
      modifies this
      ensures Valid() && log == old(log) + [Checked(scope, hash)]
      ensures (seen, r) == Update(old(seen), scope, hash)
      ensures var calls := Calls(log, scope);
              && calls != [] && MaximalRun(calls, RunLength(calls))
              && r == if RunLength(calls) >= 2 then Some(RunLength(calls) % 4_294_967_296) else None
    {
      ghost var before := seen;
      if scope in seen && seen[scope].hash == hash {
        seen := seen[scope := Seen(hash, (seen[scope].turn + 1) % TURN_MODULUS)];
        r := Some(seen[scope].turn);
      } else {
        seen := seen[scope := Seen(hash, 1)];
        r := None;
      }
      assert (seen, r) == Update(before, scope, hash);
      UpdateReports(before, log, scope, hash);
      log := log + [Checked(scope, hash)];
    }

    /** Drops half of the entries, whichever the map lists first, if there are too many. */
    method EvictIfNeeded(maxEntries: nat) returns (victims: seq<string>)
      requires Valid()
      modifies this
      ensures Valid()
      ensures MayDrop(old(seen), maxEntries, Set(victims))
      ensures seen == old(seen) - Set(victims) && |seen| == AfterEviction(|old(seen)|, maxEntries)
      ensures log == old(log) + Evictions(victims)
    {
      victims := [];
      if |seen| > maxEntries {
        victims := TakeKeys(seen.Keys, |seen| / 2);
        RemoveAll(victims);
        DropSize(old(seen), maxEntries, Set(victims));
      } else {
        assert seen - Set(victims) == seen;
      }
    }

    method RemoveAll(keys: seq<string>)
      requires Valid()
      modifies this
      ensures Valid()
      ensures seen == old(seen) - Set(keys)
      ensures log == old(log) + Evictions(keys)
    {
      for i := 0 to |keys|
        invariant Reflects(seen, log)
        invariant seen == old(seen) - Set(keys[..i])
        invariant log == old(log) + Evictions(keys[..i])
      {
        EvictReflects(seen, log, keys[i]);
        seen := seen - {keys[i]};
        log := log + [Evicted(keys[i])];
        assert keys[..i + 1] == keys[..i] + [keys[i]];
        assert Set(keys[..i + 1]) == Set(keys[..i]) + {keys[i]};
        assert Evictions(keys[..i + 1]) == Evictions(keys[..i]) + [Evicted(keys[i])];
      }
      assert keys[..|keys|] == keys;
    }
  }

  function Set(keys: seq<string>): set<string> { set k | k in keys }

  /** `map.keys().take(n)`: n different keys, in an order nobody chooses. */
  method TakeKeys(keys: set<string>, n: nat) returns (taken: seq<string>)
    requires n <= |keys|
    ensures |taken| == n && Set(taken) <= keys && |Set(taken)| == n
  {
    taken := [];
    var left := keys;
    while |taken| < n
      invariant |taken| <= n && |left| == |keys| - |taken|
      invariant left == keys - Set(taken) && Set(taken) <= keys
    {
      var k :| k in left;
      left := left - {k};
      assert Set(taken + [k]) == Set(taken) + {k};
      taken := taken + [k];
    }
  }

  function Evictions(keys: seq<string>): seq<Event>
  {
    seq(|keys|, i requires 0 <= i < |keys| => Evicted(keys[i]))
  }

  // ---------------------------------------------------------- dedup, overall

  function OnlyScope(log: seq<Event>, scope: string): seq<Event>
  {
    if log == [] then []
    else OnlyScope(log[..|log| - 1], scope) + if log[|log| - 1].scope == scope then [log[|log| - 1]] else []
  }

  /** What a scope sees depends on its own calls and evictions only. */
  lemma {:induction false} ScopesIndependent(log: seq<Event>, scope: string)
    ensures Calls(OnlyScope(log, scope), scope) == Calls(log, scope)
  {
    if log == [] {
    } else {
      var init, last := log[..|log| - 1], log[|log| - 1];
      ScopesIndependent(init, scope);
      var kept := OnlyScope(init, scope);
      assert (kept + [last])[..|kept|] == kept;
      assert kept + [] == kept;
    }
  }

  /** No call of a scope is deduplicated if and only if its successive hashes always differ. */
  lemma NeverDedupsIffAlternating(calls: seq<string>)
    ensures (forall k :: 0 < k <= |calls| ==> RunLength(calls[..k]) == 1) <==>
            (forall i :: 0 < i < |calls| ==> calls[i] != calls[i - 1])
  {
    forall k | 0 < k <= |calls| ensures RunLength(calls[..k]) == 1 <==> k == 1 || calls[k - 1] != calls[k - 2] {
      if k > 1 {
        assert calls[..k][..k - 1] == calls[..k - 1];
      }
    }
    if forall k :: 0 < k <= |calls| ==> RunLength(calls[..k]) == 1 {
      forall i | 0 < i < |calls| ensures calls[i] != calls[i - 1] {
        assert RunLength(calls[..i + 1]) == 1;
      }
    }
  }

  // ------------------------------------------------------------ eviction size

  /** The number of entries after one call: n - n / 2, half rounded up, if over the limit. */
  function AfterEviction(n: nat, limit: nat): nat
  {
    if n > limit then n - n / 2 else n
  }

  function AfterEvictions(n: nat, limit: nat, calls: nat): nat
  {
    if calls == 0 then n else AfterEvictions(AfterEviction(n, limit), limit, calls - 1)
  }

  /** limit * 2^k */
  function Doubled(limit: nat, k: nat): (r: nat)
    ensures r >= limit
  {
    if k == 0 then limit else 2 * Doubled(limit, k - 1)
  }

  /** Whichever keys are dropped, k calls suffice to bring up to limit * 2^k entries under the limit. */
  lemma {:induction false} EvictionBound(n: nat, limit: nat, k: nat)
    requires n <= Doubled(limit, k)
    ensures AfterEvictions(n, limit, k) <= limit
  {
    if k == 0 {
    } else {
      EvictionBound(AfterEviction(n, limit), limit, k - 1);
    }
  }

  /** Fewer calls do not: while n is over limit * 2^k, the map is still over the limit after k calls. */
  lemma {:induction false} EvictionNotSooner(n: nat, limit: nat, k: nat)
    requires n > Doubled(limit, k)
    ensures AfterEvictions(n, limit, k) > limit
  {
    if k == 0 {
    } else {
      EvictionNotSooner(AfterEviction(n, limit), limit, k - 1);
    }
  }

  /** With limit 0 one entry is never dropped. */
  lemma {:induction false} EvictionStalls(n: nat, k: nat)
    requires n >= 1
    ensures AfterEvictions(n, 0, k) >= 1 && AfterEvictions(1, 0, k) == 1
  {
    if k == 0 {
    } else {
      EvictionStalls(AfterEviction(n, 0), k - 1);
    }
  }

  // ------------------------------------- a run that evicts after every update

  /** The sets of keys that one call may drop: half of the entries, any half, if there are too many. */
  predicate MayDrop(seen: map<string, Seen>, limit: nat, victims: set<string>)
  {
    victims <= seen.Keys && |victims| == if |seen| > limit then |seen| / 2 else 0
  }

  /** One update and the eviction call that follows it. */
  datatype Turn = Turn(scope: string, hash: string, victims: set<string>)

  function Updated(seen: map<string, Seen>, turn: Turn): map<string, Seen> { Update(seen, turn.scope, turn.hash).0 }

  function After(turns: seq<Turn>): map<string, Seen>
  {
    if turns == [] then map[]
    else Updated(After(turns[..|turns| - 1]), turns[|turns| - 1]) - turns[|turns| - 1].victims
  }

  /** Every eviction call of the run dropped what it may. */
  predicate Possible(turns: seq<Turn>, limit: nat)
  {
    turns == [] ||
    (var init, last := turns[..|turns| - 1], turns[|turns| - 1];
     Possible(init, limit) && MayDrop(Updated(After(init), last), limit, last.victims))
  }

  lemma DropSize(seen: map<string, Seen>, limit: nat, victims: set<string>)
    requires MayDrop(seen, limit, victims)
    ensures |seen - victims| == AfterEviction(|seen|, limit)
  {
    assert (seen - victims).Keys == seen.Keys - victims;
  }

  lemma UpdateSize(seen: map<string, Seen>, turn: Turn)
    ensures |seen| <= |Updated(seen, turn)| <= |seen| + 1
  {
    assert Updated(seen, turn).Keys == seen.Keys + {turn.scope};
  }

  /**
   Evicting after every update keeps the map within the limit for ever, whichever keys are
   dropped; with limit zero the one entry just written stays.
   */
  lemma {:induction false} StaysUnderLimit(turns: seq<Turn>, limit: nat)
    requires Possible(turns, limit)
    ensures |After(turns)| <= limit || (limit == 0 && |After(turns)| == 1)
  {
    if turns == [] {
    } else {
      var init, last := turns[..|turns| - 1], turns[|turns| - 1];
      StaysUnderLimit(init, limit);
      UpdateSize(After(init), last);
      DropSize(Updated(After(init), last), limit, last.victims);
    }
  }
}
