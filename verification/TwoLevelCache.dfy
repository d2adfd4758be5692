/**
 The cache endpoints of `src/handler.rs` and the in-process executor behind the MCP tools.
 L1a is a map that may forget keys at any time; L1b is the semantic cache. The embedding of a
 prompt (absent if the embedder fails), the request headers and the clock are parameters.
 */
module TwoLevelCache {
  import opened Utils
  import opened Json
  import opened JsonText
  import OpenAiSse
  import CacheScope
  import SemanticCache

  const MAX_LOOKUP_BODY := 1024 * 64
  const MAX_STORE_BODY := 1024 * 256
  const MAX_LOOKUP_RESPONSE := 1024 * 128

  datatype Http = Http(status: nat, layer: string, body: string)

  /** The handler panicked and nothing is sent. */
  const NO_RESPONSE := Http(0, "", "")

  // --------------------------------------------------------- request bodies

  datatype StoreRequest = StoreRequest(prompt: string, response: string, model: string)

  predicate Repeated(fields: seq<Field>, key: string)
  {
    exists i, k :: 0 <= i < k < |fields| && fields[i].key == key && fields[k].key == key
  }

  /**
   `serde_json::from_slice::<CacheStoreRequest>`: a struct may be written as an object, none
   of whose own keys may be repeated, or as an array of its fields.
   */
  function DecodeStore(body: string): Option<StoreRequest>
  {
    match ParseTree(body)
    case Some(Obj(fs)) =>
      var p, r, m := Find(fs, "prompt"), Find(fs, "response"), Find(fs, "model");
      if !Repeated(fs, "prompt") && !Repeated(fs, "response") && !Repeated(fs, "model")
         && AsStr(p).Some? && AsStr(r).Some? && (m.None? || AsStr(m).Some?)
      then Some(StoreRequest(AsStr(p).value, AsStr(r).value, if m.None? then "" else AsStr(m).value))
      else None
    case Some(Arr(xs)) =>
      if 2 <= |xs| <= 3 && xs[0].Str? && xs[1].Str? && (|xs| == 3 ==> xs[2].Str?)
      then Some(StoreRequest(xs[0].s, xs[1].s, if |xs| == 3 then xs[2].s else ""))
      else None
    case _ => None
  }

  /** The prompt of a lookup body, empty if there is none. */
  function PromptOf(body: string): string
  {
    match FromText(body)
    case Some(j) => (match AsStr(Get(j, "prompt")) case Some(p) => p case None => "")
    case None => ""
  }

  /** What the store endpoint writes to both levels. */
  function StoredJson(response: string, model: string): string
  {
    Print(OpenAiSse.NativeResponse(1, response, if model == "" then "cached" else model))
  }

  // --------------------------------------------------------------- the state

  /** One store: what went to L1a and, unless the embedder or the insert failed, to L1b. */
  datatype Put = Put(prompt: string, scope: Option<string>, value: string, insert: Option<SemanticCache.Entry>)

  function KeyOf(p: Put): string { CacheScope.KeyInput("native", p.prompt, p.scope) }

  /** The value most recently put under a key. */
  function Latest(puts: seq<Put>, key: string): Option<string>
  {
    if puts == [] then None
    else if KeyOf(puts[|puts| - 1]) == key then Some(puts[|puts| - 1].value)
    else Latest(puts[..|puts| - 1], key)
  }

  /** The inserts into L1b, in the order of the stores that made them. */
  function Inserts(puts: seq<Put>): seq<SemanticCache.Entry>
  {
    if puts == [] then []
    else
      var last := puts[|puts| - 1];
      Inserts(puts[..|puts| - 1]) + if last.insert.Some? then [last.insert.value] else []
  }

  /** A put writes one value under one scope to both levels; scopes are digests. */
  ghost predicate Sound(p: Put, digest: string -> string)
  {
    && (p.insert.Some? ==> p.insert.value.response == p.value && p.insert.value.scope == p.scope)
    && (p.scope.Some? ==> exists id :: p.scope.value == digest(id))
  }

  /** What both levels hold: L1a's map, and the inserts that determine L1b. */
  datatype Caches = Caches(exact: map<string, string>, history: seq<SemanticCache.Entry>)

  /** What does not change while the server runs. */
  datatype Setup = Setup(digest: string -> string, sqrt: real -> real, cfg: SemanticCache.Config)

  /** What both levels hold goes back to the stores: all inserts, and some of the latest values. */
  ghost predicate Recorded(digest: string -> string, c: Caches, puts: seq<Put>)
  {
    && c.history == Inserts(puts)
    && (forall k :: k in c.exact ==> Latest(puts, k) == Some(c.exact[k]))
    && (forall i :: 0 <= i < |puts| ==> Sound(puts[i], digest))
  }

  class CacheState {
    const digest: string -> string
    const vector: SemanticCache.VectorCache
    var exact: map<string, string>
    ghost var puts: seq<Put>

    ghost predicate Valid()
      reads this, vector
    {
      vector.Valid() && Recorded(digest, Contents(), puts)
    }

    constructor (digest: string -> string, vector: SemanticCache.VectorCache)
      requires vector.Valid() && vector.history == []
      ensures Valid() && Contents() == Caches(map[], []) && puts == []
      ensures this.digest == digest && this.vector == vector
    {
      this.digest := digest;
      this.vector := vector;
      exact := map[];
      puts := [];
    }

    /** L1a evicts whatever it likes. */
    method Forget(keys: set<string>)
      requires Valid()
      modifies this
      ensures Valid() && exact == old(exact) - keys && puts == old(puts)
    {
      exact := exact - keys;
    }

    method Store(body: string, headers: map<string, string>, embedding: Option<seq<real>>, now: nat) returns (r: Http)
      requires Valid() && vector.ClockAt(now)
      modifies this, vector
      ensures Valid()
      ensures (Contents(), r) == StoreIn(old(Constants()), old(Contents()), body, headers, embedding, now)
      ensures puts == if r.status == 400 then old(puts)
                      else old(puts) + [PutOf(old(Constants()), DecodeStore(body).value, body, headers, embedding, now)]
    {
      if ByteLen(body) > MAX_STORE_BODY {
        return Http(400, "", "invalid body");
      }
      var decoded := DecodeStore(body);
      if decoded.None? {
        return Http(400, "", "prompt and response are required");
      }
      r := Write(decoded.value, body, headers, embedding, now);
    }

    /** The part of the endpoint that writes: L1a, then L1b. */
    method Write(req: StoreRequest, body: string, headers: map<string, string>, embedding: Option<seq<real>>, now: nat)
      returns (r: Http)
      requires Valid() && vector.ClockAt(now) && ByteLen(body) <= MAX_STORE_BODY && DecodeStore(body) == Some(req)
      modifies this, vector
      ensures Valid()
      ensures (Contents(), r) == StoreIn(old(Constants()), old(Contents()), body, headers, embedding, now)
      ensures puts == old(puts) + [PutOf(old(Constants()), req, body, headers, embedding, now)]
    {
      ghost var s, c := Constants(), Contents();
      ghost var c', p := StoreIn(s, c, body, headers, embedding, now).0, PutOf(s, req, body, headers, embedding, now);
      assert Recorded(digest, c', puts + [p]) by {
        StoreRecorded(s, c, puts, body, headers, embedding, now);
      }
      var scope := CacheScope.Scope(digest, headers, body);
      var json := StoredJson(req.response, req.model);
      exact := exact[CacheScope.KeyInput("native", req.prompt, scope) := json];
      r := Http(200, "", "stored");
      if embedding.Some? {
        var ok := vector.Insert(embedding.value, json, scope, now);
        if !ok {
          r := NO_RESPONSE;
        }
      }
      puts := puts + [p];
      assert Contents() == c';
    }

    ghost function Contents(): Caches
      reads this, vector
    {
      Caches(exact, vector.history)
    }

    ghost function Constants(): Setup
      reads vector
    {
      Setup(digest, vector.sqrt, vector.cfg)
    }

    /** The lookup endpoint as a function of what has been stored. */
    ghost function LookupResult(body: string, headers: map<string, string>, embedding: Option<seq<real>>, now: nat)
      : Http
      reads this, vector
    {
      LookupIn(Constants(), Contents(), body, headers, embedding, now)
    }

    method Lookup(body: string, headers: map<string, string>, embedding: Option<seq<real>>, now: nat) returns (r: Http)
      requires Valid() && vector.ClockAt(now)
      ensures r == LookupResult(body, headers, embedding, now)
    {
      if ByteLen(body) > MAX_LOOKUP_BODY {
        return Http(400, "", "invalid body");
      }
      var scope := CacheScope.Scope(digest, headers, body);
      var prompt := PromptOf(body);
      if prompt == "" {
        return Http(400, "", "prompt is required");
      }
      var key := CacheScope.KeyInput("native", prompt, scope);
      if key in exact {
        return Http(200, "l1a", exact[key]);
      }
      if embedding.Some? {
        var cached := vector.Search(embedding.value, scope, now);
        if cached.Some? {
          return Http(200, "l1b", cached.value);
        }
      }
      r := Http(204, "", "");
    }

    /** `InProcessMcpToolExecutor::cache_lookup` */
    method CacheLookup(prompt: string, embedding: Option<seq<real>>, now: nat) returns (r: Result<Option<string>,
                       string>)
      requires Valid() && vector.ClockAt(now)
      ensures r == ReadLookup(LookupResult(LookupBody(prompt), map[], embedding, now))
    {
      var response := Lookup(LookupBody(prompt), map[], embedding, now);
      r := ReadLookup(response);
    }

    /** `InProcessMcpToolExecutor::cache_store`; `None` if the endpoint panics. */
    method CacheStore(prompt: string, response: string, model: string, embedding: Option<seq<real>>, now: nat)
      returns (r: Option<Result<(), string>>)
      requires Valid() && vector.ClockAt(now)
      modifies this, vector
      ensures Valid()
      ensures (Contents(), r) == McpStored(old(Constants()), old(Contents()), prompt, response, model, embedding, now)
    {
      var http := Store(StoreBody(prompt, response, model), map[], embedding, now);
      r := ReadStore(http);
    }
  }

  /** The store endpoint: both levels afterwards and the response. A panic comes after the write to L1a. */
  function StoreIn(s: Setup, c: Caches, body: string, headers: map<string, string>, embedding: Option<seq<real>>,
                   now: nat): (Caches, Http)
  {
    var req, scope := DecodeStore(body), CacheScope.Scope(s.digest, headers, body);
    if ByteLen(body) > MAX_STORE_BODY then (c, Http(400, "", "invalid body"))
    else if req.None? then (c, Http(400, "", "prompt and response are required"))
    else
      var json := StoredJson(req.value.response, req.value.model);
      var exact := c.exact[CacheScope.KeyInput("native", req.value.prompt, scope) := json];
      if embedding.None? then (Caches(exact, c.history), Http(200, "", "stored"))
      else if s.cfg.maxCapacity == 0 then (Caches(exact, c.history), NO_RESPONSE)
      else
        var entry := SemanticCache.Entry(embedding.value, json, now, scope);
        (Caches(exact, c.history + [entry]), Http(200, "", "stored"))
  }

  function LookupIn(s: Setup, c: Caches, body: string, headers: map<string, string>, embedding: Option<seq<real>>,
                    now: nat): Http
  {
    var prompt, scope := PromptOf(body), CacheScope.Scope(s.digest, headers, body);
    var key := CacheScope.KeyInput("native", prompt, scope);
    if ByteLen(body) > MAX_LOOKUP_BODY then Http(400, "", "invalid body")
    else if prompt == "" then Http(400, "", "prompt is required")
    else if key in c.exact then Http(200, "l1a", c.exact[key])
    else if embedding.None? then Http(204, "", "")
    else
      match SemanticCache.Answer(s.sqrt, s.cfg, SemanticCache.Query(embedding.value, scope, now), c.history)
      case Some(cached) => Http(200, "l1b", cached)
      case None => Http(204, "", "")
  }

  /** The store that a request amounts to. */
  function PutOf(s: Setup, req: StoreRequest, body: string, headers: map<string, string>, embedding: Option<seq<real>>,
                 now: nat): Put
  {
    var scope, json := CacheScope.Scope(s.digest, headers, body), StoredJson(req.response, req.model);
    Put(req.prompt, scope, json,
        if embedding.None? || s.cfg.maxCapacity == 0 then None
        else Some(SemanticCache.Entry(embedding.value, json, now, scope)))
  }

  lemma {:induction false} StoreRecorded(s: Setup, c: Caches, puts: seq<Put>, body: string,
                                         headers: map<string, string>, embedding: Option<seq<real>>, now: nat)
    requires Recorded(s.digest, c, puts) && ByteLen(body) <= MAX_STORE_BODY && DecodeStore(body).Some?
    ensures var p := PutOf(s, DecodeStore(body).value, body, headers, embedding, now);
            Recorded(s.digest, StoreIn(s, c, body, headers, embedding, now).0, puts + [p])
  {
    var p := PutOf(s, DecodeStore(body).value, body, headers, embedding, now);
    ScopeIsDigest(s.digest, headers, body);
    assert Sound(p, s.digest);
    assert (puts + [p])[..|puts|] == puts;
  }

  lemma ScopeIsDigest(digest: string -> string, headers: map<string, string>, body: string)
    ensures var scope := CacheScope.Scope(digest, headers, body);
            scope.Some? ==> exists id :: scope.value == digest(id)
  {
  }

  // ------------------------------------------------------- the MCP executor

  /** How the executor reads the store endpoint's response. */
  function ReadStore(http: Http): Option<Result<(), string>>
  {
    if http == NO_RESPONSE then None
    else if 200 <= http.status < 300 then Some(Ok(()))
    else Some(Err("cache store failed"))
  }

  /** Both levels after a store through the executor, which sends no session, and its result. */
  function McpStored(s: Setup, c: Caches, prompt: string, response: string, model: string, embedding: Option<seq<real>>,
                     now: nat): (Caches, Option<Result<(), string>>)
  {
    var (c', http) := StoreIn(s, c, StoreBody(prompt, response, model), map[], embedding, now);
    (c', ReadStore(http))
  }

  function LookupBody(prompt: string): string { Print(Obj([Field("prompt", Str(prompt))])) }

  function StoreBody(prompt: string, response: string, model: string): string
  {
    Print(Obj([Field("model", Str(model)), Field("prompt", Str(prompt)), Field("response", Str(response))]))
  }

  /** How the executor reads the lookup endpoint's response. */
  function ReadLookup(http: Http): Result<Option<string>, string>
  {
    if http.status == 204 then Ok(None)
    else if !(200 <= http.status < 300) then Err("cache lookup failed")
    else if ByteLen(http.body) > MAX_LOOKUP_RESPONSE then Err("length limit exceeded")
    else
      var payload := match FromText(http.body) case Some(j) => j case None => Obj([]);
      var message, response := AsStr(Get(payload, "message")), AsStr(Get(payload, "response"));
      var answer := if message.Some? then message.value else if response.Some? then response.value else "";
      if answer == "" then Ok(None) else Ok(Some(answer))
  }

  lemma NoIdentifier(fs: seq<Field>)
    requires forall i :: 0 <= i < |fs| ==> fs[i].key in {"prompt", "response", "model"}
    ensures NoSession(Obj(fs))
  {
    FindNone(fs, "session_id");
    FindNone(fs, "thread_id");
    FindNone(fs, "conversation_id");
    FindNone(fs, "metadata");
  }

  predicate NoSession(j: Json)
  {
    && Get(j, "session_id").None? && Get(j, "thread_id").None?
    && Get(j, "conversation_id").None? && Get(j, "metadata").None?
  }

  lemma StoreBodyReads(digest: string -> string, prompt: string, response: string, model: string)
    ensures var body := StoreBody(prompt, response, model);
            && DecodeStore(body) == Some(StoreRequest(prompt, response, model))
            && CacheScope.Scope(digest, map[], body) == None
  {
    var fs := [Field("model", Str(model)), Field("prompt", Str(prompt)), Field("response", Str(response))];
    assert Valid(Obj(fs));
    PrintParse(Obj(fs));
    FindAt(fs, "model", 0);
    FindAt(fs, "prompt", 1);
    FindAt(fs, "response", 2);
    NoIdentifier(fs);
  }

  /** A store through the executor writes both levels unscoped, if its body fits. */
  lemma McpStoredIs(s: Setup, c: Caches, prompt: string, response: string, model: string,
                    embedding: Option<seq<real>>, now: nat)
    ensures var json, (c', r) := StoredJson(response, model), McpStored(s, c, prompt, response, model, embedding, now);
            if ByteLen(StoreBody(prompt, response, model)) > MAX_STORE_BODY then c' == c && r.Some? && r.value.Err?
            else
              && c'.exact == c.exact[CacheScope.KeyInput("native", prompt, None) := json]
              && if embedding.None? || s.cfg.maxCapacity == 0 then
                   c'.history == c.history && r == if embedding.None? then Some(Ok(())) else None
                 else
                   && c'.history == c.history + [SemanticCache.Entry(embedding.value, json, now, None)]
                   && r == Some(Ok(()))
  {
    StoreBodyReads(s.digest, prompt, response, model);
  }

  lemma LookupBodyReads(digest: string -> string, prompt: string)
    ensures PromptOf(LookupBody(prompt)) == prompt && CacheScope.Scope(digest, map[], LookupBody(prompt)) == None
  {
    var fs := [Field("prompt", Str(prompt))];
    assert Within(Obj(fs), 1);
    Looser(Obj(fs), 1, MAX_LEVELS);
    PrintParse(Obj(fs));
    FindAt(fs, "prompt", 0);
    NoIdentifier(fs);
  }

  // -------------------------------------------------- what a run guarantees

  /** The store whose value L1a returns: the latest under the key, of this scope unless keys collide. */
  predicate FromExact(puts: seq<Put>, i: nat, key: string, prompt: string, scope: Option<string>, answer: string)
  {
    && i < |puts| && answer == puts[i].value && KeyOf(puts[i]) == key
    && (forall k :: i < k < |puts| ==> KeyOf(puts[k]) != key)
    && var p := puts[i];
       || (p.scope == scope && p.prompt == prompt)
       || (scope.None? && p.scope.Some? && CacheScope.Shadows(prompt, p.scope.value, p.prompt))
       || (scope.Some? && p.scope.None? && CacheScope.Shadows(p.prompt, scope.value, prompt))
  }

  /** The store whose value L1b returns: of this scope, and the oldest best of all that can be reached. */
  predicate FromSemantic(s: Setup, puts: seq<Put>, i: nat, q: SemanticCache.Query, answer: string)
  {
    && i < |puts| && answer == puts[i].value && puts[i].scope == q.scope && puts[i].insert.Some?
    && var h, k := Inserts(puts), |Inserts(puts[..i])|;
       k < |h| && h[k] == puts[i].insert.value
       && SemanticCache.IsOldestBest(s.sqrt, s.cfg, q, h, SemanticCache.Reach(h, s.cfg), k)
  }

  /**
   Every answer goes back to store `i`. From L1a it is the latest value stored for the key, by
   a store whose scope and prompt are those of the lookup unless one of the two spells out
   the other's key; from L1b it is the oldest best live entry of the same scope; otherwise
   nothing eligible was stored.
   */
  lemma AnswersWereStored(c: CacheState, body: string, headers: map<string, string>,
                          embedding: Option<seq<real>>, now: nat) returns (i: nat)
    requires c.Valid() && ByteLen(body) <= MAX_LOOKUP_BODY && PromptOf(body) != ""
    requires forall s :: CacheScope.NoBar(c.digest(s))
    ensures var r, s := c.LookupResult(body, headers, embedding, now), c.Constants();
            var prompt, scope := PromptOf(body), CacheScope.Scope(c.digest, headers, body);
            var key := CacheScope.KeyInput("native", prompt, scope);
            match r.layer
            case "l1a" => FromExact(c.puts, i, key, prompt, scope, r.body)
            case "l1b" =>
              && key !in c.exact && embedding.Some?
              && FromSemantic(s, c.puts, i, SemanticCache.Query(embedding.value, scope, now), r.body)
            case _ =>
              && r.status == 204 && key !in c.exact
              && (embedding.Some? ==>
                    SemanticCache.NoneEligible(s.sqrt, s.cfg, SemanticCache.Query(embedding.value, scope, now),
                                               Inserts(c.puts), SemanticCache.Reach(Inserts(c.puts), s.cfg)))
  {
    var s, prompt, scope := c.Constants(), PromptOf(body), CacheScope.Scope(c.digest, headers, body);
    var key := CacheScope.KeyInput("native", prompt, scope);
    i := 0;
    if key in c.exact {
      i := LatestIndex(c.puts, key);
      assert Sound(c.puts[i], c.digest);
      CacheScope.KeysCollide("native", prompt, scope, c.puts[i].prompt, c.puts[i].scope);
    } else if embedding.Some? {
      var q := SemanticCache.Query(embedding.value, scope, now);
      var k := SemanticCache.AnswerMeaning(s.sqrt, s.cfg, q, c.vector.history);
      if SemanticCache.Answer(s.sqrt, s.cfg, q, c.vector.history).Some? {
        i := StoreOfInsert(c.puts, k);
        assert Sound(c.puts[i], c.digest);
      }
    }
  }

  /** The store that made the k-th insert. */
  lemma {:induction false} StoreOfInsert(puts: seq<Put>, k: nat) returns (i: nat)
    requires k < |Inserts(puts)|
    ensures i < |puts| && puts[i].insert == Some(Inserts(puts)[k]) && |Inserts(puts[..i])| == k
  {
    var init := puts[..|puts| - 1];
    if k < |Inserts(init)| {
      i := StoreOfInsert(init, k);
      assert init[..i] == puts[..i];
    } else {
      i := |puts| - 1;
    }
  }

  lemma {:induction false} LatestIndex(puts: seq<Put>, key: string) returns (i: nat)
    requires Latest(puts, key).Some?
    ensures i < |puts| && KeyOf(puts[i]) == key && Latest(puts, key).value == puts[i].value
    ensures forall k :: i < k < |puts| ==> KeyOf(puts[k]) != key
  {
    i := |puts| - 1;
    if KeyOf(puts[i]) != key {
      i := LatestIndex(puts[..|puts| - 1], key);
    }
  }

  /** The executor reads back the stored text, unless the stored body is over the read limit. */
  lemma StoredReadsBack(response: string, model: string, layer: string)
    ensures ReadLookup(Http(200, layer, StoredJson(response, model))) ==
            if ByteLen(StoredJson(response, model)) > MAX_LOOKUP_RESPONSE then Err("length limit exceeded")
            else if response == "" then Ok(None) else Ok(Some(response))
  {
    var m := if model == "" then "cached" else model;
    OpenAiSse.NativeFacts(1, response, m);
    PrintParse(OpenAiSse.NativeResponse(1, response, m));
  }

  /**
   Store through MCP, then chat: while L1a still holds what was stored, the lookup returns
   the nonempty text verbatim exactly when the lookup body and the stored body are within the
   read limits. Both limits are below what the store accepts.
   */
  lemma StoreThenChat(s: Setup, c: Caches, prompt: string, response: string, model: string,
                      embedding: Option<seq<real>>, now: nat)
    requires prompt != "" && response != ""
    requires CacheScope.KeyInput("native", prompt, None) in c.exact
    requires c.exact[CacheScope.KeyInput("native", prompt, None)] == StoredJson(response, model)
    ensures var answer := ReadLookup(LookupIn(s, c, LookupBody(prompt), map[], embedding, now));
            && (answer == Ok(Some(response)) <==> Readable(prompt, response, model))
            && (answer.Err? <==> !Readable(prompt, response, model))
  {
    LookupBodyReads(s.digest, prompt);
    StoredReadsBack(response, model, "l1a");
  }

  /** The lookup body and the stored body are within the read limits. */
  predicate Readable(prompt: string, response: string, model: string)
  {
    ByteLen(LookupBody(prompt)) <= MAX_LOOKUP_BODY && ByteLen(StoredJson(response, model)) <= MAX_LOOKUP_RESPONSE
  }

  /**
   A session's answer given to a request without one: whatever was stored for `m` under a
   session is what an unscoped lookup gets that spells out that session's key, if only its
   body is within the limit. So the scope of an answer is the requester's except then.
   */
  lemma CrossScopeAnswer(s: Setup, c: Caches, id: string, m: string, response: string, model: string,
                         e1: Option<seq<real>>, t1: nat, e2: Option<seq<real>>, t2: nat)
    requires CacheScope.Normalize(id).Some?
    requires ByteLen(StoreBody(m, response, model)) <= MAX_STORE_BODY
    ensures var c' := StoreIn(s, c, StoreBody(m, response, model), map["x-isartor-session-id" := id], e1, t1).0;
            var prompt := "session:" + s.digest(CacheScope.Normalize(id).value) + "|" + m;
            && CacheScope.Scope(s.digest, map["x-isartor-session-id" := id], StoreBody(m, response, model)).Some?
            && CacheScope.Scope(s.digest, map[], LookupBody(prompt)).None?
            && (ByteLen(LookupBody(prompt)) <= MAX_LOOKUP_BODY ==>
                  LookupIn(s, c', LookupBody(prompt), map[], e2, t2) == Http(200, "l1a", StoredJson(response, model)))
  {
    var body, prompt := StoreBody(m, response, model), "session:" + s.digest(CacheScope.Normalize(id).value) + "|" + m;
    CacheScope.CollisionExists("native", s.digest, id, body, m);
    StoreBodyReads(s.digest, m, response, model);
    LookupBodyReads(s.digest, prompt);
    assert prompt != "";
  }

  /**
   One session, however each request names it: what one stores for a prompt the other gets from
   L1a, whatever either of them names besides.
   */
  lemma SessionShares(s: Setup, c: Caches, h1: map<string, string>, b1: string, h2: map<string, string>, b2: string,
                      id: string, e1: Option<seq<real>>, t1: nat, e2: Option<seq<real>>, t2: nat)
    requires CacheScope.Names(h1, b1, id) && CacheScope.Names(h2, b2, id)
    requires ByteLen(b1) <= MAX_STORE_BODY && ByteLen(b2) <= MAX_LOOKUP_BODY && DecodeStore(b1).Some?
    requires PromptOf(b2) == DecodeStore(b1).value.prompt != ""
    ensures var req := DecodeStore(b1).value;
            LookupIn(s, StoreIn(s, c, b1, h1, e1, t1).0, b2, h2, e2, t2) ==
            Http(200, "l1a", StoredJson(req.response, req.model))
  {
    CacheScope.ScopeSpelledOut(s.digest, h1, b1);
    CacheScope.ScopeSpelledOut(s.digest, h2, b2);
  }

  /** What a lookup can be answered with: the value under its key, and the inserts of its scope. */
  function Visible(c: Caches, key: string, scope: Option<string>): (Option<string>, seq<SemanticCache.Entry>)
  {
    (if key in c.exact then Some(c.exact[key]) else None, SemanticCache.OnlyScope(c.history, scope))
  }

  /**
   Two sessions of different digests never answer each other: a store of one leaves everything
   that a lookup of the other can be answered with as it was, for every prompt.
   */
  lemma SessionsApart(s: Setup, c: Caches, h1: map<string, string>, b1: string, h2: map<string, string>, b2: string,
                      id1: string, id2: string, embedding: Option<seq<real>>, now: nat)
    requires CacheScope.Names(h1, b1, id1) && CacheScope.Names(h2, b2, id2) && s.digest(id1) != s.digest(id2)
    requires CacheScope.NoBar(s.digest(id1)) && CacheScope.NoBar(s.digest(id2))
    ensures var scope := CacheScope.Scope(s.digest, h2, b2);
            var key := CacheScope.KeyInput("native", PromptOf(b2), scope);
            Visible(StoreIn(s, c, b1, h1, embedding, now).0, key, scope) == Visible(c, key, scope)
  {
    CacheScope.ScopeSpelledOut(s.digest, h1, b1);
    CacheScope.ScopeSpelledOut(s.digest, h2, b2);
    var scope := CacheScope.Scope(s.digest, h2, b2);
    if DecodeStore(b1).Some? {
      var req := DecodeStore(b1).value;
      CacheScope.KeysCollide("native", req.prompt, Some(s.digest(id1)), PromptOf(b2), scope);
      StoreAdds(s, c, b1, h1, embedding, now);
    }
  }

  /** What a store adds, seen from another scope: nothing to its inserts, one key to L1a. */
  lemma StoreAdds(s: Setup, c: Caches, body: string, headers: map<string, string>, embedding: Option<seq<real>>,
                  now: nat)
    requires DecodeStore(body).Some?
    ensures var own, c' := CacheScope.Scope(s.digest, headers, body), StoreIn(s, c, body, headers, embedding, now).0;
            && (forall scope :: scope != own ==>
                  SemanticCache.OnlyScope(c'.history, scope) == SemanticCache.OnlyScope(c.history, scope))
            && forall key :: key != CacheScope.KeyInput("native", DecodeStore(body).value.prompt, own) ==>
                 (key in c'.exact <==> key in c.exact) && (key in c.exact ==> c'.exact[key] == c.exact[key])
  {
    var own, c' := CacheScope.Scope(s.digest, headers, body), StoreIn(s, c, body, headers, embedding, now).0;
    if c'.history != c.history {
      var e := c'.history[|c.history|];
      assert c'.history == c.history + [e] && e.scope == own;
      forall scope | scope != own
        ensures SemanticCache.OnlyScope(c'.history, scope) == SemanticCache.OnlyScope(c.history, scope)
      {
        SemanticCache.OtherScopeUnseen(c.history, e, scope);
      }
    }
  }

  function SessionBody(prompt: string, id: string): string
  {
    Print(Obj([Field("prompt", Str(prompt)), Field("session_id", Str(id))]))
  }

  /** A session named in the body alone, for every prompt and identifier. */
  lemma BodySessionScope(digest: string -> string, prompt: string, text: string, id: string)
    requires CacheScope.Identifies(text, id)
    ensures PromptOf(SessionBody(prompt, text)) == prompt
    ensures CacheScope.Scope(digest, map[], SessionBody(prompt, text)) == Some(digest(id))
  {
    var fs := [Field("prompt", Str(prompt)), Field("session_id", Str(text))];
    assert Within(Obj(fs), 1);
    Looser(Obj(fs), 1, MAX_LEVELS);
    PrintParse(Obj(fs));
    FindAt(fs, "prompt", 0);
    FindAt(fs, "session_id", 1);
    assert CacheScope.FirstString(Obj(fs), text);
    assert CacheScope.FieldsSay(Obj(fs), id);
    CacheScope.ScopeSpelledOut(digest, map[], SessionBody(prompt, text));
  }

  // ----------------------------------------- a prompt only the store accepts

  predicate Plain(s: string)
  {
    forall i :: 0 <= i < |s| ==> 32 <= s[i] as int < 128 && s[i] != '\"' && s[i] != '\\'
  }

  lemma {:induction false} QuoteSize(c: char, s: string)
    requires c as int < 128
    ensures ByteLen([c] + s) == 1 + ByteLen(s)
  {
    assert ([c] + s)[1..] == s;
  }

  lemma {:induction false} StringSize(s: string, k: string)
    requires Plain(s)
    ensures ByteLen(EscTo(s, k)) == |s| + ByteLen(k)
  {
    if s == [] {
    } else {
      StringSize(s[1..], k);
      assert EscChar(s[0]) == [s[0]];
      QuoteSize(s[0], EscTo(s[1..], k));
    }
  }

  lemma {:induction false} MemberSize(key: string, value: string, k: string)
    requires Plain(key) && Plain(value)
    ensures ByteLen(FieldTo(Field(key, Str(value)), k)) == |key| + |value| + 5 + ByteLen(k)
  {
    StringSize(value, "\"" + k);
    QuoteSize('\"', k);
    QuoteSize('\"', EscTo(value, "\"" + k));
    QuoteSize(':', StrTo(value, k));
    QuoteSize('\"', ":" + StrTo(value, k));
    StringSize(key, "\"" + (":" + StrTo(value, k)));
    QuoteSize('\"', EscTo(key, "\"" + (":" + StrTo(value, k))));
  }

  lemma LookupSize(p: string)
    requires Plain(p)
    ensures ByteLen(LookupBody(p)) == |p| + 13
  {
    var f := Field("prompt", Str(p));
    var end := FieldsTo([f][1..], false, "");
    QuoteSize('}', "");
    assert end == "}" + "";
    MemberSize("prompt", p, end);
    assert FieldsTo([f], true, "") == FieldTo(f, end);
    QuoteSize('{', FieldTo(f, end));
  }

  lemma StoreSize(p: string)
    requires Plain(p)
    ensures ByteLen(StoreBody(p, "x", "")) == |p| + 39
  {
    var fs := [Field("model", Str("")), Field("prompt", Str(p)), Field("response", Str("x"))];
    var end := FieldsTo(fs[2..][1..], false, "");
    QuoteSize('}', "");
    assert end == "}" + "" by { assert fs[2..][1..] == []; }
    var t2 := FieldsTo(fs[2..], false, "");
    MemberSize("response", "x", end);
    QuoteSize(',', FieldTo(fs[2], end));
    assert t2 == "," + FieldTo(fs[2], end);
    var t1 := FieldsTo(fs[1..], false, "");
    MemberSize("prompt", p, t2);
    QuoteSize(',', FieldTo(fs[1], t2));
    assert t1 == "," + FieldTo(fs[1], t2) by { assert fs[1..][1..] == fs[2..]; }
    MemberSize("model", "", t1);
    assert FieldsTo(fs, true, "") == FieldTo(fs[0], t1);
    QuoteSize('{', FieldTo(fs[0], t1));
  }

  /** A prompt that can be stored but never looked up again. */
  lemma StoredButUnreachable(p: string)
    requires p == seq(MAX_LOOKUP_BODY, _ => 'a')
    ensures ByteLen(StoreBody(p, "x", "")) <= MAX_STORE_BODY && ByteLen(LookupBody(p)) > MAX_LOOKUP_BODY
  {
    LookupSize(p);
    StoreSize(p);
  }
}
