# Isartor, modelled in Dafny

Isartor is an HTTP gateway that answers prompts from an exact cache (L1a) or a semantic cache
(L1b) before any model is asked, compresses system instructions on the way out, exposes its
caches as MCP tools and translates cached JSON into the event streams of the OpenAI and
Anthropic APIs. This project models the parts of it that hold state or transform data, and
proves what they promise over every input, every history and every interleaving.

Objects whose methods update fields are classes proved against functions of their old state;
loops over vectors are loops; code made of expressions is functions on a JSON tree. The main
results are:

- **Semantic cache** (`Reals`, `Cosine`, `SemanticCache`). The stored vector is at all times a
  declarative sliding window over the whole insertion history, by count and by age; a search
  answers with the oldest entry of greatest score within that window, and with nothing if and
  only if no eligible entry exists. The score obeys the law of cosines, and Cauchy-Schwarz holds
  at every prefix of the loop that computes it. A session sees the shared cache as a private
  cache of its own inserts.
- **Two-level cache** (`CacheScope`, `TwoLevelCache`, `EndpointShapes`, `CacheInterleaving`).
  Which session a request names is spelled out over its headers and its document; requests of
  one session share what is stored, those of two sessions never answer each other. Every answer of any
  run goes back to a store; what L1a answers is the latest store under the key, what L1b
  answers is the oldest best entry; and so it is in every interleaving of stores and lookups
  that take the locks of the two levels one after the other. Which requests share an exact key
  is decided exactly, and so is which texts stored through MCP can be looked up again.
- **Statistics** (`Visibility`, `LookupStats`). Counter sums are conserved over every run, and
  in every interleaving of any number of lookups whose updates each take the lock separately,
  the orders between the cache counters hold and the recorded prompts are those of the finished
  lookups.
- **Streams** (`Json`, `JsonText`, `JsonReading`, `Members`, `EventStream`,
  `EventShapes`, `OpenAiSse`, `AnthropicSse`, `StreamShapes`). A JSON printer and parser (RFC 8259), an event-stream reader
  (sections 9.2.5 and 9.2.6 of the WHATWG HTML standard) and clients that put an answer together
  again: whatever characters a text holds, caching it and streaming it returns the same text and
  model, and tool calls and finish reasons survive as they are.
- **Instruction compression** (`Utf8`, `Instructions`, `TextLines`, `LogCrunch`, `LogShapes`,
  `Pipeline`, `Optimize`, `OptimizeShapes`, `SecondPass`, `InterleavedPasses`). Deduplication reports the length of the maximal run of equal instructions; the
  rewrite of a request changes exactly the system texts the pipeline changed, to exactly what
  it answered; and it is decided exactly when minifying twice, or rewriting twice, differs from
  doing so once, and what a request reports when others of its session run in between.
- **MCP** (`Mcp`, `McpSessions`, `McpInterleaving`, `McpCache`). Which messages are answered,
  with which id, in which order, down to the bytes of the response; in every interleaving of
  POSTs and DELETEs the live sessions are those minted minus those deleted, it is decided
  exactly which dispatches find their session live, and a text stored by one tool call is what
  a later chat call returns.
- **Step protocols and encodings** (`SelfUpdate`, `Logs`, `ChatRequest`, `ChatShapes`).
  Replacing the running binary is crash safe at every step exactly if its backup has a path of
  its own; the log follower shows each appended byte once; decoding a chat request is a normal
  form, and each field is that of the member it comes from.

The modules named `Shapes` state over the documents and texts themselves, without the functions
that take them apart, what those functions find in them.

## Where the code differs from what is said about it

Each of these is stated with an exact condition or a concrete input; the model follows the code.

- Exact keys of one namespace do collide: an unscoped prompt that spells out
  `session:<scope>|` shares the key of the scoped request (`KeysCollide`, `CollisionExists`),
  and is answered with what was stored under that session (`CrossScopeAnswer`).
- The store endpoint accepts 256 KiB, the lookup endpoint 64 KiB, and the MCP executor reads
  back at most 128 KiB, so some stored answers cannot be read (`StoreThenChat`,
  `StoredButUnreachable`).
- A semantic cache of capacity zero fails on every insert (`InsertFailsIffNoCapacity`); the
  configuration does not exclude zero and the exact cache replaces it by 128. The store
  endpoint then panics after it has written L1a (`CacheState.Store`).
- A JSON value nested deeper than 127 levels is printed but not read back by the gateway's own
  reader (`PrintParse`).
- A unit test of the repository asserts that minifying is idempotent on one input. It is so
  exactly if, among the lines that are neither comment nor decoration, no kept line but the
  last ends in a carriage return and the last line with text is not directly followed by an
  empty line (`StableIffSteady`, `NotStable`).
- Rewriting a request a second time is not idle: an unchanged instruction that the session has
  just recorded is replaced by a reference (`BodyTwiceIff`, `SecondPassChanges`).
- The strategy `dedup+log_crunch` named in `src/compression/optimize.rs:25` never occurs, as a
  deduplicated text ends the pipeline (`BuiltPipeline`).
- `evict_if_needed` is described as called periodically, but nothing in `src/` outside tests
  calls it; `EvictionBound` and `StaysUnderLimit` say what calling it would achieve.
- An `initialize` message without an id mints a session whose id is never sent
  (`SilentInitialize`). A `tools/call` without an id is answered with id null, although
  section 4.1 of JSON-RPC 2.0 has notifications go unanswered (`ReplyOf`).
- A dispatch does not always find its session live: it does exactly if no DELETE has removed
  the session since the admission of its POST (`DispatchFindsSession`); one that has does not
  stop the dispatch (`DispatchedAfterRemoval`).
- The log tail with a limit of zero returns every line (`ReadLastLines`); the command itself
  only ever asks for 200.
- The log follower takes a file for truncated only if it is shorter than the offset; one that
  has grown past it again loses its first bytes (`WholeFileShownIff`).
- Self-update is not crash safe for an executable that is its own backup path, that is, whose
  name ends in `.bak` (`CrashSafeIff`, `BackupIsSelf`): the copy starts by emptying the only
  binary, and a call in which nothing fails ends by removing it (`OwnBackupIsLost`).
- Self-update reports success without the new binary in place if the backup path is the
  executable's own path or the new binary's (`InstalledIffPathsDiffer`).

## Model

| member | source | states |
|---|---|---|
| Cosine.CosineSimilarity | src/vector_cache.rs:135-154 | the loop computes the cosine score and keeps the Cauchy-Schwarz bound between its three sums at every prefix; with an exact square root the score is in [-1, 1] |
| Cosine.CauchySchwarz | src/vector_cache.rs:140-148 | dot squared is at most the product of the squared magnitudes, for all vectors of equal length |
| Cosine.ScoreBounds | src/vector_cache.rs:135-154 | every score lies in [-1, 1] and does not depend on the order of the two vectors |
| Cosine.SelfScore | src/vector_cache.rs:150-154 | a nonzero vector scores 1 with itself; a zero vector scores 0 with everything |
| Cosine.ScaleInvariant | src/vector_cache.rs:150-154 | scaling a vector by a positive factor keeps its score with any other |
| Cosine.LawOfCosines | src/vector_cache.rs:135-154 | for all vectors of one length the squared distance is the sum of the squared lengths less twice the product of lengths and score, 2 - 2 * score for unit vectors; vectors of different lengths score 0 |
| SemanticCache.VectorCache.constructor | src/vector_cache.rs:28-36 | an empty cache is the window of the empty history |
| SemanticCache.VectorCache.Insert | src/vector_cache.rs:86-128 | the history grows by the entry, and the stored vector is again exactly its window by count and age; the insert panics, and inserts nothing, if and only if the capacity is zero |
| SemanticCache.VectorCache.Search | src/vector_cache.rs:39-82 | the scan answers as the whole insertion history determines, although expired and evicted entries are gone |
| SemanticCache.InsertKeepsWindow | src/vector_cache.rs:103-118 | retain, drop the first if full and push turn the window of a history into that of the longer history |
| SemanticCache.RetainIsSuffix | src/vector_cache.rs:105 | expired entries come first in a list sorted by time, so retain drops a prefix |
| SemanticCache.WindowIsSuffix | src/vector_cache.rs:86-128 | the stored vector is a suffix of the history, sorted and at most the capacity long; an insert is in it if and only if it is one of the last capacity inserts and was made at most the time to live before the last |
| SemanticCache.InsertFailsIffNoCapacity | src/vector_cache.rs:109-111 | after any history the removal of the first entry hits an empty vector if and only if the capacity is zero |
| SemanticCache.BestIsOldestBest | src/vector_cache.rs:52-75 | the scan returns the oldest eligible entry of greatest score, and nothing if and only if none is eligible |
| SemanticCache.WindowAnswers | src/vector_cache.rs:52-75 | entries dropped as expired by earlier inserts never matter to a later search |
| SemanticCache.AnswerMeaning | src/vector_cache.rs:39-82 | over the whole history: none if and only if no live entry of the scope among the last capacity inserts reaches the threshold, else the oldest of greatest score |
| SemanticCache.AnswerIff | src/vector_cache.rs:39-82 | in plain numbers: a text is the answer if and only if it was inserted by an entry among the last capacity ones, not older than the time to live, of the same scope, its score reaching the threshold, and all others of that kind score less or as much and are younger |
| SemanticCache.OldestBestAnswers | src/vector_cache.rs:39-82 | an entry that is the oldest best one is what the search returns |
| SemanticCache.JustInsertedHits | src/vector_cache.rs:64-75 | searching a just-inserted nonzero embedding in its scope hits with score 1 for any threshold up to 1 |
| SemanticCache.OlderAnswerStays | src/vector_cache.rs:64-75 | inserting an entry that scores no better does not change the answer while the older one is not evicted |
| SemanticCache.ScopeProjection | src/vector_cache.rs:56-69 | a scope sees a private cache of its own inserts whose capacity is its share of the last inserts; below capacity, the very same answers |
| CacheScope.KeysCollide | src/core/cache_scope.rs:25-50 | two requests of a namespace share an exact key if and only if they agree on scope and text or one spells out the other's session prefix |
| CacheScope.NormalizeIff | src/core/cache_scope.rs:79-86 | an identifier is found in a text if and only if it is what the text holds between white space, begins and ends otherwise, and has 1 to 512 bytes |
| CacheScope.ScopeSpelledOut | src/core/cache_scope.rs:14-77 | the scope is the digest of the identifier in the first of the four headers that holds one, else in the first of the three body fields that is a string, else in the first of those of `metadata`; and there is none if and only if none of these applies |
| CacheScope.HeaderWins | src/core/cache_scope.rs:14-18 | an identifier in the first header decides, whatever the body says |
| CacheScope.NamespacesApart | src/core/cache_scope.rs:41-50 | requests of different namespaces never share a key |
| CacheScope.CollisionExists | src/core/cache_scope.rs:14-50 | for every digest, session identifier and prompt, a scoped and an unscoped request that do share a key |
| TwoLevelCache.CacheState.constructor | src/state.rs:305-313 | both levels start empty, and nothing has been stored |
| TwoLevelCache.CacheState.Forget | src/layer1/layer1a_cache.rs:12-33 | L1a may drop any keys; what it still holds is what was stored last |
| TwoLevelCache.CacheState.Store | src/handler.rs:968-1041 | a valid body is written to L1a under its key and to L1b if an embedding exists; a bad or oversized body changes nothing; both levels go on holding only what was stored |
| TwoLevelCache.CacheState.Write | src/handler.rs:1008-1041 | L1a is written before L1b, so a failing insert leaves the L1a entry behind |
| TwoLevelCache.CacheState.Lookup | src/handler.rs:847-962 | the size limit, the empty prompt, L1a first, then L1b over its whole history, else no content |
| TwoLevelCache.CacheState.CacheLookup | src/handler.rs:1051-1084 | the executor's reading of the lookup endpoint for an unscoped request |
| TwoLevelCache.CacheState.CacheStore | src/handler.rs:1086-1100 | the executor's store is the endpoint's store of the encoded, unscoped body |
| TwoLevelCache.McpStoredIs | src/handler.rs:1086-1100 | it writes both levels unscoped if and only if the encoded body fits, and otherwise changes nothing |
| TwoLevelCache.AnswersWereStored | src/handler.rs:897-961 | in every run of calls, one at a time, every answer is the value of one store: from L1a the latest under the key, of the same scope and prompt unless keys collide; from L1b the one of the scope whose insert is the oldest best live one; else nothing eligible was stored |
| TwoLevelCache.CrossScopeAnswer | src/handler.rs:1020-1021 | whatever a session stores for a prompt is what an unscoped lookup that spells out that session's key gets, for every digest, session and text |
| TwoLevelCache.SessionShares | src/handler.rs:882-1021 | a store and a lookup that name one session, by whichever headers and members, share the key: the lookup gets what was stored for its prompt |
| TwoLevelCache.SessionsApart | src/handler.rs:882-1034 | a store of one session leaves all that a lookup of another can be answered with as it was, for every prompt, if their digests differ |
| TwoLevelCache.BodySessionScope | src/core/cache_scope.rs:61-76 | a session named in the body alone scopes the request, for every prompt and identifier |
| EndpointShapes.StoreBodyIff | src/handler.rs:984-1003 | a body is a store of these texts if and only if it is an object that gives prompt and response once each as texts, and model once or not at all, or an array of the two or three |
| EndpointShapes.RefusedIff | src/handler.rs:872-903 | a lookup is refused if and only if its body is over 65536 bytes or has no nonempty text as its prompt, a store if and only if its body is over 262144 bytes or is not one |
| EndpointShapes.StoredDocument | src/handler.rs:1006-1017 | what both levels hold is read as layer 1, the text and the model, or `cached` for an empty one |
| EndpointShapes.ReadsIff | src/handler.rs:1058-1083 | the executor takes a response for an answer if and only if its body, within 131072 bytes, has a nonempty text as its message, or else as its response |
| TwoLevelCache.StoredReadsBack | src/handler.rs:1066-1083 | the executor reads back the stored text, unless the stored body is over its read limit |
| TwoLevelCache.StoreThenChat | src/handler.rs:1051-1100 | while L1a holds it, a stored nonempty text is returned verbatim if and only if lookup body and stored body are within the limits |
| TwoLevelCache.StoredButUnreachable | src/handler.rs:872-881 | a prompt of 64 KiB is accepted by the store and refused by the lookup |
| CacheInterleaving.EveryInterleaving | src/handler.rs:897-1034 | in every interleaving of the puts, inserts, gets and searches of any calls, each under its own lock, with keys dropped from L1a at any time, each step reads exactly what the steps before it left |
| CacheInterleaving.EveryAnswer | src/handler.rs:897-1034 | and every answer goes back to one store: from L1a the one whose put was last under the key, not dropped since; from L1b the one whose insert is the oldest best of all made before the search, its put before it; a miss means neither level had anything when it was read |
| CacheInterleaving.VectorAnswers | src/vector_cache.rs:39-82 | the inserts come in the order of time in every interleaving, so the vector that is really stored answers as the whole history |
| CacheInterleaving.StoreUndisturbed | src/handler.rs:1008-1034 | a store that nothing interrupts does what the endpoint does in one go |
| CacheInterleaving.LookupUndisturbed | src/handler.rs:897-961 | a lookup that nothing interrupts answers what the endpoint answers in one go |
| McpCache.MessagesKeep | src/handler.rs:1051-1100 | any messages that do not store for a prompt leave what L1a holds for it alone, unless L1a drops the key |
| McpCache.StoreThenChat | src/mcp.rs:152-205 | store a text through a tools/call, exchange any messages that do not store for that prompt, then chat: while L1a retains the key the reply is the stored text verbatim if and only if prompt and text are within the read limits, else an error |
| McpCache.StoreThenChatInterleaved | src/handler.rs:1147-1239 | the same in every interleaving of POSTs and DELETEs: whatever other POSTs dispatch in between, the reply among those of the chat's own POST is the stored text verbatim if and only if prompt and text are within the read limits |
| Visibility.PromptVisibilityState.constructor | src/visibility.rs:16-26 | empty statistics |
| Visibility.PromptVisibilityState.RecordPrompt | src/visibility.rs:43-65 | one prompt updates totals, the counts by layer, surface, client and tool, its agent, and the recent deque |
| Visibility.PromptVisibilityState.PushRecent | src/visibility.rs:61-64 | pushing at the front and popping from the back keeps the newest 200 |
| Visibility.PromptVisibilityState.RecordCacheEvent | src/visibility.rs:114-128 | a cache event adds one to the counter its labels name and to nothing else; no tool, no change |
| Visibility.PromptVisibilityState.RecordRetry | src/visibility.rs:130-136 | retries grow by the attempts after the first |
| Visibility.PromptVisibilityState.RecordError | src/visibility.rs:138-144 | errors of the tool grow by one |
| Visibility.RunExact | src/visibility.rs:43-65 | after any run every counter map is exactly the multiset of the recorded column, and recent is the reversed history cut at 200 |
| Visibility.Conservation | src/visibility.rs:43-82 | over any run the layer, surface and client sums all equal the total, the tool sum counts the prompts with a tool, and agent requests equal tool counts |
| Visibility.AgentsExact | src/visibility.rs:114-144 | after any run each of a tool's ten counters is the total of exactly its own operations, read off the run one counter at a time |
| Visibility.SnapshotIsNewestFirst | src/visibility.rs:67-82 | a snapshot is the newest min(limit, 200, n) prompts, newest first |
| LookupStats.RecordCacheLookupPrompt | src/handler.rs:1301-1373 | undisturbed, one lookup performs exactly its list of separately locked updates, in order |
| LookupStats.AlwaysCounted | src/handler.rs:1301-1373 | in every reachable state of any interleaving each counter is the number of updates done so far, summed over all calls |
| LookupStats.EveryInterleaving | src/handler.rs:1301-1373 | in every interleaving requests <= hits + misses <= L1a events, with the other orders; the gap is the number of calls in flight, and without any all are equalities |
| LookupStats.PromptsOfFinished | src/handler.rs:1301-1373 | in every interleaving the total is the number of finished lookups, the deflected ones are the finished hits, and each is counted under its own layer, one surface and one client |
| LookupStats.LastStep | src/handler.rs:1301-1373 | the prompt recorded names its layer, whether it was deflected, status 200 or 204, latency and tool |
| EventStream.StreamRoundTrip | src/openai_sse.rs:65-78 | a client reading the written frames dispatches exactly those events, in order |
| EventShapes.LineEnds | src/openai_sse.rs:65-78 | the reader takes lines that end in LF, CR or CRLF, as its standard has it |
| EventShapes.FieldActs | src/openai_sse.rs:65-78 | and each field adds data, names the event, or is ignored |
| JsonText.PrintParse | src/anthropic_sse.rs:30-61 | parsing a printed JSON value gives the value, whatever its strings hold; the gateway's reader does so exactly up to its limit of 127 levels |
| JsonText.PrintClean | src/openai_sse.rs:31-63 | printed JSON holds no raw control character, so no line break inside a data line |
| JsonReading.NumbersRead | src/handler.rs:884-887 | every number of the grammar is read, as an integer if it has neither fraction nor exponent and is not a negative zero |
| JsonReading.CodeEscapes | src/handler.rs:884-887 | every character up to U+FFFF can be spelled by its code in either case |
| JsonReading.PairEscapes | src/handler.rs:884-887 | the others can be spelled by a surrogate pair |
| JsonReading.LastCounts | src/handler.rs:884-887 | of members with one key the last counts |
| OpenAiSse.FramesRoundTrip | src/openai_sse.rs:25-137 | the stream is three chunks and the end marker, and the client gets payload, model and finish reason back |
| OpenAiSse.CachedMeaning | src/openai_sse.rs:140-196 | for every cached body: its text, else its tool calls, else its function call reach the client; anything else is passed on unchanged |
| OpenAiSse.CacheThenStream | src/handler.rs:591-605 | the handler's and the native store's JSON, converted to a stream and reassembled, yield the same text and model |
| StreamShapes.CompletionShape | src/openai_sse.rs:140-196 | for every completion, built member by member: string content, else a string message, each ending in `stop`; else tool calls of any value, else the function call in a list, with the own finish reason if it is a string; else the body unchanged; under the own model if it is a string |
| StreamShapes.ToolCallsSurvive | src/openai_sse.rs:170-184 | with null content, the tool calls, the model and a string finish reason reach the client; a missing or other finish reason becomes `tool_calls` |
| StreamShapes.HandlerShape | src/handler.rs:591-605 | the handler's own completion has one assistant choice of index 0 that ends in `stop` |
| StreamShapes.ChunkShape | src/openai_sse.rs:25-137 | each of the three chunks carries id, time, object, model and index 0, and the first the role |
| AnthropicSse.SevenEvents | src/anthropic_sse.rs:27-72 | the stream is exactly the seven named events, each payload naming its event, and the client gets text and model back |
| AnthropicSse.CachedMeaning | src/anthropic_sse.rs:96-124 | for every cached body the client gets its text if one can be found, else the body unchanged |
| AnthropicSse.CacheThenStream | src/anthropic_sse.rs:76-124 | the builder's and the native store's JSON, converted to a stream and reassembled, yield the same text and model |
| StreamShapes.AnswerShape | src/anthropic_sse.rs:96-124 | for every cached message, built member by member: the text of the first content block, else a string message, else the body unchanged; under the own model if it is a string |
| StreamShapes.AnthropicCounts | src/anthropic_sse.rs:27-132 | a token is counted for four bytes, at least one, in the stream as in the plain answer, both under the id given |
| StreamShapes.StartShape | src/anthropic_sse.rs:31-63 | the stream begins with an empty assistant message and an empty text block of index 0 |
| StreamShapes.DeltaShape | src/anthropic_sse.rs:31-63 | all of the text comes in one text delta of that block |
| StreamShapes.PlainShape | src/anthropic_sse.rs:76-91 | the plain answer is a complete assistant message with the text in one block |
| Instructions.InstructionCache.constructor | src/compression/cache.rs:20-24 | an empty map reflects the empty history |
| Instructions.InstructionCache.CheckAndUpdate | src/compression/cache.rs:28-42 | some n if and only if this call ends a maximal run of n >= 2 calls of the scope with one hash since its last eviction (n modulo 2^32) |
| Instructions.InstructionCache.EvictIfNeeded | src/compression/cache.rs:45-53 | over the limit, half of the entries are dropped, whichever the map lists first; the map goes on reflecting its history |
| Instructions.RunLengthIsMaximal | src/compression/cache.rs:28-42 | the reported number is the one length of a maximal run ending at the latest call |
| Instructions.UpdateReflects | src/compression/cache.rs:28-42 | from any state that reflects a history, one call reflects the longer history and returns its run length |
| Instructions.ScopesIndependent | src/compression/cache.rs:28-42 | what a scope sees depends only on its own calls and evictions |
| Instructions.NeverDedupsIffAlternating | src/compression/cache.rs:28-42 | no call of a scope is deduplicated if and only if its successive hashes always differ |
| Instructions.EvictionBound | src/compression/cache.rs:45-53 | k calls bring up to limit * 2^k entries under the limit, whichever keys go |
| Instructions.EvictionNotSooner | src/compression/cache.rs:45-53 | and k calls are not enough for more entries than that |
| Instructions.EvictionStalls | src/compression/cache.rs:45-53 | with limit zero one entry is never dropped |
| Instructions.StaysUnderLimit | src/compression/cache.rs:28-53 | in every run of updates each followed by an eviction call, whichever half of the keys it drops, the map stays within the limit (one entry for limit zero) |
| LogCrunch.Minify | src/compression/stages/log_crunch.rs:21-74 | the loop with its comment flag computes the filter, and reports the bytes saved |
| LogCrunch.CrunchClean | src/compression/stages/log_crunch.rs:21-74 | no kept line is a comment, a rule or decoration, and no two kept blank lines are adjacent |
| LogCrunch.KeptIsThreePasses | src/compression/stages/log_crunch.rs:21-74 | the single loop amounts to three passes: the lines outside comments, without rules and decoration, with one of each run of blank lines |
| LogShapes.LinesSpelledOut | src/compression/stages/log_crunch.rs:30 | lines end at line feeds, each with one carriage return before it, and the last needs none |
| LogShapes.PlainSpelledOut | src/compression/stages/log_crunch.rs:34-68 | outside comments a line goes if and only if its trimmed text opens a comment, is one of three rules, or is more than three bytes of decoration alone |
| LogShapes.CommentsSpelledOut | src/compression/stages/log_crunch.rs:34-48 | a comment closed at the end of its line goes alone; an open one goes with all lines up to the first that holds its end, or with all that follow |
| LogCrunch.StableIffSplittable | src/compression/stages/log_crunch.rs:21-74 | minifying twice equals minifying once if and only if the kept lines, joined, split back into themselves |
| LogCrunch.StableIffSteady | src/compression/stages/log_crunch.rs:21-74 | read off the input: if and only if, of its plain lines outside comments, no kept one but the last ends in a carriage return and the last line with text is not directly followed by an empty line |
| LogCrunch.NotStable | src/compression/stages/log_crunch.rs:307-314 | an input on which a second pass does change the text |
| Pipeline.Execute | src/compression/pipeline.rs:122-169 | stages run in order on each other's text until one short-circuits, and savings and names add up |
| Pipeline.ReferenceIsShort | src/compression/stages/dedup.rs:22-47 | a reference is shorter than any text that passes the classifier |
| Pipeline.BuiltPipeline | src/compression/optimize.rs:30-40 | for every flag setting: a modified text is shorter by exactly the bytes reported, an unmodified one is untouched, and dedup and minification never both apply |
| Pipeline.RunChangesIff | src/compression/optimize.rs:30-40 | the built pipeline changes a text if and only if it passes the classifier and either repeats the session's last recorded instruction or has something to minify; and what it records of it |
| Pipeline.RunText | src/compression/optimize.rs:30-40 | and what it becomes: the reference with its hash and turn, the minified text, or itself |
| Pipeline.PassesIff | src/compression/stages/content_classifier.rs:55-70 | a text passes the classifier if and only if it has 200 bytes or more and a marker stands somewhere in its lower-cased form |
| Pipeline.ReferenceTells | src/compression/stages/dedup.rs:30-33 | references of different hashes or turns differ |
| Optimize.OptimizeMessages | src/compression/optimize.rs:92-113 | the loop rewrites the system messages one by one, threading the pipeline's state and adding up its answers |
| Optimize.OptimizeRequestBody | src/compression/optimize.rs:46-131 | malformed and unmodified bodies are returned byte for byte, else the rewritten document with the totals of all answers |
| Optimize.RewriteMeaning | src/compression/optimize.rs:65-119 | for any pipeline: it is asked for the document's texts and nothing else; a field whose text it leaves alone is untouched, structure included; one whose text it changes holds exactly the new text; nothing else differs |
| OptimizeShapes.ExtractIff | src/compression/optimize.rs:134-150 | a value is taken for a text if and only if it is a string, or a list in which some blocks hold texts, those joined by line feeds in their order |
| OptimizeShapes.AskedInOrder | src/compression/optimize.rs:65-113 | the pipeline is asked about the text of `system` and then of the messages whose role is the string `system`, in order, and about nothing else |
| OptimizeShapes.OthersUntouched | src/compression/optimize.rs:92-113 | a message of any other role, or without a text, is the same afterwards |
| OptimizeShapes.SystemShape | src/compression/optimize.rs:65-90 | a changed `system` stays a string or becomes a list of one text block; an unchanged one stays as it is |
| Optimize.BytesSavedIsShrinkage | src/compression/optimize.rs:62-119 | if each call reports its own loss, bytes_saved is the total shrinkage of the texts |
| Optimize.BuiltBytesSaved | src/compression/optimize.rs:46-131 | for the pipeline the server builds, bytes_saved is the total shrinkage, whatever its cache holds |
| Optimize.StrategyIsFirst | src/compression/optimize.rs:68-113 | the strategy reported is that of the first text changed, and none if there is none |
| Optimize.RewriteValid | src/compression/optimize.rs:121-131 | the gateway reads the rewritten body back as the rewritten document, which is nested no deeper than the original |
| SecondPass.SecondPassIsIdle | src/compression/optimize.rs:46-131 | for any pipeline and any state: a second pass over a rewritten body changes nothing if and only if the pipeline then leaves alone each of the answers it gave |
| SecondPass.BodyReads | src/compression/optimize.rs:115-131 | for every body: the gateway reads what it sends on, the rewritten document if it says modified and the given one if not, and its texts are exactly the pipeline's answers |
| SecondPass.BodyTwice | src/compression/optimize.rs:46-131 | for every body and any pipeline: the second pass modifies it if and only if the pipeline by then modifies one of its own answers of the first |
| SecondPass.SecondPassChangesIff | src/compression/optimize.rs:46-131 | for the server's pipeline and the cache the first pass left: a second pass changes the body if and only if one of its texts passes the classifier and repeats the instruction last recorded or has something to minify |
| SecondPass.BodyTwiceIff | src/compression/optimize.rs:46-131 | the same for the server's pipeline, from the bytes of a request to those of the second result |
| SecondPass.SecondPassChanges | src/compression/optimize.rs:46-131 | a concrete body that the first pass leaves alone and the second one changes |
| InterleavedPasses.EveryInterleaving | src/compression/stages/dedup.rs:22-47 | in every interleaving of requests, each text is changed if and only if it passes the classifier and repeats the instruction that any request of its session had checked last, or has something to minify |
| InterleavedPasses.FinishedReport | src/compression/optimize.rs:68-131 | whatever other requests do in between, a finished request is modified if and only if one of its texts was to be changed when it was checked, and bytes_saved is the total its texts lost |
| InterleavedPasses.Undisturbed | src/compression/optimize.rs:46-131 | a request that nothing interrupts comes to the pass over its body in one go |
| Mcp.ReplyOf | src/mcp.rs:95-117 | a message is answered if and only if it has an id and is no initialized notification, or is a tools/call; the answer is a JSON-RPC response with its id, or null |
| Mcp.ReplyContent | src/mcp.rs:105-116 | each method's answer says what that method is for: protocol version, capabilities and server, tool list, empty result, or error -32601 |
| Mcp.ToolsCallDispatch | src/mcp.rs:152-205 | the executor is asked exactly for the call's job with its arguments in their roles; the reply is the text found, an empty text for a miss, or marked as an error if the job is refused or fails; an unknown tool is error -32602 |
| Mcp.StateAfter | src/mcp.rs:95-117 | a message changes the executor's state only by the job it carries |
| Mcp.BatchReplies | src/handler.rs:1212-1219 | a batch gives one response for each answered message, in message order |
| Mcp.OnlyToolCallsDispatch | src/mcp.rs:95-117 | without a tools/call the executor's state is untouched |
| Mcp.ChatIsVerbatim | src/mcp.rs:164-179 | a chat call returns the text the lookup found, unchanged and not marked as an error |
| McpSessions.Registry.constructor | src/mcp.rs:14-15 | no sessions |
| McpSessions.Registry.Register | src/mcp.rs:129-136 | a fresh id becomes live |
| McpSessions.Registry.Exists | src/mcp.rs:138-143 | true exactly for an id that was minted and has not been removed since |
| McpSessions.Registry.Remove | src/mcp.rs:145-150 | succeeds if and only if the session is live, so at most once for each minted id |
| McpSessions.Registry.Get | src/handler.rs:1119-1144 | 400 without a header, 404 for a dead session, else a stream under that session |
| McpSessions.Registry.Delete | src/handler.rs:1242-1256 | 204 and the session gone if it was live, else 404 or 400 and no change |
| McpSessions.Registry.Post | src/handler.rs:1147-1239 | uninterrupted: messages are dispatched only by an initialize, which mints a session, or under a live session; every refusal leaves executor and sessions unchanged; live sessions stay minted minus removed |
| McpSessions.SessionIsAnnounced | src/handler.rs:1192-1239 | the minted session id is sent if and only if some message of the POST is answered |
| McpSessions.SilentInitialize | src/handler.rs:1192-1223 | an initialize without an id mints a session and is answered 202 |
| McpSessions.RequestsIff | src/handler.rs:1172-1192 | a payload is a request if and only if it, or an element of a batch, has a text as its method, and an initialize request if and only if that text is `initialize` |
| McpSessions.InitializeAnswer | src/handler.rs:1192-1239 | an initialize with an id is answered 200 under that id and the new session, with protocol version 2025-03-26 |
| McpSessions.ClientReadsReplies | src/handler.rs:1212-1299 | from the bytes of the response, streamed or not, a client reads exactly one response for each answered message, in order, with its id |
| McpInterleaving.NextSound | src/handler.rs:1147-1256 | whatever step runs next, an arriving POST's check, one message of an admitted POST, or a DELETE, keeps all of the following |
| McpInterleaving.EveryInterleaving | src/handler.rs:1147-1256 | in every interleaving the live sessions are those minted and not removed; a POST is admitted once, under a live session, and dispatches only after that; its messages are dispatched and answered in order, each reply being what the executor says in the state all earlier dispatches left; the executor's state is that of all dispatched messages in log order |
| McpInterleaving.DispatchFindsSession | src/handler.rs:1192-1219 | in every interleaving each dispatched message has one admission of its POST before it, and finds its session live if and only if no DELETE has removed it since |
| McpInterleaving.ReplyAt | src/handler.rs:1212-1219 | the answer to each dispatched message is among the replies of its own POST, after those to its earlier messages |
| McpInterleaving.RemovedOnce | src/mcp.rs:129-150 | no id is minted or removed twice, whatever runs at the same time |
| McpInterleaving.Undisturbed | src/handler.rs:1211-1219 | a POST that nothing interrupts comes to exactly the batch dispatched in one go |
| McpInterleaving.DispatchedAfterRemoval | src/handler.rs:1192-1219 | in any state with a live session: delete it between the check of a POST and its dispatch, and the message is dispatched all the same |
| SelfUpdate.BackupIsSelf | src/cli/update.rs:352 | the backup path is the executable's own path if and only if its file name ends in `.bak` after something else |
| SelfUpdate.BackupReplacesExtension | src/cli/update.rs:352 | the backup path has `.bak` for what follows the last dot of the file name, or after a name without one |
| SelfUpdate.CopyOntoItself | src/cli/update.rs:372-376 | a file copied onto itself ends up empty, even if the copy completes |
| SelfUpdate.CopyOntoOther | src/cli/update.rs:372-376 | the target holds what was copied so far, all of it if and only if the copy got that far, and the source stays |
| SelfUpdate.FileSystem.Rename | src/cli/update.rs:355-369 | a failed rename changes nothing, a successful one moves the content |
| SelfUpdate.FileSystem.Copy | src/cli/update.rs:372-376 | a copy passes through every prefix of the content and may stop at any of them |
| SelfUpdate.FileSystem.SelfReplace | src/cli/update.rs:350-382 | the call passes through exactly the states of the protocol, for every combination of failures |
| SelfUpdate.CrashSafe | src/cli/update.rs:350-382 | with a backup path of its own, wherever the new binary is: in every state it can be stopped in a complete binary is at the executable or backup path and no other file is touched; a failed first rename changes nothing, a failed copy leaves the old binary, success means the new one is installed unless it was at the backup path |
| SelfUpdate.CrashSafeIff | src/cli/update.rs:350-382 | every state is safe, whatever fails, if and only if the backup path is not the executable's own or there is no new binary |
| SelfUpdate.OwnBackupIsLost | src/cli/update.rs:350-382 | an executable that is its own backup is emptied when the copy starts, and removed when nothing fails |
| SelfUpdate.InstalledIffPathsDiffer | src/cli/update.rs:350-382 | success means installed, whatever fails, if and only if the backup path is neither the executable's nor the new binary's |
| Logs.ReadLastLines | src/cli/logs.rs:88-102 | the bounded buffer ends with exactly the last k lines, or with all of them for k = 0 |
| Logs.TailIsEndOfFile | src/cli/logs.rs:88-102 | for a log of complete lines the tail is the end of the file, cut at the start of a line |
| Logs.Follower.constructor | src/cli/logs.rs:104-106 | following starts at the end of the file |
| Logs.Follower.EmitNewLogBytes | src/cli/logs.rs:116-141 | a shrunk file restarts from the beginning after a marker; what is new is written once and the offset moves past it |
| Logs.WholeFileShownIff | src/cli/logs.rs:116-141 | a poll shows all of a replaced file if and only if it measured it shorter than the offset, or the offset is zero, or the file is empty; else its first bytes are lost |
| Logs.FollowsAppends | src/cli/logs.rs:104-141 | on an append-only file, however appends fall between and within polls, the pieces emitted are the file from the starting point, each byte once and in order |
| Logs.FollowIsVerbatim | src/cli/logs.rs:104-141 | where decoding changes nothing, the file at the start followed by the output is the file at the last poll |
| ChatRequest.MessageRoundTrip | src/models.rs:221-246 | a message without a null function call is read back from its encoding |
| ChatRequest.DecodedIsNormal | src/models.rs:276-295 | decoding never yields a null option, an integral temperature or a token limit over 32 bits |
| ChatRequest.DecodeIsNormalForm | src/models.rs:276-295 | for every JSON value that decodes, encoding and decoding again gives the same request |
| ChatRequest.PayloadIsEncoding | src/handler.rs:177-180 | inserting the model again changes nothing, so the passthrough payload decodes to the request |
| ChatRequest.RoundTripIffNormal | src/models.rs:276-295 | a request survives encoding and decoding if and only if it is normal |
| ChatShapes.MessageShape | src/models.rs:221-246 | a value decodes to a message if and only if its members, or the elements of an array in field order, have the right kinds; each field is its member's value |
| ChatShapes.DecodeShape | src/models.rs:276-295 | the same for requests: null and missing options are none, a whole temperature becomes a float of the same value and a float stays as it is |
| ChatShapes.IntReads | src/models.rs:290 | the float text made of a whole number has that number as its value |

## Left out

- Floating point: embeddings, magnitudes and scores are reals, and the square root is a function assumed exact; rounding, NaN and overflow of `f32` and `f64` are not modelled.
- SemanticCache.VectorCache.Insert: the clock is a parameter that does not go back between calls; the source reads it while it holds the lock.
- TwoLevelCache.CacheState.Forget: the recency order, capacity and expiry of the exact cache are not modelled; any keys may go at any time.
- TwoLevelCache.AnswersWereStored: the exact key is kept as the text that is hashed, so collisions of SHA-256 itself are left out; that scope digests hold no `|` is an assumption.
- TwoLevelCache.CacheState.Lookup: the request headers (those whose values are text, the first of each name), the embedding (absent if the embedder fails) and the clock are parameters; the caches are filled here by the store endpoint alone, not by the middleware of `src/middleware/cache.rs`.
- TwoLevelCache.CacheState.Store: the members of a store body that the source ignores are checked here like any other value, down to lone surrogates in their strings.
- Visibility.PromptVisibilityState.RecordPrompt: counters are unbounded, 64-bit overflow is left out, and so are the entry's hash, route, time stamp and resolved provider, and the averages of the agent snapshot.
- JsonText.PrintParse: integers are unbounded and a float is kept as its text, so rounding and the refusal of numbers out of range are left out; text is Unicode code points, and malformed UTF-8 in a body is not modelled.
- OpenAiSse.FramesRoundTrip: message ids and creation times are parameters, and an object's members are written in the order given, not sorted by key.
- ChatRequest.DecodeIsNormalForm: an object with a repeated key is read as its last value, where a struct decoder would refuse it.
- Pipeline.Execute: hashing is a parameter assumed to give 16 ASCII characters, lower-casing is a parameter, and stage timing is left out.
- McpInterleaving.EveryInterleaving: one message is dispatched in one step; that the two cache levels are locked one after the other within a call is the subject of `CacheInterleaving`. New ids are assumed fresh, and session headers that are not header text are left out.
- McpCache.StoreThenChat: that the least recently used key goes first is not modelled, so retention is a hypothesis on the keys dropped; at capacity zero the endpoint's panic is an error reply here and ends the whole POST in the source.
- Mcp.ReplyOf: the texts of the tool definitions and the version number are parameters.
- SelfUpdate.CrashSafe: permission bits set after the copy and the wording of errors are left out, and renames are atomic; a file copied onto itself is emptied, as where copying opens the target for writing before it reads.
- Logs.FollowsAppends: decoding each piece as UTF-8 is a parameter, so a character cut by a poll boundary is not repaired; sleeping between polls is left out, and bytes appended between the first tail and the start of following are not shown, as in the source.
- `configured_openai_models` (`src/handler.rs:42-73`) and the request handlers around the caches: list building, routing and header handling would add easy members only.
- Providers, embedders, retries, authentication, configuration, setup commands, proxy interception, metrics, tracing and the HTTP client side of `src/mcp.rs`: network plumbing.
