/**
 The streamable HTTP endpoint under concurrency. A POST checks its session, or mints one,
 under the registry's lock, releases it, and then dispatches its messages one by one; other
 POSTs and DELETEs run in between. Every interleaving is a schedule, and the log of what
 happened is what the guarantees are about.
 */
module McpInterleaving {
  import opened Utils
  import opened Json
  import opened Mcp
  import opened McpSessions

  /** A POST past its check; `pc` of its messages are dispatched. */
  datatype Post = Post(msgs: seq<Json>, session: string, pc: nat, replies: seq<Json>)

  datatype Event =
    | Minted(id: string)
    | Admitted(post: nat, id: string)
    | Dispatched(post: nat, msg: Json)
    | Removed(id: string)

  datatype System<S> = System(sessions: set<string>, posts: seq<Post>, st: S, log: seq<Event>)

  /** A POST arrives and makes its check, POST `i` dispatches its next message, or a DELETE runs. */
  datatype Choice =
    | Arrive(payload: Json, header: Option<string>, freshId: string)
    | Step(i: nat)
    | Delete(header: Option<string>)

  /** The gateway, which does not change during a run. */
  datatype Gateway<!S> = Gateway(server: Server, ex: Executor<S>)

  function Handle<S>(g: Gateway<S>, msg: Json, st: S): (S, Option<Json>)
  {
    HandleMessage(msg, g.server, STREAMABLE_HTTP_PROTOCOL_VERSION, g.ex, st)
  }

  function HandleMany<S>(g: Gateway<S>, msgs: seq<Json>, st: S): (S, seq<Json>)
  {
    HandleAll(msgs, g.server, STREAMABLE_HTTP_PROTOCOL_VERSION, g.ex, st)
  }

  function Admit<S>(s: System<S>, msgs: seq<Json>, id: string): System<S>
  {
    s.(posts := s.posts + [Post(msgs, id, 0, [])], log := s.log + [Admitted(|s.posts|, id)])
  }

  /** A POST after its next message, with the reply if there is one. */
  function Stepped<S>(g: Gateway<S>, p: Post, st: S): Post
    requires p.pc < |p.msgs|
  {
    var reply := Handle(g, p.msgs[p.pc], st).1;
    p.(pc := p.pc + 1, replies := p.replies + ToSeq(reply))
  }

  function Next<S>(g: Gateway<S>, s: System<S>, choice: Choice): System<S>
  {
    match choice
    case Arrive(payload, header, freshId) =>
      var msgs := MessagesOf(payload);
      if !AnyRequest(msgs) then s
      else if AnyInitialize(msgs) then
        if Minted(freshId) in s.log then s
        else Admit(s.(sessions := s.sessions + {freshId}, log := s.log + [Minted(freshId)]), msgs, freshId)
      else if header.Some? && header.value in s.sessions then Admit(s, msgs, header.value)
      else s
    case Step(i) =>
      if i < |s.posts| && s.posts[i].pc < |s.posts[i].msgs| then
        var p := s.posts[i];
        var msg := p.msgs[p.pc];
        System(s.sessions, s.posts[i := Stepped(g, p, s.st)], Handle(g, msg, s.st).0, s.log + [Dispatched(i, msg)])
      else s
    case Delete(header) =>
      if header.Some? && header.value in s.sessions then
        s.(sessions := s.sessions - {header.value}, log := s.log + [Removed(header.value)])
      else s
  }

  function Execute<S>(g: Gateway<S>, st: S, schedule: seq<Choice>): System<S>
  {
    if schedule == [] then System({}, [], st, [])
    else Next(g, Execute(g, st, schedule[..|schedule| - 1]), schedule[|schedule| - 1])
  }

  // -------------------------------------------------------- what a log may be

  predicate Live(log: seq<Event>, id: string) { Minted(id) in log && Removed(id) !in log }

  predicate WasAdmitted(log: seq<Event>, post: nat)
  {
    exists i :: 0 <= i < |log| && log[i].Admitted? && log[i].post == post
  }

  /** What must have happened before an event. */
  predicate Allowed(before: seq<Event>, e: Event)
  {
    match e
    case Minted(id) => Minted(id) !in before
    case Admitted(post, id) => Live(before, id) && !WasAdmitted(before, post)
    case Removed(id) => Live(before, id)
    case Dispatched(post, _) => WasAdmitted(before, post)
  }

  predicate Lawful(log: seq<Event>)
  {
    forall i :: 0 <= i < |log| ==> Allowed(log[..i], log[i])
  }

  /** The messages a log dispatches, in order, and those of one POST. */
  function Messages(log: seq<Event>): seq<Json>
  {
    if log == [] then []
    else
      var rest, last := Messages(log[..|log| - 1]), log[|log| - 1];
      if last.Dispatched? then rest + [last.msg] else rest
  }

  function MessagesOfPost(log: seq<Event>, post: nat): seq<Json>
  {
    if log == [] then []
    else
      var rest, last := MessagesOfPost(log[..|log| - 1], post), log[|log| - 1];
      if last.Dispatched? && last.post == post then rest + [last.msg] else rest
  }

  /** The replies are one response for each answered message, in order. */
  predicate RepliesMatch(replies: seq<Json>, ids: seq<Json>)
  {
    |replies| == |ids| && forall i :: 0 <= i < |ids| ==> IsResponse(replies[i], ids[i])
  }

  /** POST `i` was admitted, and has dispatched and answered its messages up to `pc`, in order. */
  ghost predicate PostSound(log: seq<Event>, i: nat, p: Post)
  {
    && Admitted(i, p.session) in log
    && p.pc <= |p.msgs| && MessagesOfPost(log, i) == p.msgs[..p.pc]
    && RepliesMatch(p.replies, AnswerIds(p.msgs[..p.pc]))
  }

  /**
   The replies of POST `i`, read off the log: each of its messages met the executor in the
   state that all messages dispatched before it, by any POST, had left.
   */
  function RepliesOf<S>(g: Gateway<S>, st: S, log: seq<Event>, i: nat): seq<Json>
  {
    if log == [] then []
    else
      var init, last := log[..|log| - 1], log[|log| - 1];
      var rest := RepliesOf(g, st, init, i);
      if last.Dispatched? && last.post == i then rest + ToSeq(ReplyTo(g, st, init, last.msg)) else rest
  }

  function ReplyTo<S>(g: Gateway<S>, st: S, before: seq<Event>, msg: Json): Option<Json>
  {
    Handle(g, msg, HandleMany(g, Messages(before), st).0).1
  }

  function ToSeq(o: Option<Json>): seq<Json> { if o.Some? then [o.value] else [] }

  predicate Numbered(log: seq<Event>, n: nat)
  {
    forall k :: 0 <= k < |log| && (log[k].Admitted? || log[k].Dispatched?) ==> log[k].post < n
  }

  ghost predicate PostsSound(log: seq<Event>, posts: seq<Post>)
  {
    && (forall i :: 0 <= i < |posts| ==> PostSound(log, i, posts[i]))
    && Numbered(log, |posts|)
  }

  ghost predicate SessionsSound(log: seq<Event>, sessions: set<string>)
  {
    forall id :: id in sessions <==> Live(log, id)
  }

  ghost predicate RepliesSound<S>(g: Gateway<S>, st: S, log: seq<Event>, posts: seq<Post>)
  {
    forall i :: 0 <= i < |posts| ==> posts[i].replies == RepliesOf(g, st, log, i)
  }

  ghost predicate Sound<S(!new)>(g: Gateway<S>, st: S, s: System<S>)
  {
    && Lawful(s.log)
    && SessionsSound(s.log, s.sessions)
    && PostsSound(s.log, s.posts)
    && RepliesSound(g, st, s.log, s.posts)
    && s.st == HandleMany(g, Messages(s.log), st).0
  }

  // ------------------------------------------------------------- one event

  lemma {:induction false} MessagesPush(log: seq<Event>, e: Event)
    ensures Messages(log + [e]) == Messages(log) + if e.Dispatched? then [e.msg] else []
  {
    assert (log + [e])[..|log|] == log;
  }

  lemma {:induction false} PostPush(log: seq<Event>, e: Event, i: nat)
    ensures MessagesOfPost(log + [e], i) ==
            MessagesOfPost(log, i) + if e.Dispatched? && e.post == i then [e.msg] else []
  {
    assert (log + [e])[..|log|] == log;
  }

  lemma {:induction false} RepliesPush<S>(g: Gateway<S>, st: S, log: seq<Event>, e: Event, i: nat)
    ensures RepliesOf(g, st, log + [e], i) ==
            RepliesOf(g, st, log, i) + if e.Dispatched? && e.post == i then ToSeq(ReplyTo(g, st, log, e.msg)) else []
  {
    assert (log + [e])[..|log|] == log;
  }

  /** An event that dispatches nothing leaves all replies as they are. */
  lemma RepliesKept<S>(g: Gateway<S>, st: S, log: seq<Event>, e: Event, posts: seq<Post>)
    requires RepliesSound(g, st, log, posts) && !e.Dispatched?
    ensures RepliesSound(g, st, log + [e], posts)
  {
    forall i | 0 <= i < |posts| ensures posts[i].replies == RepliesOf(g, st, log + [e], i) {
      RepliesPush(g, st, log, e, i);
    }
  }

  lemma {:induction false} NoRepliesYet<S>(g: Gateway<S>, st: S, log: seq<Event>, post: nat)
    requires Numbered(log, post)
    ensures RepliesOf(g, st, log, post) == []
  {
    if log == [] {
    } else {
      NoRepliesYet(g, st, log[..|log| - 1], post);
    }
  }

  lemma RepliesAdmitted<S>(g: Gateway<S>, st: S, log: seq<Event>, posts: seq<Post>, msgs: seq<Json>,
                           id: string)
    requires RepliesSound(g, st, log, posts) && Numbered(log, |posts|)
    ensures RepliesSound(g, st, log + [Admitted(|posts|, id)], posts + [Post(msgs, id, 0, [])])
  {
    var e, posts' := Admitted(|posts|, id), posts + [Post(msgs, id, 0, [])];
    NoRepliesYet(g, st, log, |posts|);
    forall i | 0 <= i < |posts'| ensures posts'[i].replies == RepliesOf(g, st, log + [e], i) {
      RepliesPush(g, st, log, e, i);
    }
  }

  lemma {:induction false} RepliesStepped<S>(g: Gateway<S>, st: S, log: seq<Event>, posts: seq<Post>, i: nat)
    requires RepliesSound(g, st, log, posts) && i < |posts| && posts[i].pc < |posts[i].msgs|
    ensures var p, now := posts[i], HandleMany(g, Messages(log), st).0;
            RepliesSound(g, st, log + [Dispatched(i, p.msgs[p.pc])], posts[i := Stepped(g, p, now)])
  {
    var p := posts[i];
    var e, posts' := Dispatched(i, p.msgs[p.pc]), posts[i := Stepped(g, p, HandleMany(g, Messages(log), st).0)];
    forall k | 0 <= k < |posts'| ensures posts'[k].replies == RepliesOf(g, st, log + [e], k) {
      RepliesPush(g, st, log, e, k);
    }
  }

  lemma LivePush(log: seq<Event>, e: Event, id: string)
    ensures e.Admitted? || e.Dispatched? ==> (Live(log + [e], id) <==> Live(log, id))
    ensures e.Removed? ==> (Live(log + [e], id) <==> Live(log, id) && e.id != id)
    ensures e.Minted? ==> (Live(log + [e], id) <==> Live(log, id) || (e.id == id && Removed(id) !in log))
  {
  }

  lemma LawfulPush(log: seq<Event>, e: Event)
    requires Lawful(log) && Allowed(log, e)
    ensures Lawful(log + [e])
  {
    var log' := log + [e];
    forall i | 0 <= i < |log'| ensures Allowed(log'[..i], log'[i]) {
      if i < |log| {
        assert log'[..i] == log[..i];
      } else {
        assert log'[..i] == log;
      }
    }
  }

  /** An event about something else leaves a POST as it is. */
  lemma PostKept(log: seq<Event>, e: Event, i: nat, p: Post)
    requires PostSound(log, i, p) && (e.Dispatched? ==> e.post != i)
    ensures PostSound(log + [e], i, p)
  {
    PostPush(log, e, i);
  }

  lemma PostsKept(log: seq<Event>, e: Event, posts: seq<Post>)
    requires PostsSound(log, posts) && (e.Minted? || e.Removed?)
    ensures PostsSound(log + [e], posts)
  {
    forall i | 0 <= i < |posts| ensures PostSound(log + [e], i, posts[i]) {
      PostKept(log, e, i, posts[i]);
    }
  }

  lemma {:induction false} NoMessagesYet(log: seq<Event>, post: nat)
    requires Numbered(log, post)
    ensures MessagesOfPost(log, post) == []
  {
    if log == [] {
    } else {
      NoMessagesYet(log[..|log| - 1], post);
    }
  }

  lemma SessionsKept(log: seq<Event>, e: Event, sessions: set<string>)
    requires SessionsSound(log, sessions) && (e.Admitted? || e.Dispatched?)
    ensures SessionsSound(log + [e], sessions)
  {
    forall id ensures id in sessions <==> Live(log + [e], id) {
      LivePush(log, e, id);
    }
  }

  lemma NewPostSound(log: seq<Event>, i: nat, msgs: seq<Json>, id: string)
    requires Numbered(log, i)
    ensures PostSound(log + [Admitted(i, id)], i, Post(msgs, id, 0, []))
  {
    var log' := log + [Admitted(i, id)];
    assert log'[|log|] == Admitted(i, id);
    NoMessagesYet(log, i);
    PostPush(log, Admitted(i, id), i);
  }

  lemma PostAdmitted(log: seq<Event>, posts: seq<Post>, msgs: seq<Json>, id: string)
    requires PostsSound(log, posts)
    ensures PostsSound(log + [Admitted(|posts|, id)], posts + [Post(msgs, id, 0, [])])
  {
    var e, posts' := Admitted(|posts|, id), posts + [Post(msgs, id, 0, [])];
    NewPostSound(log, |posts|, msgs, id);
    forall i | 0 <= i < |posts'| ensures PostSound(log + [e], i, posts'[i]) {
      if i < |posts| {
        PostKept(log, e, i, posts[i]);
      }
    }
  }

  lemma AdmitSound<S(!new)>(g: Gateway<S>, st: S, s: System<S>, msgs: seq<Json>, id: string)
    requires Sound(g, st, s) && id in s.sessions
    ensures Sound(g, st, Admit(s, msgs, id))
  {
    var e := Admitted(|s.posts|, id);
    LawfulPush(s.log, e);
    SessionsKept(s.log, e, s.sessions);
    PostAdmitted(s.log, s.posts, msgs, id);
    RepliesAdmitted(g, st, s.log, s.posts, msgs, id);
    MessagesPush(s.log, e);
  }

  lemma MintSound<S(!new)>(g: Gateway<S>, st: S, s: System<S>, id: string)
    requires Sound(g, st, s) && Minted(id) !in s.log
    ensures Sound(g, st, s.(sessions := s.sessions + {id}, log := s.log + [Minted(id)]))
  {
    LawfulPush(s.log, Minted(id));
    PostsKept(s.log, Minted(id), s.posts);
    RepliesKept(g, st, s.log, Minted(id), s.posts);
    NeverRemoved(s.log, id);
    MessagesPush(s.log, Minted(id));
    forall x ensures x in s.sessions + {id} <==> Live(s.log + [Minted(id)], x) {
      LivePush(s.log, Minted(id), x);
    }
  }

  lemma NeverRemoved(log: seq<Event>, id: string)
    requires Lawful(log) && Minted(id) !in log
    ensures Removed(id) !in log
  {
  }

  lemma RemoveSound<S(!new)>(g: Gateway<S>, st: S, s: System<S>, id: string)
    requires Sound(g, st, s) && id in s.sessions
    ensures Sound(g, st, s.(sessions := s.sessions - {id}, log := s.log + [Removed(id)]))
  {
    LawfulPush(s.log, Removed(id));
    PostsKept(s.log, Removed(id), s.posts);
    RepliesKept(g, st, s.log, Removed(id), s.posts);
    MessagesPush(s.log, Removed(id));
    forall x ensures x in s.sessions - {id} <==> Live(s.log + [Removed(id)], x) {
      LivePush(s.log, Removed(id), x);
    }
  }

  /** One more message dispatched and answered. */
  lemma PostAdvances<S>(g: Gateway<S>, log: seq<Event>, i: nat, p: Post, st: S)
    requires PostSound(log, i, p) && p.pc < |p.msgs|
    ensures PostSound(log + [Dispatched(i, p.msgs[p.pc])], i, Stepped(g, p, st))
  {
    var msg := p.msgs[p.pc];
    PostPush(log, Dispatched(i, msg), i);
    ReplyOf(msg, g.server, STREAMABLE_HTTP_PROTOCOL_VERSION, g.ex, st);
    assert p.msgs[..p.pc + 1] == p.msgs[..p.pc] + [msg];
    assert p.msgs[..p.pc + 1][..p.pc] == p.msgs[..p.pc];
  }

  lemma PostStepped<S>(g: Gateway<S>, log: seq<Event>, posts: seq<Post>, i: nat, st: S)
    requires PostsSound(log, posts) && i < |posts| && posts[i].pc < |posts[i].msgs|
    ensures PostsSound(log + [Dispatched(i, posts[i].msgs[posts[i].pc])], posts[i := Stepped(g, posts[i], st)])
  {
    var e := Dispatched(i, posts[i].msgs[posts[i].pc]);
    var posts' := posts[i := Stepped(g, posts[i], st)];
    PostAdvances(g, log, i, posts[i], st);
    forall k | 0 <= k < |posts'| ensures PostSound(log + [e], k, posts'[k]) {
      if k != i {
        PostKept(log, e, k, posts[k]);
      }
    }
  }

  lemma AdmittedBefore(log: seq<Event>, i: nat, p: Post, msg: Json)
    requires PostSound(log, i, p)
    ensures Allowed(log, Dispatched(i, msg))
  {
    var k :| 0 <= k < |log| && log[k] == Admitted(i, p.session);
  }

  lemma HandlePush<S>(g: Gateway<S>, msgs: seq<Json>, msg: Json, st: S)
    ensures HandleMany(g, msgs + [msg], st).0 == Handle(g, msg, HandleMany(g, msgs, st).0).0
  {
    assert (msgs + [msg])[..|msgs|] == msgs;
  }

  lemma StepSound<S(!new)>(g: Gateway<S>, st: S, s: System<S>, i: nat)
    requires Sound(g, st, s) && i < |s.posts| && s.posts[i].pc < |s.posts[i].msgs|
    ensures Sound(g, st, Next(g, s, Step(i)))
  {
    var p := s.posts[i];
    var e := Dispatched(i, p.msgs[p.pc]);
    AdmittedBefore(s.log, i, p, e.msg);
    LawfulPush(s.log, e);
    SessionsKept(s.log, e, s.sessions);
    PostStepped(g, s.log, s.posts, i, s.st);
    RepliesStepped(g, st, s.log, s.posts, i);
    MessagesPush(s.log, e);
    HandlePush(g, Messages(s.log), e.msg, st);
    assert Next(g, s, Step(i)) ==
           System(s.sessions, s.posts[i := Stepped(g, p, s.st)], Handle(g, e.msg, s.st).0, s.log + [e]);
  }

  lemma ArriveSound<S(!new)>(g: Gateway<S>, st: S, s: System<S>, payload: Json,
                             header: Option<string>, freshId: string)
    requires Sound(g, st, s)
    ensures Sound(g, st, Next(g, s, Arrive(payload, header, freshId)))
  {
    var msgs := MessagesOf(payload);
    if AnyRequest(msgs) && AnyInitialize(msgs) && Minted(freshId) !in s.log {
      MintSound(g, st, s, freshId);
      AdmitSound(g, st, s.(sessions := s.sessions + {freshId}, log := s.log + [Minted(freshId)]), msgs, freshId);
    } else if AnyRequest(msgs) && !AnyInitialize(msgs) && header.Some? && header.value in s.sessions {
      AdmitSound(g, st, s, msgs, header.value);
    }
  }

  /** Each step of any kind keeps the system sound. */
  lemma NextSound<S(!new)>(g: Gateway<S>, st: S, s: System<S>, choice: Choice)
    requires Sound(g, st, s)
    ensures Sound(g, st, Next(g, s, choice))
  {
    match choice
    case Arrive(payload, header, freshId) => ArriveSound(g, st, s, payload, header, freshId);
    case Step(i) =>
      if i < |s.posts| && s.posts[i].pc < |s.posts[i].msgs| {
        StepSound(g, st, s, i);
      }
    case Delete(header) =>
      if header.Some? && header.value in s.sessions {
        RemoveSound(g, st, s, header.value);
      }
  }

  // --------------------------------------------------------- every schedule

  /**
   In every interleaving the live sessions are those minted and not removed; a session is
   removed only while live, so at most once; a POST is admitted only under a live session and
   dispatches only after it was admitted; its messages are dispatched and answered in order,
   each reply being what the executor says in the state left by all earlier dispatches; and the
   executor's state is that of all dispatched messages, in the order of the log.
   */
  lemma {:induction false} EveryInterleaving<S(!new)>(g: Gateway<S>, st: S, schedule: seq<Choice>)
    ensures Sound(g, st, Execute(g, st, schedule))
  {
    if schedule == [] {
    } else {
      var init := schedule[..|schedule| - 1];
      EveryInterleaving(g, st, init);
      NextSound(g, st, Execute(g, st, init), schedule[|schedule| - 1]);
    }
  }

  /** No session is removed twice or minted twice, whatever runs at the same time. */
  lemma RemovedOnce(log: seq<Event>, i: nat, k: nat)
    requires Lawful(log) && i < k < |log| && log[i] == log[k]
    ensures !log[i].Removed? && !log[i].Minted?
  {
    assert Allowed(log[..k], log[k]);
    assert log[..k][i] == log[i];
  }

  /** A dispatched message, if it is answered, has its answer among the replies of its POST. */
  lemma {:induction false} ReplyAt<S>(g: Gateway<S>, st: S, log: seq<Event>, d: nat)
    requires d < |log| && log[d].Dispatched?
    ensures var i := log[d].post;
            RepliesOf(g, st, log[..d], i) + ToSeq(ReplyTo(g, st, log[..d], log[d].msg)) <= RepliesOf(g, st, log, i)
    decreases |log|
  {
    var n := |log| - 1;
    var init, i := log[..n], log[d].post;
    assert init + [log[n]] == log;
    if d == n {
    } else {
      assert init[..d] == log[..d] && init[d] == log[d];
      ReplyAt(g, st, init, d);
      RepliesPush(g, st, init, log[n], i);
    }
  }

  // -------------------------------------------- the session at the dispatch

  lemma LiveIffNotRemoved(log: seq<Event>, a: nat, d: nat, post: nat, id: string)
    requires Lawful(log) && a < d < |log| && log[a] == Admitted(post, id)
    ensures Live(log[..d], id) <==> !exists r :: a < r < d && log[r] == Removed(id)
  {
    assert Allowed(log[..a], log[a]);
    forall r | 0 <= r < a ensures log[r] != Removed(id) {
      assert log[..a][r] == log[r];
    }
    forall r | 0 <= r < d ensures log[..d][r] == log[r] {
    }
    var m :| 0 <= m < a && log[..a][m] == Minted(id);
    assert log[..d][m] == Minted(id);
  }

  lemma AdmittedFirst(log: seq<Event>, b: nat)
    requires Lawful(log) && b < |log| && log[b].Admitted?
    ensures forall a :: 0 <= a < b && log[a].Admitted? ==> log[a].post != log[b].post
  {
    assert Allowed(log[..b], log[b]);
    forall a | 0 <= a < b && log[a].Admitted? ensures log[a].post != log[b].post {
      assert log[..b][a] == log[a];
    }
  }

  /** The one admission of a POST. */
  lemma AdmittedOnce(log: seq<Event>, a: nat, b: nat)
    requires Lawful(log) && a < |log| && b < |log|
    requires log[a].Admitted? && log[b].Admitted? && log[a].post == log[b].post
    ensures a == b
  {
    AdmittedFirst(log, a);
    AdmittedFirst(log, b);
  }

  /**
   When a dispatch finds its session live, in every interleaving: each dispatched message has
   one admission of its POST before it, and the session is still live at the dispatch if and
   only if no DELETE removed it in between.
   */
  lemma DispatchFindsSession<S(!new)>(g: Gateway<S>, st: S, schedule: seq<Choice>, d: nat)
    returns (a: nat)
    requires d < |Execute(g, st, schedule).log| && Execute(g, st, schedule).log[d].Dispatched?
    ensures var s := Execute(g, st, schedule);
            var post := s.log[d].post;
            && post < |s.posts| && a < d && s.log[a] == Admitted(post, s.posts[post].session)
            && (forall k :: 0 <= k < |s.log| && s.log[k].Admitted? && s.log[k].post == post ==> k == a)
            && (Live(s.log[..d], s.posts[post].session) <==>
                !exists r :: a < r < d && s.log[r] == Removed(s.posts[post].session))
  {
    EveryInterleaving(g, st, schedule);
    var s := Execute(g, st, schedule);
    var log, post := s.log, s.log[d].post;
    assert PostSound(log, post, s.posts[post]);
    assert Allowed(log[..d], log[d]);
    var k :| 0 <= k < d && log[..d][k].Admitted? && log[..d][k].post == post;
    var b :| 0 <= b < |log| && log[b] == Admitted(post, s.posts[post].session);
    AdmittedOnce(log, k, b);
    a := k;
    forall j | 0 <= j < |log| && log[j].Admitted? && log[j].post == post ensures j == a {
      AdmittedOnce(log, j, a);
    }
    LiveIffNotRemoved(log, a, d, post, s.posts[post].session);
  }

  // ------------------------------------------------- undisturbed, and disturbed

  function Steps<S>(g: Gateway<S>, s: System<S>, i: nat, n: nat): System<S>
  {
    if n == 0 then s else Next(g, Steps(g, s, i, n - 1), Step(i))
  }

  /** A POST that nothing interrupts comes to what the endpoint does in one go. */
  lemma {:induction false} Undisturbed<S>(g: Gateway<S>, s: System<S>, i: nat, n: nat)
    requires i < |s.posts| && s.posts[i].pc == 0 && s.posts[i].replies == [] && n <= |s.posts[i].msgs|
    ensures var p, s' := s.posts[i], Steps(g, s, i, n);
            var (st, replies) := HandleMany(g, p.msgs[..n], s.st);
            && s'.st == st && s'.posts == s.posts[i := p.(pc := n, replies := replies)]
            && s'.sessions == s.sessions
  {
    if n == 0 {
      assert s.posts[i := s.posts[i]] == s.posts;
    } else {
      var p, s0 := s.posts[i], Steps(g, s, i, n - 1);
      var (st, replies) := HandleMany(g, p.msgs[..n - 1], s.st);
      Undisturbed(g, s, i, n - 1);
      StepOnce(g, s0, i);
      SteppedIs(g, p, n - 1, replies, st);
      HandleNext(g, p.msgs, n - 1, s.st);
      SetTwice(s.posts, i, p.(pc := n - 1, replies := replies), Stepped(g, s0.posts[i], st));
    }
  }

  lemma SteppedIs<S>(g: Gateway<S>, p: Post, n: nat, replies: seq<Json>, st: S)
    requires n < |p.msgs|
    ensures Stepped(g, p.(pc := n, replies := replies), st) ==
            p.(pc := n + 1, replies := replies + ToSeq(Handle(g, p.msgs[n], st).1))
  {
  }

  lemma SetTwice(posts: seq<Post>, i: nat, a: Post, b: Post)
    requires i < |posts|
    ensures posts[i := a][i := b] == posts[i := b]
  {
  }

  lemma StepOnce<S>(g: Gateway<S>, s: System<S>, i: nat)
    requires i < |s.posts| && s.posts[i].pc < |s.posts[i].msgs|
    ensures var p, s' := s.posts[i], Next(g, s, Step(i));
            && s'.st == Handle(g, p.msgs[p.pc], s.st).0 && s'.sessions == s.sessions
            && s'.posts == s.posts[i := Stepped(g, p, s.st)]
  {
  }

  lemma HandleNext<S>(g: Gateway<S>, msgs: seq<Json>, n: nat, st: S)
    requires n < |msgs|
    ensures var (s1, replies) := HandleMany(g, msgs[..n], st);
            var (s2, reply) := Handle(g, msgs[n], s1);
            HandleMany(g, msgs[..n + 1], st) == (s2, replies + ToSeq(reply))
  {
    assert msgs[..n + 1][..n] == msgs[..n];
  }

  lemma NextAdmits<S>(g: Gateway<S>, s: System<S>, payload: Json, id: string)
    requires !payload.Arr? && IsRequest(payload) && !AnyInitialize([payload]) && id in s.sessions
    ensures Next(g, s, Arrive(payload, Some(id), "")) == Admit(s, [payload], id)
  {
    assert IsRequest([payload][0]);
  }

  /**
   What the check does not give: in any state in which the session is live, a DELETE between
   the check and the dispatch ends the session, and the message is dispatched all the same.
   */
  lemma DispatchedAfterRemoval<S>(g: Gateway<S>, s: System<S>, msg: Json, id: string)
    requires id in s.sessions && !msg.Arr? && IsRequest(msg) && !AnyInitialize([msg])
    ensures var n := |s.posts|;
            var removed := Next(g, Next(g, s, Arrive(msg, Some(id), "")), Delete(Some(id)));
            && removed.log == s.log + [Admitted(n, id)] + [Removed(id)] && !Live(removed.log, id)
            && Next(g, removed, Step(n)).log == removed.log + [Dispatched(n, msg)]
  {
    NextAdmits(g, s, msg, id);
    assert Admit(s, [msg], id).posts[|s.posts|] == Post([msg], id, 0, []);
  }
}
