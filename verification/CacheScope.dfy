/**
 `src/core/cache_scope.rs`: the session scope of a request and the key of the exact cache.
 SHA-256 is the parameter `digest`; the exact key is kept as the text that gets hashed.
 */
module CacheScope {
  import opened Utils
  import opened Json

  const MAX_IDENTIFIER_LEN := 512

  /** `normalize_session_identifier` */
  function Normalize(id: string): Option<string>
  {
    var t := Trim(id);
    if t == "" || ByteLen(t) > MAX_IDENTIFIER_LEN then None else Some(t)
  }

  /** The first of the three session fields that holds a string. */
  function SessionField(j: Json): Option<string>
  {
    if AsStr(Get(j, "session_id")).Some? then AsStr(Get(j, "session_id"))
    else if AsStr(Get(j, "thread_id")).Some? then AsStr(Get(j, "thread_id"))
    else AsStr(Get(j, "conversation_id"))
  }

  function NormalizedField(j: Json): Option<string>
  {
    match SessionField(j)
    case Some(id) => Normalize(id)
    case None => None
  }

  /** `extract_session_identifier_from_body` */
  function BodyIdentifier(body: string): Option<string>
  {
    match FromText(body)
    case None => None
    case Some(j) =>
      if NormalizedField(j).Some? then NormalizedField(j)
      else if Get(j, "metadata").Some? then NormalizedField(Get(j, "metadata").value)
      else None
  }

  /** The session headers, in the order they are tried. */
  const SESSION_HEADERS: seq<string> := ["x-isartor-session-id", "x-thread-id", "x-session-id", "x-conversation-id"]

  /** `extract_session_identifier_from_headers`: the first header, from `k` on, that holds an identifier. */
  function HeaderIdentifier(headers: map<string, string>, k: nat): Option<string>
    decreases |SESSION_HEADERS| - k
  {
    if k >= |SESSION_HEADERS| then None
    else
      var name := SESSION_HEADERS[k];
      if name in headers && Normalize(headers[name]).Some? then Normalize(headers[name])
      else HeaderIdentifier(headers, k + 1)
  }

  /** `extract_session_cache_scope`, the headers being those whose values are text. */
  function Scope(digest: string -> string, headers: map<string, string>, body: string): Option<string>
  {
    var inHeaders := HeaderIdentifier(headers, 0);
    var id := if inHeaders.Some? then inHeaders else BodyIdentifier(body);
    match id
    case Some(text) => (match Normalize(text) case Some(n) => Some(digest(n)) case None => None)
    case None => None
  }

  /** `build_exact_cache_input` */
  function KeyInput(ns: string, material: string, scope: Option<string>): string
  {
    match scope
    case Some(s) => ns + "|session:" + s + "|" + material
    case None => ns + "|" + material
  }

  predicate NoBar(s: string) { forall i :: 0 <= i < |s| ==> s[i] != '|' }

  /** How one key text can come from two different requests of one namespace. */
  predicate Shadows(plain: string, scope: string, material: string)
  {
    plain == "session:" + scope + "|" + material
  }

  lemma SplitAtBar(a: string, x: string, b: string, y: string)
    requires NoBar(a) && NoBar(b)
    requires a + "|" + x == b + "|" + y
    ensures a == b && x == y
  {
    var s, t := a + "|" + x, b + "|" + y;
    assert s[|a|] == '|' && t[|b|] == '|';
    assert forall i :: 0 <= i < |a| ==> s[i] == a[i];
    assert forall i :: 0 <= i < |b| ==> t[i] == b[i];
    assert |a| == |b|;
    assert a == s[..|a|] == t[..|b|] == b;
    assert x == s[|a| + 1..] == t[|b| + 1..] == y;
  }

  lemma CutPrefix(p: string, a: string, b: string)
    ensures p + a == p + b <==> a == b
  {
    if p + a == p + b {
      assert a == (p + a)[|p|..] == (p + b)[|p|..] == b;
    }
  }

  lemma ScopedTail(s: string, m: string, ns: string)
    ensures KeyInput(ns, m, Some(s)) == (ns + "|") + ("session:" + (s + "|" + m))
    ensures "session:" + s + "|" + m == "session:" + (s + "|" + m)
  {
    assert ns + "|session:" == (ns + "|") + "session:";
  }

  /**
   When two requests of a namespace share an exact key: if they agree on scope and text, or
   one is unscoped and its text spells out the other's session prefix. Scopes are hex digests,
   so they hold no bar.
   */
  lemma KeysCollide(ns: string, m1: string, s1: Option<string>, m2: string, s2: Option<string>)
    requires s1.Some? ==> NoBar(s1.value)
    requires s2.Some? ==> NoBar(s2.value)
    ensures KeyInput(ns, m1, s1) == KeyInput(ns, m2, s2) <==>
            || (s1 == s2 && m1 == m2)
            || (s1.None? && s2.Some? && Shadows(m1, s2.value, m2))
            || (s1.Some? && s2.None? && Shadows(m2, s1.value, m1))
  {
    var p := ns + "|";
    match (s1, s2) {
      case (None, None) => CutPrefix(p, m1, m2);
      case (Some(a), None) =>
        ScopedTail(a, m1, ns);
        CutPrefix(p, "session:" + (a + "|" + m1), m2);
      case (None, Some(b)) =>
        ScopedTail(b, m2, ns);
        CutPrefix(p, m1, "session:" + (b + "|" + m2));
      case (Some(a), Some(b)) =>
        ScopedTail(a, m1, ns);
        ScopedTail(b, m2, ns);
        CutPrefix(p, "session:" + (a + "|" + m1), "session:" + (b + "|" + m2));
        CutPrefix("session:", a + "|" + m1, b + "|" + m2);
        if a + "|" + m1 == b + "|" + m2 {
          SplitAtBar(a, m1, b, m2);
        }
    }
  }

  /** Requests of different namespaces never share a key. */
  lemma NamespacesApart(ns1: string, m1: string, s1: Option<string>, ns2: string, m2: string, s2: Option<string>)
    requires NoBar(ns1) && NoBar(ns2) && KeyInput(ns1, m1, s1) == KeyInput(ns2, m2, s2)
    ensures ns1 == ns2
  {
    if s1.Some? {
      ScopedTail(s1.value, m1, ns1);
    }
    if s2.Some? {
      ScopedTail(s2.value, m2, ns2);
    }
    var x1 := if s1.Some? then "session:" + (s1.value + "|" + m1) else m1;
    var x2 := if s2.Some? then "session:" + (s2.value + "|" + m2) else m2;
    SplitAtBar(ns1, x1, ns2, x2);
  }

  // ----------------------------------------------- who identifies the session

  predicate White(s: string) { forall i :: 0 <= i < |s| ==> IsWhitespace(s[i]) }

  /** An identifier in a text: what is left without the white space around it, not empty and at most 512 bytes long. */
  predicate Identifies(text: string, id: string)
  {
    && (exists m, n :: 0 <= m <= n <= |text| && text[m..n] == id && White(text[..m]) && White(text[n..]))
    && id != "" && !IsWhitespace(id[0]) && !IsWhitespace(id[|id| - 1])
    && ByteLen(id) <= 512
  }

  lemma {:induction false} TrimStartCuts(s: string) returns (m: nat)
    ensures m <= |s| && TrimStart(s) == s[m..] && White(s[..m])
  {
    if s != [] && IsWhitespace(s[0]) {
      var k := TrimStartCuts(s[1..]);
      m := k + 1;
      assert s[1..][k..] == s[m..] && s[..m] == [s[0]] + s[1..][..k];
    } else {
      m := 0;
    }
  }

  lemma {:induction false} TrimEndCuts(s: string)
    ensures White(s[|TrimEnd(s)|..]) && TrimEnd(s) == s[..|TrimEnd(s)|]
  {
    if s != [] && IsWhitespace(s[|s| - 1]) {
      var init := s[..|s| - 1];
      TrimEndCuts(init);
      var n := |TrimEnd(s)|;
      assert s[n..] == init[n..] + [s[|s| - 1]];
    }
  }

  /** Trimming leaves a part of the text, with nothing but white space around it. */
  lemma TrimCuts(s: string) returns (m: nat, n: nat)
    ensures m <= n <= |s| && Trim(s) == s[m..n] && White(s[..m]) && White(s[n..])
    ensures Trim(s) != "" ==> !IsWhitespace(Trim(s)[0]) && !IsWhitespace(Trim(s)[|Trim(s)| - 1])
  {
    m := TrimStartCuts(s);
    var rest := TrimStart(s);
    TrimEndCuts(rest);
    n := m + |TrimEnd(rest)|;
    assert rest[..n - m] == s[m..n] && rest[n - m..] == s[n..];
    if Trim(s) != "" {
      assert rest[0] == Trim(s)[0];
    }
  }

  /** There is no other such part that is not empty. */
  lemma CutUnique(s: string, m: nat, n: nat, m': nat, n': nat)
    requires m < n <= |s| && White(s[..m]) && White(s[n..]) && !IsWhitespace(s[m]) && !IsWhitespace(s[n - 1])
    requires m' <= n' <= |s| && White(s[..m']) && White(s[n'..])
    ensures m' <= m && n <= n'
    ensures m' < n' && !IsWhitespace(s[m']) && !IsWhitespace(s[n' - 1]) ==> m' == m && n' == n
  {
    forall i | 0 <= i < m ensures IsWhitespace(s[i]) {
      assert s[..m][i] == s[i];
    }
    forall i | 0 <= i < m' ensures IsWhitespace(s[i]) {
      assert s[..m'][i] == s[i];
    }
    forall i | n <= i < |s| ensures IsWhitespace(s[i]) {
      assert s[n..][i - n] == s[i];
    }
    forall i | n' <= i < |s| ensures IsWhitespace(s[i]) {
      assert s[n'..][i - n'] == s[i];
    }
  }

  /** Normalizing finds exactly the identifier in a text. */
  lemma NormalizeIff(text: string, id: string)
    ensures Normalize(text) == Some(id) <==> Identifies(text, id)
  {
    var m, n := TrimCuts(text);
    if Identifies(text, id) {
      TrimIs(text, id, m, n);
    }
  }

  lemma TrimIs(text: string, id: string, m: nat, n: nat)
    requires Identifies(text, id)
    requires m <= n <= |text| && Trim(text) == text[m..n] && White(text[..m]) && White(text[n..])
    requires Trim(text) != "" ==> !IsWhitespace(Trim(text)[0]) && !IsWhitespace(Trim(text)[|Trim(text)| - 1])
    ensures Trim(text) == id
  {
    var m', n' :| 0 <= m' <= n' <= |text| && text[m'..n'] == id && White(text[..m']) && White(text[n'..]);
    Ends(text, m', n');
    assert m <= m' && n' <= n by {
      CutUnique(text, m', n', m, n);
    }
    Ends(text, m, n);
    CutUnique(text, m', n', m, n);
  }

  lemma Ends(s: string, m: nat, n: nat)
    requires m < n <= |s|
    ensures s[m..n] != "" && s[m..n][0] == s[m] && s[m..n][|s[m..n]| - 1] == s[n - 1]
  {
  }

  predicate IsStr(o: Option<Json>) { o.Some? && o.value.Str? }

  /** The text of the first of the three session fields that holds a string. */
  predicate FirstString(j: Json, text: string)
  {
    || Get(j, "session_id") == Some(Str(text))
    || (!IsStr(Get(j, "session_id")) && Get(j, "thread_id") == Some(Str(text)))
    || (!IsStr(Get(j, "session_id")) && !IsStr(Get(j, "thread_id")) && Get(j, "conversation_id") == Some(Str(text)))
  }

  ghost predicate FieldsSay(j: Json, id: string) { exists text :: FirstString(j, text) && Identifies(text, id) }

  /** The fields of a document, or else those of its `metadata`. */
  ghost predicate DocumentSays(j: Json, id: string)
  {
    || FieldsSay(j, id)
    || ((forall other :: !FieldsSay(j, other)) && Get(j, "metadata").Some? && FieldsSay(Get(j, "metadata").value, id))
  }

  predicate HeaderSays(headers: map<string, string>, name: string, id: string)
  {
    name in headers && Identifies(headers[name], id)
  }

  ghost predicate Silent(headers: map<string, string>, name: string) { forall id :: !HeaderSays(headers, name, id) }

  /** The first of the four headers, in this order, that holds an identifier. */
  ghost predicate HeadersSay(headers: map<string, string>, id: string)
  {
    || HeaderSays(headers, "x-isartor-session-id", id)
    || (Silent(headers, "x-isartor-session-id") && HeaderSays(headers, "x-thread-id", id))
    || (Silent(headers, "x-isartor-session-id") && Silent(headers, "x-thread-id")
        && HeaderSays(headers, "x-session-id", id))
    || (Silent(headers, "x-isartor-session-id") && Silent(headers, "x-thread-id") && Silent(headers, "x-session-id")
        && HeaderSays(headers, "x-conversation-id", id))
  }

  /** The session a request names: a header wins, and the body decides if no header does. */
  ghost predicate Names(headers: map<string, string>, body: string, id: string)
  {
    || HeadersSay(headers, id)
    || ((forall other :: !HeadersSay(headers, other)) && FromText(body).Some? && DocumentSays(FromText(body).value, id))
  }

  lemma HeaderFound(headers: map<string, string>, name: string)
    ensures name in headers && Normalize(headers[name]).Some? ==>
              HeaderSays(headers, name, Normalize(headers[name]).value)
    ensures forall id :: HeaderSays(headers, name, id) ==> Normalize(headers[name]) == Some(id)
    ensures Silent(headers, name) <==> !(name in headers && Normalize(headers[name]).Some?)
  {
    if name in headers {
      forall id ensures HeaderSays(headers, name, id) <==> Normalize(headers[name]) == Some(id) {
        NormalizeIff(headers[name], id);
      }
    }
  }

  lemma HeadersIff(headers: map<string, string>, id: string)
    ensures HeaderIdentifier(headers, 0) == Some(id) <==> HeadersSay(headers, id)
  {
    HeaderFound(headers, "x-isartor-session-id");
    HeaderFound(headers, "x-thread-id");
    HeaderFound(headers, "x-session-id");
    HeaderFound(headers, "x-conversation-id");
    HeaderUnfolds(headers);
  }

  lemma HeaderUnfolds(headers: map<string, string>)
    ensures var found := (name: string) => name in headers && Normalize(headers[name]).Some?;
            HeaderIdentifier(headers, 0) ==
            if found("x-isartor-session-id") then Normalize(headers["x-isartor-session-id"])
            else if found("x-thread-id") then Normalize(headers["x-thread-id"])
            else if found("x-session-id") then Normalize(headers["x-session-id"])
            else if found("x-conversation-id") then Normalize(headers["x-conversation-id"])
            else None
  {
    assert HeaderIdentifier(headers, 4) == None;
    assert SESSION_HEADERS[3] == "x-conversation-id" && SESSION_HEADERS[2] == "x-session-id";
    assert SESSION_HEADERS[1] == "x-thread-id" && SESSION_HEADERS[0] == "x-isartor-session-id";
  }

  lemma FieldsIff(j: Json, id: string)
    ensures NormalizedField(j) == Some(id) <==> FieldsSay(j, id)
  {
    if SessionField(j).Some? {
      NormalizeIff(SessionField(j).value, id);
      assert FirstString(j, SessionField(j).value);
    }
  }

  lemma DocumentIff(body: string, id: string)
    ensures BodyIdentifier(body) == Some(id) <==> FromText(body).Some? && DocumentSays(FromText(body).value, id)
  {
    if FromText(body).Some? {
      var j := FromText(body).value;
      forall other ensures NormalizedField(j) == Some(other) <==> FieldsSay(j, other) {
        FieldsIff(j, other);
      }
      if Get(j, "metadata").Some? {
        FieldsIff(Get(j, "metadata").value, id);
      }
    }
  }

  lemma NormalizeTwice(text: string)
    requires Normalize(text).Some?
    ensures Normalize(Normalize(text).value) == Normalize(text)
  {
    var id := Normalize(text).value;
    NormalizeIff(text, id);
    assert id[0..|id|] == id && White(id[..0]) && White(id[|id|..]);
    NormalizeIff(id, id);
  }

  lemma {:induction false} FoundIsNormal(headers: map<string, string>, k: nat)
    ensures var id := HeaderIdentifier(headers, k); id.Some? ==> Normalize(id.value) == id
    decreases |SESSION_HEADERS| - k
  {
    if k >= |SESSION_HEADERS| {
    } else {
      var name := SESSION_HEADERS[k];
      if name in headers && Normalize(headers[name]).Some? {
        NormalizeTwice(headers[name]);
      } else {
        FoundIsNormal(headers, k + 1);
      }
    }
  }

  lemma BodyIsNormal(body: string)
    ensures var id := BodyIdentifier(body); id.Some? ==> Normalize(id.value) == id
  {
    if BodyIdentifier(body).Some? {
      var j := FromText(body).value;
      if NormalizedField(j).Some? {
        NormalizeTwice(SessionField(j).value);
      } else {
        NormalizeTwice(SessionField(Get(j, "metadata").value).value);
      }
    }
  }

  function Found(headers: map<string, string>, body: string): Option<string>
  {
    if HeaderIdentifier(headers, 0).Some? then HeaderIdentifier(headers, 0) else BodyIdentifier(body)
  }

  lemma FoundIff(headers: map<string, string>, body: string, id: string)
    ensures Found(headers, body) == Some(id) <==> Names(headers, body, id)
  {
    HeadersIff(headers, id);
    DocumentIff(body, id);
    if HeaderIdentifier(headers, 0).Some? {
      HeadersIff(headers, HeaderIdentifier(headers, 0).value);
    } else {
      forall other ensures !HeadersSay(headers, other) {
        HeadersIff(headers, other);
      }
    }
  }

  lemma ScopeOfFound(digest: string -> string, headers: map<string, string>, body: string)
    ensures Scope(digest, headers, body) ==
            match Found(headers, body) case Some(id) => Some(digest(id)) case None => None
  {
    FoundIsNormal(headers, 0);
    BodyIsNormal(body);
  }

  /** The scope of a request is the digest of the session it names, and none exactly if it names none. */
  lemma ScopeSpelledOut(digest: string -> string, headers: map<string, string>, body: string)
    ensures forall id :: Names(headers, body, id) ==> Scope(digest, headers, body) == Some(digest(id))
    ensures Scope(digest, headers, body).None? <==> forall id :: !Names(headers, body, id)
  {
    ScopeOfFound(digest, headers, body);
    forall id ensures Found(headers, body) == Some(id) <==> Names(headers, body, id) {
      FoundIff(headers, body, id);
    }
  }

  /** A header that holds an identifier decides, whatever the body says. */
  lemma HeaderWins(digest: string -> string, id: string, body: string)
    requires Normalize(id).Some?
    ensures Scope(digest, map["x-isartor-session-id" := id], body) == Some(digest(Normalize(id).value))
  {
    HeaderUnfolds(map["x-isartor-session-id" := id]);
    NormalizeTwice(id);
  }

  /**
   Two requests of different scopes that do share a key, for every digest, session identifier
   and prompt: the scoped one, and the unscoped one whose prompt spells out its session.
   */
  lemma CollisionExists(ns: string, digest: string -> string, id: string, body: string, m: string)
    requires Normalize(id).Some?
    ensures var scope := Scope(digest, map["x-isartor-session-id" := id], body);
            && scope == Some(digest(Normalize(id).value))
            && KeyInput(ns, "session:" + scope.value + "|" + m, None) == KeyInput(ns, m, scope)
  {
    HeaderWins(digest, id, body);
    ScopedTail(digest(Normalize(id).value), m, ns);
  }
}
