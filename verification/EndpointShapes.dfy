/**
 The cache endpoints of `src/handler.rs` in terms of the documents sent to them: which bodies
 are stores and lookups, what is refused for its size, and how a response is read back.
 */
module EndpointShapes {
  import opened Utils
  import opened Json
  import opened JsonText
  import OpenAiSse
  import opened TwoLevelCache

  // ------------------------------------------------------------ store bodies

  /** The key occurs once, with this text. */
  predicate Once(fields: seq<Field>, key: string, text: string)
  {
    exists i :: 0 <= i < |fields| && fields[i] == Field(key, Str(text)) && OnlyAt(fields, key, i)
  }

  predicate OnlyAt(fields: seq<Field>, key: string, i: int)
  {
    forall k :: 0 <= k < |fields| && k != i ==> fields[k].key != key
  }

  lemma OnceIff(fields: seq<Field>, key: string, text: string)
    ensures Once(fields, key, text) <==> !Repeated(fields, key) && AsStr(Find(fields, key)) == Some(text)
  {
    FindNone(fields, key);
    if Once(fields, key, text) {
      var i :| 0 <= i < |fields| && fields[i] == Field(key, Str(text)) && OnlyAt(fields, key, i);
      FindAt(fields, key, i);
    }
    if !Repeated(fields, key) && AsStr(Find(fields, key)) == Some(text) {
      var i :| 0 <= i < |fields| && fields[i].key == key;
      assert OnlyAt(fields, key, i);
      FindAt(fields, key, i);
    }
  }

  /**
   An object whose members `prompt` and `response` are texts given once and whose `model`, if
   given, is a text given once; or the two or three texts as an array.
   */
  predicate StoreDocument(j: Json, req: StoreRequest)
  {
    if j.Obj? then
      && Once(j.fields, "prompt", req.prompt) && Once(j.fields, "response", req.response)
      && (Once(j.fields, "model", req.model) || (!HasKey(j.fields, "model") && req.model == ""))
    else
      && j.Arr?
      && (|| j.items == [Str(req.prompt), Str(req.response), Str(req.model)]
          || (j.items == [Str(req.prompt), Str(req.response)] && req.model == ""))
  }

  /** Exactly these bodies are stores, and of exactly these texts. */
  lemma StoreBodyIff(body: string, req: StoreRequest)
    ensures DecodeStore(body) == Some(req) <==> ParseTree(body).Some? && StoreDocument(ParseTree(body).value, req)
  {
    if ParseTree(body).Some? && ParseTree(body).value.Obj? {
      var fs := ParseTree(body).value.fields;
      OnceIff(fs, "prompt", req.prompt);
      OnceIff(fs, "response", req.response);
      OnceIff(fs, "model", req.model);
      FindNone(fs, "model");
      if !HasKey(fs, "model") {
        assert !Repeated(fs, "model");
      }
    }
  }

  // ----------------------------------------------------------- lookup bodies

  /** A document whose `prompt` is this text. */
  predicate Asks(body: string, prompt: string)
  {
    FromText(body).Some? && Get(FromText(body).value, "prompt") == Some(Str(prompt))
  }

  /** A body is refused for its size in bytes, 64 KiB to look up and 256 KiB to store, or for what it lacks. */
  lemma RefusedIff(s: Setup, c: Caches, body: string, headers: map<string, string>, embedding: Option<seq<real>>,
                  now: nat)
    ensures LookupIn(s, c, body, headers, embedding, now).status != 400 <==>
            ByteLen(body) <= 65_536 && exists p :: p != "" && Asks(body, p)
    ensures StoreIn(s, c, body, headers, embedding, now).1.status != 400 <==>
            && ByteLen(body) <= 262_144 && ParseTree(body).Some?
            && exists req :: StoreDocument(ParseTree(body).value, req)
    ensures forall p :: Asks(body, p) ==> PromptOf(body) == p
  {
    if PromptOf(body) != "" {
      assert Asks(body, PromptOf(body));
    }
    if DecodeStore(body).Some? {
      StoreBodyIff(body, DecodeStore(body).value);
    } else {
      forall req ensures !(ParseTree(body).Some? && StoreDocument(ParseTree(body).value, req)) {
        StoreBodyIff(body, req);
      }
    }
  }

  // ------------------------------------------------- what the executor reads

  /** What a store leaves for the readers of both levels: level, text and model. */
  lemma StoredDocument(response: string, model: string)
    ensures FromText(StoredJson(response, model)) ==
            Some(Obj([Field("layer", Int(1)), Field("message", Str(response)),
                      Field("model", Str(if model == "" then "cached" else model))]))
  {
    var m := if model == "" then "cached" else model;
    OpenAiSse.NativeFacts(1, response, m);
    PrintParse(OpenAiSse.NativeResponse(1, response, m));
  }

  /** The `message` of a document, or else its `response`. */
  ghost predicate Answers(j: Json, text: string)
  {
    || Get(j, "message") == Some(Str(text))
    || ((forall t :: Get(j, "message") != Some(Str(t))) && Get(j, "response") == Some(Str(text)))
  }

  /** A response of the lookup endpoint is an answer exactly if it has a nonempty text within 128 KiB. */
  lemma ReadsIff(http: Http, text: string)
    requires http.status in {200, 204, 400}
    ensures ReadLookup(http) == Ok(Some(text)) <==>
            && http.status == 200 && ByteLen(http.body) <= 131_072 && text != ""
            && FromText(http.body).Some? && Answers(FromText(http.body).value, text)
    ensures ReadLookup(http).Err? <==> http.status == 400 || (http.status == 200 && ByteLen(http.body) > 131_072)
  {
    if http.status == 200 && FromText(http.body).Some? {
      var message := Get(FromText(http.body).value, "message");
      if AsStr(message).Some? {
        assert message == Some(Str(AsStr(message).value));
      }
    }
  }
}
