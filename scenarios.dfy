/**
 * Properties that relate the handlers to one another: what a later request
 * sees of an earlier one's effect.
 */
module Scenarios {
  import opened Wrappers
  import opened Json
  import opened Validators
  import opened Users

  /** A request carrying `?name=<name>` and no other query parameter. */
  function NameRequest(verb: string, name: string, body: Option<map<string, Json>>): Request {
    Request(verb, map["name" := name], body)
  }

  /** A POST whose JSON body is `{ name, email }`. */
  function PostUser(name: Json, email: Json): Request {
    Request("POST", map[], Some(map["name" := name, "email" := email]))
  }

  /** How many documents carry the name `name`. */
  function CountNamed(store: seq<Record>, name: string): nat
    decreases |store|
  {
    if |store| == 0 then 0
    else (if NameIs(store[0], name) then 1 else 0) + CountNamed(store[1..], name)
  }

  lemma {:induction false} CountNamedZero(store: seq<Record>, name: string)
    ensures CountNamed(store, name) == 0 <==> FirstMatch(store, name).None?
    decreases |store|
  {
    if |store| > 0 {
      CountNamedZero(store[1..], name);
      assert forall j :: 1 <= j < |store| ==> store[j] == store[1..][j - 1];
      if !NameIs(store[0], name) && FirstMatch(store[1..], name).Some? {
        var k := FirstMatch(store[1..], name).value;
        assert NameIs(store[k + 1], name);
      }
    }
  }

  lemma {:induction false} CountNamedSplit(a: seq<Record>, b: seq<Record>, name: string)
    ensures CountNamed(a + b, name) == CountNamed(a, name) + CountNamed(b, name)
    decreases |a|
  {
    if |a| > 0 {
      assert (a + b)[1..] == a[1..] + b;
      CountNamedSplit(a[1..], b, name);
    } else {
      assert a + b == b;
    }
  }

  /** Removing a document with the name lowers the count by one. */
  lemma CountNamedRemove(store: seq<Record>, k: nat, name: string)
    requires k < |store| && NameIs(store[k], name)
    ensures CountNamed(store[..k] + store[k + 1..], name) + 1 == CountNamed(store, name)
  {
    assert store == store[..k] + ([store[k]] + store[k + 1..]);
    CountNamedSplit(store[..k], [store[k]] + store[k + 1..], name);
    CountNamedSplit([store[k]], store[k + 1..], name);
    CountNamedSplit(store[..k], store[k + 1..], name);
    assert CountNamed([store[k]], name) == 1 by {
      assert [store[k]][1..] == [];
    }
  }

  /** Appending a document changes the first match only when there was none. */
  lemma FirstMatchAppend(store: seq<Record>, r: Record, name: string)
    ensures FirstMatch(store + [r], name) ==
              if FirstMatch(store, name).Some? then FirstMatch(store, name)
              else if NameIs(r, name) then Some(|store|)
              else None
  {
    var after := store + [r];
    assert forall j :: 0 <= j < |store| ==> after[j] == store[j];
    assert after[|store|] == r;
  }

  /** A document found after a point update is the one the update touched, if it keeps the name. */
  lemma FirstMatchAfterPointUpdate(store: seq<Record>, k: nat, r: Record, name: string)
    requires FirstMatch(store, name) == Some(k)
    requires NameIs(r, name)
    ensures FirstMatch(store[k := r], name) == Some(k)
  {
    var after := store[k := r];
    assert forall j :: 0 <= j < k ==> after[j] == store[j];
    assert after[k] == r;
  }

  /** What get returns right after a successful create. */
  lemma CreateThenGet(store: seq<Record>, name: string, email: Json, nowMs: int, freshId: string)
    requires CreateAccepted(PostUser(JStr(name), email))
    ensures var after := Create(store, PostUser(JStr(name), email), nowMs, freshId).store;
            var found := Get(after, NameRequest("GET", name, None));
            if FirstMatch(store, name).None?
            then found == Response(200, DocBody(Projection(NewUser(freshId, JStr(name), email, nowMs))))
            else found == Get(store, NameRequest("GET", name, None))
  {
    FirstMatchAppend(store, NewUser(freshId, JStr(name), email, nowMs), name);
  }

  /**
   * Deleting a just-created user: refused (403) within the first minute, and
   * from exactly 60000 ms on it succeeds and restores the collection as it
   * was before the create, provided no earlier document had the name.
   */
  lemma CreateThenDelete(store: seq<Record>, name: string, email: Json, createdMs: int, nowMs: int, freshId: string)
    requires CreateAccepted(PostUser(JStr(name), email))
    requires FirstMatch(store, name).None?
    ensures var after := Create(store, PostUser(JStr(name), email), createdMs, freshId).store;
            var out := Delete(after, NameRequest("DELETE", name, None), nowMs);
            if nowMs - createdMs >= 60000
            then out.response.status == 200 && out.store == store
            else out.response.status == 403 && out.store == after
  {
    var r := NewUser(freshId, JStr(name), email, createdMs);
    FirstMatchAppend(store, r, name);
    assert (store + [r])[..|store|] == store;
  }

  /**
   * Repeating a successful delete finds nothing (404) exactly when the name
   * was unique; otherwise the repeat reaches the next document of that name.
   */
  lemma DeleteAgain(store: seq<Record>, name: string, nowMs: int, laterMs: int)
    requires Delete(store, NameRequest("DELETE", name, None), nowMs).response.status == 200
    ensures var after := Delete(store, NameRequest("DELETE", name, None), nowMs).store;
            Delete(after, NameRequest("DELETE", name, None), laterMs) == Outcome(NotFound, after)
            <==> CountNamed(store, name) == 1
  {
    var req := NameRequest("DELETE", name, None);
    var k := FirstMatch(store, name).value;
    var after := store[..k] + store[k + 1..];
    assert Delete(store, req, nowMs).store == after;
    CountNamedRemove(store, k, name);
    CountNamedZero(after, name);
  }

  /** After an update that keeps the name, get shows the merged document. */
  lemma UpdateThenGet(store: seq<Record>, name: string, updates: map<string, Json>)
    requires UpdateAccepted(NameRequest("PUT", name, Some(updates)))
    requires FirstMatch(store, name).Some?
    requires "name" in updates ==> updates["name"] == JStr(name)
    ensures var after := Update(store, NameRequest("PUT", name, Some(updates))).store;
            Get(after, NameRequest("GET", name, None))
              == Response(200, DocBody(Projection(Merge(store[FirstMatch(store, name).value], updates))))
  {
    var k := FirstMatch(store, name).value;
    FirstMatchAfterPointUpdate(store, k, Merge(store[k], updates), name);
  }

  lemma MergeTwice(r: Record, updates: map<string, Json>)
    ensures Merge(Merge(r, updates), updates) == Merge(r, updates)
  {
    assert Merge(Merge(r, updates), updates).fields == Merge(r, updates).fields;
  }

  /** Sending the same name-preserving update twice has the effect of sending it once. */
  lemma UpdateIdempotent(store: seq<Record>, name: string, updates: map<string, Json>)
    requires "name" in updates ==> updates["name"] == JStr(name)
    ensures var req := NameRequest("PUT", name, Some(updates));
            Update(Update(store, req).store, req) == Update(store, req)
  {
    var req := NameRequest("PUT", name, Some(updates));
    if Update(store, req).response.status == 200 {
      var k := FirstMatch(store, name).value;
      FirstMatchAfterPointUpdate(store, k, Merge(store[k], updates), name);
      MergeTwice(store[k], updates);
    }
  }

  /** An empty update object is accepted: a match answers 200 and nothing changes. */
  lemma EmptyUpdateAccepted(store: seq<Record>, name: string)
    requires name != "" && FirstMatch(store, name).Some?
    ensures Update(store, NameRequest("PUT", name, Some(map[])))
              == Outcome(Response(200, MessageBody("User updated successfully")), store)
    ensures Update(store, NameRequest("PUT", name, None)).response.status == 400
  {
    var k := FirstMatch(store, name).value;
    assert Merge(store[k], map[]).fields == store[k].fields;
    assert store[k := store[k]] == store;
  }

  /**
   * Update does not re-check names: a Korean name that create refuses is
   * written by update without complaint.
   */
  lemma UpdateSkipsKoreanCheck(store: seq<Record>, name: string, nowMs: int, freshId: string)
    requires name != "" && FirstMatch(store, name).Some?
    ensures var out := Update(store, NameRequest("PUT", name, Some(map["name" := JStr("민수")])));
            out.response.status == 200
            && out.store[FirstMatch(store, name).value].fields["name"] == Plain(JStr("민수"))
    ensures Create(store, PostUser(JStr("민수"), JStr("m@x.com")), nowMs, freshId).response
              == Response(400, ErrorBody("Name cannot contain Korean characters"))
  {
    var korean := JStr("민수");
    var req := NameRequest("PUT", name, Some(map["name" := korean]));
    assert UpdateAccepted(req);
    var post := PostUser(korean, JStr("m@x.com"));
    assert Member(post.body.value, "name") == Some(korean);
    assert Member(post.body.value, "email") == Some(JStr("m@x.com"));
    KoreanExamples();
    assert ContainsKorean(JsString(korean));
  }

  /**
   * Update can overwrite `createdAt` like any other field, and then decides
   * every later delete of the document: a falsy value makes it undeletable
   * (403 at any time), a truthy one makes the guard throw (500).
   */
  lemma UpdatedCreatedAtDecidesDelete(store: seq<Record>, name: string, updates: map<string, Json>, nowMs: int)
    requires UpdateAccepted(NameRequest("PUT", name, Some(updates)))
    requires FirstMatch(store, name).Some?
    requires "name" in updates ==> updates["name"] == JStr(name)
    requires "createdAt" in updates
    ensures var after := Update(store, NameRequest("PUT", name, Some(updates))).store;
            var out := Delete(after, NameRequest("DELETE", name, None), nowMs);
            out.store == after && out.response.status == (if Truthy(updates["createdAt"]) then 500 else 403)
  {
    var k := FirstMatch(store, name).value;
    FirstMatchAfterPointUpdate(store, k, Merge(store[k], updates), name);
  }

  /** A field named "id", written by update, hides the document id in what get returns. */
  lemma IdFieldShadowsDocumentId(store: seq<Record>, name: string, fake: string)
    requires name != "" && FirstMatch(store, name).Some?
    ensures var after := Update(store, NameRequest("PUT", name, Some(map["id" := JStr(fake)]))).store;
            var found := Get(after, NameRequest("GET", name, None));
            found.status == 200 && found.body.doc["id"] == Plain(JStr(fake))
  {
    var updates := map["id" := JStr(fake)];
    UpdateThenGet(store, name, updates);
  }

  /** A `{ name, email }` body passes create's checks when its two members do. */
  lemma PostUserAccepted(name: Json, email: Json)
    requires Truthy(name) && Truthy(email)
    requires !ToStringThrows(name) && !ContainsKorean(JsString(name)) && IsValidEmail(email)
    ensures CreateAccepted(PostUser(name, email))
  {
    var m := PostUser(name, email).body.value;
    assert Member(m, "name") == Some(name) && Member(m, "email") == Some(email);
  }

  /** Worked examples of create: a Latin name and a numeric name are accepted. */
  lemma CreateExamples(store: seq<Record>, nowMs: int, freshId: string)
    ensures Create(store, PostUser(JStr("Minsu"), JStr("m@x.com")), nowMs, freshId).response
              == Response(201, CreatedBody(freshId, "User created"))
    ensures Create(store, PostUser(JNum(7), JStr("m@x.com")), nowMs, freshId).response.status == 201
  {
    KoreanExamples();
    NonTextNeverKorean(JNum(7));
    assert IsValidEmail(JStr("m@x.com")) by {
      assert "m@x.com"[1] == '@';
    }
    PostUserAccepted(JStr("Minsu"), JStr("m@x.com"));
    PostUserAccepted(JNum(7), JStr("m@x.com"));
  }

  /**
   * A name object with its own `toString` member makes the Korean check's
   * string conversion throw: 500, nothing added, whatever the e-mail is.
   */
  lemma ThrowingNameExample(store: seq<Record>, nowMs: int, freshId: string)
    ensures Create(store, PostUser(JObj(map["toString" := JNum(1)]), JStr("a@b")), nowMs, freshId)
              == Outcome(Fault, store)
    ensures Create(store, PostUser(JArr([JStr("x"), JObj(map["toString" := JNull])]), JStr("a@b")), nowMs, freshId)
              == Outcome(Fault, store)
  {
    var named := JObj(map["toString" := JNum(1)]);
    var m := PostUser(named, JStr("a@b")).body.value;
    assert Member(m, "name") == Some(named) && Member(m, "email") == Some(JStr("a@b"));
    var arr := JArr([JStr("x"), JObj(map["toString" := JNull])]);
    assert ToStringThrows(arr) by {
      assert !arr.items[1].JNull? && ToStringThrows(arr.items[1]);
    }
    var m' := PostUser(arr, JStr("a@b")).body.value;
    assert Member(m', "name") == Some(arr) && Member(m', "email") == Some(JStr("a@b"));
  }

  /** An empty e-mail is a missing one. */
  lemma MissingEmailExample(store: seq<Record>, nowMs: int, freshId: string)
    ensures Create(store, PostUser(JStr("Minsu"), JStr("")), nowMs, freshId).response
              == Response(400, ErrorBody("Missing name or email"))
  {
    var m := PostUser(JStr("Minsu"), JStr("")).body.value;
    assert Member(m, "email") == Some(JStr(""));
  }

  /** Worked examples of the name-addressed handlers on a name nobody has. */
  lemma LookupExamples(store: seq<Record>, nowMs: int)
    requires FirstMatch(store, "Nobody").None?
    ensures Get(store, NameRequest("GET", "Nobody", None)) == NotFound
    ensures Update(store, NameRequest("PUT", "Minsu", Some(map["email" := JStr("bademail")])))
              == Outcome(Response(400, ErrorBody("Invalid email format: missing @")), store)
    ensures Delete(store, NameRequest("DELETE", "Nobody", None), nowMs) == Outcome(NotFound, store)
  {
    assert !IsValidEmail(JStr("bademail"));
  }
}
