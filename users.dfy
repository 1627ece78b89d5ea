/**
 * The four HTTP handlers of the "users" collection (create, get, update,
 * delete), each as a function from the collection's documents and a request
 * to the first response sent and the documents afterwards.
 */
module Users {
  import opened Wrappers
  import opened Json
  import opened Validators

  /** A stored field: a JSON value written by a request, or a timestamp the server assigned. */
  datatype Field = Plain(value: Json) | ServerTime(ms: int)

  /** A document of the collection: the store-assigned id and the document's fields. */
  datatype Record = Record(id: string, fields: map<string, Field>)

  /** The parts of an HTTP request the handlers read; an absent body is `None`. */
  datatype Request = Request(verb: string, query: map<string, string>, body: Option<map<string, Json>>)

  /** The body of the first response a handler sends. */
  datatype Body =
    | Text(text: string)                        // a plain-text body
    | ErrorBody(error: string)                  // { error }
    | MessageBody(message: string)              // { message }
    | CreatedBody(id: string, message: string)  // { id, message }
    | DocBody(doc: map<string, Field>)          // { id, ...data }
    | FaultBody                                 // a 500 caused by a runtime TypeError

  datatype Response = Response(status: int, body: Body)

  /** What one request does: the response and the collection afterwards. */
  datatype Outcome = Outcome(response: Response, store: seq<Record>)

  const NotAllowed: Response := Response(405, Text("Method Not Allowed"))
  const NotFound: Response := Response(404, MessageBody("User not found"))
  const Fault: Response := Response(500, FaultBody)

  /** The query `where("name", "==", name)`: the document's `name` field is that very string. */
  predicate NameIs(r: Record, name: string)
    ensures NameIs(r, name) <==>
      "name" in r.fields && r.fields["name"].Plain? && r.fields["name"].value.JStr?
      && r.fields["name"].value.s == name
  {
    "name" in r.fields && r.fields["name"] == Plain(JStr(name))
  }

  /**
   * The index of the first document named `name`: the one a `limit(1)` query
   * returns. The sequence order stands in for the store's document-id order.
   */
  function FirstMatch(store: seq<Record>, name: string): (r: Option<nat>)
    ensures r.Some? ==> r.value < |store| && NameIs(store[r.value], name)
    ensures r.Some? ==> forall j :: 0 <= j < r.value ==> !NameIs(store[j], name)
    ensures r.None? <==> forall j :: 0 <= j < |store| ==> !NameIs(store[j], name)
    decreases |store|
  {
    if |store| == 0 then None
    else if NameIs(store[0], name) then Some(0)
    else
      var rest := FirstMatch(store[1..], name);
      assert forall j :: 1 <= j < |store| ==> store[j] == store[1..][j - 1];
      match rest
      case None => None
      case Some(k) => Some(k + 1)
  }

  /** `req.query.name`, when it is truthy (present and not empty). */
  function QueryName(req: Request): (r: Option<string>)
    ensures r.Some? <==> "name" in req.query && Truthy(JStr(req.query["name"]))
    ensures r.Some? ==> r.value == req.query["name"]
  {
    if "name" in req.query && req.query["name"] != "" then Some(req.query["name"]) else None
  }

  /** A member of a body object; a missing key reads as `undefined`. */
  function Member(m: map<string, Json>, key: string): Option<Json> {
    if key in m then Some(m[key]) else None
  }

  /** No two documents share an id. */
  ghost predicate UniqueIds(store: seq<Record>) {
    forall i, j :: 0 <= i < j < |store| ==> store[i].id != store[j].id
  }

  /** `id` is not the id of any document yet. */
  ghost predicate FreshId(store: seq<Record>, id: string) {
    forall i :: 0 <= i < |store| ==> store[i].id != id
  }

  // ---------------------------------------------------------------------------
  // createUser

  /** The document `add({name, email, createdAt: serverTimestamp()})` writes. */
  function NewUser(id: string, name: Json, email: Json, nowMs: int): (r: Record)
    ensures r.id == id && r.fields.Keys == {"name", "email", "createdAt"}
    ensures r.fields["name"] == Plain(name) && r.fields["email"] == Plain(email)
    ensures r.fields["createdAt"] == ServerTime(nowMs)
  {
    Record(id, map["name" := Plain(name), "email" := Plain(email), "createdAt" := ServerTime(nowMs)])
  }

  /** Every check of the create handler passes, and converting the name to a string does not throw. */
  predicate CreateAccepted(req: Request) {
    req.verb == "POST" && req.body.Some?
    && TruthyOpt(Member(req.body.value, "name")) && TruthyOpt(Member(req.body.value, "email"))
    && !ToStringThrows(req.body.value["name"])
    && !ContainsKorean(JsString(req.body.value["name"]))
    && IsValidEmail(req.body.value["email"])
  }

  /**
   * `createUser`. `nowMs` is the time the server stamps on the new document
   * and `freshId` the id the store assigns it. An absent body makes the
   * destructuring `const { name, email } = req.body` throw (status 500), and
   * so does a name whose string conversion in the Korean check throws.
   */
  function Create(store: seq<Record>, req: Request, nowMs: int, freshId: string): (out: Outcome)
    // the method check comes first, whatever the body
    ensures req.verb != "POST" ==> out == Outcome(NotAllowed, store)
    ensures req.verb == "POST" && req.body.None? ==> out == Outcome(Fault, store)
    // then presence, then the Korean check (whose string conversion may throw), then the e-mail check
    ensures req.verb == "POST" && req.body.Some?
            && !(TruthyOpt(Member(req.body.value, "name")) && TruthyOpt(Member(req.body.value, "email")))
            ==> out == Outcome(Response(400, ErrorBody("Missing name or email")), store)
    ensures req.verb == "POST" && req.body.Some?
            && TruthyOpt(Member(req.body.value, "name")) && TruthyOpt(Member(req.body.value, "email"))
            && ToStringThrows(req.body.value["name"])
            ==> out == Outcome(Fault, store)
    ensures req.verb == "POST" && req.body.Some?
            && TruthyOpt(Member(req.body.value, "name")) && TruthyOpt(Member(req.body.value, "email"))
            && !ToStringThrows(req.body.value["name"])
            && ContainsKorean(JsString(req.body.value["name"]))
            ==> out == Outcome(Response(400, ErrorBody("Name cannot contain Korean characters")), store)
    ensures req.verb == "POST" && req.body.Some?
            && TruthyOpt(Member(req.body.value, "name")) && TruthyOpt(Member(req.body.value, "email"))
            && !ToStringThrows(req.body.value["name"])
            && !ContainsKorean(JsString(req.body.value["name"]))
            && !IsValidEmail(req.body.value["email"])
            ==> out == Outcome(Response(400, ErrorBody("Invalid email format")), store)
    // success: exactly one new document, appended, and the others untouched
    ensures out.response.status == 201 <==> CreateAccepted(req)
    ensures out.response.status != 201 ==> out.store == store
    ensures CreateAccepted(req) ==>
              out.response == Response(201, CreatedBody(freshId, "User created"))
              && |out.store| == |store| + 1 && out.store[..|store|] == store
              && out.store[|store|] == NewUser(freshId, req.body.value["name"], req.body.value["email"], nowMs)
  {
    if req.verb != "POST" then Outcome(NotAllowed, store)
    else if req.body.None? then Outcome(Fault, store)
    else
      var name := Member(req.body.value, "name");
      var email := Member(req.body.value, "email");
      if !TruthyOpt(name) || !TruthyOpt(email) then
        Outcome(Response(400, ErrorBody("Missing name or email")), store)
      else if ToStringThrows(name.value) then
        Outcome(Fault, store)
      else if ContainsKorean(JsString(name.value)) then
        Outcome(Response(400, ErrorBody("Name cannot contain Korean characters")), store)
      else if !IsValidEmail(email.value) then
        Outcome(Response(400, ErrorBody("Invalid email format")), store)
      else
        Outcome(Response(201, CreatedBody(freshId, "User created")),
                store + [NewUser(freshId, name.value, email.value, nowMs)])
  }

  // ---------------------------------------------------------------------------
  // getUser

  /** The response body `{ id: userDoc.id, ...userDoc.data() }`: a field named "id" wins over the id. */
  function Projection(r: Record): (doc: map<string, Field>)
    ensures doc.Keys == r.fields.Keys + {"id"}
    ensures forall k :: k in r.fields ==> doc[k] == r.fields[k]
    ensures "id" !in r.fields ==> doc["id"] == Plain(JStr(r.id))
  {
    map["id" := Plain(JStr(r.id))] + r.fields
  }

  /** `getUser`: a read-only lookup of the first document with the queried name. */
  function Get(store: seq<Record>, req: Request): (resp: Response)
    ensures req.verb != "GET" ==> resp == NotAllowed
    ensures req.verb == "GET" && QueryName(req).None? ==>
              resp == Response(400, ErrorBody("Missing user name in query"))
    ensures req.verb == "GET" && QueryName(req).Some? ==>
              if forall j :: 0 <= j < |store| ==> !NameIs(store[j], QueryName(req).value)
              then resp == NotFound
              else exists k :: 0 <= k < |store| && NameIs(store[k], QueryName(req).value)
                     && (forall j :: 0 <= j < k ==> !NameIs(store[j], QueryName(req).value))
                     && resp == Response(200, DocBody(Projection(store[k])))
  {
    if req.verb != "GET" then NotAllowed
    else match QueryName(req)
      case None => Response(400, ErrorBody("Missing user name in query"))
      case Some(name) =>
        match FirstMatch(store, name)
        case None => NotFound
        case Some(k) => Response(200, DocBody(Projection(store[k])))
  }

  // ---------------------------------------------------------------------------
  // updateUser

  /** `userDoc.ref.update(updateFields)`: the supplied keys are overwritten, the rest kept. */
  function Merge(r: Record, updates: map<string, Json>): (r': Record)
    ensures r'.id == r.id
    ensures r'.fields.Keys == r.fields.Keys + updates.Keys
    ensures forall k :: k in updates ==> r'.fields[k] == Plain(updates[k])
    ensures forall k :: k in r.fields && k !in updates ==> r'.fields[k] == r.fields[k]
  {
    Record(r.id, r.fields + map k | k in updates :: Plain(updates[k]))
  }

  /** The update body is present and its e-mail, if it has one, is valid; nothing else is checked. */
  predicate UpdateAccepted(req: Request) {
    req.verb == "PUT" && QueryName(req).Some? && req.body.Some?
    && ("email" in req.body.value ==> IsValidEmail(req.body.value["email"]))
  }

  /** `updateUser`: merges the body into the first document with the queried name. */
  function Update(store: seq<Record>, req: Request): (out: Outcome)
    ensures req.verb != "PUT" ==> out == Outcome(NotAllowed, store)
    ensures req.verb == "PUT" && (QueryName(req).None? || req.body.None?) ==>
              out == Outcome(Response(400, ErrorBody("Missing user name or update data")), store)
    ensures req.verb == "PUT" && QueryName(req).Some? && req.body.Some?
            && "email" in req.body.value && !IsValidEmail(req.body.value["email"]) ==>
              out == Outcome(Response(400, ErrorBody("Invalid email format: missing @")), store)
    ensures UpdateAccepted(req) && FirstMatch(store, QueryName(req).value).None? ==>
              out == Outcome(NotFound, store)
    ensures out.response.status != 200 ==> out.store == store
    ensures out.response.status == 200 <==>
              UpdateAccepted(req) && FirstMatch(store, QueryName(req).value).Some?
    // on a match only that document changes, by a merge
    ensures out.response.status == 200 ==>
              var k := FirstMatch(store, QueryName(req).value).value;
              out.response == Response(200, MessageBody("User updated successfully"))
              && |out.store| == |store|
              && out.store[k] == Merge(store[k], req.body.value)
              && forall j :: 0 <= j < |store| && j != k ==> out.store[j] == store[j]
  {
    if req.verb != "PUT" then Outcome(NotAllowed, store)
    else if QueryName(req).None? || req.body.None? then
      Outcome(Response(400, ErrorBody("Missing user name or update data")), store)
    else
      var updates := req.body.value;
      if "email" in updates && !IsValidEmail(updates["email"]) then
        Outcome(Response(400, ErrorBody("Invalid email format: missing @")), store)
      else match FirstMatch(store, QueryName(req).value)
        case None => Outcome(NotFound, store)
        case Some(k) =>
          Outcome(Response(200, MessageBody("User updated successfully")), store[k := Merge(store[k], updates)])
  }

  // ---------------------------------------------------------------------------
  // deleteUser

  /** What the age guard of the delete handler decides about a document. */
  datatype Guard = Allow | Refuse | Crash

  /**
   * `!data.createdAt || !isOlderThanOneMinute(data.createdAt)`. A missing or
   * falsy `createdAt` refuses; a server timestamp is compared with the clock;
   * any other truthy value has no `toDate` method, so the call throws.
   */
  function AgeGuard(fields: map<string, Field>, nowMs: int): (g: Guard)
    ensures g == Allow <==>
              "createdAt" in fields && fields["createdAt"].ServerTime?
              && IsOlderThanOneMinute(fields["createdAt"].ms, nowMs)
    ensures g == Crash <==>
              "createdAt" in fields && fields["createdAt"].Plain? && Truthy(fields["createdAt"].value)
  {
    if "createdAt" !in fields then Refuse
    else match fields["createdAt"]
      case Plain(j) => if Truthy(j) then Crash else Refuse
      case ServerTime(t) => if IsOlderThanOneMinute(t, nowMs) then Allow else Refuse
  }

  /** `deleteUser`: removes the first document with the queried name, once it is a minute old. */
  function Delete(store: seq<Record>, req: Request, nowMs: int): (out: Outcome)
    ensures req.verb != "DELETE" ==> out == Outcome(NotAllowed, store)
    ensures req.verb == "DELETE" && QueryName(req).None? ==>
              out == Outcome(Response(400, ErrorBody("Missing user name in query")), store)
    ensures req.verb == "DELETE" && QueryName(req).Some?
            && FirstMatch(store, QueryName(req).value).None? ==>
              out == Outcome(NotFound, store)
    ensures req.verb == "DELETE" && QueryName(req).Some?
            && FirstMatch(store, QueryName(req).value).Some? ==>
              var k := FirstMatch(store, QueryName(req).value).value;
              match AgeGuard(store[k].fields, nowMs)
              case Refuse =>
                out == Outcome(Response(403, ErrorBody("User cannot be deleted within 1 minute of creation")), store)
              case Crash => out == Outcome(Fault, store)
              case Allow =>
                out.response == Response(200, MessageBody("User deleted successfully"))
                && out.store == store[..k] + store[k + 1..]
    ensures out.response.status != 200 ==> out.store == store
  {
    if req.verb != "DELETE" then Outcome(NotAllowed, store)
    else match QueryName(req)
      case None => Outcome(Response(400, ErrorBody("Missing user name in query")), store)
      case Some(name) =>
        match FirstMatch(store, name)
        case None => Outcome(NotFound, store)
        case Some(k) =>
          match AgeGuard(store[k].fields, nowMs)
          case Refuse =>
            Outcome(Response(403, ErrorBody("User cannot be deleted within 1 minute of creation")), store)
          case Crash => Outcome(Fault, store)
          case Allow =>
            Outcome(Response(200, MessageBody("User deleted successfully")), store[..k] + store[k + 1..])
  }

  // ---------------------------------------------------------------------------
  // the four handlers as one request-to-outcome function

  datatype Endpoint = CreateUser | GetUser | UpdateUser | DeleteUser

  /** The handler behind an endpoint, with the server clock and the id generator as inputs. */
  function Handle(e: Endpoint, store: seq<Record>, req: Request, nowMs: int, freshId: string): (out: Outcome)
    ensures out.response.status in {200, 201, 400, 403, 404, 405, 500}
    ensures e == GetUser ==> out.store == store
    ensures out.response.status !in {200, 201} ==> out.store == store
    ensures out.response.status == 405 <==>
              req.verb != (match e case CreateUser => "POST" case GetUser => "GET"
                                     case UpdateUser => "PUT" case DeleteUser => "DELETE")
    ensures |out.store| <= |store| + 1
  {
    match e
    case CreateUser => Create(store, req, nowMs, freshId)
    case GetUser => Outcome(Get(store, req), store)
    case UpdateUser => Update(store, req)
    case DeleteUser => Delete(store, req, nowMs)
  }

  /** Removing one document keeps the ids distinct. */
  lemma RemovePreservesUniqueIds(store: seq<Record>, k: nat)
    requires k < |store| && UniqueIds(store)
    ensures UniqueIds(store[..k] + store[k + 1..])
  {
    var after := store[..k] + store[k + 1..];
    forall i, j | 0 <= i < j < |after| ensures after[i].id != after[j].id {
      var i' := if i < k then i else i + 1;
      var j' := if j < k then j else j + 1;
      assert after[i] == store[i'] && after[j] == store[j'];
    }
  }

  /** Every stored `email` field is a string with an `@` (absent fields are allowed). */
  ghost predicate EmailsValid(store: seq<Record>) {
    forall i :: 0 <= i < |store| && "email" in store[i].fields ==>
      store[i].fields["email"].Plain? && IsValidEmail(store[i].fields["email"].value)
  }

  /** The checks of create and update keep every stored e-mail valid. */
  lemma HandlePreservesValidEmails(e: Endpoint, store: seq<Record>, req: Request, nowMs: int, freshId: string)
    requires EmailsValid(store)
    ensures EmailsValid(Handle(e, store, req, nowMs, freshId).store)
  {
    var out := Handle(e, store, req, nowMs, freshId);
    if e == DeleteUser && out.response.status == 200 {
      var k := FirstMatch(store, QueryName(req).value).value;
      assert out.store == store[..k] + store[k + 1..];
      forall i | 0 <= i < |out.store|
        ensures out.store[i] == store[if i < k then i else i + 1]
      {
      }
    }
  }

  /** No handler ever gives two documents the same id, provided new ids are fresh. */
  lemma HandlePreservesUniqueIds(e: Endpoint, store: seq<Record>, req: Request, nowMs: int, freshId: string)
    requires UniqueIds(store) && FreshId(store, freshId)
    ensures UniqueIds(Handle(e, store, req, nowMs, freshId).store)
  {
    var out := Handle(e, store, req, nowMs, freshId);
    if e == DeleteUser && out.response.status == 200 {
      RemovePreservesUniqueIds(store, FirstMatch(store, QueryName(req).value).value);
    }
  }
}
