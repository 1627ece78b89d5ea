/**
 * The "users" collection as a mutable object, and the four handlers as its
 * methods: each runs its checks in order, finds the first document with the
 * queried name by a scan, and performs at most one in-place mutation. Each
 * method is proved to do exactly what the corresponding function of module
 * Users says.
 */
module UserStoreClass {
  import opened Wrappers
  import opened Json
  import opened Validators
  import opened Users

  class UserStore {
    /** The documents of the collection; their order stands in for the store's document-id order. */
    var records: seq<Record>

    ghost predicate Valid()
      reads this
    {
      UniqueIds(records)
    }

    /** A handle on the collection, holding whatever documents it already has. */
    constructor (initial: seq<Record>)
      requires UniqueIds(initial)
      ensures Valid() && records == initial
    {
      records := initial;
    }

    /** `where("name", "==", name).limit(1).get()`: the index of the first match, if any. */
    method Lookup(name: string) returns (k: Option<nat>)
      ensures k.Some? ==> k.value < |records| && NameIs(records[k.value], name)
      ensures k.Some? ==> forall j :: 0 <= j < k.value ==> !NameIs(records[j], name)
      ensures k.None? ==> forall j :: 0 <= j < |records| ==> !NameIs(records[j], name)
      ensures k == FirstMatch(records, name)
    {
      var i := 0;
      while i < |records|
        invariant 0 <= i <= |records|
        invariant forall j :: 0 <= j < i ==> !NameIs(records[j], name)
      {
        if NameIs(records[i], name) {
          return Some(i);
        }
        i := i + 1;
      }
      return None;
    }

    /** `createUser`; `nowMs` is the server's clock and `freshId` the id the store generates. */
    method CreateUser(req: Request, nowMs: int, freshId: string) returns (resp: Response)
      requires Valid() && FreshId(records, freshId)
      modifies this
      ensures Valid()
      ensures Outcome(resp, records) == Create(old(records), req, nowMs, freshId)
    {
      if req.verb != "POST" {
        return NotAllowed;
      }
      if req.body.None? {
        return Fault;
      }
      var name := Member(req.body.value, "name");
      var email := Member(req.body.value, "email");
      if !TruthyOpt(name) || !TruthyOpt(email) {
        return Response(400, ErrorBody("Missing name or email"));
      }
      if ToStringThrows(name.value) {
        return Fault;
      }
      if ContainsKorean(JsString(name.value)) {
        return Response(400, ErrorBody("Name cannot contain Korean characters"));
      }
      if !IsValidEmail(email.value) {
        return Response(400, ErrorBody("Invalid email format"));
      }
      records := records + [NewUser(freshId, name.value, email.value, nowMs)];
      resp := Response(201, CreatedBody(freshId, "User created"));
    }

    /** `getUser`: reads the collection and changes nothing. */
    method GetUser(req: Request) returns (resp: Response)
      ensures resp == Get(records, req)
    {
      if req.verb != "GET" {
        return NotAllowed;
      }
      var name := QueryName(req);
      if name.None? {
        return Response(400, ErrorBody("Missing user name in query"));
      }
      var k := Lookup(name.value);
      if k.None? {
        return NotFound;
      }
      resp := Response(200, DocBody(Projection(records[k.value])));
    }

    /** `updateUser`: merges the body into the first matching document, in place. */
    method UpdateUser(req: Request) returns (resp: Response)
      requires Valid()
      modifies this
      ensures Valid()
      ensures Outcome(resp, records) == Update(old(records), req)
    {
      if req.verb != "PUT" {
        return NotAllowed;
      }
      var name := QueryName(req);
      if name.None? || req.body.None? {
        return Response(400, ErrorBody("Missing user name or update data"));
      }
      var updates := req.body.value;
      if "email" in updates && !IsValidEmail(updates["email"]) {
        return Response(400, ErrorBody("Invalid email format: missing @"));
      }
      var k := Lookup(name.value);
      if k.None? {
        return NotFound;
      }
      records := records[k.value := Merge(records[k.value], updates)];
      resp := Response(200, MessageBody("User updated successfully"));
    }

    /** `deleteUser`: removes the first matching document once it is a minute old; `nowMs` is the clock. */
    method DeleteUser(req: Request, nowMs: int) returns (resp: Response)
      requires Valid()
      modifies this
      ensures Valid()
      ensures Outcome(resp, records) == Delete(old(records), req, nowMs)
    {
      if req.verb != "DELETE" {
        return NotAllowed;
      }
      var name := QueryName(req);
      if name.None? {
        return Response(400, ErrorBody("Missing user name in query"));
      }
      var k := Lookup(name.value);
      if k.None? {
        return NotFound;
      }
      var guard := AgeGuard(records[k.value].fields, nowMs);
      if guard == Refuse {
        return Response(403, ErrorBody("User cannot be deleted within 1 minute of creation"));
      }
      if guard == Crash {
        return Fault;
      }
      RemovePreservesUniqueIds(records, k.value);
      records := records[..k.value] + records[k.value + 1..];
      resp := Response(200, MessageBody("User deleted successfully"));
    }
  }
}
