# User CRUD handlers over a document collection

This project models the four HTTP handlers of a small Firebase function set
(`createUser`, `getUser`, `updateUser`, `deleteUser`) that manage the
documents of a "users" collection. It also models the three validators they
use: the Korean-script detector, the e-mail shape check and the one-minute
age guard on deletion. Each handler runs a fixed cascade of checks: the HTTP
method, then the presence and format of its inputs, then a lookup of the
first document whose `name` equals the queried name, then at most one
mutation (add, merge-update or delete). The cascade decides the status code.

Modules:

- `Wrappers`: `Option`.
- `Json`: the JavaScript values that reach the handlers. It models JSON
  values, truthiness (`!name`) and `String(v)`, which the regular-expression
  test applies to non-string names. It also covers the TypeError `String(v)`
  raises for an object with its own `toString` member.
- `Validators`: `ContainsKorean`, `IsValidEmail`, `IsOlderThanOneMinute`.
- `Users`: documents, requests and responses. One function per handler
  (`Create`, `Get`, `Update`, `Delete`) maps the documents and a request to
  the first response sent and the documents afterwards. `Handle` dispatches
  on the endpoint.
- `UserStoreClass`: the collection as a class whose `records` sequence the
  handler methods update in place. A loop does the first-match lookup. Each
  method is proved to agree with its function in `Users`.
- `Scenarios`: properties that connect the handlers. Examples: create then
  get, create then delete (refused in the first minute, afterwards it
  restores the collection), repeated deletes, update then get, and
  idempotent updates.

Inputs the code takes from its environment are parameters of the model:

- the function's clock (`new Date()`) and the server timestamp of a create
  are `nowMs`, in milliseconds;
- the id the store generates for a new document is `freshId`.

The class method asks for `freshId` to be unused, which keeps document ids
distinct (`UserStore.Valid`).

Behaviour of the code that the model follows:

- The regex character class `[ㄱ-ㅎ|ㅏ-ㅣ|가-힣]` contains a literal `|`.
  So a name with a pipe in it is rejected as Korean. The ranges are the
  compatibility jamo U+3131–U+3163 and the syllables U+AC00–U+D7A3, not the
  Hangul Jamo block U+1100–U+11FF.
- A name is tested after `String()` conversion. A numeric name such as `7`
  passes the check. An array name such as `["민수"]` is rejected. A name
  object with its own `toString` member, or an array holding one, makes the
  conversion throw. The thrown error escapes the handler, so the answer is
  500 and nothing is added.
- Update rejects only an absent body. An empty object passes. Only an
  `email` key is validated; a Korean `name` is written without complaint.
- `createdAt` is an ordinary field as far as update is concerned, so update
  can overwrite it. A falsy value then makes the document undeletable (403).
  A truthy non-timestamp value makes the guard's `toDate()` call throw (500).
- A stored field named `id` hides the document id in get's response body,
  because `{ id, ...data }` spreads the data after the id.
- Repeating a successful delete yields 404 only when the name was unique. No
  handler enforces uniqueness, and otherwise the repeat reaches the next
  document with that name.
- An absent create body makes `const { name, email } = req.body` throw. The
  model gives that case status 500.

## Model

| member | source | states |
|---|---|---|
| Validators.ContainsKorean | firebase_session/functions/index.js:8-10 | true iff some character of the text is in the class, with `\|` a literal member |
| Validators.ContainsKoreanConcat | firebase_session/functions/index.js:9 | a concatenation tests as Korean iff one of its parts does |
| Validators.JoinStep | firebase_session/functions/index.js:9 | an array tests as Korean iff its prefix does or its last non-null element does; the separating comma never matches |
| Validators.JoinKorean | firebase_session/functions/index.js:9 | an array name converts to a Korean-testing string iff one of its non-null elements does |
| Validators.KoreanClassRanges | firebase_session/functions/index.js:9 | the class is exactly U+3131–U+3163, U+AC00–U+D7A3 and `\|` |
| Validators.PipeCountsAsKorean | firebase_session/functions/index.js:9 | any text containing `\|` is reported as Korean |
| Validators.NonTextNeverKorean | firebase_session/functions/index.js:8-10 | numbers, booleans, null and objects never test as Korean after `String()` conversion |
| Validators.KoreanExamples | firebase_session/functions/index.js:8-10 | "민수", "Min\|su" and `["민수"]` test as Korean, "Minsu" does not |
| Validators.IsOlderThanOneMinute | firebase_session/functions/index.js:125-130 | true iff the clock has reached the creation time plus 60000 ms |
| Validators.IsValidEmail | firebase_session/functions/index.js:12-14 | true iff the value is a string containing `@`; every non-string is invalid |
| Validators.AgeGuardMonotone | firebase_session/functions/index.js:125-130 | once a record is a minute old it stays so as the clock advances |
| Validators.AgeGuardBoundary | firebase_session/functions/index.js:125-130 | the guard is closed at +0 and +59999 ms and open at exactly +60000 ms |
| Json.Truthy | firebase_session/functions/index.js:23 | a JSON value is truthy iff it is not one of `null`, `false`, `0`, `""` |
| Json.TruthyOpt | firebase_session/functions/index.js:22-23 | a missing value is falsy; a present one is truthy iff not one of the four falsy values |
| Json.JsString | firebase_session/functions/index.js:9 | the string `.test` matches: defined only when the conversion does not throw; a string is itself, and a one-string array is that string |
| Json.ToStringThrows | firebase_session/functions/index.js:9 | an object with an own `toString` member makes the conversion throw, and an array throws when one of its non-null elements does; objects without that member and strings, numbers, booleans and null never throw |
| Json.JoinElements | firebase_session/functions/index.js:9 | an array holding only nulls converts to commas only, one fewer than its length |
| Users.NameIs | firebase_session/functions/index.js:65 | `where("name", "==", name)` matches iff the stored name is a plain JSON string equal to the queried one (a number never matches) |
| Users.FirstMatch | firebase_session/functions/index.js:64-73 | the index of the first document with that name and none before it; none iff no document has the name |
| Users.QueryName | firebase_session/functions/index.js:59-62 | the name parameter counts as given iff present and truthy as a string |
| Users.NewUser | firebase_session/functions/index.js:35-40 | the added document has exactly the fields name, email and a server timestamp createdAt |
| Users.Create | firebase_session/functions/index.js:17-45 | 405, then absent body 500, then missing or falsy name/email 400, then 500 when converting the name to a string throws, then Korean name 400, then bad email 400; 201 iff all checks pass; only a 201 appends exactly one document and keeps the others |
| Users.Projection | firebase_session/functions/index.js:73-74 | the response document is the id plus all stored fields, a stored `id` field winning |
| Users.Get | firebase_session/functions/index.js:54-75 | 405, then missing name 400, then 404 when no document matches, else 200 with the first match's id and fields |
| Users.Merge | firebase_session/functions/index.js:113-114 | supplied keys are overwritten, all other fields and the id keep their values |
| Users.Update | firebase_session/functions/index.js:83-114 | 405, then missing name or absent body 400, then invalid email key 400, then 404; 200 iff accepted and matched, and then only the first match changes, by a merge |
| Users.AgeGuard | firebase_session/functions/index.js:152-160 | deletion is allowed iff createdAt is a server timestamp at least a minute old; a truthy non-timestamp createdAt throws |
| Users.Delete | firebase_session/functions/index.js:133-162 | 405, then 400, then 404, then 403 or 500 from the guard, all leaving the store unchanged; a 200 removes exactly the first match |
| Users.Handle | firebase_session/functions/index.js:17-171 | every handler answers one of 200/201/400/403/404/405/500; 405 iff the verb is wrong; get never changes the store, nor does any non-success |
| Users.RemovePreservesUniqueIds | firebase_session/functions/index.js:162 | removing a document keeps the ids distinct |
| Users.HandlePreservesValidEmails | firebase_session/functions/index.js:31-35 | if every stored email is a string with `@`, it stays so after any handler (create and update check the email they write) |
| Users.HandlePreservesUniqueIds | firebase_session/functions/index.js:35-43 | with fresh generated ids, no handler makes two documents share an id |
| UserStoreClass.UserStore.constructor | firebase_session/functions/index.js:6 | the handle holds the documents the collection already has, with distinct ids |
| UserStoreClass.UserStore.Lookup | firebase_session/functions/index.js:64-73 | the scan returns the first matching index, or none when nothing matches |
| UserStoreClass.UserStore.CreateUser | firebase_session/functions/index.js:17-45 | response and new contents are those of `Create`, including the 500 for a name whose string conversion throws; ids stay distinct |
| UserStoreClass.UserStore.GetUser | firebase_session/functions/index.js:54-75 | the response is that of `Get`; the method changes nothing |
| UserStoreClass.UserStore.UpdateUser | firebase_session/functions/index.js:83-114 | response and new contents are those of `Update`, the document replaced in place |
| UserStoreClass.UserStore.DeleteUser | firebase_session/functions/index.js:133-162 | response and new contents are those of `Delete`; ids stay distinct |
| Scenarios.CountNamedZero | firebase_session/functions/index.js:64-69 | no document carries the name iff the lookup finds none |
| Scenarios.CreateThenGet | firebase_session/functions/index.js:35-74 | after a create, get by that name returns the new document unless an earlier one has the name |
| Scenarios.CreateThenDelete | firebase_session/functions/index.js:35-40 | when no earlier document has the name, deleting a fresh user is 403 before 60000 ms; from then on it succeeds and restores the collection |
| Scenarios.DeleteAgain | firebase_session/functions/index.js:143-162 | a repeated delete is 404 with no change iff exactly one document had the name |
| Scenarios.UpdateThenGet | firebase_session/functions/index.js:104-114 | after a name-keeping update, get returns the merged document |
| Scenarios.UpdateIdempotent | firebase_session/functions/index.js:113-114 | sending the same name-keeping update twice equals sending it once |
| Scenarios.EmptyUpdateAccepted | firebase_session/functions/index.js:91-95 | an empty body object is accepted (200, no change); only an absent body is rejected |
| Scenarios.UpdateSkipsKoreanCheck | firebase_session/functions/index.js:97-114 | update writes a Korean name that create rejects |
| Scenarios.UpdatedCreatedAtDecidesDelete | firebase_session/functions/index.js:155-160 | a createdAt written by a matched, name-keeping update decides every later delete of that name: falsy gives 403, truthy gives 500 |
| Scenarios.IdFieldShadowsDocumentId | firebase_session/functions/index.js:74 | an `id` field written by update replaces the document id in get's response |
| Scenarios.PostUserAccepted | firebase_session/functions/index.js:22-33 | a body whose name converts to a string without throwing and whose name and email pass every check is accepted by create |
| Scenarios.ThrowingNameExample | firebase_session/functions/index.js:27 | a name `{"toString": 1}`, or an array holding such an object, gives 500 and adds nothing |
| Scenarios.CreateExamples | firebase_session/functions/index.js:17-45 | name "Minsu" or `7` with email "m@x.com" gives 201 |
| Scenarios.MissingEmailExample | firebase_session/functions/index.js:23-25 | an empty email gives 400 "Missing name or email" |
| Scenarios.LookupExamples | firebase_session/functions/index.js:69-70 | get or delete of an unknown name gives 404; update with email "bademail" gives 400; neither changes the store |

## Left out

- Firebase initialisation and the collection handle (index.js:1-6) are foreign library calls. The collection is the `records` field.
- The HTTP runtime (`onRequest`), request parsing and response serialisation are left out. A request is its verb, its query map and an optional object body. Query parameters are single strings, and a body that is valid JSON but not an object is not modelled.
- Numbers: JSON numbers are modelled as unbounded integers, but the code sees doubles. Non-integer numbers are not modelled. `JSON.parse` rounds integers above 2^53 before `.add` or `.update` stores them, while the model stores and returns the exact value. `String(n)` for a magnitude of 1e21 or more uses exponent form (`1e+21`), which `IntDecimal` does not produce. Neither form contains a character of the regex class, so the Korean check gives the same answer.
- Promise chaining is flattened: each handler is one sequential step.
- The second `res.status(200).send` that follows a 404 or 403 inside the promise chain is response plumbing. Only the first status sent is modelled.
- Store failures and the 500 responses that carry their `error.message` are left out, as is `console.error`. The store's own rejection of an empty update object and dotted field paths in update keys are store behaviour this model does not see. Update keys are taken literally, and an empty update is a no-op merge.
- The real clock, `serverTimestamp()` and `Timestamp.toDate()` are replaced by millisecond integers (`nowMs`). Sub-millisecond precision is dropped.
- The store's random id generation is replaced by the `freshId` parameter.
- Query ordering: the store returns an equality query without `orderBy` in document-id order, and random ids need not sort after older ones. The model appends new documents at the end and takes the first match in the sequence; that sequence order stands in for id order.
- Concurrent requests and their races are not modelled.
