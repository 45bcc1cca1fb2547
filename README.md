# In-memory record store of the simple web app

This project models the core of `simple-web-app/server.js`: an Express server that keeps
three ordered collections of records in memory (`usuarios`, `clientes`, `fornecedores`),
each seeded with two records, and one process-wide slot `usuarioLogado` for the logged-in
user. Every collection has the same four routes: list, create (the new id is the highest
id, or 0, plus one; the record is appended with `push`), update (`Object.assign` onto the
first record whose id equals `parseInt` of the path segment) and delete (`findIndex` and
`splice`). Login scans the users for the first one whose `email` and `senha` equal the
request's, and stores it in the slot; logout clears the slot.

The model is written in five modules:

- `Wrappers` (`wrappers.dfy`): `Option`, where `None` plays `null` or `NaN`.
- `JsParseInt` (`parse_int.dfy`): JavaScript's `parseInt` without a radix, as section 19.2.5
  of ECMA-262 specifies it, including the `0x` prefix; with the decimal rendering of ids and
  the round trip between the two.
- `Records` (`records.dfy`): values, records, patches and the queries given to
  `find`/`findIndex`; the functions that say what each route does to a sequence of records
  (`HighestId`, `NewRecord`, `Merge`, `Without`, `FirstIndex`) and the lemmas about them
  (id uniqueness, id reuse after a delete).
- `Collections` (`collection.dfy`): the `Collection` class, one per route group, selected by
  `Kind`, with `List`, `Create`, `Update` and `Delete`, each proved against the functions of
  `Records`; the two scans (`ComputeHighestId`, `FindIndex`) are loops with invariants.
- `Server` (`store.dfy`): the seed data, the `Store` class owning the three collections and
  the session slot with `Login` and `Logout`, and lemmas replaying concrete scenarios on the
  seed.

A record is an integer `id` plus a map of its other fields. Create copies only the fields
its handler destructures (`nome, email, login, senha, perfil` for users, `nome, email,
telefone` for clients and suppliers); a field missing from the body is stored as
`Undefined`, as destructuring gives `undefined`. The body of an update is a `Patch`: the
`id` key, if present, and the other keys; it overwrites the keys it has and keeps the
others. Responses are a datatype: `Ok` (status 200) with the bare list, a record under its
key (`usuario`, `cliente`, `fornecedor`) or a bare confirmation; `NotFound` (404) with the
collection's message (`Usuário não encontrado`, `Cliente não encontrado`,
`Fornecedor não encontrado`); `Unauthorized` (401) with `Credenciais inválidas`.

Two consequences of the code are worth stating plainly:

- Create keeps only its collection's fixed field list; other keys of the body are dropped
  (`Collections.CreatedRecordKeys`).
- Deleting client 1 from the seed and then creating a client gives id 3: the next id is the highest
  remaining id plus one, and client 2 remains (`Server.DeleteSeedClient`). A single delete followed by a create reuses the deleted id only when that record held the
  highest id (`Records.DeleteOtherKeepsNextId`, `Records.DeleteHighestThenCreate`); after several
  deletes, any freed id above the remaining maximum can come back (`Records.SuccessiveDeletesReuseId`).

The collection routes cannot reach the session slot (they are methods of `Collection`, which
has no reference to the `Store`), so their behaviour does not depend on who is logged in.
`Login` and `Logout` modify only the `Store` object, so they leave all three collections
unchanged.

## Model

| member | source | states |
|---|---|---|
| `JsParseInt.TrimStartDropsWhiteSpace` | simple-web-app/server.js:65 | `parseInt` first removes exactly the leading white-space and line-terminator characters: what remains is a suffix that is empty or starts with another character |
| `JsParseInt.ParseIntRoundTrip` | simple-web-app/server.js:75 | parsing the decimal rendering of any integer id gives that id back |
| `JsParseInt.ParseInt` | simple-web-app/server.js:65 | `parseInt` of a path segment: a number only when a decimal digit follows the white space and optional sign, and negative only after a `-` |
| `JsParseInt.ParseIntOfDecimal` | simple-web-app/server.js:100 | a decimal id followed by text that does not start with a digit (nor, for id 0, with `x`/`X`) parses to that id (the tail is ignored) |
| `JsParseInt.ParseIntSkipsWhiteSpace` | simple-web-app/server.js:110 | leading white space never changes the parsed value |
| `JsParseInt.ParseIntDefined` | simple-web-app/server.js:135 | after white space and sign, no leading decimal digit gives `NaN`; a leading digit without a `0x` prefix gives a number; a `0x` prefix gives `NaN` exactly when no hex digit follows it |
| `JsParseInt.ParseIntIgnoresTail` | simple-web-app/server.js:145 | `" -12abc"` parses to -12 and `"1.9"` to 1 |
| `JsParseInt.ParseIntXAfterNonZero` | simple-web-app/server.js:110 | `"5x"` parses to 5: an `x` forms a hex prefix only after a lone `0` |
| `JsParseInt.ParseIntHexPrefix` | simple-web-app/server.js:65 | `"0x1A"` parses to 26 in radix 16 and `"0x"` alone is `NaN` |
| `JsParseInt.ParseIntNotANumber` | simple-web-app/server.js:75 | `"abc"` and `""` parse to `NaN` |
| `Records.FieldValue` | simple-web-app/server.js:34 | reading `record.key` gives the id for `id`, the stored value for a field the record has, and `undefined` for one it lacks |
| `Records.Satisfies` | simple-web-app/server.js:65 | the `find`/`findIndex` callbacks: a lookup by id matches exactly the records with that id, and a `NaN` id matches no record; a credentials query holds exactly when `email` and `senha` are equal |
| `Records.BodyField` | simple-web-app/server.js:33 | destructuring a body key gives its value, or `undefined` when the body lacks it |
| `Records.FirstIndex` | simple-web-app/server.js:75 | `findIndex`: -1 exactly when no record satisfies the query; otherwise the record at the index satisfies it and none before it does |
| `Records.HighestId` | simple-web-app/server.js:57 | `Math.max(...ids, 0)` is at least 0, at least every id, and either 0 or the id of some record |
| `Records.NextId` | simple-web-app/server.js:92 | the next id is at least 1 and greater than every existing id |
| `Records.Pick` | simple-web-app/server.js:55-58 | the created fields are exactly the listed keys, each holding the body's value or `undefined` |
| `Records.PickKeepsListedBody` | simple-web-app/server.js:55-58 | a body that holds exactly the listed fields is copied whole into the new record |
| `Records.NewRecord` | simple-web-app/server.js:127 | the created record's id is the highest id plus one (1 on an empty collection), above every existing id, and its field keys are exactly the collection's field list |
| `Records.Merge` | simple-web-app/server.js:67 | `Object.assign`: the id is the patch's when it has one, else kept; the keys are the union; patched keys take the patch's value and the others keep theirs |
| `Records.Without` | simple-web-app/server.js:77 | `splice(i, 1)`: one element shorter, elements before `i` in place, elements after shifted down by one, the multiset loses exactly the removed record |
| `Records.CreateKeepsIdsUnique` | simple-web-app/server.js:124-130 | appending the created record keeps ids unique |
| `Records.DeleteKeepsIdsUnique` | simple-web-app/server.js:144-148 | removing a record keeps ids unique |
| `Records.UpdateKeepsIdsUnique` | simple-web-app/server.js:134-138 | merging a patch without an `id` key keeps ids unique |
| `Records.FirstIndexOfUniqueId` | simple-web-app/server.js:100 | with unique ids, the lookup by a record's id finds exactly that record |
| `Records.DeleteNeverRaisesNextId` | simple-web-app/server.js:109-112 | after a delete the next id is at most what it was |
| `Records.DeleteOtherKeepsNextId` | simple-web-app/server.js:74-77 | deleting a record that does not hold the highest id leaves the next id unchanged |
| `Records.SuccessiveDeletesReuseId` | simple-web-app/server.js:92 | with ids 1, 2, 3, deleting id 2 and then id 3 makes the next id 2: an id freed by a delete that did not hold the maximum comes back after a later delete |
| `Records.DeleteHighestThenCreate` | simple-web-app/server.js:144-147 | deleting the record with the highest id `m >= 1` (ids unique) makes the next id at most `m`, and exactly `m` if and only if `m` is 1 or `m - 1` is still present |
| `Collections.CreatedFields` | simple-web-app/server.js:90 | every collection's field list includes `nome` and `email` |
| `Collections.CreatedRecordKeys` | simple-web-app/server.js:55-58 | a created user has exactly the keys `nome, email, login, senha, perfil` besides its id, a created client or supplier exactly `nome, email, telefone`, whatever the body holds |
| `Collections.EntityKey` | simple-web-app/server.js:61 | create and update answer under `usuario`, `cliente` or `fornecedor` |
| `Collections.NotFoundMessage` | simple-web-app/server.js:70 | the 404 messages are `Usuário não encontrado`, `Cliente não encontrado` and `Fornecedor não encontrado` |
| `Collections.AnswersNameTheirCollection` | simple-web-app/server.js:105 | two different route groups never answer under the same key or with the same 404 message, and no 404 message is the 401 one |
| `Collections.ComputeHighestId` | simple-web-app/server.js:92 | the one-pass maximum equals `HighestId` |
| `Collections.FindIndex` | simple-web-app/server.js:110 | the front-to-back scan returns `FirstIndex` |
| `Collections.Collection.constructor` | simple-web-app/server.js:19-22 | a collection starts with its seed records |
| `Collections.Collection.List` | simple-web-app/server.js:50-52 | list answers the current records, in order, unchanged |
| `Collections.Collection.Create` | simple-web-app/server.js:54-62 | the records become the old ones plus the new record at the end, the answer carries that record under the collection's key, and unique ids stay unique |
| `Collections.Collection.Update` | simple-web-app/server.js:64-72 | with no record for the parsed id (including `NaN`) the records are unchanged and the answer is the collection's 404 message; otherwise only the first match is replaced by its merge with the patch, and it is returned; unique ids stay unique for a patch without `id` |
| `Collections.Collection.Delete` | simple-web-app/server.js:74-82 | with no record for the parsed id the records are unchanged and the answer is the 404 message; otherwise the first match is removed, the others keep their order, the answer is a bare success, and unique ids stay unique |
| `Server.SeedUsuarios` | simple-web-app/server.js:14-17 | the users at start are ids 1 and 2 in that order, each with exactly the five user fields |
| `Server.SeedClientes` | simple-web-app/server.js:19-22 | the clients at start are ids 1 and 2 in that order, each with exactly the three client fields |
| `Server.SeedFornecedores` | simple-web-app/server.js:24-27 | the suppliers at start are ids 1 and 2 in that order, each with exactly the three supplier fields |
| `Server.LoginQuery` | simple-web-app/server.js:33-34 | login compares the body's `email` and `senha` (each `undefined` when absent) |
| `Server.Store.constructor` | simple-web-app/server.js:14-29 | the store starts with the three seed collections and no one logged in |
| `Server.Store.Login` | simple-web-app/server.js:32-42 | login succeeds if and only if some user matches; then the first match is stored in the slot and returned; otherwise 401 `Credenciais inválidas` and the slot keeps its value; no collection changes |
| `Server.Store.Logout` | simple-web-app/server.js:44-47 | logout always succeeds and leaves the slot empty whatever it held, so it is idempotent; no collection changes |
| `Server.SeedState` | simple-web-app/server.js:14-27 | the seed ids are unique and each collection's next id is 3 |
| `Server.SeedLogin` | simple-web-app/server.js:15 | João logs in with `123` and is the first user; with a wrong password no user matches |
| `Server.CreateAnaOnSeed` | simple-web-app/server.js:54-60 | creating Ana on the seed users gives three users, João and Maria first and then Ana with id 3 and exactly her fields |
| `Server.SeedPathIds` | simple-web-app/server.js:110 | path segments `"1"` and `"2"` select the first and second seed clients |
| `Server.DeleteSeedClient` | simple-web-app/server.js:109-113 | deleting client 1 leaves client 2 and a next id of 3; deleting client 2 leaves client 1 and a next id of 2 |
| `Server.PatchedIdCanCollide` | simple-web-app/server.js:102 | an update whose body carries `id: 1` gives both seed clients id 1 |
| `Server.EmptyBodyLogsIn` | simple-web-app/server.js:34 | a user created from an empty body has no `email` and `senha`, and an empty login body matches it |

## Left out

- Express setup, CORS, the JSON body parser, static files, `app.listen`, `process.env.PORT` and console logging: framework and I/O (lines 1-11 and 155-157).
- HTTP and JSON themselves: responses are a datatype; the order of keys in an object and the omission of `undefined` fields by `JSON.stringify` are not modelled.
- Body values are JSON primitives with integer numbers; floating-point numbers and nested objects or arrays in a body are not modelled.
- `Records.NextId`: ids are unbounded integers, while the code computes `Math.max(...ids, 0) + 1` in doubles; once an id reaches 2^53 (possible through an update whose body sets `id`), `+ 1` rounds back and create can repeat an id, so the uniqueness claims of `Records.NewRecord`, `Records.CreateKeepsIdsUnique` and `Collections.Collection.Create` hold for the code only while ids stay below 2^53.
- `Records.Merge`: records are modelled as objects without a prototype; a patch key `__proto__`, which `Object.assign` hands to the prototype setter (storing nothing for a primitive), is stored here as an ordinary field. `Records.FieldValue` is read only for `id`, `email` and `senha`, which no record inherits from `Object.prototype`.
- `Records.Patch`: a patch's `id`, when present, is an integer; a body whose `id` is a string or another non-integer value (which JavaScript would store as is) is not modelled, so record ids stay integers.
- `Collections.ComputeHighestId`: the stack limit that `Math.max(...array)` hits on very large arrays is not modelled.
- `Server.Store.Login`: the slot holds a copy of the user record, not a reference; a later update of that user, or its deletion, is not reflected in the slot as it is in JavaScript.
- `JsParseInt.ParseInt`: gives the exact integer of the digits; the rounding of values beyond 2^53 to the nearest double, the distinction of `-0` from `0`, and UTF-16 code units (the model reads Unicode characters) are not modelled.
- Concurrency: the handlers run one at a time.
