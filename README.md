# Yaariyan lobby registry

A Dafny model of the game-lobby part of the Yaariyan card-game server
(`index.js`). The server keeps a `games` collection of tables. Each table
has a `host`, a `players` list and a `status`. Three HTTP endpoints work
on it:

- `POST /games/create` turns away a request whose `hostUsername` is
  missing or empty. Otherwise it inserts `{host, players: [host], status: 'waiting'}`
  under a new id.
- `GET /games/waiting` lists the tables whose status is `'waiting'`.
- `POST /games/:gameId/join` appends the user to the table's `players`.
  It does so only when the table exists, has fewer than 4 players and
  does not already seat the user. Otherwise it answers 400 and changes
  nothing. The table's status is not checked.

The model has three modules:

- `Games` (`games.dfy`) holds the records and the pure effect of each
  endpoint on the collection: `CreateStep`, `JoinStep` and `Waiting`. It
  also holds the table invariant `ValidGame`: one to four players, no
  duplicates, the host in the first seat and never empty. `ValidRegistry`
  adds that every id in use lies below the next id to be handed out.
- `Lobby` (`lobby.dfy`) is the collection as a mutable object,
  `GamesCollection`, with a `games` map field. Its `Create` and `Join`
  methods update that map in place. Each method's postcondition equates
  the new state and the answer with the pure step function. That is how
  the properties proved about the step functions carry over to the
  methods.
- `Traces` (`traces.dfy`) covers any sequence of create and join
  requests served one after another. Every such sequence keeps the
  invariant. Tables are never removed. Players keep their seats. A full
  table is never changed again. Starting from an empty collection, every
  table is listed as waiting, full tables included, because no endpoint
  in this core ever changes a status.

`lobby.dfy` also holds an example client of the class, `FourSeatScenario`:
a request with an empty host is refused, a host creates a table, three
guests are seated in order, and then a repeated guest and a fifth user are
both refused.

Fresh ids stand for MongoDB's `ObjectId`s. They are modelled by a
counter, `nextId`, which is the only state beyond the map.

## Model

| member | source | states |
|---|---|---|
| `Games.NewGame` | index.js:41-46 | the inserted record has the given host, exactly one seat, held by the host, and status 'waiting'; for a non-empty host it satisfies the table invariant |
| `Games.CreateStep` | index.js:36-55 | rejected exactly when the host is missing or empty, and then nothing changes; on success the new id is one not used before, the new table has the given host, players [host] and status 'waiting', and every existing table is unchanged; the registry invariant is preserved |
| `Games.Seat` | index.js:74-77 | `$push` keeps host and status, adds one player, puts the user last and keeps the earlier players in their seats |
| `Games.SeatPreservesValid` | index.js:73-76 | seating a new user at a valid table with a free seat leaves it valid (at most four, no duplicates, host first) |
| `Games.JoinStep` | index.js:68-87 | joins exactly when the table exists, has fewer than 4 players and does not seat the user; a refusal leaves the whole registry unchanged; a join appends the user to that table only, keeps its host and status and every other table; the registry invariant is preserved |
| `Games.Waiting` | index.js:58-65 | holds exactly the stored tables whose status is 'waiting', each as stored |
| `Games.RepeatJoinRejected` | index.js:73 | a user who has just joined a table is refused when joining it again, with no change |
| `Games.JoinKeepsWaitingList` | index.js:60-76 | a join never changes which tables the waiting list shows |
| `Games.CreateListsNewTable` | index.js:41-60 | a created table appears in the waiting list next to every table listed before |
| `Lobby.GamesCollection.Create` | index.js:36-55 | the new state and answer are those of `CreateStep`; a missing host leaves the map unchanged; a created table is stored under an id not in use and nothing else changes |
| `Lobby.GamesCollection.Join` | index.js:68-87 | the new state and answer are those of `JoinStep`; it joins exactly when the guard holds; a refusal leaves the map unchanged; a join replaces only that table, with the user pushed onto its players |
| `Lobby.GamesCollection.ListWaiting` | index.js:58-65 | returns the waiting tables and, having no frame, modifies nothing |
| `Traces.RunConcat` | index.js:36-87 | requests are served one at a time: serving two batches in turn ends in the same collection as serving them as one sequence |
| `Traces.RunPreservesValid` | index.js:41-76 | any sequence of requests keeps every table at one to four players, with no duplicates and the host first: the inserted record starts valid and the join guard with its `$push` keeps it so |
| `Traces.ApplyGrows` | index.js:48-76 | one request removes no table and only appends players |
| `Traces.RunGrows` | index.js:74-77 | over any sequence of requests no table is removed or changes host or status, and seated players keep their seats |
| `Traces.FullTableFrozen` | index.js:73 | once a table seats four players no later request changes it |
| `Traces.RunKeepsAllWaiting` | index.js:44-60 | no request changes a status, so a collection of waiting tables stays one |
| `Traces.FromEmpty` | index.js:36-87 | from an empty collection every reachable state satisfies the invariant and lists every table as waiting |

## Left out

- Express routing, CORS, JSON body parsing, and HTTP status codes and messages (index.js:2-14, 28, 39, 51, 53, 80-85) are left out. The answers are the outcome datatypes `CreateOutcome` and `JoinOutcome`.
- The MongoDB client, its connection and the async calls (index.js:5, 16-21) are left out. The collection is a map. Requests are served one at a time.
- Database or driver failures, which reach the 500 branches (index.js:52-54, 62-64, 84-86), are not modelled.
- The read-then-update race between `findOne` and `updateOne` (index.js:72-77) is out of scope, because the model is sequential. Under concurrent joins the source could seat a fifth player or a duplicate. The invariant proved here holds only for one request at a time.
- Parsing of `:gameId` into an `ObjectId` (index.js:72, 75) is left out. Ids are natural numbers. A malformed id throws in the source and lands in the 500 branch with no state change, the same effect on state as a missing table.
- Id generation by the driver is a counter (`nextId`). Only the freshness of the id is modelled, not the `ObjectId` format.
- `createdAt: new Date()` (index.js:45) is left out because it is a wall-clock value.
- The socket.io broadcasts `new_game_created` and `game_updated` (index.js:50, 79) are left out. They do not change state.
- `hostUsername` is modelled as an absent-or-string field. A JSON body could also carry a number, boolean or object there; JavaScript truthiness of such values is not modelled.
- `username` in the join body is modelled as a string. A request without it would push an undefined value in the source; that case is not modelled.
- The bodies of `connectDB`, the socket connection handler, register, login and online-users (index.js:21-31) are elided in the source and are not modelled.
- `startServer` (index.js:91-98) only connects to the database and starts listening, and is left out.
- The order of the waiting list is left out. `Waiting` returns a map, while the source returns the query's documents in database order.
