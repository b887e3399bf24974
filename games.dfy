/** The game-table records of the Yaariyan lobby and the pure effect of its
    three endpoints (create a table, list waiting tables, join a table) on
    the games collection. */
module Games {

  datatype Option<T> = None | Some(value: T)

  type Username = string

  /** Stands for the ObjectId the database driver assigns to a new document. */
  type GameId = nat

  /** A table seats at most this many players. */
  const MaxPlayers: nat := 4

  /** The status every new table is created with. */
  const WaitingStatus: string := "waiting"

  /** One document of the games collection (its creation timestamp is not modelled). */
  datatype Game = Game(host: Username, players: seq<Username>, status: string)

  /** The games collection, and the id the next inserted document receives. */
  datatype Registry = Registry(games: map<GameId, Game>, nextId: GameId)

  /** What the create endpoint answers: 201 with the new id, or 400. */
  datatype CreateOutcome = Created(id: GameId) | HostRequired

  /** What the join endpoint answers: 200, or 400 for a missing, full or already joined table. */
  datatype JoinOutcome = Joined | CannotJoin

  /** The registry after a request, together with the request's answer. */
  datatype Step<O> = Step(after: Registry, outcome: O)

  predicate Distinct(s: seq<Username>) {
    forall i, j :: 0 <= i < j < |s| ==> s[i] != s[j]
  }

  /** The table invariant: one to four seats, no one seated twice, the host in the first seat. */
  predicate ValidGame(g: Game) {
    && 1 <= |g.players| <= MaxPlayers
    && g.players[0] == g.host
    && g.host != ""
    && Distinct(g.players)
  }

  /** Every stored table is valid, and every id in use lies below the next id. */
  predicate ValidRegistry(reg: Registry) {
    forall id :: id in reg.games ==> id < reg.nextId && ValidGame(reg.games[id])
  }

  /** JavaScript's `!hostUsername` for a body field that is absent or a string. */
  predicate IsMissing(hostUsername: Option<Username>) {
    hostUsername.None? || hostUsername.value == ""
  }

  /** The record the create endpoint inserts for a host. */
  function NewGame(host: Username): (g: Game)
    ensures g.host == host && |g.players| == 1 && g.players[0] == host
    ensures g.status == WaitingStatus
    ensures host != "" ==> ValidGame(g)
  {
    Game(host, [host], WaitingStatus)
  }

  /** POST /games/create: reject a missing host, otherwise insert a new
      waiting table seating only the host under a fresh id. */
  function CreateStep(reg: Registry, hostUsername: Option<Username>): (s: Step<CreateOutcome>)
    ensures s.outcome.HostRequired? <==> IsMissing(hostUsername)
    ensures s.outcome.HostRequired? ==> s.after == reg
    ensures s.outcome.Created? ==>
      && s.outcome.id in s.after.games
      && s.after.games.Keys == reg.games.Keys + {s.outcome.id}
      && s.after.games[s.outcome.id].host == hostUsername.value
      && s.after.games[s.outcome.id].players == [hostUsername.value]
      && s.after.games[s.outcome.id].status == WaitingStatus
    ensures s.outcome.Created? && ValidRegistry(reg) ==>
      && s.outcome.id !in reg.games
      && forall id :: id in reg.games ==> s.after.games[id] == reg.games[id]
    ensures ValidRegistry(reg) ==> ValidRegistry(s.after)
  {
    if IsMissing(hostUsername) then
      Step(reg, HostRequired)
    else
      var id := reg.nextId;
      Step(Registry(reg.games[id := NewGame(hostUsername.value)], reg.nextId + 1), Created(id))
  }

  /** The guard of POST /games/:gameId/join: the table exists, has a free
      seat and does not already seat the user. The table's status is not consulted. */
  predicate CanJoin(games: map<GameId, Game>, id: GameId, username: Username) {
    id in games && |games[id].players| < MaxPlayers && username !in games[id].players
  }

  /** The table after `$push`-ing a user onto its players. */
  function Seat(g: Game, username: Username): (g': Game)
    ensures g'.host == g.host && g'.status == g.status
    ensures |g'.players| == |g.players| + 1 && g'.players[|g.players|] == username
    ensures g'.players[..|g.players|] == g.players
  {
    g.(players := g.players + [username])
  }

  /** Seating a user who is not yet at a table with a free seat keeps the table valid. */
  lemma SeatPreservesValid(g: Game, username: Username)
    requires |g.players| < MaxPlayers && username !in g.players
    ensures ValidGame(g) ==> ValidGame(Seat(g, username))
  {
  }

  /** POST /games/:gameId/join: append the user to the table when the guard
      holds; otherwise answer 400 and leave the collection as it was. */
  function JoinStep(reg: Registry, id: GameId, username: Username): (s: Step<JoinOutcome>)
    ensures s.outcome == Joined <==>
      (id in reg.games && |reg.games[id].players| < MaxPlayers && username !in reg.games[id].players)
    ensures s.outcome == CannotJoin ==> s.after == reg
    ensures s.outcome == Joined ==>
      && s.after.nextId == reg.nextId
      && s.after.games.Keys == reg.games.Keys
      && s.after.games[id].players == reg.games[id].players + [username]
      && s.after.games[id].host == reg.games[id].host
      && s.after.games[id].status == reg.games[id].status
      && forall other :: other in reg.games && other != id ==> s.after.games[other] == reg.games[other]
    ensures ValidRegistry(reg) ==> ValidRegistry(s.after)
  {
    if CanJoin(reg.games, id, username) then
      SeatPreservesValid(reg.games[id], username);
      Step(reg.(games := reg.games[id := Seat(reg.games[id], username)]), Joined)
    else
      Step(reg, CannotJoin)
  }

  /** GET /games/waiting: the stored tables whose status is 'waiting'. */
  function Waiting(games: map<GameId, Game>): (w: map<GameId, Game>)
    ensures forall id :: id in w <==> id in games && games[id].status == WaitingStatus
    ensures forall id :: id in w ==> w[id] == games[id]
  {
    map id | id in games && games[id].status == WaitingStatus :: games[id]
  }

  /** A user who has just joined a table is turned away when joining it again. */
  lemma RepeatJoinRejected(reg: Registry, id: GameId, username: Username)
    requires JoinStep(reg, id, username).outcome == Joined
    ensures JoinStep(JoinStep(reg, id, username).after, id, username) == Step(JoinStep(reg, id, username).after, CannotJoin)
  {
  }

  /** Joining never changes which tables the waiting list shows, and a listed
      table is shown with its new seating. */
  lemma JoinKeepsWaitingList(reg: Registry, id: GameId, username: Username)
    ensures Waiting(JoinStep(reg, id, username).after.games).Keys == Waiting(reg.games).Keys
    ensures JoinStep(reg, id, username).outcome == Joined && id in Waiting(reg.games) ==>
      Waiting(JoinStep(reg, id, username).after.games)[id] == JoinStep(reg, id, username).after.games[id]
  {
  }

  /** A created table appears in the waiting list, next to every table listed before. */
  lemma CreateListsNewTable(reg: Registry, hostUsername: Option<Username>)
    requires ValidRegistry(reg)
    requires CreateStep(reg, hostUsername).outcome.Created?
    ensures Waiting(CreateStep(reg, hostUsername).after.games).Keys
         == Waiting(reg.games).Keys + {CreateStep(reg, hostUsername).outcome.id}
  {
  }
}
