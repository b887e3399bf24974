/** The games collection as the server holds it: one object whose stored
    tables the create and join endpoints update in place. */
module Lobby {
  import opened Games

  class GamesCollection {
    var games: map<GameId, Game>
    var nextId: GameId

    /** The collection's contents as a value. */
    function State(): (r: Registry)
      reads this
    {
      Registry(games, nextId)
    }

    ghost predicate Valid()
      reads this
    {
      ValidRegistry(State())
    }

    /** An empty collection, as at server start. */
    constructor ()
      ensures Valid()
      ensures games == map[] && nextId == 0
    {
      games := map[];
      nextId := 0;
    }

    /** POST /games/create. */
    method Create(hostUsername: Option<Username>) returns (outcome: CreateOutcome)
      requires Valid()
      modifies this
      ensures Valid()
      ensures Step(State(), outcome) == CreateStep(old(State()), hostUsername)
      ensures outcome.HostRequired? <==> IsMissing(hostUsername)
      ensures outcome.HostRequired? ==> games == old(games) && nextId == old(nextId)
      ensures outcome.Created? ==>
        outcome.id !in old(games) && games == old(games)[outcome.id := NewGame(hostUsername.value)]
    {
      if IsMissing(hostUsername) {
        return HostRequired;
      }
      var newGame := NewGame(hostUsername.value);
      var id := nextId;
      games := games[id := newGame];
      nextId := nextId + 1;
      outcome := Created(id);
    }

    /** POST /games/:gameId/join. */
    method Join(gameId: GameId, username: Username) returns (outcome: JoinOutcome)
      requires Valid()
      modifies this
      ensures Valid()
      ensures Step(State(), outcome) == JoinStep(old(State()), gameId, username)
      ensures outcome == Joined <==> CanJoin(old(games), gameId, username)
      ensures outcome == CannotJoin ==> games == old(games) && nextId == old(nextId)
      ensures outcome == Joined ==>
        games == old(games)[gameId := Seat(old(games)[gameId], username)] && nextId == old(nextId)
    {
      outcome := CannotJoin;
      if gameId in games {
        var game := games[gameId];
        if |game.players| < MaxPlayers && username !in game.players {
          SeatPreservesValid(game, username);
          games := games[gameId := Seat(game, username)];
          outcome := Joined;
        }
      }
    }

    /** GET /games/waiting: reads the collection and changes nothing. */
    method ListWaiting() returns (list: map<GameId, Game>)
      ensures list == Waiting(games)
    {
      list := Waiting(games);
    }
  }

  /** A lobby filling up: the host and three guests are seated in order, a
      fifth user and a repeated guest are turned away. */
  method FourSeatScenario()
  {
    var c := new GamesCollection();
    var bad := c.Create(Some(""));
    var created := c.Create(Some("A"));
    assert bad == HostRequired && created == Created(0);
    assert c.games[0].players == ["A"];
    SeatGuests(c);
    var again := c.Join(0, "B");
    var e := c.Join(0, "E");
    assert again == CannotJoin && e == CannotJoin;
  }

  /** Seats three guests at table 0, which seats only its host. */
  method SeatGuests(c: GamesCollection)
    requires c.Valid() && 0 in c.games && c.games[0].players == ["A"]
    modifies c
    ensures c.Valid() && 0 in c.games && c.games[0].players == ["A", "B", "C", "D"]
  {
    var b := c.Join(0, "B");
    assert b == Joined && c.games[0].players == ["A", "B"];
    var cc := c.Join(0, "C");
    assert cc == Joined && c.games[0].players == ["A", "B", "C"];
    var d := c.Join(0, "D");
    assert d == Joined;
  }
}
