/** Properties of every sequence of create and join requests served one at
    a time by the lobby endpoints. */
module Traces {
  import opened Games

  datatype Request =
    | CreateGame(hostUsername: Option<Username>)
    | JoinGame(gameId: GameId, username: Username)

  /** The collection at server start. */
  const Empty: Registry := Registry(map[], 0)

  /** The collection after serving one request; the answer is dropped. */
  function Apply(reg: Registry, req: Request): (r: Registry)
    ensures ValidRegistry(reg) ==> ValidRegistry(r)
  {
    match req
    case CreateGame(h) => CreateStep(reg, h).after
    case JoinGame(id, u) => JoinStep(reg, id, u).after
  }

  /** The collection after serving the requests in order. */
  function Run(reg: Registry, reqs: seq<Request>): (r: Registry)
    decreases |reqs|
  {
    if reqs == [] then reg else Run(Apply(reg, reqs[0]), reqs[1..])
  }

  /** Serving two batches of requests one after the other is serving them as one sequence. */
  lemma {:induction false} RunConcat(reg: Registry, a: seq<Request>, b: seq<Request>)
    ensures Run(reg, a + b) == Run(Run(reg, a), b)
    decreases |a|
  {
    if a != [] {
      assert (a + b)[0] == a[0] && (a + b)[1..] == a[1..] + b;
      RunConcat(Apply(reg, a[0]), a[1..], b);
    } else {
      assert a + b == b;
    }
  }

  /** A table later in time than another: same host and status, and the
      earlier seating is a prefix of the later one. */
  ghost predicate Extends(before: Game, after: Game) {
    && after.host == before.host
    && after.status == before.status
    && before.players <= after.players
  }

  /** No table is removed, and every table only gains players at the end. */
  ghost predicate Grows(before: Registry, after: Registry) {
    && before.nextId <= after.nextId
    && forall id :: id in before.games ==> id in after.games && Extends(before.games[id], after.games[id])
  }

  /** Every request keeps the table invariant: at most four players, no
      duplicate, the host first. */
  lemma {:induction false} RunPreservesValid(reg: Registry, reqs: seq<Request>)
    requires ValidRegistry(reg)
    ensures ValidRegistry(Run(reg, reqs))
    decreases |reqs|
  {
    if reqs != [] {
      RunPreservesValid(Apply(reg, reqs[0]), reqs[1..]);
    }
  }

  lemma ApplyGrows(reg: Registry, req: Request)
    requires ValidRegistry(reg)
    ensures Grows(reg, Apply(reg, req))
  {
  }

  /** Seated players stay seated in their seats, and no table disappears or
      changes host or status. */
  lemma {:induction false} RunGrows(reg: Registry, reqs: seq<Request>)
    requires ValidRegistry(reg)
    ensures Grows(reg, Run(reg, reqs))
    decreases |reqs|
  {
    if reqs != [] {
      var next := Apply(reg, reqs[0]);
      ApplyGrows(reg, reqs[0]);
      RunGrows(next, reqs[1..]);
      var last := Run(reg, reqs);
      forall id | id in reg.games
        ensures id in last.games && Extends(reg.games[id], last.games[id])
      {
        assert reg.games[id].players <= next.games[id].players <= last.games[id].players;
      }
    }
  }

  /** A table with four players is never changed again. */
  lemma {:induction false} FullTableFrozen(reg: Registry, reqs: seq<Request>, id: GameId)
    requires ValidRegistry(reg)
    requires id in reg.games && |reg.games[id].players| == MaxPlayers
    ensures id in Run(reg, reqs).games && Run(reg, reqs).games[id] == reg.games[id]
    decreases |reqs|
  {
    if reqs != [] {
      var next := Apply(reg, reqs[0]);
      assert id in next.games && next.games[id] == reg.games[id];
      FullTableFrozen(next, reqs[1..], id);
    }
  }

  /** The endpoints never change a status, so while every table is waiting
      the waiting list is the whole collection, full tables included. */
  lemma {:induction false} RunKeepsAllWaiting(reg: Registry, reqs: seq<Request>)
    requires Waiting(reg.games) == reg.games
    ensures Waiting(Run(reg, reqs).games) == Run(reg, reqs).games
    decreases |reqs|
  {
    if reqs != [] {
      var next := Apply(reg, reqs[0]);
      assert Waiting(next.games) == next.games;
      RunKeepsAllWaiting(next, reqs[1..]);
    }
  }

  /** From server start, every table obeys the invariant and is listed as waiting. */
  lemma FromEmpty(reqs: seq<Request>)
    ensures ValidRegistry(Run(Empty, reqs))
    ensures Waiting(Run(Empty, reqs).games) == Run(Empty, reqs).games
  {
    RunPreservesValid(Empty, reqs);
    RunKeepsAllWaiting(Empty, reqs);
  }
}
