/** The game world and who plays in it, as values (server/src/game/WorldState.cpp,
    PlayerConnectionRegistry.cpp, WorldService.cpp). Coordinates are unbounded: the source
    assumes they stay within int. */
module WorldSpec {
  import opened Prelude
  import opened Protocol

  const MAX_PLAYER_ID: nat := 255

  datatype Action = Move(delta: Position) | Interact | Wait

  datatype World = World(
    players: map<nat, PlayerState>, nextPlayerId: nat, registry: map<nat, nat>, map_: TileMap, spawn: Position)

  const BOOTSTRAP := TileMap("bootstrap", 32, 18)

  function EmptyWorld(): World {
    World(map[], 1, map[], BOOTSTRAP, Position(0, 0))
  }

  function Plus(a: Position, b: Position): Position {
    Position(a.x + b.x, a.y + b.y)
  }

  /** A connection's player: the one it has, or a new one while ids remain. */
  function Connect(w: World, connection: nat): Result<(World, nat), ()> {
    if connection in w.registry then Ok((w, w.registry[connection]))
    else if w.nextPlayerId == MAX_PLAYER_ID then Err(())
    else
      var id := w.nextPlayerId;
      Ok((w.(players := w.players[id := PlayerState(id, w.spawn)],
             nextPlayerId := id + 1,
             registry := w.registry[connection := id]), id))
  }

  function Disconnect(w: World, connection: nat): World {
    if connection !in w.registry then w
    else w.(registry := w.registry - {connection}, players := w.players - {w.registry[connection]})
  }

  function MovePlayer(players: map<nat, PlayerState>, id: nat, delta: Position): map<nat, PlayerState> {
    if id !in players then players
    else players[id := players[id].(position := Plus(players[id].position, delta))]
  }

  function Apply(w: World, connection: nat, action: Action): World {
    if connection in w.registry && action.Move?
    then w.(players := MovePlayer(w.players, w.registry[connection], action.delta))
    else w
  }

  /** The players with an id below `n`, in the order of a sorted map. */
  function Listing(players: map<nat, PlayerState>, n: nat): seq<PlayerState> {
    if n == 0 then []
    else Listing(players, n - 1) + (if n - 1 in players then [players[n - 1]] else [])
  }

  function TakeSnapshot(w: World): Snapshot {
    Snapshot(w.map_, Listing(w.players, MAX_PLAYER_ID + 1))
  }

  // ---- the registry and the players stay each other's image ----

  ghost predicate Valid(w: World) {
    && 1 <= w.nextPlayerId <= MAX_PLAYER_ID
    && (forall id | id in w.players :: 1 <= id < w.nextPlayerId && w.players[id].id == id)
    && (forall c | c in w.registry :: w.registry[c] in w.players)
    && (forall c, d | c in w.registry && d in w.registry && c != d :: w.registry[c] != w.registry[d])
    && (forall id | id in w.players :: exists c :: c in w.registry && w.registry[c] == id)
  }

  datatype Op = ConnectOp(connection: nat) | DisconnectOp(connection: nat) | ApplyOp(connection: nat, action: Action)

  /** A failed connect throws; the world is as it was. */
  function Perform(w: World, op: Op): World {
    match op
    case ConnectOp(c) => if Connect(w, c).Ok? then Connect(w, c).value.0 else w
    case DisconnectOp(c) => Disconnect(w, c)
    case ApplyOp(c, a) => Apply(w, c, a)
  }

  function After(ops: seq<Op>): World {
    if ops == [] then EmptyWorld() else Perform(After(ops[..|ops| - 1]), ops[|ops| - 1])
  }

  lemma ConnectKeepsValid(w: World, c: nat)
    requires Valid(w)
    ensures Valid(Perform(w, ConnectOp(c)))
  {
    if c !in w.registry && w.nextPlayerId != MAX_PLAYER_ID {
      var id := w.nextPlayerId;
      var t := Perform(w, ConnectOp(c));
      assert t.registry[c] == id;
      forall p | p in t.players ensures exists d :: d in t.registry && t.registry[d] == p {
        if p != id {
          var d :| d in w.registry && w.registry[d] == p;
          assert d in t.registry && t.registry[d] == p;
        }
      }
    }
  }

  lemma DisconnectKeepsValid(w: World, c: nat)
    requires Valid(w)
    ensures Valid(Disconnect(w, c))
  {
    if c in w.registry {
      var t := Disconnect(w, c);
      forall p | p in t.players ensures exists d :: d in t.registry && t.registry[d] == p {
        var d :| d in w.registry && w.registry[d] == p;
        assert d != c;
        assert d in t.registry && t.registry[d] == p;
      }
    }
  }

  lemma PerformKeepsValid(w: World, op: Op)
    requires Valid(w)
    ensures Valid(Perform(w, op))
  {
    match op
    case ConnectOp(c) => ConnectKeepsValid(w, c);
    case DisconnectOp(c) => DisconnectKeepsValid(w, c);
    case ApplyOp(c, a) =>
      var t := Perform(w, op);
      assert t.players.Keys == w.players.Keys;
  }

  // ---- what a history means, without players or ids ----

  /** The moves a connection has made since it last connected, or None if it is not connected. */
  function MovesOf(ops: seq<Op>, c: nat): Option<seq<Position>>
    decreases |ops|
  {
    if ops == [] then None
    else
      var before := ops[..|ops| - 1];
      var op := ops[|ops| - 1];
      var so := MovesOf(before, c);
      if op.connection != c then so
      else match op
        case ConnectOp(_) => if so == None && Admissions(before) < MAX_PLAYER_ID - 1 then Some([]) else so
        case DisconnectOp(_) => None
        case ApplyOp(_, a) => if so.Some? && a.Move? then Some(so.value + [a.delta]) else so
  }

  /** How many connects admitted a new player. */
  function Admissions(ops: seq<Op>): nat
    decreases |ops|
  {
    if ops == [] then 0
    else
      var before := ops[..|ops| - 1];
      var op := ops[|ops| - 1];
      Admissions(before) +
        (if (op.ConnectOp? && MovesOf(before, op.connection) == None && Admissions(before) < MAX_PLAYER_ID - 1)
         then 1 else 0)
  }

  function SumX(moves: seq<Position>): int {
    if moves == [] then 0 else SumX(moves[..|moves| - 1]) + moves[|moves| - 1].x
  }

  function SumY(moves: seq<Position>): int {
    if moves == [] then 0 else SumY(moves[..|moves| - 1]) + moves[|moves| - 1].y
  }

  ghost predicate MeansAt(w: World, ops: seq<Op>, c: nat) {
    && (c in w.registry <==> MovesOf(ops, c).Some?)
    && (c in w.registry ==>
         && w.registry[c] in w.players
         && w.players[w.registry[c]].position == Position(SumX(MovesOf(ops, c).value), SumY(MovesOf(ops, c).value)))
  }

  ghost predicate Means(w: World, ops: seq<Op>) {
    && Valid(w) && w.spawn == Position(0, 0) && w.map_ == TileMap("bootstrap", 32, 18)
    && w.nextPlayerId == Admissions(ops) + 1
    && forall c: nat :: MeansAt(w, ops, c)
  }

  /** World service refinement: after any history, the two maps together say exactly, for each
      connection, the spawn point, the origin, plus its moves since connecting; ids are handed out 1, 2, 3, …
      one per admission, so none is used twice; and a connect fails only when all are used up. */
  lemma {:induction false} WorldRefinesHistory(ops: seq<Op>)
    ensures Means(After(ops), ops)
    decreases |ops|
  {
    if ops == [] {
    } else {
      var before := ops[..|ops| - 1];
      WorldRefinesHistory(before);
      StepRefines(After(before), before, ops);
    }
  }

  lemma StepRefines(w: World, before: seq<Op>, ops: seq<Op>)
    requires ops != [] && before == ops[..|ops| - 1] && Means(w, before)
    ensures Means(Perform(w, ops[|ops| - 1]), ops)
  {
    var op := ops[|ops| - 1];
    PerformKeepsValid(w, op);
    assert MeansAt(w, before, op.connection);
    forall c: nat ensures MeansAt(Perform(w, op), ops, c) {
      assert MeansAt(w, before, c);
      StepRefinesAt(w, before, ops, c);
    }
  }

  lemma StepRefinesAt(w: World, before: seq<Op>, ops: seq<Op>, c: nat)
    requires ops != [] && before == ops[..|ops| - 1]
    requires Valid(w) && w.nextPlayerId == Admissions(before) + 1 && w.spawn == Position(0, 0)
    requires MeansAt(w, before, c) && MeansAt(w, before, ops[|ops| - 1].connection)
    ensures MeansAt(Perform(w, ops[|ops| - 1]), ops, c)
  {
    var op := ops[|ops| - 1];
    if op.connection == c && op.ApplyOp? && c in w.registry && op.action.Move? {
      var moves := MovesOf(before, c).value;
      assert (moves + [op.action.delta])[..|moves|] == moves;
    }
  }

  /** A connect in any history: the present player with nothing changed, the next number, or a
      refusal that changes nothing. */
  lemma ConnectAfterHistory(ops: seq<Op>, c: nat)
    ensures var w := After(ops); var r := Connect(w, c);
      && (r.Err? <==> MovesOf(ops, c) == None && Admissions(ops) == 254)
      && (MovesOf(ops, c).Some? ==> c in w.registry && r == Ok((w, w.registry[c])))
      && (r.Ok? && MovesOf(ops, c) == None ==>
           r.value.1 == Admissions(ops) + 1 && r.value.1 !in w.players && r.value.1 < 255)
      && (r.Err? ==> After(ops + [ConnectOp(c)]) == w)
  {
    WorldRefinesHistory(ops);
    assert MeansAt(After(ops), ops, c);
    assert (ops + [ConnectOp(c)])[..|ops|] == ops;
  }

  // ---- the snapshot ----

  ghost predicate Ascending(ps: seq<PlayerState>) {
    forall i, j | 0 <= i < j < |ps| :: ps[i].id < ps[j].id
  }

  /** The listing is in increasing id order and has exactly the players below `n`, once each. */
  lemma {:induction false} ListingIsExact(players: map<nat, PlayerState>, n: nat)
    requires forall id | id in players :: players[id].id == id
    ensures Ascending(Listing(players, n))
    ensures forall p :: p in Listing(players, n) <==> p.id < n && p.id in players && players[p.id] == p
  {
    if n > 0 {
      ListingIsExact(players, n - 1);
      var front := Listing(players, n - 1);
      forall i | 0 <= i < |front| ensures front[i].id < n - 1 {
        assert front[i] in front;
      }
    }
  }

  /** A snapshot taken for a connected player lists it, and everybody once in increasing order. */
  lemma SnapshotShowsEveryone(w: World, c: nat)
    requires Valid(w) && c in w.registry
    ensures TakeSnapshot(w).map_ == w.map_
    ensures var ps := TakeSnapshot(w).players;
      && Ascending(ps)
      && w.players[w.registry[c]] in ps
      && forall p :: p in ps <==> p.id in w.players && w.players[p.id] == p
  {
    ListingIsExact(w.players, MAX_PLAYER_ID + 1);
  }
}
