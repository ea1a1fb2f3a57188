/** The game's objects (server/src/game/WorldState.cpp, PlayerConnectionRegistry.cpp,
    WorldService.cpp). */
module World {
  import opened Prelude
  import opened Protocol
  import opened WorldSpec

  class WorldState {
    const tileMap: TileMap
    const spawnPosition: Position
    var players: map<nat, PlayerState>
    var nextPlayerId: nat

    constructor (tileMap: TileMap)
      ensures this.tileMap == tileMap && spawnPosition == Position(0, 0)
      ensures players == map[] && nextPlayerId == 1
    {
      this.tileMap, spawnPosition := tileMap, Position(0, 0);
      players, nextPlayerId := map[], 1;
    }

    method AddPlayer() returns (r: Result<nat, ()>)
      modifies this
      ensures r.Err? <==> old(nextPlayerId) == MAX_PLAYER_ID
      ensures r.Err? ==> players == old(players) && nextPlayerId == old(nextPlayerId)
      ensures r.Ok? ==>
        && r.value == old(nextPlayerId) && nextPlayerId == old(nextPlayerId) + 1
        && players == old(players)[r.value := PlayerState(r.value, spawnPosition)]
    {
      if nextPlayerId == MAX_PLAYER_ID {
        return Err(());
      }
      var id := nextPlayerId;
      nextPlayerId := nextPlayerId + 1;
      players := players[id := PlayerState(id, spawnPosition)];
      return Ok(id);
    }

    method RemovePlayer(id: nat) returns (removed: bool)
      modifies this`players
      ensures removed <==> id in old(players)
      ensures players == old(players) - {id}
    {
      removed := id in players;
      players := players - {id};
    }

    method MovePlayer(id: nat, delta: Position) returns (moved: bool)
      modifies this`players
      ensures moved <==> id in old(players)
      ensures players == WorldSpec.MovePlayer(old(players), id, delta)
    {
      if id !in players {
        return false;
      }
      players := players[id := players[id].(position := Plus(players[id].position, delta))];
      return true;
    }

    /** Walks the players in key order, as a sorted map does. */
    method ToJson() returns (snapshot: Snapshot)
      ensures snapshot == Snapshot(tileMap, Listing(players, MAX_PLAYER_ID + 1))
    {
      var list: seq<PlayerState> := [];
      for id := 0 to MAX_PLAYER_ID + 1
        invariant list == Listing(players, id)
      {
        if id in players {
          list := list + [players[id]];
        }
      }
      return Snapshot(tileMap, list);
    }
  }

  class PlayerConnectionRegistry {
    var playersByConnection: map<nat, nat>

    constructor ()
      ensures playersByConnection == map[]
    {
      playersByConnection := map[];
    }

    function PlayerFor(connection: nat): (r: Option<nat>)
      reads this
      ensures r.Some? <==> connection in playersByConnection
      ensures r.Some? ==> r.value == playersByConnection[connection]
    {
      if connection in playersByConnection then Some(playersByConnection[connection]) else None
    }

    method Bind(connection: nat, player: nat)
      modifies this
      ensures playersByConnection == old(playersByConnection)[connection := player]
      ensures PlayerFor(connection) == Some(player)
      ensures forall other | other != connection :: PlayerFor(other) == old(PlayerFor(other))
    {
      playersByConnection := playersByConnection[connection := player];
    }

    method Unbind(connection: nat)
      modifies this
      ensures playersByConnection == old(playersByConnection) - {connection}
      ensures PlayerFor(connection) == None
      ensures forall other | other != connection :: PlayerFor(other) == old(PlayerFor(other))
    {
      playersByConnection := playersByConnection - {connection};
    }
  }

  class WorldService {
    const state: WorldState
    const connections: PlayerConnectionRegistry

    ghost function View(): WorldSpec.World
      reads state, connections
    {
      WorldSpec.World(state.players, state.nextPlayerId, connections.playersByConnection,
                      state.tileMap, state.spawnPosition)
    }

    constructor ()
      ensures View() == EmptyWorld() && fresh(state) && fresh(connections)
    {
      state := new WorldState(BOOTSTRAP);
      connections := new PlayerConnectionRegistry();
    }

    method Connect(connection: nat) returns (r: Result<nat, ()>)
      modifies state, connections
      ensures match WorldSpec.Connect(old(View()), connection)
        case Ok((w, id)) => r == Ok(id) && View() == w
        case Err(_) => r.Err? && View() == old(View())
    {
      var existing := connections.PlayerFor(connection);
      if existing.Some? {
        return Ok(existing.value);
      }
      r := state.AddPlayer();
      if r.Ok? {
        connections.Bind(connection, r.value);
      }
    }

    method Disconnect(connection: nat)
      modifies state, connections
      ensures View() == WorldSpec.Disconnect(old(View()), connection)
    {
      var player := connections.PlayerFor(connection);
      if player == None {
        return;
      }
      connections.Unbind(connection);
      var _ := state.RemovePlayer(player.value);
    }

    method Apply(connection: nat, action: Action)
      modifies state
      ensures View() == WorldSpec.Apply(old(View()), connection, action)
    {
      var player := connections.PlayerFor(connection);
      if player == None {
        return;
      }
      match action
      case Move(delta) => var _ := state.MovePlayer(player.value, delta);
      case Interact =>
      case Wait =>
    }

    method SnapshotJson() returns (snapshot: Snapshot)
      ensures snapshot == TakeSnapshot(View())
    {
      snapshot := state.ToJson();
    }
  }
}
