/** The server's objects (server/src/network/ServerMessageHandler.cpp,
    ServerConnectionManager.cpp); Resume and Deliver are what the event loop calls. Every method is proved to
    be the operation of the same name in ServerSpec. */
module Server {
  import opened Prelude
  import opened ConnectionSpec
  import opened Connections
  import opened Protocol
  import opened WorldSpec
  import opened World
  import opened ServerSpec
  import opened ServerInvariants

  class ServerMessageHandler {
    const worldService: WorldService

    constructor (worldService: WorldService)
      ensures this.worldService == worldService
    {
      this.worldService := worldService;
    }

    /** The player first, which may throw and then changes nothing; then the response. */
    method OnMessage(id: nat, message: ClientMessage) returns (r: Result<ServerMessage, ()>)
      modifies worldService.state, worldService.connections
      ensures match ServerSpec.OnMessage(old(worldService.View()), id, message)
        case Ok((w, a)) => r == Ok(a) && worldService.View() == w
        case Err(_) => r.Err? && worldService.View() == old(worldService.View())
    {
      var player := worldService.Connect(id);
      if player.Err? {
        return Err(());
      }
      match message.payload
      case Ping(t) =>
        return Ok(ServerMessage(message.requestId, StatusOk, Pong(t)));
      case StateSnapshot =>
        var state := worldService.SnapshotJson();
        return Ok(ServerMessage(message.requestId, StatusOk, SnapshotReply(state)));
      case NoPayload =>
        return Ok(ServerMessage(message.requestId, StatusError, ErrorReply(400, BAD_REQUEST)));
    }

    method OnDisconnect(id: nat)
      modifies worldService.state, worldService.connections
      ensures worldService.View() == Disconnect(old(worldService.View()), id)
    {
      worldService.Disconnect(id);
    }
  }

  class ServerConnectionManager {
    var connections: map<nat, Connection<ClientMessage, ServerMessage>>
    var stopped: bool
    var nextConnectionId: nat

    constructor ()
      ensures connections == map[] && !stopped && nextConnectionId == 0
    {
      connections, stopped, nextConnectionId := map[], false, 0;
    }

    /** A new connection under a new id; nothing once stopped; an exception when the 16-bit
        counter comes round. */
    method Create(lim: Limits<ServerMessage>) returns (r: Result<Connection?<ClientMessage, ServerMessage>, ()>)
      modifies this
      ensures stopped == old(stopped)
      ensures stopped ==>
        r == Ok(null) && connections == old(connections) && nextConnectionId == old(nextConnectionId)
      ensures !stopped ==> nextConnectionId == (old(nextConnectionId) + 1) % UINT16_LIMIT
      ensures !stopped && nextConnectionId == 0 ==> r.Err? && connections == old(connections)
      ensures !stopped && nextConnectionId != 0 ==>
        && r.Ok? && r.value != null && fresh(r.value) && r.value.id == nextConnectionId && r.value.lim == lim
        && r.value.View() == Created() && connections == old(connections)[nextConnectionId := r.value]
        && Get(nextConnectionId) == r.value && forall id | id != nextConnectionId :: Get(id) == old(Get(id))
    {
      if stopped {
        return Ok(null);
      }
      nextConnectionId := (nextConnectionId + 1) % UINT16_LIMIT;
      if nextConnectionId == 0 {
        return Err(());
      }
      var connection := new Connection<ClientMessage, ServerMessage>(nextConnectionId, lim, nextConnectionId);
      connections := connections[nextConnectionId := connection];
      return Ok(connection);
    }

    method Remove(id: nat) returns (removed: bool)
      modifies this`connections
      ensures removed <==> !stopped && id in old(connections)
      ensures connections == if stopped then old(connections) else old(connections) - {id}
      ensures Get(id) == null && forall other | other != id :: Get(other) == old(Get(other))
    {
      if stopped {
        return false;
      }
      removed := id in connections;
      connections := connections - {id};
    }

    function Get(id: nat): (r: Connection?<ClientMessage, ServerMessage>)
      reads this
      ensures r != null <==> !stopped && id in connections
      ensures r != null ==> r == connections[id]
    {
      if stopped || id !in connections then null else connections[id]
    }

    method Send(id: nat, message: ServerMessage)
      modifies if Get(id) == null then {} else {Get(id)}
      ensures Get(id) != null ==> Get(id).View() == Post(old(Get(id).View()), SendTask(message))
    {
      var connection := Get(id);
      if connection != null {
        connection.Send(message);
      }
    }

    /** Answers a message, unless its handler throws; the answer goes to the connection if it is
        still in the table. */
    method HandleMessage(handler: ServerMessageHandler, id: nat, message: ClientMessage)
        returns (r: Result<ServerMessage, ()>)
      modifies handler.worldService.state, handler.worldService.connections
      modifies if Get(id) == null then {} else {Get(id)}
      ensures match ServerSpec.OnMessage(old(handler.worldService.View()), id, message)
        case Ok((w, a)) =>
          && r == Ok(a) && handler.worldService.View() == w
          && (Get(id) != null ==> Get(id).View() == Post(old(Get(id).View()), SendTask(a)))
        case Err(_) =>
          && r.Err? && handler.worldService.View() == old(handler.worldService.View())
          && (Get(id) != null ==> Get(id).View() == old(Get(id).View()))
    {
      r := handler.OnMessage(id, message);
      if r.Ok? {
        Send(id, r.value.(requestId := message.requestId));
      }
    }

    method HandleDisconnect(handler: ServerMessageHandler, id: nat)
      modifies this`connections, handler.worldService.state, handler.worldService.connections
      ensures handler.worldService.View() == Disconnect(old(handler.worldService.View()), id)
      ensures connections == if stopped then old(connections) else old(connections) - {id}
    {
      handler.OnDisconnect(id);
      var _ := Remove(id);
    }

    /** Empties the table and posts a stop to everything that was in it; a second call does nothing. */
    method StopAll()
      modifies this, connections.Values
      ensures stopped && nextConnectionId == old(nextConnectionId)
      ensures connections == (if old(stopped) then old(connections) else map[]) && forall id :: Get(id) == null
      ensures forall c | c in old(connections).Values ::
        c.View() == if old(stopped) then old(c.View()) else Post(old(c.View()), StopTask)
    {
      if !stopped {
        stopped := true;
        var snapshot := connections.Values;
        connections := map[];
        StopEach(snapshot);
      }
    }

    static method StopEach(snapshot: set<Connection<ClientMessage, ServerMessage>>)
      modifies snapshot
      ensures forall c | c in snapshot :: c.View() == Post(old(c.View()), StopTask)
    {
      var todo := snapshot;
      while todo != {}
        modifies snapshot
        invariant todo <= snapshot
        invariant forall c | c in snapshot ::
          c.View() == if c in todo then old(c.View()) else Post(old(c.View()), StopTask)
        decreases |todo|
      {
        var connection :| connection in todo;
        connection.Stop();
        todo := todo - {connection};
      }
    }

    /** One segment of a connection at anything but a message read: ServerSpec.Becomes, for the
        connection, the table and the world. */
    method Resume(handler: ServerMessageHandler, connection: Connection<ClientMessage, ServerMessage>, e: ServerEvent)
      requires Enabled(connection.lim, connection.View(), e)
      modifies this`connections, connection, handler.worldService.state, handler.worldService.connections
      ensures connection.View() == ConnectionSpec.Step(connection.lim, old(connection.View()), e)
      ensures var closes := connection.View().notices > old(connection.View()).notices;
        && handler.worldService.View() ==
           (if closes then Disconnect(old(handler.worldService.View()), connection.id)
            else old(handler.worldService.View()))
        && connections == (if closes && !stopped then old(connections) - {connection.id} else old(connections))
    {
      var notify := connection.Resume(e);
      if notify {
        HandleDisconnect(handler, connection.id);
      }
    }

    /** One segment in which the read loop has a whole message: ServerSpec.ReadMessage, for the
        connection, the table and the world. */
    method Deliver(handler: ServerMessageHandler, connection: Connection<ClientMessage, ServerMessage>, i: nat,
                   m: ClientMessage)
      requires i < |connection.readers|
      requires Get(connection.id) == null || Get(connection.id) == connection
      modifies this`connections, connection, handler.worldService.state, handler.worldService.connections
      ensures var c := old(connection.View());
        var id := connection.id;
        var read := ReadCompletes(c, i, m);
        var w := old(handler.worldService.View());
        if c.closed then
          connection.View() == read && handler.worldService.View() == w && connections == old(connections)
        else match ServerSpec.OnMessage(w, id, m)
          case Err(_) =>
            && connection.View() == HandlerReturns(read, i, false)
            && handler.worldService.View() == Disconnect(w, id)
            && connections == (if stopped then old(connections) else old(connections) - {id})
          case Ok((w', a)) =>
            && connection.View() == HandledConn(c, i, m, a, old(Get(id)) != null)
            && handler.worldService.View() == w' && connections == old(connections)
    {
      var deliver := connection.ReadCompletes(i, m);
      if deliver {
        var r := HandleMessage(handler, connection.id, m);
        var notify := connection.HandlerReturns(i, r.Ok?);
        if notify {
          HandleDisconnect(handler, connection.id);
        }
      }
    }
  }
}
