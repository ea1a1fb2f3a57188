/** The messages of shared/src/shared/protocol/message.proto, as values. A oneof that is not
    set is a constructor of its own; the JSON text of a snapshot is represented by what it
    says: the map and the list of players. */
module Protocol {

  datatype Position = Position(x: int, y: int)
  datatype PlayerState = PlayerState(id: nat, position: Position)
  datatype TileMap = TileMap(name: string, width: int, height: int)
  datatype Snapshot = Snapshot(map_: TileMap, players: seq<PlayerState>)

  datatype ClientPayload = NoPayload | Ping(timestamp: nat) | StateSnapshot
  datatype ClientMessage = ClientMessage(requestId: nat, payload: ClientPayload)

  datatype Status = StatusUnspecified | StatusOk | StatusError
  datatype ServerPayload =
    | NoReply | Pong(timestamp: nat) | SnapshotReply(state: Snapshot) | ErrorReply(code: int, text: string)
  datatype ServerMessage = ServerMessage(requestId: nat, status: Status, payload: ServerPayload)

  /** The two overloads of the client's sendRequest. */
  datatype Request = PingRequest(timestamp: nat) | SnapshotRequest

  function PayloadOf(r: Request): ClientPayload {
    match r
    case PingRequest(t) => Ping(t)
    case SnapshotRequest => StateSnapshot
  }
}
