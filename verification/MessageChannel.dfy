/** The channel object (shared/src/shared/network/MessageChannel.hpp) over a socket whose
    stream may end or whose transport may fail after any number of bytes. */
module MessageChannel {
  import opened Prelude
  import opened FrameCodec
  import opened Framing

  datatype ChannelError =
    | EndOfStream | BadPrefix(reason: CodecError) | ParseFailed
    | SerializeFailed | PayloadTooBig | TransportFailed

  function Min(a: nat, b: nat): nat { if a <= b then a else b }

  /** The environment's side: what will still arrive before the stream ends, what the
      transport has taken, and how much more it takes before it fails. */
  class Socket {
    var input: seq<Byte>
    var output: seq<Byte>
    var room: nat

    constructor (input: seq<Byte>, room: nat)
      ensures this.input == input && output == [] && this.room == room
    {
      this.input, output, this.room := input, [], room;
    }

    /** async_read: exactly `n` bytes, or failure when the stream ends first. */
    method AsyncRead(n: nat) returns (data: Option<seq<Byte>>)
      modifies this`input
      ensures n <= |old(input)| ==> data == Some(old(input)[..n]) && input == old(input)[n..]
      ensures |old(input)| < n ==> data == None && input == []
    {
      if n <= |input| {
        data := Some(input[..n]);
        input := input[n..];
      } else {
        data := None;
        input := [];
      }
    }

    /** async_write: all of `data`, or as much as the transport takes before it fails. */
    method AsyncWrite(data: seq<Byte>) returns (ok: bool)
      modifies this`output, this`room
      ensures ok <==> |data| <= old(room)
      ensures output == old(output) + data[..Min(|data|, old(room))]
      ensures room == old(room) - Min(|data|, old(room))
    {
      var taken := Min(|data|, room);
      output := output + data[..taken];
      room := room - taken;
      ok := taken == |data|;
    }
  }

  class MessageChannel {
    const maxPayload: UInt32
    const host: Endian
    var readBuffer: seq<Byte>

    constructor (host: Endian, maxPayload: UInt32)
      ensures this.host == host && this.maxPayload == maxPayload
      ensures |readBuffer| == maxPayload
    {
      this.host, this.maxPayload := host, maxPayload;
      readBuffer := seq(maxPayload, _ => 0);
    }

    /** The result is the one frame at the front of the stream, and nothing after that
        frame is consumed; on any host. */
    method ReadMessage<M>(p: Protobuf<M>, socket: Socket) returns (r: Result<M, ChannelError>)
      modifies this`readBuffer, socket`input
      ensures match ReadFrame(p, maxPayload, old(socket.input))
        case Message(m, n) => r == Ok(m) && socket.input == old(socket.input)[n..]
        case Incomplete => r == Err(EndOfStream)
        case Malformed => r.Err? && r.error != EndOfStream
    {
      var head := socket.AsyncRead(PREFIX_SIZE);
      if head == None {
        return Err(EndOfStream);
      }
      DecodeIsBigEndian(host, maxPayload, head.value);
      DecodeIsBigEndian(Big, maxPayload, head.value);
      var decoded := DecodeLengthPrefix(host, maxPayload, head.value);
      if decoded.Err? {
        return Err(BadPrefix(decoded.error));
      }
      var size := decoded.value;
      readBuffer := seq(size, _ => 0);
      var body := socket.AsyncRead(size);
      if body == None {
        return Err(EndOfStream);
      }
      readBuffer := body.value;
      assert readBuffer == old(socket.input)[PREFIX_SIZE..PREFIX_SIZE + size];
      var message := p.parse(readBuffer);
      if message == None {
        return Err(ParseFailed);
      }
      assert socket.input == old(socket.input)[PREFIX_SIZE + size..];
      return Ok(message.value);
    }

    /** Success writes exactly the message's frame; a failure in mid-frame leaves a proper
        prefix of it; a message that cannot be encoded writes nothing. */
    method WriteMessage<M>(p: Protobuf<M>, socket: Socket, message: M) returns (r: Result<(), ChannelError>)
      modifies socket`output, socket`room
      ensures Encodable(p, maxPayload, message) ==>
        var frame := Frame(p, maxPayload, message);
        && (r.Ok? <==> |frame| <= old(socket.room))
        && socket.output == old(socket.output) + frame[..Min(|frame|, old(socket.room))]
      ensures !Encodable(p, maxPayload, message) ==> r.Err? && socket.output == old(socket.output)
    {
      var serialized := p.serialize(message);
      if serialized == None {
        return Err(SerializeFailed);
      }
      var data := serialized.value;
      if |data| > maxPayload {
        return Err(PayloadTooBig);
      }
      var prefix := EncodeLengthPrefix(host, maxPayload, |data|);
      if prefix.Err? {
        return Err(BadPrefix(prefix.error));
      }
      PrefixRoundTrip(host, Big, maxPayload, |data|, prefix.value);
      ghost var frame := Frame(p, maxPayload, message);
      assert frame == prefix.value + data;
      var ok := socket.AsyncWrite(prefix.value);
      if !ok {
        return Err(TransportFailed);
      }
      ok := socket.AsyncWrite(data);
      return if ok then Ok(()) else Err(TransportFailed);
    }
  }
}
