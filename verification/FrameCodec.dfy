/** The length prefix of a frame (shared/src/shared/network/MessageFrameCodec.hpp).

    The source goes through the host's own representation: it swaps the bytes of
    the integer on a little-endian host and then reinterprets the integer's memory
    as an array. Both steps are modelled for both byte orders. */
module FrameCodec {
  import opened Prelude

  type Byte = b: int | 0 <= b < 256 witness 0
  type UInt32 = n: int | 0 <= n < UINT32_LIMIT witness 0

  datatype Endian = Little | Big

  datatype CodecError = ZeroLength | TooBig

  const PREFIX_SIZE: nat := 4

  type Prefix = p: seq<Byte> | |p| == PREFIX_SIZE witness [0, 0, 0, 0]

  /** The byte of weight 256^k. */
  function ByteOf(value: UInt32, k: nat): Byte
    requires k < 4
  {
    match k
    case 0 => value % 0x100
    case 1 => value / 0x100 % 0x100
    case 2 => value / 0x1_0000 % 0x100
    case _ => value / 0x100_0000
  }

  function FromBytes(b3: Byte, b2: Byte, b1: Byte, b0: Byte): UInt32 {
    b3 * 0x100_0000 + b2 * 0x1_0000 + b1 * 0x100 + b0
  }

  function ByteSwap(value: UInt32): UInt32 {
    FromBytes(ByteOf(value, 0), ByteOf(value, 1), ByteOf(value, 2), ByteOf(value, 3))
  }

  function HostToNetwork32(host: Endian, value: UInt32): UInt32 {
    if host == Little then ByteSwap(value) else value
  }

  function NetworkToHost32(host: Endian, value: UInt32): UInt32 {
    HostToNetwork32(host, value)
  }

  /** The memory of an integer on the given host, lowest address first. */
  function BitCastToBytes(host: Endian, value: UInt32): Prefix {
    if host == Little
    then [ByteOf(value, 0), ByteOf(value, 1), ByteOf(value, 2), ByteOf(value, 3)]
    else [ByteOf(value, 3), ByteOf(value, 2), ByteOf(value, 1), ByteOf(value, 0)]
  }

  function BitCastToInt(host: Endian, prefix: Prefix): UInt32 {
    if host == Little
    then FromBytes(prefix[3], prefix[2], prefix[1], prefix[0])
    else FromBytes(prefix[0], prefix[1], prefix[2], prefix[3])
  }

  function ValidatePayloadSize(maxPayload: UInt32, size: UInt32): Option<CodecError> {
    if size == 0 then Some(ZeroLength)
    else if size > maxPayload then Some(TooBig)
    else None
  }

  function EncodeLengthPrefix(host: Endian, maxPayload: UInt32, size: UInt32): Result<Prefix, CodecError> {
    match ValidatePayloadSize(maxPayload, size)
    case Some(e) => Err(e)
    case None => Ok(BitCastToBytes(host, HostToNetwork32(host, size)))
  }

  function DecodeLengthPrefix(host: Endian, maxPayload: UInt32, prefix: Prefix): Result<UInt32, CodecError> {
    var size := NetworkToHost32(host, BitCastToInt(host, prefix));
    match ValidatePayloadSize(maxPayload, size)
    case Some(e) => Err(e)
    case None => Ok(size)
  }

  /** The number the four bytes denote when the first is the most significant:
      the meaning docs/protocol.md gives to the prefix. */
  function BigEndianValue(prefix: Prefix): UInt32 {
    FromBytes(prefix[0], prefix[1], prefix[2], prefix[3])
  }

  /** Division by a fixed power of 256 splits a number into its leading digits and the rest. */
  lemma Split(n: int, q: int, r: int, d: int)
    requires d in {0x100, 0x1_0000, 0x100_0000}
    requires n == q * d + r && 0 <= r < d
    ensures n / d == q && n % d == r
  {
    if d == 0x100 {
    } else if d == 0x1_0000 {
    } else {
    }
  }

  lemma DigitsOf(b3: Byte, b2: Byte, b1: Byte, b0: Byte)
    ensures var n := FromBytes(b3, b2, b1, b0);
      ByteOf(n, 0) == b0 && ByteOf(n, 1) == b1 && ByteOf(n, 2) == b2 && ByteOf(n, 3) == b3
  {
    var n := FromBytes(b3, b2, b1, b0);
    var high := b3 * 0x1_0000 + b2 * 0x100 + b1;
    var higher := b3 * 0x100 + b2;
    Split(n, high, b0, 0x100);
    Split(high, higher, b1, 0x100);
    Split(n, higher, b1 * 0x100 + b0, 0x1_0000);
    Split(higher, b3, b2, 0x100);
    Split(n, b3, b2 * 0x1_0000 + b1 * 0x100 + b0, 0x100_0000);
  }

  lemma DigitsDetermine(n: UInt32)
    ensures FromBytes(ByteOf(n, 3), ByteOf(n, 2), ByteOf(n, 1), ByteOf(n, 0)) == n
  {
    var high := n / 0x100;
    var higher := high / 0x100;
    DigitsOf(higher / 0x100, higher % 0x100, high % 0x100, n % 0x100);
  }

  /** Sizes 1..max are accepted and nothing else; the four bytes written are the
      big-endian digits of the size, whichever byte order the host has. */
  lemma EncodeIsBigEndian(host: Endian, maxPayload: UInt32, size: UInt32)
    ensures var r := EncodeLengthPrefix(host, maxPayload, size);
      && (r.Ok? <==> 1 <= size <= maxPayload)
      && (r.Ok? ==> BigEndianValue(r.value) == size)
      && (r.Err? ==> r.error == if size == 0 then ZeroLength else TooBig)
  {
    DigitsDetermine(size);
    if host == Little {
      DigitsOf(ByteOf(size, 0), ByteOf(size, 1), ByteOf(size, 2), ByteOf(size, 3));
    }
  }

  /** Decoding reads the big-endian number and validates it, on every host. */
  lemma DecodeIsBigEndian(host: Endian, maxPayload: UInt32, prefix: Prefix)
    ensures var r := DecodeLengthPrefix(host, maxPayload, prefix);
      && (r.Ok? <==> 1 <= BigEndianValue(prefix) <= maxPayload)
      && (r.Ok? ==> r.value == BigEndianValue(prefix))
  {
    if host == Little {
      DigitsOf(prefix[3], prefix[2], prefix[1], prefix[0]);
    }
  }

  lemma BigEndianInjective(p: Prefix, q: Prefix)
    requires BigEndianValue(p) == BigEndianValue(q)
    ensures p == q
  {
    DigitsOf(p[0], p[1], p[2], p[3]);
    DigitsOf(q[0], q[1], q[2], q[3]);
  }

  /** Both directions between any two hosts: what one encodes the other decodes,
      and what one decodes the other encodes back to the same four bytes. */
  lemma PrefixRoundTrip(sender: Endian, receiver: Endian, maxPayload: UInt32, size: UInt32, prefix: Prefix)
    ensures EncodeLengthPrefix(sender, maxPayload, size).Ok? ==>
      DecodeLengthPrefix(receiver, maxPayload, EncodeLengthPrefix(sender, maxPayload, size).value) == Ok(size)
    ensures DecodeLengthPrefix(receiver, maxPayload, prefix).Ok? ==>
      EncodeLengthPrefix(sender, maxPayload, DecodeLengthPrefix(receiver, maxPayload, prefix).value) == Ok(prefix)
    ensures EncodeLengthPrefix(sender, maxPayload, size) == EncodeLengthPrefix(receiver, maxPayload, size)
  {
    EncodeIsBigEndian(sender, maxPayload, size);
    EncodeIsBigEndian(receiver, maxPayload, size);
    var sent := EncodeLengthPrefix(sender, maxPayload, size);
    if sent.Ok? {
      DecodeIsBigEndian(receiver, maxPayload, sent.value);
      BigEndianInjective(sent.value, EncodeLengthPrefix(receiver, maxPayload, size).value);
    }
    DecodeIsBigEndian(receiver, maxPayload, prefix);
    var got := DecodeLengthPrefix(receiver, maxPayload, prefix);
    if got.Ok? {
      EncodeIsBigEndian(sender, maxPayload, got.value);
      BigEndianInjective(EncodeLengthPrefix(sender, maxPayload, got.value).value, prefix);
    }
  }
}
