/**
 * One DNS-over-QUIC stream (RFC 9250): the application error codes of section
 * 4.3, and the framing of section 4.2, in which every message is preceded by a
 * 2-octet big-endian length exactly as over TCP (section 4.2.2 of RFC 1035).
 *
 * The QUIC stream itself is modelled in memory: the bytes written so far and
 * the state of the sending side, and the bytes the peer sent with a read
 * cursor. The DNS message codec is an oracle (`Codec`).
 */
module DnsOverQuic {
  import opened Results
  import opened DnsTypes

  /** A QUIC variable-length integer: 62 bits. */
  type VarInt = x: int | 0 <= x < 0x4000_0000_0000_0000

  // ---------------------------------------------------------------------------
  // Error codes
  // ---------------------------------------------------------------------------

  const NO_ERROR: U32 := 0x0
  const INTERNAL_ERROR: U32 := 0x1
  const PROTOCOL_ERROR: U32 := 0x2
  const REQUEST_CANCELLED: U32 := 0x3
  const EXCESSIVE_LOAD: U32 := 0x4
  const ERROR_RESERVED: U32 := 0xd098ea5e

  datatype DoqErrorCode =
    | NoError
    | InternalError
    | ProtocolError
    | RequestCancelled
    | ExcessiveLoad
    | ErrorReserved
    | Unknown(code: U32)

  /** Whether `c` is one of the six codes that have a variant of their own. */
  predicate IsNamedCode(c: int) {
    c == NO_ERROR || c == INTERNAL_ERROR || c == PROTOCOL_ERROR
    || c == REQUEST_CANCELLED || c == EXCESSIVE_LOAD || c == ERROR_RESERVED
  }

  /** `From<DoqErrorCode> for VarInt`: every code fits in 32 bits. */
  function ErrorCodeToVarInt(e: DoqErrorCode): (v: VarInt)
    ensures v <= U32_MAX
    ensures !e.Unknown? ==> IsNamedCode(v)
  {
    match e
    case NoError => NO_ERROR
    case InternalError => INTERNAL_ERROR
    case ProtocolError => PROTOCOL_ERROR
    case RequestCancelled => REQUEST_CANCELLED
    case ExcessiveLoad => EXCESSIVE_LOAD
    case ErrorReserved => ERROR_RESERVED
    case Unknown(code) => code
  }

  /**
   * `From<VarInt> for DoqErrorCode`: a value too wide for 32 bits is a protocol
   * error; a named code gets its variant; anything else is `Unknown` of itself.
   */
  function ErrorCodeFromVarInt(v: VarInt): (e: DoqErrorCode)
    ensures v > U32_MAX ==> e == ProtocolError
    ensures v <= U32_MAX && !IsNamedCode(v) ==> e == Unknown(v)
    ensures e.Unknown? ==> e.code == v && !IsNamedCode(v)
  {
    if v > U32_MAX then ProtocolError
    else if v == NO_ERROR then NoError
    else if v == INTERNAL_ERROR then InternalError
    else if v == PROTOCOL_ERROR then ProtocolError
    else if v == REQUEST_CANCELLED then RequestCancelled
    else if v == EXCESSIVE_LOAD then ExcessiveLoad
    else if v == ERROR_RESERVED then ErrorReserved
    else Unknown(v)
  }

  /** The codes of section 4.3 of RFC 9250, and `Unknown(c)` as `c`. */
  lemma ErrorCodeValues(c: U32)
    ensures ErrorCodeToVarInt(NoError) == 0x0
    ensures ErrorCodeToVarInt(InternalError) == 0x1
    ensures ErrorCodeToVarInt(ProtocolError) == 0x2
    ensures ErrorCodeToVarInt(RequestCancelled) == 0x3
    ensures ErrorCodeToVarInt(ExcessiveLoad) == 0x4
    ensures ErrorCodeToVarInt(ErrorReserved) == 0xd098ea5e
    ensures ErrorCodeToVarInt(Unknown(c)) == c
  {
  }

  /** Code, then variant, then code: every 32-bit code comes back unchanged. */
  lemma CodeRoundTrip(v: VarInt)
    requires v <= U32_MAX
    ensures ErrorCodeToVarInt(ErrorCodeFromVarInt(v)) == v
  {
  }

  /**
   * Variant, then code, then variant: every variant comes back, except `Unknown`
   * of a named code, which comes back as the named variant.
   */
  lemma VariantRoundTrip(e: DoqErrorCode)
    ensures ErrorCodeFromVarInt(ErrorCodeToVarInt(e)) == e <==> !(e.Unknown? && IsNamedCode(e.code))
  {
  }

  /** 0x5 (DOQ_UNSPECIFIED_ERROR in RFC 9250) has no variant here and decodes as `Unknown(5)`. */
  lemma UnspecifiedErrorIsUnknown()
    ensures ErrorCodeFromVarInt(0x5) == Unknown(5)
  {
  }

  // ---------------------------------------------------------------------------
  // Framing
  // ---------------------------------------------------------------------------

  /** The 16-bit value of two octets, most significant first. */
  function BigEndianU16(hi: Byte, lo: Byte): U16 {
    hi * 0x100 + lo
  }

  /** `u16::to_be_bytes`: two octets whose big-endian value is `n`. */
  function LengthPrefix(n: U16): (b: seq<Byte>)
    ensures |b| == 2 && BigEndianU16(b[0], b[1]) == n
  {
    [n / 0x100, n % 0x100]
  }

  /** Reading two octets back as a length and writing it again gives the same octets. */
  lemma LengthPrefixOfBigEndian(hi: Byte, lo: Byte)
    ensures LengthPrefix(BigEndianU16(hi, lo)) == [hi, lo]
  {
  }

  /** A message as it travels on the stream: its length, then its octets. */
  function Frame(payload: seq<Byte>): (f: seq<Byte>)
    requires |payload| <= U16_MAX
    ensures |f| == |payload| + 2 && BigEndianU16(f[0], f[1]) == |payload| && f[2..] == payload
  {
    LengthPrefix(|payload|) + payload
  }

  /**
   * What reading one frame from `data` gives: the stream ends within the length
   * (`read` octets of it were read), or within the payload, or a whole frame.
   */
  datatype Unframed =
    | LengthCut(read: nat)
    | PayloadCut(len: U16, read: nat)
    | Framed(payload: seq<Byte>, consumed: nat)

  /** Read a 2-octet big-endian length, then exactly that many octets. */
  function Unframe(data: seq<Byte>): (u: Unframed)
    ensures u.LengthCut? <==> |data| < 2
    ensures u.LengthCut? ==> u.read == |data|
    ensures u.PayloadCut? ==>
              |data| >= 2 && u.len == BigEndianU16(data[0], data[1]) && u.read == |data| - 2 && u.read < u.len
    ensures u.Framed? ==> 2 <= u.consumed <= |data| && |u.payload| == u.consumed - 2
  {
    if |data| < 2 then LengthCut(|data|)
    else
      var len := BigEndianU16(data[0], data[1]);
      if |data| - 2 < len then PayloadCut(len, |data| - 2)
      else Framed(data[2..2 + len], 2 + len)
  }

  /** Reading a frame gives back the payload that was framed, whatever follows it. */
  lemma UnframeFrame(payload: seq<Byte>, rest: seq<Byte>)
    requires |payload| <= U16_MAX
    ensures Unframe(Frame(payload) + rest) == Framed(payload, |payload| + 2)
  {
    var data := Frame(payload) + rest;
    assert data[0] == LengthPrefix(|payload|)[0] && data[1] == LengthPrefix(|payload|)[1];
    assert data[2..2 + |payload|] == payload;
  }

  /** Whatever a successful read consumed is exactly the frame of the payload it returned. */
  lemma FrameUnframe(data: seq<Byte>)
    requires Unframe(data).Framed?
    ensures data == Frame(Unframe(data).payload) + data[Unframe(data).consumed..]
  {
    var u := Unframe(data);
    LengthPrefixOfBigEndian(data[0], data[1]);
    assert data[..2] == [data[0], data[1]];
    assert data == data[..2] + data[2..u.consumed] + data[u.consumed..];
  }

  // ---------------------------------------------------------------------------
  // Messages and errors
  // ---------------------------------------------------------------------------

  /** A DNS message: its ID, and everything else, which only the codec interprets. */
  datatype Message = Message(id: U16, content: seq<Byte>)

  /** A response: the decoded message and the buffer it was decoded from. */
  datatype DnsResponse = DnsResponse(message: Message, buffer: seq<Byte>)

  datatype ProtoError =
    | MaxBufferSizeExceeded(size: nat)
    | QuicMessageIdNot0(id: U16)
    | QuinnUnknownStreamError
    | ClosedStream                  // a write or finish on a send side already finished or reset
    | FinishedEarly(read: nat)      // `read_exact` met the end of the stream
    | CodecError(reason: string)

  /** `Message::to_vec` and `Message::from_vec`. */
  datatype Codec = Codec(
    toVec: Message -> Result<seq<Byte>, ProtoError>,
    fromVec: seq<Byte> -> Result<Message, ProtoError>)

  /** `DnsResponse::from_buffer`: decode the buffer and keep it. */
  function FromBuffer(codec: Codec, bytes: seq<Byte>): Result<DnsResponse, ProtoError> {
    match codec.fromVec(bytes)
    case Ok(m) => Ok(DnsResponse(m, bytes))
    case Err(e) => Err(e)
  }

  /** The sending half of the stream. */
  datatype SendSide = Open | Finished | ResetWith(code: VarInt)

  /**
   * What `send_bytes` appends to an open stream: the frame of `payload`; or why it
   * writes nothing. The length is checked before the stream.
   */
  function FramedWrite(side: SendSide, payload: seq<Byte>): (w: Result<seq<Byte>, ProtoError>)
    ensures |payload| > U16_MAX ==> w == Err(MaxBufferSizeExceeded(|payload|))
    ensures w.Ok? ==> side.Open? && |payload| <= U16_MAX && w.value == Frame(payload)
    ensures |payload| <= U16_MAX && side.Open? ==> w == Ok(Frame(payload))
    ensures |payload| <= U16_MAX && !side.Open? ==> w == Err(ClosedStream)
  {
    if |payload| > U16_MAX then Err(MaxBufferSizeExceeded(|payload|))
    else if !side.Open? then Err(ClosedStream)
    else Ok(Frame(payload))
  }

  /** The send side after a reset with `code`: only one that was not reset already changes. */
  function AfterReset(side: SendSide, code: DoqErrorCode): SendSide {
    if side.ResetWith? then side else ResetWith(ErrorCodeToVarInt(code))
  }

  /**
   * A message sent on one stream and read from its peer: the frame read back is
   * the encoding, and it decodes to a message with ID 0, so the ID check passes.
   */
  lemma SentMessagePassesIdCheck(codec: Codec, m: Message, rest: seq<Byte>)
    requires codec.toVec(m.(id := 0)).Ok?
    requires |codec.toVec(m.(id := 0)).value| <= U16_MAX
    requires codec.fromVec(codec.toVec(m.(id := 0)).value) == Ok(m.(id := 0))
    ensures var enc := codec.toVec(m.(id := 0)).value;
            var u := Unframe(FramedWrite(Open, enc).value + rest);
            u.Framed? && u.payload == enc && codec.fromVec(u.payload).value.id == 0
  {
    UnframeFrame(codec.toVec(m.(id := 0)).value, rest);
  }

  // ---------------------------------------------------------------------------
  // The stream
  // ---------------------------------------------------------------------------

  /** `QuicStream`: one bidirectional stream. */
  class QuicStream {
    /** Everything written to the send side. */
    var sent: seq<Byte>
    var sendSide: SendSide
    /** Everything the peer sent on the receive side, and how much of it was read. */
    const incoming: seq<Byte>
    var readPos: nat

    ghost predicate Valid()
      reads this
    {
      readPos <= |incoming|
    }

    /** `QuicStream::new` over a fresh send side and a receive side carrying `incoming`. */
    constructor (incoming: seq<Byte>)
      ensures Valid()
      ensures sent == [] && sendSide == Open && this.incoming == incoming && readPos == 0
    {
      sent := [];
      sendSide := Open;
      this.incoming := incoming;
      readPos := 0;
    }

    /** The unread part of the receive side. */
    ghost function Unread(): seq<Byte>
      reads this
      requires Valid()
    {
      incoming[readPos..]
    }

    /** `send_bytes`: write the length of `bytes`, big-endian, then `bytes`; or write nothing. */
    method SendBytes(bytes: seq<Byte>) returns (r: Result<(), ProtoError>)
      modifies this`sent
      ensures var w := FramedWrite(sendSide, bytes);
              match w
              case Ok(f) => r == Ok(()) && sent == old(sent) + f
              case Err(e) => r == Err(e) && sent == old(sent)
    {
      if |bytes| > U16_MAX {
        return Err(MaxBufferSizeExceeded(|bytes|));
      }
      var len := LengthPrefix(|bytes|);
      if !sendSide.Open? {
        return Err(ClosedStream);
      }
      sent := sent + len;
      sent := sent + bytes;
      return Ok(());
    }

    /** `send`: set the message ID to 0, encode, and send the encoding. */
    method Send(message: Message, codec: Codec) returns (r: Result<(), ProtoError>)
      modifies this`sent
      ensures var w := match codec.toVec(message.(id := 0))
                       case Ok(enc) => FramedWrite(sendSide, enc)
                       case Err(e) => Err(e);
              match w
              case Ok(f) => r == Ok(()) && sent == old(sent) + f
              case Err(e) => r == Err(e) && sent == old(sent)
    {
      var m := message.(id := 0);
      var encoded := codec.toVec(m);
      if encoded.Err? {
        return Err(encoded.error);
      }
      r := SendBytes(encoded.value);
    }

    /** `finish`: no more data will be sent. */
    method Finish() returns (r: Result<(), ProtoError>)
      modifies this`sendSide
      ensures old(sendSide).Open? ==> r == Ok(()) && sendSide == Finished
      ensures !old(sendSide).Open? ==> r == Err(ClosedStream) && sendSide == old(sendSide)
    {
      if !sendSide.Open? {
        return Err(ClosedStream);
      }
      sendSide := Finished;
      return Ok(());
    }

    /** `reset`: abandon the send side with `code`; a side reset already cannot be reset again. */
    method Reset(code: DoqErrorCode) returns (r: Result<(), ProtoError>)
      modifies this`sendSide
      ensures sendSide == AfterReset(old(sendSide), code)
      ensures r == if old(sendSide).ResetWith? then Err(QuinnUnknownStreamError) else Ok(())
    {
      if sendSide.ResetWith? {
        return Err(QuinnUnknownStreamError);
      }
      sendSide := ResetWith(ErrorCodeToVarInt(code));
      return Ok(());
    }

    /** `read_exact`: `n` octets, or an error once the stream ends, having consumed the rest. */
    method ReadExact(n: nat) returns (r: Result<seq<Byte>, ProtoError>)
      requires Valid()
      modifies this`readPos
      ensures Valid()
      ensures n <= |old(Unread())| ==> r == Ok(old(Unread())[..n]) && readPos == old(readPos) + n
      ensures n > |old(Unread())| ==> r == Err(FinishedEarly(|old(Unread())|)) && readPos == |incoming|
    {
      if |incoming| - readPos < n {
        var read := |incoming| - readPos;
        readPos := |incoming|;
        return Err(FinishedEarly(read));
      }
      assert incoming[readPos..readPos + n] == incoming[readPos..][..n];
      r := Ok(incoming[readPos..readPos + n]);
      readPos := readPos + n;
    }

    /**
     * `receive_bytes`: one frame. If the stream ends within the payload, the send
     * side is reset with the protocol error code before the error is returned.
     */
    method ReceiveBytes() returns (r: Result<seq<Byte>, ProtoError>)
      requires Valid()
      modifies this`readPos, this`sendSide
      ensures Valid()
      ensures match Unframe(old(Unread()))
              case LengthCut(n) =>
                r == Err(FinishedEarly(n)) && readPos == |incoming| && sendSide == old(sendSide)
              case PayloadCut(_, n) =>
                r == Err(FinishedEarly(n)) && readPos == |incoming|
                && sendSide == AfterReset(old(sendSide), ProtocolError)
              case Framed(p, k) =>
                r == Ok(p) && readPos == old(readPos) + k && sendSide == old(sendSide)
    {
      ghost var data := Unread();
      var len := ReadExact(2);
      if len.Err? {
        return Err(len.error);
      }
      var n := BigEndianU16(len.value[0], len.value[1]);
      assert len.value[0] == data[0] && len.value[1] == data[1];
      var bytes := ReadExact(n);
      if bytes.Err? {
        var _ := Reset(ProtocolError);
        return Err(bytes.error);
      }
      assert bytes.value == data[2..2 + n];
      return Ok(bytes.value);
    }

    /**
     * `receive`: one frame, decoded. A message whose ID is not 0 is refused, after
     * the send side is reset with the protocol error code.
     */
    method Receive(codec: Codec) returns (r: Result<DnsResponse, ProtoError>)
      requires Valid()
      modifies this`readPos, this`sendSide
      ensures Valid()
      ensures match Unframe(old(Unread()))
              case LengthCut(n) =>
                r == Err(FinishedEarly(n)) && readPos == |incoming| && sendSide == old(sendSide)
              case PayloadCut(_, n) =>
                r == Err(FinishedEarly(n)) && readPos == |incoming|
                && sendSide == AfterReset(old(sendSide), ProtocolError)
              case Framed(p, k) =>
                readPos == old(readPos) + k
                && match codec.fromVec(p)
                   case Err(e) => r == Err(e) && sendSide == old(sendSide)
                   case Ok(m) =>
                     if m.id != 0 then
                       r == Err(QuicMessageIdNot0(m.id)) && sendSide == AfterReset(old(sendSide), ProtocolError)
                     else
                       r == Ok(DnsResponse(m, p)) && sendSide == old(sendSide)
    {
      var bytes := ReceiveBytes();
      if bytes.Err? {
        return Err(bytes.error);
      }
      var message := codec.fromVec(bytes.value);
      if message.Err? {
        return Err(message.error);
      }
      if message.value.id != 0 {
        var _ := Reset(ProtocolError);
        return Err(QuicMessageIdNot0(message.value.id));
      }
      r := FromBuffer(codec, bytes.value);
    }
  }
}
