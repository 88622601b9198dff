/**
 * The wire codec of the membership protocol: a tag byte, a big-endian u32
 * sequence number and, for a Ping, the target's name behind a one-byte length.
 *
 * The byte-level behaviour is given by the pure functions `Serialize` and
 * `Decode`; the imperative `Write` and `Read`, which append to a `Writer` and
 * advance a `Reader` the way the source does, are proved to agree with them.
 */
module MessageCodec {
  import opened Wrappers
  import opened Wire
  import opened Utf8

  /** The numbering of the tag byte (`#[repr(u8)]`, starting at 0). */
  datatype MessageType = PingType | IndirectPingType | AckType

  function TypeCode(t: MessageType): Byte
  {
    match t
    case PingType => 0
    case IndirectPingType => 1
    case AckType => 2
  }

  /** `FromPrimitive::from_u8`: only the three declared codes have a type. */
  function TypeFromCode(b: Byte): (r: Option<MessageType>)
    ensures r.Some? <==> b < 3
    ensures r.Some? ==> TypeCode(r.value) == b
  {
    if b == 0 then Some(PingType)
    else if b == 1 then Some(IndirectPingType)
    else if b == 2 then Some(AckType)
    else Option.None
  }

  datatype Message =
    | Ping(seqNo: U32, name: Text)
    | IndirectPing(addr: SocketAddr, seqNo: U32, name: Text)
    | Ack(seqNo: U32)
    | Suspect
    | Alive
    | Dead
    | None

  /** The I/O errors the codec reports. */
  datatype Error =
    | Unsupported  // IoUnavailable, "Message not supported"
    | TooLong      // InvalidInput, "Message is too long"
    | NotUtf8      // InvalidInput, "Not a valid UTF8 string"
    | EndOfFile    // the reader ran out of bytes

  /** The longest name a one-byte length can announce. */
  const MAX_NAME_LENGTH: nat := 255

  /** What a write leaves in its writer, and how it ended. A failed write may leave bytes behind. */
  datatype Written = Written(bytes: seq<Byte>, status: Outcome<Error>)

  /** `write_str`: a length byte followed by the bytes, or a failure before anything is written. */
  function SerializeStr(s: seq<Byte>): Written
  {
    if |s| > MAX_NAME_LENGTH then Written([], Fail(TooLong))
    else Written([|s|] + s, Pass)
  }

  /** `Message::write`. */
  function Serialize(m: Message): Written
  {
    match m
    case Ping(seqNo, name) =>
      var w := SerializeStr(name);
      Written([TypeCode(PingType)] + BE32(seqNo) + w.bytes, w.status)
    case Ack(seqNo) => Written([TypeCode(AckType)] + BE32(seqNo), Pass)
    case _ => Written([], Fail(Unsupported))
  }

  /** The bytes of a write that succeeded, or its error. */
  function Encode(m: Message): (r: Result<seq<Byte>, Error>)
    ensures r.Success? ==> |r.value| <= 6 + MAX_NAME_LENGTH
    ensures r.Success? <==> m.Ack? || (m.Ping? && |m.name| <= MAX_NAME_LENGTH)
  {
    var w := Serialize(m);
    if w.status.Pass? then Success(w.bytes) else Failure(w.status.error)
  }

  /** `read_str`: the name and the number of bytes it took, length byte included. */
  function DecodeStr(s: seq<Byte>): (r: Result<(Text, nat), Error>)
    ensures r.Success? ==> 1 <= r.value.1 <= |s| && r.value.1 == 1 + |r.value.0|
  {
    if |s| == 0 then Failure(EndOfFile)
    else
      var len: nat := s[0];
      if |s| < 1 + len then Failure(EndOfFile)
      else
        var bytes := s[1..1 + len];
        if ValidUtf8(bytes) then Success((bytes, 1 + len)) else Failure(NotUtf8)
  }

  /**
   * `Message::read`: the message at the start of `s` and the number of bytes it
   * took. Tag 1 yields the inert `None` marker after reading only the tag.
   */
  function Decode(s: seq<Byte>): (r: Result<(Message, nat), Error>)
    ensures r.Success? ==> 1 <= r.value.1 <= |s|
  {
    if |s| == 0 then Failure(EndOfFile)
    else
      var messageType := TypeFromCode(s[0]);
      if messageType.None? then Failure(Unsupported)
      else if messageType.value == PingType then
        if |s| < 5 then Failure(EndOfFile)
        else
          var seqNo := FromBE32(s[1..5]);
          match DecodeStr(s[5..])
          case Failure(e) => Failure(e)
          case Success((name, n)) => Success((Ping(seqNo, name), 5 + n))
      else if messageType.value == AckType then
        if |s| < 5 then Failure(EndOfFile) else Success((Ack(FromBE32(s[1..5])), 5))
      else Success((Message.None, 1))
  }

  // ---------------------------------------------------------------------------
  // Properties of the codec

  /** A Ping with a short enough name is the tag 0, the sequence number, the name's length and the name. */
  lemma PingLayout(seqNo: U32, name: Text)
    requires |name| <= MAX_NAME_LENGTH
    ensures Encode(Ping(seqNo, name)) == Success([0] + BE32(seqNo) + [|name|] + name)
    ensures |Encode(Ping(seqNo, name)).value| == 6 + |name|
  {
    assert [0] + BE32(seqNo) + ([|name|] + name) == [0] + BE32(seqNo) + [|name|] + name;
  }

  /** An Ack is the tag 2 and the sequence number, five bytes. */
  lemma AckLayout(seqNo: U32)
    ensures Encode(Ack(seqNo)) == Success([2] + BE32(seqNo))
    ensures |Encode(Ack(seqNo)).value| == 5
  {
  }

  /**
   * A name over 255 bytes cannot be written; by then the tag and the sequence
   * number are already in the writer.
   */
  lemma LongNameRejected(seqNo: U32, name: Text)
    requires |name| > MAX_NAME_LENGTH
    ensures Encode(Ping(seqNo, name)) == Failure(TooLong)
    ensures Serialize(Ping(seqNo, name)).bytes == [0] + BE32(seqNo)
  {
  }

  /** Only Ping and Ack have an encoding; the others fail without writing. */
  lemma OtherVariantsUnsupported(m: Message)
    requires !m.Ping? && !m.Ack?
    ensures Encode(m) == Failure(Unsupported)
    ensures Serialize(m).bytes == []
  {
  }

  /** The ways decoding refuses its input, none of which reads past the end. */
  lemma DecodeRejects(s: seq<Byte>)
    ensures |s| == 0 ==> Decode(s) == Failure(EndOfFile)
    ensures |s| > 0 && s[0] >= 3 ==> Decode(s) == Failure(Unsupported)
    ensures |s| > 0 && s[0] == 1 ==> Decode(s) == Success((Message.None, 1))
    ensures |s| > 0 && (s[0] == 0 || s[0] == 2) && |s| < 5 ==> Decode(s) == Failure(EndOfFile)
    ensures |s| >= 5 && s[0] == 0 && (|s| == 5 || |s| < 6 + s[5] as int) ==> Decode(s) == Failure(EndOfFile)
    ensures |s| >= 6 && s[0] == 0 && |s| >= 6 + s[5] as int && !ValidUtf8(s[6..6 + s[5] as int])
      ==> Decode(s) == Failure(NotUtf8)
  {
    if |s| >= 6 && s[0] == 0 && |s| >= 6 + s[5] as int {
      assert s[5..][1..1 + s[5] as int] == s[6..6 + s[5] as int];
    }
  }

  /**
   * Round trip: decoding an encoding gives the message back and consumes exactly
   * the encoding, whatever follows it.
   */
  lemma RoundTrip(m: Message, rest: seq<Byte>)
    requires Encode(m).Success?
    ensures Decode(Encode(m).value + rest) == Success((m, |Encode(m).value|))
  {
    var b := Encode(m).value;
    var s := b + rest;
    BE32Decodes(m.seqNo);
    assert s[1..5] == BE32(m.seqNo);
    if m.Ping? {
      assert s[5..] == [|m.name|] + m.name + rest;
      assert s[5..][1..1 + |m.name|] == m.name;
    }
  }

  /** Ping round trip for every sequence number and every name of at most 255 bytes. */
  lemma PingRoundTrip(seqNo: U32, name: Text)
    requires |name| <= MAX_NAME_LENGTH
    ensures Decode(Encode(Ping(seqNo, name)).value) == Success((Ping(seqNo, name), 6 + |name|))
  {
    RoundTrip(Ping(seqNo, name), []);
    assert Encode(Ping(seqNo, name)).value + [] == Encode(Ping(seqNo, name)).value;
  }

  /** Ack round trip for every sequence number. */
  lemma AckRoundTrip(seqNo: U32)
    ensures Decode(Encode(Ack(seqNo)).value) == Success((Ack(seqNo), 5))
  {
    RoundTrip(Ack(seqNo), []);
    assert Encode(Ack(seqNo)).value + [] == Encode(Ack(seqNo)).value;
  }

  /**
   * The encoding is canonical: whatever Ping or Ack decoding accepts, the bytes
   * it consumed are exactly that message's encoding.
   */
  lemma DecodeCanonical(s: seq<Byte>)
    requires Decode(s).Success? && !Decode(s).value.0.None?
    ensures Encode(Decode(s).value.0) == Success(s[..Decode(s).value.1])
  {
    var m := Decode(s).value.0;
    var n := Decode(s).value.1;
    BE32Canonical(s[1..5]);
    if m.Ping? {
      var t := s[5..];
      var len: nat := t[0];
      assert t[1..1 + len] == m.name;
      assert s[..n] == [s[0]] + s[1..5] + ([t[0]] + m.name);
    } else {
      assert s[..n] == [s[0]] + s[1..5];
    }
  }

  // ---------------------------------------------------------------------------
  // The imperative form: a growable writer and a cursor over a received buffer

  /** A `Vec<u8>` used as a `Writer`; appending to it never fails. */
  class Writer {
    var bytes: seq<Byte>

    constructor ()
      ensures bytes == []
    {
      bytes := [];
    }

    method WriteU8(b: Byte)
      modifies this
      ensures bytes == old(bytes) + [b]
    {
      bytes := bytes + [b];
    }

    method WriteBeU32(x: U32)
      modifies this
      ensures bytes == old(bytes) + BE32(x)
    {
      bytes := bytes + BE32(x);
    }

    method WriteBytes(s: seq<Byte>)
      modifies this
      ensures bytes == old(bytes) + s
    {
      bytes := bytes + s;
    }
  }

  /** `write_str`. */
  method WriteStr(writer: Writer, s: Text) returns (status: Outcome<Error>)
    modifies writer
    ensures writer.bytes == old(writer.bytes) + SerializeStr(s).bytes
    ensures status == SerializeStr(s).status
  {
    if |s| > MAX_NAME_LENGTH {
      return Fail(TooLong);
    }
    writer.WriteU8(|s|);
    writer.WriteBytes(s);
    return Pass;
  }

  /** `Message::write`: appends to the writer, stopping at the first failure. */
  method Write(m: Message, writer: Writer) returns (status: Outcome<Error>)
    modifies writer
    ensures writer.bytes == old(writer.bytes) + Serialize(m).bytes
    ensures status == Serialize(m).status
    ensures status.Pass? <==> Encode(m).Success?
  {
    match m
    case Ping(seqNo, name) =>
      writer.WriteU8(TypeCode(PingType));
      writer.WriteBeU32(seqNo);
      status := WriteStr(writer, name);
    case Ack(seqNo) =>
      writer.WriteU8(TypeCode(AckType));
      writer.WriteBeU32(seqNo);
      status := Pass;
    case _ =>
      status := Fail(Unsupported);
  }

  /**
   * A reader over a received buffer. Where a failed read leaves the cursor is
   * not specified beyond staying in the buffer.
   */
  class Reader {
    const data: seq<Byte>
    var pos: nat

    ghost predicate Valid()
      reads this
    {
      pos <= |data|
    }

    constructor (data: seq<Byte>)
      ensures Valid() && this.data == data && pos == 0
    {
      this.data := data;
      pos := 0;
    }

    /** The bytes not read yet. */
    ghost function Remaining(): seq<Byte>
      reads this
      requires Valid()
    {
      data[pos..]
    }

    method ReadU8() returns (r: Result<Byte, Error>)
      requires Valid()
      modifies this
      ensures Valid() && old(pos) <= pos
      ensures |old(Remaining())| == 0 ==> r == Failure(EndOfFile)
      ensures |old(Remaining())| > 0 ==> r == Success(old(Remaining())[0]) && pos == old(pos) + 1
    {
      if pos == |data| {
        return Failure(EndOfFile);
      }
      r := Success(data[pos]);
      pos := pos + 1;
    }

    method ReadBeU32() returns (r: Result<U32, Error>)
      requires Valid()
      modifies this
      ensures Valid() && old(pos) <= pos
      ensures |old(Remaining())| < 4 ==> r == Failure(EndOfFile)
      ensures |old(Remaining())| >= 4 ==> r == Success(FromBE32(old(Remaining())[..4])) && pos == old(pos) + 4
    {
      if |data| - pos < 4 {
        pos := |data|;
        return Failure(EndOfFile);
      }
      assert data[pos..pos + 4] == data[pos..][..4];
      r := Success(FromBE32(data[pos..pos + 4]));
      pos := pos + 4;
    }

    method ReadExact(n: nat) returns (r: Result<seq<Byte>, Error>)
      requires Valid()
      modifies this
      ensures Valid() && old(pos) <= pos
      ensures |old(Remaining())| < n ==> r == Failure(EndOfFile)
      ensures |old(Remaining())| >= n ==> r == Success(old(Remaining())[..n]) && pos == old(pos) + n
    {
      if |data| - pos < n {
        pos := |data|;
        return Failure(EndOfFile);
      }
      assert data[pos..pos + n] == data[pos..][..n];
      r := Success(data[pos..pos + n]);
      pos := pos + n;
    }
  }

  /** `read_str`. */
  method ReadStr(reader: Reader) returns (r: Result<Text, Error>)
    requires reader.Valid()
    modifies reader
    ensures reader.Valid() && old(reader.pos) <= reader.pos
    ensures DecodeStr(old(reader.Remaining()))
         == if r.Success? then Success((r.value, reader.pos - old(reader.pos))) else Failure(r.error)
  {
    ghost var s := reader.Remaining();
    var len := reader.ReadU8();
    if len.Failure? {
      return Failure(len.error);
    }
    var bytes := reader.ReadExact(len.value);
    if bytes.Failure? {
      return Failure(bytes.error);
    }
    assert bytes.value == s[1..1 + len.value];
    if !ValidUtf8(bytes.value) {
      return Failure(NotUtf8);
    }
    return Success(bytes.value);
  }

  /** `Message::read`. */
  method Read(reader: Reader) returns (r: Result<Message, Error>)
    requires reader.Valid()
    modifies reader
    ensures reader.Valid() && old(reader.pos) <= reader.pos
    ensures Decode(old(reader.Remaining()))
         == if r.Success? then Success((r.value, reader.pos - old(reader.pos))) else Failure(r.error)
  {
    ghost var s := reader.Remaining();
    var tag := reader.ReadU8();
    if tag.Failure? {
      return Failure(tag.error);
    }
    var messageType := TypeFromCode(tag.value);
    if messageType.None? {
      return Failure(Unsupported);
    }
    match messageType.value
    case PingType =>
      var seqNo := reader.ReadBeU32();
      if seqNo.Failure? {
        return Failure(seqNo.error);
      }
      assert s[1..5] == s[1..][..4];
      assert s[5..] == reader.Remaining();
      var name := ReadStr(reader);
      if name.Failure? {
        return Failure(name.error);
      }
      return Success(Ping(seqNo.value, name.value));
    case AckType =>
      var seqNo := reader.ReadBeU32();
      if seqNo.Failure? {
        return Failure(seqNo.error);
      }
      assert s[1..5] == s[1..][..4];
      return Success(Ack(seqNo.value));
    case IndirectPingType =>
      return Success(Message.None);
  }
}
