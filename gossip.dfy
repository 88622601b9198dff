/**
 * The UDP transport. The socket is replaced by `outbox`, the sequence of
 * datagrams that `send_to` passes on to the socket (those of at most
 * UDP_MAX_SIZE bytes), so that what a call sends can be stated.
 */
module GossipTransport {
  import opened Wrappers
  import opened Wire
  import opened Utf8
  import opened MessageCodec

  /** The largest datagram sent, chosen below common path MTUs. */
  const UDP_MAX_SIZE: nat := 548

  datatype Datagram = Datagram(payload: seq<Byte>, to: SocketAddr)

  /** What `send_to` hands to the socket: the buffer unchanged, unless it is too large. */
  function SendToEffect(buf: seq<Byte>, to: SocketAddr): (r: seq<Datagram>)
    ensures r == [] <==> |buf| > UDP_MAX_SIZE
    ensures r != [] ==> r == [Datagram(buf, to)]
  {
    if |buf| > UDP_MAX_SIZE then [] else [Datagram(buf, to)]
  }

  /**
   * What sending `m` to `to` hands to the socket: nothing when encoding fails
   * (the partly written buffer is dropped), otherwise what `send_to` sends.
   */
  function Sent(m: Message, to: SocketAddr): (r: seq<Datagram>)
    ensures |r| <= 1
    ensures r != [] ==> Encode(m).Success? && r[0] == Datagram(Encode(m).value, to)
  {
    var w := Serialize(m);
    if w.status.Fail? then [] else SendToEffect(w.bytes, to)
  }

  /** Every encodable message fits in a datagram: the size guard never drops a Ping or an Ack. */
  lemma EncodedFits(m: Message)
    requires Encode(m).Success?
    ensures |Encode(m).value| <= 6 + MAX_NAME_LENGTH < UDP_MAX_SIZE
  {
  }

  /** So sending an encodable message always hands over exactly its encoding. */
  lemma {:induction false} EncodableIsSent(m: Message, to: SocketAddr)
    ensures Sent(m, to) == if Encode(m).Success? then [Datagram(Encode(m).value, to)] else []
  {
    if Encode(m).Success? {
      EncodedFits(m);
    }
  }

  /** A Ping with a name of at most 255 bytes goes out as one datagram. */
  lemma PingIsSent(seqNo: U32, name: Text, to: SocketAddr)
    requires |name| <= MAX_NAME_LENGTH
    ensures Sent(Ping(seqNo, name), to) == [Datagram([0] + BE32(seqNo) + [|name|] + name, to)]
  {
    EncodableIsSent(Ping(seqNo, name), to);
    PingLayout(seqNo, name);
  }

  /** A Ping with a longer name sends nothing. */
  lemma LongPingIsDropped(seqNo: U32, name: Text, to: SocketAddr)
    requires |name| > MAX_NAME_LENGTH
    ensures Sent(Ping(seqNo, name), to) == []
  {
  }

  /** An Ack always goes out as one five-byte datagram. */
  lemma AckIsSent(seqNo: U32, to: SocketAddr)
    ensures Sent(Ack(seqNo), to) == [Datagram([2] + BE32(seqNo), to)]
    ensures |Sent(Ack(seqNo), to)[0].payload| == 5
  {
    EncodableIsSent(Ack(seqNo), to);
  }

  /** Whatever is sent decodes, at the receiver, to the message that was sent. */
  lemma SentDecodes(m: Message, to: SocketAddr)
    ensures forall d :: d in Sent(m, to) ==> Decode(d.payload) == Success((m, |d.payload|))
  {
    if Sent(m, to) != [] {
      RoundTrip(m, []);
      assert Encode(m).value + [] == Encode(m).value;
    }
  }

  /** A handle on the node's UDP socket; every clone of it shares the one socket. */
  class Gossip {
    const addr: SocketAddr
    var outbox: seq<Datagram>

    /** `Gossip::new` once the socket has been bound to `addr`. */
    constructor (addr: SocketAddr)
      ensures this.addr == addr && outbox == []
    {
      this.addr := addr;
      outbox := [];
    }

    method Ping(seqNo: U32, name: Text, to: SocketAddr)
      modifies this
      ensures outbox == old(outbox) + Sent(Message.Ping(seqNo, name), to)
    {
      var msg := Message.Ping(seqNo, name);
      var buf := new Writer();
      var status := Write(msg, buf);
      if status.Fail? {
        return;
      }
      assert buf.bytes == Serialize(msg).bytes;
      SendTo(buf.bytes, to);
    }

    method Ack(seqNo: U32, to: SocketAddr)
      modifies this
      ensures outbox == old(outbox) + Sent(Message.Ack(seqNo), to)
    {
      var msg := Message.Ack(seqNo);
      var buf := new Writer();
      var status := Write(msg, buf);
      if status.Fail? {
        return;
      }
      assert buf.bytes == Serialize(msg).bytes;
      SendTo(buf.bytes, to);
    }

    /** A failure of the socket itself is only reported, so it changes nothing here. */
    method SendTo(buf: seq<Byte>, to: SocketAddr)
      modifies this
      ensures outbox == old(outbox) + SendToEffect(buf, to)
    {
      if |buf| > UDP_MAX_SIZE {
        return;
      }
      outbox := outbox + [Datagram(buf, to)];
    }
  }
}
