/**
 * Two nodes on the loopback interface, driven step by step through the
 * specifications alone: node1 binds and starts with no peers, node2 binds and
 * joins through node1. Only node2 has a peer, so only node2 finds a target:
 * it pings node1 under sequence number 1 with node1's name, node1 answers,
 * and node2's wait is confirmed.
 */
module ClusterScenario {
  import opened Wrappers
  import opened Wire
  import opened Utf8
  import opened MessageCodec
  import opened Members
  import opened ConfigPresets
  import opened GossipTransport
  import opened MembershipCore

  const ADDR1 := SocketAddr(Ipv4Addr(127, 0, 0, 1), 7201)
  const ADDR2 := SocketAddr(Ipv4Addr(127, 0, 0, 1), 7202)

  /** "node1" and "node2" as UTF-8 text. */
  method Names() returns (name1: Text, name2: Text)
    ensures name1 == [110, 111, 100, 101, 49] && name2 == [110, 111, 100, 101, 50]
  {
    var n1: seq<Byte> := [110, 111, 100, 101, 49];
    var n2: seq<Byte> := [110, 111, 100, 101, 50];
    AsciiIsValid(n1);
    AsciiIsValid(n2);
    name1, name2 := n1, n2;
  }

  /** node1 starts knowing nobody: its probe tick finds no target and sends nothing. */
  method SeedFindsNoTarget()
  {
    var name1, _ := Names();
    var r := Membership.Bind(Local(name1).(bindAddr := ADDR1), true);
    var a := r.value;
    a.Start();
    var outcome := a.meta.Probe(a.gossip, [], TimeoutFirst);
    assert outcome == NoTarget && a.gossip.outbox == [];
  }

  /** node2 joins through node1; its first tick pings node1 with node1's name under sequence number 1. */
  method JoinerPingsSeed()
  {
    var name1, name2 := Names();
    var r := Membership.Bind(Local(name2).(bindAddr := ADDR2), true);
    var b := r.value;
    b.Join(name1, ADDR1);
    assert b.meta.members == [Member(name1, ADDR1, MemberState.Alive, 0)];
    assert Eligible(b.meta.members[0], name2);

    // node1's Ack, from ADDR1, wins the race.
    var outcome := b.meta.Probe(b.gossip, [], AckFirst(ADDR1));
    assert outcome == Confirmed(1);
    PingIsSent(1, name1, ADDR1);
    assert b.gossip.outbox == [Datagram([0] + BE32(1) + [5] + name1, ADDR1)];
    assert b.meta.ackSenders == {} && b.meta.probeIndex == 1;
  }

  /** node1 answers the Ping that names it, and ignores one that names someone else. */
  method SeedAnswersPing()
  {
    var name1, name2 := Names();
    var r := Membership.Bind(Local(name1).(bindAddr := ADDR1), true);
    var a := r.value;
    a.Start();

    PingRoundTrip(1, name1);
    PingLayout(1, name1);
    var received := Decode([0] + BE32(1) + [5] + name1);
    assert received == Success((Ping(1, name1), 11));
    a.meta.HandleMessage(a.gossip, received.value.0, ADDR2);
    AckIsSent(1, ADDR2);
    assert a.gossip.outbox == [Datagram([2] + BE32(1), ADDR2)];

    a.meta.HandleMessage(a.gossip, Ping(2, name2), ADDR2);
    assert |a.gossip.outbox| == 1;
  }
}
