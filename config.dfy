/**
 * The tunables of a node and the three presets. Durations are whole
 * milliseconds; only `name`, `bindAddr`, `probeInterval` and `probeTimeout`
 * are read by the membership core, the rest are carried along unused.
 */
module ConfigPresets {
  import opened Wire
  import opened Utf8

  /** A `Duration`, in milliseconds. */
  type Millis = int

  datatype Config = Config(
    name: Text,
    bindAddr: SocketAddr,
    tcpTimeout: Millis,
    indirectChecks: nat,
    retransmitMult: int,
    suspicionMult: int,
    pushPullInterval: Millis,
    probeInterval: Millis,
    probeTimeout: Millis,
    gossipInterval: Millis,
    gossipNodes: nat,
    enableCompression: bool)

  /** Probing runs at all, and a probe gives up on its ack before the next one is due. */
  predicate ProbingSound(c: Config)
  {
    c.probeInterval != 0 && 0 < c.probeTimeout < c.probeInterval
  }

  /** Conservative values for a LAN, listening on 0.0.0.0:7201. */
  function Lan(name: Text): (c: Config)
    ensures c.name == name && ProbingSound(c)
  {
    Config(
      name := name,
      bindAddr := SocketAddr(Ipv4Addr(0, 0, 0, 0), 7201),
      tcpTimeout := 10_000,
      indirectChecks := 3,
      retransmitMult := 4,
      suspicionMult := 5,
      pushPullInterval := 30_000,
      probeInterval := 1_000,
      probeTimeout := 500,
      gossipInterval := 200,
      gossipNodes := 3,
      enableCompression := true)
  }

  /** `lan` with slower timings for a WAN. */
  function Wan(name: Text): (c: Config)
    ensures c.name == name && ProbingSound(c)
  {
    Lan(name).(
      tcpTimeout := 30_000,
      suspicionMult := 6,
      pushPullInterval := 60_000,
      probeInterval := 5_000,
      probeTimeout := 3_000,
      gossipInterval := 500,
      gossipNodes := 4)
  }

  /** `lan` with faster timings for a loopback test cluster. */
  function Local(name: Text): (c: Config)
    ensures c.name == name && ProbingSound(c)
  {
    Lan(name).(
      tcpTimeout := 1_000,
      indirectChecks := 1,
      retransmitMult := 2,
      suspicionMult := 3,
      pushPullInterval := 15_000,
      probeTimeout := 200,
      gossipInterval := 100)
  }

  /** The values `lan` chooses. */
  lemma LanValues(name: Text)
    ensures var c := Lan(name);
      && c.bindAddr == SocketAddr(Ipv4Addr(0, 0, 0, 0), 7201)
      && c.probeInterval == 1_000 && c.probeTimeout == 500
      && c.gossipInterval == 200 && c.gossipNodes == 3
      && c.indirectChecks == 3 && c.retransmitMult == 4 && c.suspicionMult == 5
      && c.pushPullInterval == 30_000 && c.tcpTimeout == 10_000
      && c.enableCompression
  {
  }

  /** `wan` keeps the identity, the address, the indirect checks, the retransmit multiplier and compression of `lan`. */
  lemma WanKeepsLan(name: Text)
    ensures var w, l := Wan(name), Lan(name);
      && w.name == l.name && w.bindAddr == l.bindAddr
      && w.indirectChecks == l.indirectChecks && w.retransmitMult == l.retransmitMult
      && w.enableCompression == l.enableCompression
    ensures var w := Wan(name);
      && w.tcpTimeout == 30_000 && w.suspicionMult == 6 && w.pushPullInterval == 60_000
      && w.probeInterval == 5_000 && w.probeTimeout == 3_000
      && w.gossipInterval == 500 && w.gossipNodes == 4
  {
  }

  /** `local` keeps the probe interval and gossip fan-out of `lan` and shortens the probe timeout. */
  lemma LocalKeepsLan(name: Text)
    ensures var o, l := Local(name), Lan(name);
      && o.name == l.name && o.bindAddr == l.bindAddr
      && o.probeInterval == l.probeInterval && o.gossipNodes == l.gossipNodes
      && o.enableCompression == l.enableCompression
    ensures var o := Local(name);
      && o.tcpTimeout == 1_000 && o.indirectChecks == 1 && o.retransmitMult == 2
      && o.suspicionMult == 3 && o.pushPullInterval == 15_000
      && o.probeTimeout == 200 && o.gossipInterval == 100
  {
  }
}
