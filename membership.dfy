/**
 * The membership engine: the shared cluster state (`MembershipMeta`) and the
 * facade that binds, joins and starts it (`Membership`).
 *
 * Each of `bind`, `start`, `join`, `probe`, `next_seq`, `handle_message` and
 * `wait_ack` is one atomic step over the state. The random shuffle of the
 * member list is a parameter constrained to be a permutation, and the race in
 * `wait_ack` between the Ack and the timer is a parameter naming the winner.
 */
module MembershipCore {
  import opened Wrappers
  import opened Wire
  import opened Utf8
  import opened MessageCodec
  import opened Members
  import opened ConfigPresets
  import opened GossipTransport

  /** `Gossip::new` could not open a UDP socket on the address. */
  datatype BindError = UdpBindFailed(addr: SocketAddr)

  /** Which event wins the race in `wait_ack`: the Ack, arriving from `from`, or the timer. */
  datatype AckRace = AckFirst(from: SocketAddr) | TimeoutFirst

  /** What a probe tick ends with, as the source logs it. */
  datatype ProbeOutcome = NoTarget | Confirmed(seqNo: U32) | TimedOut(seqNo: U32)

  // ---------------------------------------------------------------------------
  // Choosing the probe target

  /** A member the scan does not skip: not the local node and not known dead. */
  predicate Eligible(m: Member, self: Text)
  {
    m.name != self && m.state != MemberState.Dead
  }

  /**
   * The index of the last eligible member in `ms[lo..hi]`. The scan in `probe`
   * overwrites its choice at every eligible member, so this is what it picks.
   */
  function LastEligible(ms: seq<Member>, self: Text, lo: nat, hi: nat): (r: Option<nat>)
    requires lo <= hi <= |ms|
    decreases hi - lo
    ensures r.Some? ==> lo <= r.value < hi && Eligible(ms[r.value], self)
    ensures r.Some? ==> forall j :: r.value < j < hi ==> !Eligible(ms[j], self)
    ensures r.None? <==> forall j :: lo <= j < hi ==> !Eligible(ms[j], self)
  {
    if lo == hi then Option.None
    else if Eligible(ms[hi - 1], self) then Some(hi - 1)
    else LastEligible(ms, self, lo, hi - 1)
  }

  /** Where the scan starts: the cursor, or 0 once the cursor has reached the end and the list has been reshuffled. */
  function SweepStart(cursor: nat, len: nat): nat
  {
    if cursor >= len then 0 else cursor
  }

  /**
   * An earlier eligible member is never chosen while a later one exists: a
   * probe tick does not visit every member of a sweep, it ends the sweep at a
   * single target.
   */
  lemma EarlierEligibleSkipped(ms: seq<Member>, self: Text, lo: nat, i: nat, j: nat)
    requires lo <= i < j < |ms|
    requires Eligible(ms[i], self) && Eligible(ms[j], self)
    ensures LastEligible(ms, self, lo, |ms|).Some?
    ensures LastEligible(ms, self, lo, |ms|) != Some(i)
  {
  }

  // ---------------------------------------------------------------------------
  // Sequence numbers

  /** `*seq += 1` on a `u32`, which wraps to 0 after 2^32 - 1. */
  function NextSeqValue(s: U32): (r: U32)
    ensures s < U32_MODULUS - 1 ==> r == s + 1 && r > s
    ensures s == U32_MODULUS - 1 ==> r == 0
  {
    (s + 1) % U32_MODULUS
  }

  /** The values returned by `n` successive calls of `next_seq` on a counter at `s`. */
  function Issued(s: U32, n: nat): (r: seq<U32>)
    decreases n
    ensures |r| == n
  {
    if n == 0 then [] else [NextSeqValue(s)] + Issued(NextSeqValue(s), n - 1)
  }

  /** The i-th value issued is the counter advanced i + 1 times, modulo 2^32. */
  lemma {:induction false} IssuedAt(s: U32, n: nat, i: nat)
    requires i < n
    decreases n
    ensures Issued(s, n)[i] == (s + i + 1) % U32_MODULUS
  {
    if i > 0 {
      var t := NextSeqValue(s);
      IssuedAt(t, n - 1, i - 1);
      assert Issued(s, n)[i] == Issued(t, n - 1)[i - 1];
      if s == U32_MODULUS - 1 {
        assert t == 0;
        assert (s + i + 1) % U32_MODULUS == i % U32_MODULUS;
      } else {
        assert t == s + 1;
      }
    }
  }

  /**
   * From a fresh counter the values issued are 1, 2, 3, ... : they start at 1
   * and strictly increase for as long as the counter does not wrap.
   */
  lemma IssuedFromZero(n: nat)
    requires n < U32_MODULUS
    ensures forall i :: 0 <= i < n ==> Issued(0, n)[i] == i + 1
    ensures forall i, j :: 0 <= i < j < n ==> Issued(0, n)[i] < Issued(0, n)[j]
  {
    forall i | 0 <= i < n
      ensures Issued(0, n)[i] == i + 1
    {
      IssuedAt(0, n, i);
    }
  }

  /** The 2^32-th value issued from a fresh counter is 0 again: the documented wrap-around. */
  lemma IssuedWraps()
    ensures Issued(0, U32_MODULUS)[U32_MODULUS - 1] == 0
  {
    IssuedAt(0, U32_MODULUS, U32_MODULUS - 1);
  }

  // ---------------------------------------------------------------------------
  // The shared state

  /** The state shared by the probe loop and the receive loop. */
  class MembershipMeta {
    const config: Config
    var members: seq<Member>
    /** The keys of `ack_senders`: sequence numbers whose probe waits for an Ack. */
    var ackSenders: set<U32>
    /** Sequence numbers whose one-shot ack signal has been sent and not yet received. */
    var signalled: set<U32>
    /** The local sequence number, last value handed out. */
    var seqNo: U32
    /** The probe cursor. */
    var probeIndex: nat

    /** The cursor never passes the end of the member list. */
    ghost predicate Valid()
      reads this
    {
      probeIndex <= |members|
    }

    constructor (config: Config)
      ensures Valid()
      ensures this.config == config && members == []
      ensures ackSenders == {} && signalled == {}
      ensures seqNo == 0 && probeIndex == 0
    {
      this.config := config;
      members := [];
      ackSenders := {};
      signalled := {};
      seqNo := 0;
      probeIndex := 0;
    }

    /**
     * The receive loop's dispatch. A Ping meant for this node is answered with
     * an Ack to its sender; a Ping for another name is dropped. An Ack resolves
     * the wait for its sequence number if there is one. Every other variant is
     * accepted and ignored.
     */
    method HandleMessage(gossip: Gossip, msg: Message, from: SocketAddr)
      requires Valid()
      modifies this, gossip
      ensures Valid()
      ensures members == old(members) && probeIndex == old(probeIndex) && seqNo == old(seqNo)
      ensures gossip.outbox == old(gossip.outbox)
        + if msg.Ping? && msg.name == config.name then Sent(Message.Ack(msg.seqNo), from) else []
      ensures ackSenders == if msg.Ack? then old(ackSenders) - {msg.seqNo} else old(ackSenders)
      ensures signalled == if msg.Ack? && msg.seqNo in old(ackSenders) then old(signalled) + {msg.seqNo} else old(signalled)
    {
      match msg
      case Ping(s, name) =>
        if name != config.name {
          return;
        }
        gossip.Ack(s, from);
      case Ack(s) =>
        if s in ackSenders {
          ackSenders := ackSenders - {s};
          signalled := signalled + {s};
        }
      case IndirectPing(_, _, _) =>
      case Suspect =>
      case Alive =>
      case Dead =>
      case None =>
    }

    /**
     * One probe tick. When the cursor has reached the end of the list, the list
     * is replaced by `shuffled` (the random permutation) and the cursor reset.
     * The scan then runs the cursor to the end of the list; if it met an
     * eligible member, the last one it met is probed.
     */
    method Probe(gossip: Gossip, shuffled: seq<Member>, race: AckRace) returns (outcome: ProbeOutcome)
      requires Valid()
      requires probeIndex >= |members| ==> multiset(shuffled) == multiset(members)
      modifies this, gossip
      ensures Valid()
      ensures members == if old(probeIndex) >= old(|members|) then shuffled else old(members)
      ensures multiset(members) == old(multiset(members))
      ensures probeIndex == |members|
      ensures var t := LastEligible(members, config.name, SweepStart(old(probeIndex), old(|members|)), |members|);
        && (t.None? ==>
              && outcome == NoTarget && seqNo == old(seqNo)
              && gossip.outbox == old(gossip.outbox)
              && ackSenders == old(ackSenders) && signalled == old(signalled))
        && (t.Some? ==>
              && seqNo == NextSeqValue(old(seqNo))
              && gossip.outbox == old(gossip.outbox) + Sent(Message.Ping(seqNo, members[t.value].name), members[t.value].addr)
              && ackSenders == old(ackSenders) - {seqNo} && signalled == old(signalled) - {seqNo}
              && outcome == if race.AckFirst? then Confirmed(seqNo) else TimedOut(seqNo))
    {
      var cursor := probeIndex;
      var membersLen := |members|;
      if cursor >= membersLen {
        ResetMembers(shuffled);
        probeIndex := 0;
      }

      var target, next := Scan(probeIndex);
      probeIndex := next;

      if target.Some? {
        outcome := ProbeMember(gossip, target.value, race);
      } else {
        outcome := NoTarget;
      }
    }

    /**
     * The scan of one probe tick, from cursor position `from`: it runs to the
     * end of the list without stopping, and the last eligible member it passed
     * is the target.
     */
    method Scan(from: nat) returns (target: Option<Member>, next: nat)
      requires from <= |members|
      ensures next == |members|
      ensures var t := LastEligible(members, config.name, from, |members|);
        target == if t.Some? then Some(members[t.value]) else Option.None
    {
      target := Option.None;
      var i := from;
      while i < |members|
        invariant from <= i <= |members|
        invariant var t := LastEligible(members, config.name, from, i);
          target == if t.Some? then Some(members[t.value]) else Option.None
      {
        var member := members[i];
        i := i + 1;
        if member.name == config.name || member.state == MemberState.Dead {
          continue;
        }
        target := Some(member);
      }
      next := i;
    }

    /** Ping the member under the next sequence number, addressed with the member's own name, and wait for its Ack. */
    method ProbeMember(gossip: Gossip, member: Member, race: AckRace) returns (outcome: ProbeOutcome)
      requires Valid()
      modifies this, gossip
      ensures Valid()
      ensures members == old(members) && probeIndex == old(probeIndex)
      ensures seqNo == NextSeqValue(old(seqNo))
      ensures gossip.outbox == old(gossip.outbox) + Sent(Message.Ping(seqNo, member.name), member.addr)
      ensures ackSenders == old(ackSenders) - {seqNo} && signalled == old(signalled) - {seqNo}
      ensures outcome == if race.AckFirst? then Confirmed(seqNo) else TimedOut(seqNo)
    {
      var s := NextSeq();
      gossip.Ping(s, member.name, member.addr);
      var confirmed := WaitAck(gossip, s, race);
      if confirmed {
        return Confirmed(s);
      }
      return TimedOut(s);
    }

    /**
     * Register a one-shot signal for `s`, then let the race decide. If the Ack
     * wins, the receive loop's handler removes the entry and fires the signal,
     * which is then received; if the timer wins, the waiter removes the entry
     * itself. Either way exactly one outcome is produced and `s` is gone from
     * the table afterwards.
     */
    method WaitAck(gossip: Gossip, s: U32, race: AckRace) returns (confirmed: bool)
      requires Valid()
      modifies this, gossip
      ensures Valid()
      ensures members == old(members) && probeIndex == old(probeIndex) && seqNo == old(seqNo)
      ensures gossip.outbox == old(gossip.outbox)
      ensures confirmed <==> race.AckFirst?
      ensures s !in ackSenders && ackSenders == old(ackSenders) - {s}
      ensures signalled == old(signalled) - {s}
    {
      ackSenders := ackSenders + {s};
      signalled := signalled - {s};
      match race
      case AckFirst(from) =>
        HandleMessage(gossip, Message.Ack(s), from);
        confirmed := s in signalled;
        signalled := signalled - {s};
      case TimeoutFirst =>
        ackSenders := ackSenders - {s};
        confirmed := false;
    }

    /** Replace the member list by a permutation of it; nothing is reaped. */
    method ResetMembers(shuffled: seq<Member>)
      requires Valid()
      requires multiset(shuffled) == multiset(members)
      modifies this
      ensures Valid()
      ensures members == shuffled && |members| == old(|members|)
      ensures probeIndex == old(probeIndex) && seqNo == old(seqNo)
      ensures ackSenders == old(ackSenders) && signalled == old(signalled)
    {
      assert |multiset(shuffled)| == |multiset(members)|;
      members := shuffled;
    }

    /** Advance the sequence counter and return its new value. */
    method NextSeq() returns (s: U32)
      modifies this
      ensures seqNo == NextSeqValue(old(seqNo)) && s == seqNo
      ensures members == old(members) && probeIndex == old(probeIndex)
      ensures ackSenders == old(ackSenders) && signalled == old(signalled)
    {
      seqNo := NextSeqValue(seqNo);
      s := seqNo;
    }
  }

  // ---------------------------------------------------------------------------
  // The facade

  /**
   * A node's handle on the cluster. The two background loops are not run here;
   * `receiving` and `probing` record whether `start` has launched them.
   */
  class Membership {
    var started: bool
    const gossip: Gossip
    const meta: MembershipMeta
    /** The local incarnation number. */
    var inc: U32
    ghost var receiving: bool
    ghost var probing: bool

    /** The loops run exactly when started, and probing only with a non-zero interval. */
    ghost predicate Running()
      reads this, meta
    {
      && meta.Valid()
      && (started ==> receiving && probing == (meta.config.probeInterval != 0))
      && (!started ==> !receiving && !probing)
    }

    /**
     * Besides `Running`, no member is known before start: only `join` adds
     * members, and it starts the node, after which `join` does nothing.
     */
    ghost predicate Valid()
      reads this, meta
    {
      Running() && (!started ==> meta.members == [])
    }

    constructor (config: Config)
      ensures Valid() && fresh(gossip) && fresh(meta)
      ensures !started && inc == 0
      ensures gossip.addr == config.bindAddr && gossip.outbox == []
      ensures meta.config == config && meta.members == []
      ensures meta.ackSenders == {} && meta.signalled == {}
      ensures meta.seqNo == 0 && meta.probeIndex == 0
    {
      started := false;
      gossip := new Gossip(config.bindAddr);
      meta := new MembershipMeta(config);
      inc := 0;
      receiving := false;
      probing := false;
    }

    /**
     * Open the UDP socket on `config.bindAddr` and set up an empty, unstarted
     * node. `available` is whether the operating system lets the socket bind.
     */
    static method Bind(config: Config, available: bool) returns (r: Result<Membership, BindError>)
      ensures r.Success? <==> available
      ensures r.Failure? ==> r.error == UdpBindFailed(config.bindAddr)
      ensures r.Success? ==>
        var m := r.value;
        && fresh(m) && fresh(m.gossip) && fresh(m.meta) && m.Valid()
        && !m.started && m.inc == 0
        && m.gossip.addr == config.bindAddr && m.gossip.outbox == []
        && m.meta.config == config && m.meta.members == []
        && m.meta.ackSenders == {} && m.meta.seqNo == 0 && m.meta.probeIndex == 0
    {
      if !available {
        return Failure(UdpBindFailed(config.bindAddr));
      }
      var m := new Membership(config);
      return Success(m);
    }

    /** Launch the receive loop and, unless the probe interval is zero, the probe loop. Later calls do nothing. */
    method Start()
      requires Running()
      modifies this
      ensures Valid() && started
      ensures old(started) ==> unchanged(this)
      ensures !old(started) ==> receiving && probing == (old(probing) || meta.config.probeInterval != 0)
      ensures inc == old(inc)
    {
      if started {
        return;
      }
      StartGossipListening();
      StartProbing();
      started := true;
    }

    /**
     * Join through a seed member: before start, append it as alive with
     * incarnation 0, without checking for duplicates, and start. After start,
     * nothing changes.
     */
    method Join(name: Text, addr: SocketAddr)
      requires Valid()
      modifies this, meta
      ensures Valid() && started
      ensures old(started) ==> unchanged(this) && unchanged(meta)
      ensures !old(started) ==> meta.members == old(meta.members) + [Member(name, addr, MemberState.Alive, 0)]
      ensures !old(started) ==> meta.members == [Member(name, addr, MemberState.Alive, 0)]
      ensures meta.probeIndex == old(meta.probeIndex) && meta.seqNo == old(meta.seqNo)
      ensures meta.ackSenders == old(meta.ackSenders) && meta.signalled == old(meta.signalled)
      ensures inc == old(inc)
    {
      if started {
        return;
      }
      var member := Member(name, addr, MemberState.Alive, 0);
      meta.members := meta.members + [member];
      Start();
    }

    method StartProbing()
      modifies this
      ensures probing == (old(probing) || meta.config.probeInterval != 0)
      ensures started == old(started) && inc == old(inc) && receiving == old(receiving)
    {
      if meta.config.probeInterval == 0 {
        return;
      }
      probing := true;
    }

    method StartGossipListening()
      modifies this
      ensures receiving
      ensures started == old(started) && inc == old(inc) && probing == old(probing)
    {
      receiving := true;
    }
  }
}
