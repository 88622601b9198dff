# erosion membership core, modelled in Dafny

erosion is a small prototype of SWIM-style cluster membership. Each node probes its peers over UDP: it sends a `Ping`, and the peer replies with an `Ack`. No central coordinator is involved. This project models the prototype's core and proves properties of it. The core has four parts:

- **The wire codec** (`message.dfy`, module `MessageCodec`). A `Ping{seq, name}` is written as a tag byte 0, a big-endian u32, a one-byte length and the name. An `Ack{seq}` is written as a tag byte 2 and a big-endian u32. Pure functions `Serialize`/`Encode`/`Decode` give the bytes. The imperative `Write`/`Read` use a `Writer` that grows and a `Reader` with a cursor, like the source, and are proved to agree with those functions. When a name is decoded it must be well-formed UTF-8, as defined in section 4 of RFC 3629 (`utf8.dfy`).
- **The datagram send policy** (`gossip.dfy`, class `Gossip`). The UDP socket is replaced by `outbox`, the sequence of datagrams that `send_to` passes on to the socket, those of at most 548 bytes. `Sent(m, to)` says exactly what one `ping`/`ack` call adds to it.
- **The membership state machine** (`membership.dfy`). `MembershipMeta` holds the member list, the probe cursor, the sequence counter and the ack-wait table. `Membership` holds the `started` flag and the incarnation number. Each of these is one atomic step: bind, start, join, probe, next_seq, handle_message and wait_ack.
- **The configuration presets** (`config.dfy`). Durations are whole milliseconds.

`member.dfy` holds the `Member` record. `wire.dfy` holds the byte, u16 and u32 types, big-endian order and socket addresses. `scenario.dfy` drives two nodes through bind, start, join, a probe tick and the Ack reply, using only the contracts.

Where a natural reading of the system and its code disagree, the model follows the code:

- A tag byte of 3 or more is rejected with "not supported". Only tag 1 (IndirectPing) decodes to the inert `None` marker (`message.rs:88-95`, `126`).
- A Ping whose name is too long fails only after the tag and the sequence number have been appended to the writer. `ping` then throws the buffer away (`message.rs:49-55`, `gossip.rs:29-33`).
- The probe scan has no `break` (`membership.rs:210-218`). The target is therefore the last eligible member from the cursor onward, and every tick moves the cursor to the end of the list. Within one tick an earlier eligible member is passed over (`EarlierEligibleSkipped`). Each tick ends the sweep, and the next tick reshuffles first (`membership.rs:200-203`), so M ticks need not visit each peer exactly once; whether they do depends on the shuffles.
- A Ping carries the target's name, not the sender's (`membership.rs:229`). The receiver compares it with its own name (`membership.rs:177`).
- `bind` does not probe anyone, and a node learns of peers only through its own `join`. `join` starts the node, and a started node ignores later joins (`membership.rs:84-86`, `100`), so the member list never holds more than one entry: `Membership.Valid` keeps it empty before start, and `Join` leaves exactly the one seed member. In a two-node cluster, therefore, only the node that joined ever probes (`scenario.dfy`).
- `next_seq` uses wrapping u32 arithmetic: after 2^32 - 1 it returns 0.

## Model

| member | source | states |
|---|---|---|
| `Wire.BE32Decodes` | src/erosion/message.rs:99-102 | reading four big-endian bytes gives back the u32 that was written |
| `Wire.BE32Canonical` | src/erosion/message.rs:99-102 | every four-byte string is the big-endian encoding of the number read from it |
| `Utf8.AcceptedCharIsScalar` | src/erosion/message.rs:159-165 | each character the UTF-8 check accepts is a Unicode scalar value (at most U+10FFFF, not a surrogate) written in its shortest form |
| `Utf8.AsciiIsValid` | src/erosion/message.rs:159-165 | 7-bit text passes the UTF-8 check |
| `MessageCodec.TypeFromCode` | src/erosion/message.rs:84-95 | a tag byte has a message type exactly when it is below 3, and that type's code is the byte |
| `MessageCodec.Encode` | src/erosion/message.rs:43-81 | encoding succeeds exactly for an Ack, or a Ping whose name is at most 255 bytes; the encoding is at most 261 bytes |
| `MessageCodec.DecodeStr` | src/erosion/message.rs:152-170 | a decoded name has consumed its length byte plus its own length, and never more bytes than were there |
| `MessageCodec.Decode` | src/erosion/message.rs:83-128 | a successful decode consumes at least the tag and never reads past the end of the buffer |
| `MessageCodec.PingLayout` | src/erosion/message.rs:45-59 | a Ping encodes to `[0] ++ BE32(seq) ++ [len] ++ name`, which is 6 + len bytes |
| `MessageCodec.AckLayout` | src/erosion/message.rs:61-71 | an Ack encodes to `[2] ++ BE32(seq)`, which is 5 bytes |
| `MessageCodec.LongNameRejected` | src/erosion/message.rs:131-139 | a name over 255 bytes fails with TooLong, after the tag and the sequence number are already written |
| `MessageCodec.OtherVariantsUnsupported` | src/erosion/message.rs:73-79 | IndirectPing, Suspect, Alive, Dead and None fail with Unsupported and write nothing |
| `MessageCodec.DecodeRejects` | src/erosion/message.rs:83-128 | these buffers are rejected: an empty buffer, tag 3 or more, a missing sequence number, a missing length byte, a name shorter than its declared length, and a name that is not UTF-8. Tag 1 yields None after one byte |
| `MessageCodec.RoundTrip` | src/erosion/message.rs:43-128 | decoding an encoding followed by any bytes gives the message back, and consumes exactly the encoding |
| `MessageCodec.PingRoundTrip` | src/erosion/message.rs:98-113 | `read(write(Ping{seq,name})) == Ping{seq,name}` for every u32 and every name of at most 255 bytes |
| `MessageCodec.AckRoundTrip` | src/erosion/message.rs:115-124 | `read(write(Ack{seq})) == Ack{seq}` for every u32 |
| `MessageCodec.DecodeCanonical` | src/erosion/message.rs:83-128 | for any Ping or Ack decoded from a buffer, the bytes consumed are exactly that message's encoding |
| `MessageCodec.Write` | src/erosion/message.rs:43-81 | appends exactly `Serialize(m).bytes` to the writer, and succeeds exactly when `m` is encodable |
| `MessageCodec.WriteStr` | src/erosion/message.rs:131-150 | appends the length byte and the bytes of the name, or fails with TooLong before appending anything |
| `MessageCodec.Read` | src/erosion/message.rs:83-128 | returns what `Decode` gives for the unread bytes, and on success advances the cursor by the bytes consumed |
| `MessageCodec.ReadStr` | src/erosion/message.rs:152-170 | returns what `DecodeStr` gives for the unread bytes, and on success advances the cursor by the bytes consumed |
| `ConfigPresets.Lan` | src/erosion/config.rs:89-107 | keeps the given name; probing is enabled, and probe_timeout is below probe_interval |
| `ConfigPresets.Wan` | src/erosion/config.rs:112-122 | keeps the given name; probing is enabled, and probe_timeout is below probe_interval |
| `ConfigPresets.Local` | src/erosion/config.rs:127-137 | keeps the given name; probing is enabled, and probe_timeout is below probe_interval |
| `ConfigPresets.LanValues` | src/erosion/config.rs:89-107 | bind 0.0.0.0:7201, probe 1 s/500 ms, gossip 200 ms to 3 nodes, 3 indirect checks, multipliers 4 and 5, push/pull 30 s, TCP 10 s, compression on |
| `ConfigPresets.WanKeepsLan` | src/erosion/config.rs:112-122 | same as `lan` in name, bind address, indirect checks, retransmit multiplier and compression; the seven overridden values |
| `ConfigPresets.LocalKeepsLan` | src/erosion/config.rs:127-137 | same as `lan` in name, bind address, probe interval, gossip nodes and compression; the seven overridden values |
| `GossipTransport.SendToEffect` | src/erosion/gossip.rs:49-60 | a buffer over 548 bytes sends nothing; any other buffer is sent unchanged to `to` |
| `GossipTransport.Sent` | src/erosion/gossip.rs:24-47 | at most one datagram per call, and a datagram is sent only when encoding succeeded; it is addressed to `to` and carries the encoding |
| `GossipTransport.EncodedFits` | src/erosion/gossip.rs:6 | every encodable Ping or Ack is at most 261 bytes, below UDP_MAX_SIZE = 548 |
| `GossipTransport.EncodableIsSent` | src/erosion/gossip.rs:49-55 | the size guard never fires: an encodable message is always sent, as exactly its encoding |
| `GossipTransport.PingIsSent` | src/erosion/gossip.rs:24-35 | a Ping with a name of at most 255 bytes sends exactly one datagram, `[0] ++ BE32(seq) ++ [len] ++ name` |
| `GossipTransport.LongPingIsDropped` | src/erosion/gossip.rs:29-33 | a Ping with a longer name sends nothing |
| `GossipTransport.AckIsSent` | src/erosion/gossip.rs:37-47 | an Ack always sends exactly one 5-byte datagram |
| `GossipTransport.SentDecodes` | src/erosion/gossip.rs:24-47 | every datagram sent decodes back to the message it was sent for |
| `GossipTransport.Gossip.constructor` | src/erosion/gossip.rs:13-22 | a new transport, bound to the address, that has sent nothing |
| `GossipTransport.Gossip.Ping` | src/erosion/gossip.rs:24-35 | the outbox grows by exactly `Sent(Ping{seq,name}, to)` and nothing else changes |
| `GossipTransport.Gossip.Ack` | src/erosion/gossip.rs:37-47 | the outbox grows by exactly `Sent(Ack{seq}, to)` and nothing else changes |
| `GossipTransport.Gossip.SendTo` | src/erosion/gossip.rs:49-60 | the outbox grows by at most the one datagram, and only when the buffer is at most 548 bytes |
| `MembershipCore.LastEligible` | src/erosion/membership.rs:206-218 | the target is an eligible member in the scanned range, and no eligible member follows it there. There is no target exactly when no member in the range is eligible. Eligible means the name differs from ours and the state is not Dead |
| `MembershipCore.EarlierEligibleSkipped` | src/erosion/membership.rs:210-218 | when two eligible members lie ahead of the cursor, the earlier one is not probed in this tick |
| `MembershipCore.NextSeqValue` | src/erosion/membership.rs:260-264 | the counter grows by one, and wraps from 2^32 - 1 to 0 |
| `MembershipCore.IssuedAt` | src/erosion/membership.rs:260-264 | the i-th value handed out by successive `next_seq` calls is the start value plus i + 1, modulo 2^32 |
| `MembershipCore.IssuedFromZero` | src/erosion/membership.rs:260-264 | from a fresh counter, the values handed out are 1, 2, 3, ... and strictly increase until the counter wraps |
| `MembershipCore.IssuedWraps` | src/erosion/membership.rs:260-264 | from a fresh counter, the 2^32-th value handed out is 0 |
| `MembershipCore.MembershipMeta.constructor` | src/erosion/membership.rs:56-63 | no members, counter 0, cursor 0, empty ack table |
| `MembershipCore.MembershipMeta.HandleMessage` | src/erosion/membership.rs:171-194 | a Ping sends `Ack{seq}` to its sender exactly when it names this node. An Ack removes its number from the table; when the number was there, the Ack also fires that number's signal. Otherwise the table is unchanged. Other variants change nothing |
| `MembershipCore.MembershipMeta.Probe` | src/erosion/membership.rs:197-224 | a list is reshuffled, and the cursor reset to 0, exactly when the cursor is at the end. A reshuffle is a permutation. Afterwards the cursor equals the list length. Without a target nothing is sent. With one, a single Ping carrying the new sequence number and the target's own name goes to the target's address |
| `MembershipCore.MembershipMeta.Scan` | src/erosion/membership.rs:205-219 | the scan leaves the cursor at the end of the list. Its target is the last eligible member at or after the start position, and there is none exactly when no member there is eligible |
| `MembershipCore.MembershipMeta.ProbeMember` | src/erosion/membership.rs:226-236 | takes the next sequence number, pings the member with its own name, and reports confirmed or timed out as the race decides |
| `MembershipCore.MembershipMeta.WaitAck` | src/erosion/membership.rs:238-251 | exactly one outcome per wait: confirmed when the Ack wins, timed out when the timer wins. Either way the sequence number is no longer in the table |
| `MembershipCore.MembershipMeta.ResetMembers` | src/erosion/membership.rs:253-258 | the member list becomes the given permutation of itself; nothing is reaped |
| `MembershipCore.MembershipMeta.NextSeq` | src/erosion/membership.rs:260-264 | advances the counter by one, modulo 2^32, and returns the new value |
| `MembershipCore.Membership.constructor` | src/erosion/membership.rs:49-68 | not started, incarnation 0, nothing sent, and empty shared state |
| `MembershipCore.Membership.Bind` | src/erosion/membership.rs:43-69 | fails exactly when the address is unavailable. On success: no members, seq 0, cursor 0, empty ack table, not started, inc 0 |
| `MembershipCore.Membership.Start` | src/erosion/membership.rs:71-80 | afterwards the node is started, with the receive loop launched and the probe loop launched exactly when probe_interval is non-zero; a second start changes nothing |
| `MembershipCore.Membership.Join` | src/erosion/membership.rs:83-101 | before start: appends exactly `Member{name, addr, Alive, 0}` at the end, without a duplicate check, and starts. The list was empty before start, so it now holds exactly that member. After start: changes nothing |
| `MembershipCore.Membership.StartProbing` | src/erosion/membership.rs:103-122 | with probe_interval 0, no probe loop is launched |
| `MembershipCore.Membership.StartGossipListening` | src/erosion/membership.rs:124-154 | launches the receive loop |

## Left out

- **Concurrency.** The threads, channels, `Timer`, `select!` and the `RWLock`/`Mutex` guards (`membership.rs:108-153`, `238-251`) are not modelled as such. Each step is atomic. The race in `wait_ack` is a parameter that names the event that wins. The probe loop and the receive loop are recorded as launched, and are not run.
- **The receive path.** `gossip.recv_from` is called at `membership.rs:147` but is not defined in `gossip.rs`, so it is not part of this model, and neither is the local channel it feeds (`tx` at `membership.rs:130`, handed over through `message_tx`/`message_rx` at `131`, `141`, `148`). Inbound messages reach `HandleMessage` as arguments.
- **The `message_sender` field** (`membership.rs:35`, `65`) is set to `None` and never used, so the model has no counterpart for it.
- **Socket I/O.** Opening the socket is the `available` parameter of `Bind`. A send that the socket itself reports as failed is only logged, so the outbox records every datagram that `send_to` passes on to the socket.
- **The random shuffle** in `reset_members` is the `shuffled` parameter. Its only constraint is being a permutation of the current list.
- **Logging** (`info!`, `error!`, `println!`) is not modelled.
- **Writer failures.** The writer is a `Vec<u8>`, and writing to it never fails, so the write errors that `Message::write` would pass on cannot happen.
- MessageCodec.Read: after a failed read, the cursor is only known to have stayed inside the buffer. The reader that the receive side uses is not part of this model.
- MessageCodec.ReadStr: after a failed read, the cursor is only known to have stayed inside the buffer, for the same reason.
- **Unused configuration.** `tcp_timeout`, `retransmit_mult`, `suspicion_mult`, `push_pull_interval`, `gossip_interval`, `gossip_nodes` and `enable_compression` are carried along but never read. The `log(N+1)` formulas in `config.rs` comments are not implemented in the source.
- **Process bootstrap.** `src/erosion.rs` retries `bind` on successive ports and then sleeps forever. It is not part of this model. `src/erosion/lib.rs` only declares modules.
- **Behaviour the source does not have.** Suspect and Dead transitions, incarnation updates, reaping of dead members (the TODO at `membership.rs:255`) and indirect probing are not modelled. Neither are cancellation of the loops, or the encoding of IndirectPing.
