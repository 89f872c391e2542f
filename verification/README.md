# A model of the tunnel's protocols

This project models, in Dafny, the protocol core of a user-space VPN tunnel: the erasure code and its reassembly
sessions, key rotation, the raw TCP connection machine, the wire formats below it, and the indexes, caches and
decisions that have to agree with a simpler description. What the Go code changes in place is a class, an array or a
loop here; what it computes from its arguments is a function. Every such method is proved against a function, and
the laws are proved about that function.

| module | what it covers |
|---|---|
| `Bytes`, `Text` | fixed-width integers, exclusive or, decimal and dotted text |
| `Fec`, `FecCodec` | the XOR erasure code: meaning, and the loops of `Encode` and `Decode` |
| `FecSessions`, `FecDelivery`, `FecProvenance` | framing, reassembly sessions, whole runs of them, and which packets the shards they hold came from |
| `KeyRing`, `KeyProtocol`, `KeyProtocolLimits` | ciphers and generations on one end, the two-ended rotation, and why each of its premises is needed |
| `Checksum`, `Packet`, `PacketBytes` | the Internet checksum, IPv4 and TCP headers built and parsed, and what they are byte by byte |
| `TcpConn`, `TcpNetwork`, `TcpPipe`, `TcpDelivery` | one connection, over a hostile and over an orderly network, and what its readers get |
| `Listener` | the connection map, the accept queue and the two-pass cleanup |
| `Stun` | binding requests and responses |
| `Classifier`, `Accelerator`, `Sealing` | the plain-or-encrypted verdict, its cache, and the encryption that depends on it |
| `Mtu`, `TunnelPath` | the size budget, and the data path from the inner packet to the inner packet |
| `Registry`, `Routes` | clients by address, advertised routes by client |
| `Election` | the peer-info line and who opens a P2P connection |
| `PeerState`, `PeerLaws`, `PeerObjects` | peer records shared by the P2P manager and the routing table |

Main results:

- Reassembly refines a machine that only remembers a set of indices, up to the moment the process ends
  (`FecDelivery.RunRefines`); from that follow safety, exact liveness, at-most-once delivery with its exact
  condition, and the limit of one lost data shard.
- Key rotation loses nothing (`KeyProtocol.NoPacketLost`), whatever keys are pushed, under premises about timing,
  order and the number of outstanding rotations; `KeyProtocolLimits` gives for each of these a short run that drops it
  and loses a packet. Without any premise every packet is accounted for in every run
  (`KeyProtocol.EveryPacketCounts`), and the generation and pin invariants of `KeyRing` hold.
- Acknowledgements, kept and on the wire, are honest over a network that drops, repeats and reorders
  (`TcpNetwork.OnlySentDataIsAcknowledged`, `TcpNetwork.EverySentAckIsHonest`), and exact over one that does not
  (`TcpPipe.AcknowledgedPlusInFlight`, `TcpPipe.RepliesAreExact`);
  `Listener.AcceptsIsServerHears` ties the server end of these networks to the accept loop. `TcpDelivery` says exactly
  which written bytes reach the readers.
- Registry, route index, key ring and peer tables are, over every run, exactly what the events make of them
  (`Registry.RunExplained`, `Routes.RunIs`, `KeyRing.OpensIff`, `PeerLaws.KnownFromEvents`,
  `PeerLaws.ConnectedByHandshake`), and every shard a session holds was received for it
  (`FecProvenance.ShardsWereReceived`).
- The data path, from the composed sender (`TunnelPath.SendInner`) to the TUN device, delivers the inner packet or
  nothing, and delivers it once enough shards arrived (`TunnelPath.OnlyTheInnerPacket`,
  `TunnelPath.InnerPacketArrives`).

Where the code does not do what is wanted of it, the code is modelled as it is, the exact condition is proved, and a
lemma gives a concrete case:

- The decoder indexes past the end of a shorter shard and panics, and nothing recovers the panic. A call panics if and
  only if it leaves its session with exactly one data shard missing, a parity shard there, and the first of these or
  another data shard shorter than the first shard there (`FecSessions.CallPanicsIff`). Shards are not authenticated:
  with two or more data shards, `dataShards` packets for any session of their own stop the process before anything
  else is delivered (`FecDelivery.ForeignPanic`; two packets for two data shards); with one data shard it cannot
  happen (`FecDelivery.OneDataShardNeverPanics`).
- The repository's README.md (line 274) promises recovery from three losses. Parity shards are copies of each other,
  so two lost data shards are fatal (`FecDelivery.TwoDataLossesAreFatal`; exact condition in `Fec.DecodeHonest`).
- A packet can be delivered twice when `dataShards < 3` and there are at least as many parity shards
  (`FecDelivery.DeliveredTwice`); in every other configuration it cannot (`FecDelivery.AtMostOnce`).
- More than 40 bytes of TCP options overflow the offset nibble (`Packet.ParseAssembled`, case in
  `Packet.LongOptionsLoseThePayload`); the tunnel's own options are shorter.
- A flow whose packets the classifier sees differently is lost once its verdict is cached
  (`Sealing.RoundTripAfterHistory`, case in `Sealing.MixedFlowIsLost`).
- An accept that times out drops whatever entry its address has by then (`Listener.ExpiredOfferEvicts`, case in
  `Listener.ExpiredOfferEvictsNewcomer`).
- Removing a client that never registered an address leaves its routes behind (`Routes.RemovalWithdrawsRoutes`, case
  in `Routes.RoutesLeftBehind`).
- The first client heard on a new key retires the old key for all clients: up to the next rotation an old packet in
  time opens if and only if no client was heard on the new key, no packet came after the grace period and the old
  cipher's timer has not gone off (`KeyRing.OldPacketOpensIff`, case in `KeyRing.SecondClientIsCutOff`).
- What arrives between the handshake and `Accept` is acknowledged and thrown away: with nothing left to arrive or to
  read, the reader has got everything if and only if nothing arrived before `Accept` and the queue always had room
  (`TcpDelivery.EverythingReadIff`, case in `TcpDelivery.AcceptThrowsAway`).
- With one data shard frames are cut, if and only if the sealed packet or the configured shard size exceeds 1387 bytes
  (`Mtu.OneDataShardFitsIff`, case in `Mtu.OneDataShardIsCut`).
- A peer announcement is two calls, and announcements of one address can cross. Routing table and P2P manager then
  hold different records, if and only if an announcement completes after a later one of the same address
  (`PeerState.AgreementIff`); after that traffic goes to the peer directly while the table shows a server route
  (`PeerState.CrossedAnnouncements`).
- A measured packet loss is never cleared: a record's stored loss is zero if and only if no quality check ever found it
  connected with less received than sent (`PeerState.LossIff`, case in `PeerState.LossWitness`).

## Model

| member | source | states |
|---|---|---|
| `Bytes.XorCancel` | pkg/fec/fec.go:141-149 | XOR-ing a value in and out again gives the original back, at every bit width |
| `Bytes.XorBits` | pkg/fec/fec.go:62-73 | each bit of an exclusive or tells whether the two bits differ |
| `Fec.NewFEC` | pkg/fec/fec.go:17-31 | a codec exists if and only if all three numbers are positive |
| `Fec.ShardSize` | pkg/fec/fec.go:40-46 | the shard size is at least the configured one and the data shards together hold the packet |
| `Fec.DataShardsCover` | pkg/fec/fec.go:48-60 | the data shards of any packet, joined, are the packet followed by zeros |
| `Fec.MissingByte` | pkg/fec/fec.go:62-73 | over any number of shards, the other shards of a column XOR the parity give the missing byte |
| `Fec.ParityIsOdd` | pkg/fec/fec.go:62-73 | in every parity shard a bit is set if and only if an odd number of the data shards have it set at that place |
| `Fec.ParityIsThere` | pkg/fec/fec.go:123-135 | with `dataShards` shards present and a data shard missing, some parity shard is present: the "no parity" error is unreachable |
| `Fec.OnlyOneMissing` | pkg/fec/fec.go:111-123 | with one data shard missing, the last missing index is that shard and all others are there |
| `Fec.RebuiltIsOriginal` | pkg/fec/fec.go:137-151 | the rebuilt shard is the encoder's shard, whichever parity shard is used |
| `Fec.DecodeHonest` | pkg/fec/fec.go:79-166 | for every packet and every subset of its shards, decoding gives the zero-padded packet, "not enough shards" or "too many missing", exactly as the number of shards and of missing data shards decides |
| `Fec.RefusedIff` | pkg/fec/fec.go:79-157 | on any input, which error is returned, and that a missing parity shard never is the reason |
| `Fec.PanicsIff` | pkg/fec/fec.go:137-150 | on any non-empty shards, decoding panics if and only if the shards are uneven in the sense given above |
| `FecCodec.Encode` | pkg/fec/fec.go:34-76 | the loops produce exactly the shards whose joined data is the packet and whose parity is the XOR of every column; the empty packet is refused |
| `FecCodec.Decode` | pkg/fec/fec.go:79-166 | decoding in place, on any arrays: the result or the panic, the repaired shard array, every data shard marked present on success, both arrays untouched on an error |
| `FecCodec.XorShards` | pkg/fec/fec.go:62-73 | the accumulator loop gives the XOR of all data shards, column by column |
| `FecCodec.Rebuild` | pkg/fec/fec.go:137-150 | the reconstruction loop gives the parity XOR all data shards but the missing one, or stops where an index runs past a shard |
| `FecCodec.FindShardSize` | pkg/fec/fec.go:99-109 | the length of the first present, non-empty shard |
| `FecCodec.ScanMissing` | pkg/fec/fec.go:111-119 | the number of missing data shards and the last missing index |
| `FecSessions.FrameBody` | pkg/tunnel/tunnel.go:4434-4458 | parsing a framed shard gives back its header fields and its bytes |
| `FecSessions.SendPacketWithFEC` | pkg/tunnel/tunnel.go:4411-4469 | one frame per shard, in order, under the old session number, which then advances by one mod 2^32 |
| `FecSessions.TryDecode` | pkg/tunnel/tunnel.go:4545-4567 | the decoding half on any session: the packet cut to its original size, the decoder's error, or its panic |
| `FecSessions.Receiver.ProcessFECShard` | pkg/tunnel/tunnel.go:4473-4568 | the in-place session update and its outcome are those of `Receive`, for every byte string and every session: every validation error, new and found sessions, duplicates, deletion after success, and the panic |
| `FecSessions.CallPanicsIff` | pkg/tunnel/tunnel.go:4536-4550 | a call panics if and only if its packet is accepted and leaves the session with uneven shards |
| `FecSessions.ReceiveKeepsSane` | pkg/tunnel/tunnel.go:4509-4543 | every call keeps each session's counter right and its shards non-empty |
| `FecSessions.Receiver.CleanupStale` | pkg/tunnel/tunnel.go:4571-4583 | exactly the sessions idle longer than five seconds are removed |
| `FecProvenance.SentHeader` | pkg/tunnel/tunnel.go:4434-4458 | a frame as sent, byte by byte: type, session, index, total, size, shard |
| `FecProvenance.AcceptedIff` | pkg/tunnel/tunnel.go:4473-4532 | a packet is accepted if and only if its bytes announce the receiver's own number of shards, an index below it, a size in 1..65536 and data, and its session, if open, has that size; a refusal leaves the session map as it was |
| `FecProvenance.RefusedForAFault` | pkg/tunnel/tunnel.go:4475-4530 | the error of a refusal names a fault the packet has |
| `FecProvenance.AcceptedStores` | pkg/tunnel/tunnel.go:4534-4543 | an accepted packet adds its shard to its own session unless one with that index is there, refreshes the session only then, and changes no other session |
| `FecProvenance.ShardsWereReceived` | pkg/tunnel/tunnel.go:4473-4583 | over every run of calls and cleanups, each shard held was carried by a packet of that peer whose header names that session, index, number of shards and size |
| `FecProvenance.DeliveredFromReceived` | pkg/tunnel/tunnel.go:4545-4567 | a delivered packet is decoded from such shards alone |
| `FecDelivery.WireParses` | pkg/tunnel/tunnel.go:4473-4507 | every shard of every supported packet passes all header checks and parses to its own fields |
| `FecDelivery.ArriveRefines` | pkg/tunnel/tunnel.go:4509-4568 | one arriving shard does to the session map what it does to the set of held indices, and answers the same |
| `FecDelivery.RunRefines` | pkg/tunnel/tunnel.go:4473-4583 | over every order of arrivals with repeats, losses, cleanups and foreign traffic, the calls return what the set machine returns on the events the process lives through: the packet on the first call with at least `dataShards` distinct shards and at most one data shard missing |
| `FecDelivery.OnlyTheOriginalPacket` | pkg/tunnel/tunnel.go:4473-4583 | nothing but the original packet is ever returned for the flow; none of the calls for its own shards panics or reports missing parity |
| `FecDelivery.AtMostOnce` | pkg/tunnel/tunnel.go:4510-4563 | without repeated shards a packet is delivered at most once over every run, if `dataShards >= 3` or parity shards are fewer than data shards |
| `FecDelivery.DeliveredTwice` | pkg/tunnel/tunnel.go:4545-4563 | in every other configuration some run without repeats delivers it twice |
| `FecDelivery.TwoDataLossesAreFatal` | pkg/fec/fec.go:152-157 | if two data shards never arrive, no run delivers the packet, however many parity shards do |
| `FecDelivery.DeliveredIff` | pkg/tunnel/tunnel.go:4535-4583 | with timely cleanups, the packet is delivered if and only if enough of its shards arrived before a call panicked |
| `FecDelivery.EvenTrafficSurvives` | pkg/tunnel/tunnel.go:4536-4550 | equally long packets in every foreign session keep the process alive over every run |
| `FecDelivery.ForeignPanic` | pkg/fec/fec.go:141-149 | with two or more data shards, `dataShards` packets for another session end the process and nothing is delivered, whatever follows |
| `FecDelivery.OddEventsExist` | pkg/tunnel/tunnel.go:4473-4507 | such packets exist for every codec and session |
| `FecDelivery.OneDataShardNeverPanics` | pkg/fec/fec.go:141-149 | with one data shard no call panics |
| `FecDelivery.EnoughIsDelivered` | pkg/tunnel/tunnel.go:4535-4583 | if any two accepted packets of one foreign session are equally long and no cleanup comes later than the timeout after a shard, the packet has been delivered once enough of its shards arrived |
| `KeyRing.Tunnel.RotateCipher` | pkg/tunnel/tunnel.go:3774-3811 | the new state: active becomes previous with its generation and expiry, generation plus one; a bad key changes nothing |
| `KeyRing.Tunnel.DeactivatePrevCipher` | pkg/tunnel/tunnel.go:3730-3746 | the previous cipher is dropped only if it is still the one named |
| `KeyRing.Tunnel.DecryptWithFallback` | pkg/tunnel/tunnel.go:3608-3661 | active, then unexpired previous, then plain pass-through; what is opened, under which cipher and generation, and the new state |
| `KeyRing.StepKeepsInv` | pkg/tunnel/tunnel.go:3608-3835 | rotation, decryption and timers each keep the ring, pin and timer invariants |
| `KeyRing.Reachable` | pkg/tunnel/tunnel.go:3789-3803 | in every reachable state the previous generation is the active one minus one and no client is pinned beyond the active one |
| `KeyRing.PinsNeverGoBack` | pkg/tunnel/tunnel.go:148-159 | over every run no client's pinned generation decreases |
| `KeyRing.TimersAreTheirOwn` | pkg/tunnel/tunnel.go:3827-3835 | a timer firing removes at most its own cipher, never before its grace ended, and never the active one |
| `KeyRing.PrevHasItsTimer` | pkg/tunnel/tunnel.go:3803-3835 | over every run a previous cipher still kept has its own timer pending |
| `KeyRing.GraceEnds` | pkg/tunnel/tunnel.go:3803-3835 | after any run and an accepted rotation, the timer can go off from fifteen seconds on and no earlier, and then nothing but the old cipher is gone |
| `KeyRing.FirstClientRetiresOldKey` | pkg/tunnel/tunnel.go:3633-3640 | one step of that: a packet under the old key opens before, and fails after, any client was heard on the new key |
| `KeyRing.OldPacketOpensIff` | pkg/tunnel/tunnel.go:3633-3651 | over every run up to the next rotation, an old packet in time opens to its body if and only if no event retired the old key: a client heard on the new one, an arrival after the grace period, or its own timer |
| `KeyRing.OnlyAConfirmationRetires` | pkg/tunnel/tunnel.go:3633-3651 | within the grace period it opens if and only if no client was heard on the new key |
| `KeyRing.SecondClientIsCutOff` | pkg/tunnel/tunnel.go:3633-3640 | a run of two clients in which the second, not yet switched, is no longer heard within the grace period |
| `KeyRing.RingHoldsTheLastKeys` | pkg/tunnel/tunnel.go:3774-3803 | over every run the active cipher has the last accepted key and the previous one, if kept, the key before; the generation counts them |
| `KeyRing.OpensIff` | pkg/tunnel/tunnel.go:3608-3661 | over every run a packet opens, to its own body, if and only if it is sealed under the last key, or under the one before within its grace, or is clear, looks encrypted and a key is in use |
| `KeyRing.PinsFollow` | pkg/tunnel/tunnel.go:3633-3651 | a sealed packet that opens pins its client to its key and generation; a clear one names no cipher, and neither it nor a refused one changes a pin |
| `KeyProtocol.ServerOpens` | pkg/tunnel/tunnel.go:3608-3661 | in every phase, a packet that reaches the server in time opens to the body that was sealed |
| `KeyProtocol.ClientOpens` | pkg/tunnel/tunnel.go:3608-3661 | the same on the client, and a configuration update names the announced key |
| `KeyProtocol.PushKeeps` | pkg/tunnel/tunnel.go:4109-4165 | announcing under the old key and rotating keeps the protocol invariant |
| `KeyProtocol.SwitchArrives` | pkg/tunnel/tunnel.go:4168-4194 | the announcement moves the client to the new key and the protocol to its switching phase |
| `KeyProtocol.HeardSwitching` | pkg/tunnel/tunnel.go:2218-2248 | the first packet under the new key settles the rotation; older ones still open |
| `KeyProtocol.StepKeeps` | pkg/tunnel/tunnel.go:3694-3722 | every covered step of either end keeps the invariant |
| `KeyProtocol.NoPacketLost` | pkg/tunnel/tunnel.go:4109-4194 | over every covered run, what was sent in each direction is what was opened, then what is in flight, in order; nothing is lost |
| `KeyProtocol.EveryPacketCounts` | pkg/tunnel/tunnel.go:3608-3661 | over every run, covered or not, nothing comes out that was not sent, nothing comes out twice, and every packet sent was opened, is in flight or was lost |
| `KeyProtocolLimits.TwoRotationsOutstanding` | pkg/tunnel/tunnel.go:3789-3800 | two rotations before the client answers lose a packet |
| `KeyProtocolLimits.ServerGraceEndsEarly` | pkg/tunnel/tunnel.go:3827-3835 | so does a server timer that fires while the client still uses the old key |
| `KeyProtocolLimits.ArrivesAfterGrace` | pkg/tunnel/tunnel.go:3645-3651 | so does arrival after the grace period |
| `KeyProtocolLimits.ArrivesLateAtClient` | pkg/tunnel/tunnel.go:3645-3651 | so does arrival at the client after its grace period |
| `KeyProtocolLimits.ServerExpiresOverPacket` | pkg/tunnel/tunnel.go:3827-3835 | so does the server's timer with an old packet in flight, though the client has switched |
| `KeyProtocolLimits.ClientExpiresOverPacket` | pkg/tunnel/tunnel.go:3827-3835 | so does the client's timer with an old packet in flight, though the server has switched |
| `KeyProtocolLimits.ClientGraceEndsEarly` | pkg/tunnel/tunnel.go:3827-3835 | so does the client's timer before the server has switched |
| `KeyProtocolLimits.PushNotAtomic` | pkg/tunnel/tunnel.go:4109-4165 | so does a client that answers between announcement and rotation, with the rotation following |
| `KeyProtocolLimits.ReorderedUplink` | pkg/tunnel/tunnel.go:3633-3640 | so does an uplink that swaps an old and a new packet |
| `KeyProtocolLimits.ReorderedDownlink` | pkg/tunnel/tunnel.go:3633-3640 | so does a downlink that swaps an old and a new packet |
| `KeyProtocolLimits.NothingPinned` | pkg/tunnel/tunnel.go:3694-3722 | so does a client whose cipher was never pinned |
| `Checksum.FoldKeepsSum` | pkg/rawsocket/rawsocket.go:382-385 | folding terminates, keeps the sum mod 65535 and is zero only for zero |
| `Checksum.WordsSpell` | pkg/rawsocket/rawsocket.go:369-388 | modulo 65535 the word sum is the number that all the bytes spell, an odd last one filled up with a zero |
| `Checksum.NoOverflow` | pkg/rawsocket/rawsocket.go:369-380 | the 32-bit sum of anything that fits an IP packet does not wrap |
| `Checksum.VerifiesIff` | pkg/rawsocket/rawsocket.go:369-389 | the checksum is 0 if and only if the word sum is a positive multiple of 65535 |
| `Checksum.InsertedVerifies` | pkg/rawsocket/rawsocket.go:290-294 | writing the checksum into its zeroed field makes the whole verify |
| `Checksum.ChangedWordIsNoticed` | pkg/rawsocket/rawsocket.go:369-389 | replacing one word of verifying data by one different mod 65535 makes verification fail |
| `Checksum.CalculateChecksum` | pkg/rawsocket/rawsocket.go:369-389 | the summing and folding loops compute the checksum of any byte string |
| `Checksum.SumWords` | pkg/rawsocket/rawsocket.go:369-380 | the loop computes the word sum mod 2^32, odd last byte included |
| `Packet.BuildIPHeader` | pkg/rawsocket/rawsocket.go:254-294 | the buffer filled in place is the header whose checksum verifies |
| `Packet.BuildTCPHeader` | pkg/rawsocket/rawsocket.go:297-346 | the buffer filled in place has all fields, the padded options and a zero checksum |
| `Packet.SendPacket` | pkg/rawsocket/rawsocket.go:392-423 | the bytes for the kernel: the source replaced by the socket's own address if it has one, the checksum inserted, and no IP header where the kernel builds it |
| `Packet.IPHeaderVerifies` | pkg/rawsocket/rawsocket.go:254-294 | every built IP header verifies |
| `Packet.TCPSegmentVerifies` | pkg/rawsocket/rawsocket.go:349-366 | pseudo-header, finished TCP header and any payload that fits verify |
| `Packet.ParseAssembled` | pkg/rawsocket/rawsocket.go:516-556 | parsing an assembled packet gives all fields back, and the payload too if and only if the options have at most 40 bytes |
| `Packet.OffsetWraps` | pkg/rawsocket/rawsocket.go:322-324 | 41 bytes of options make the offset nibble 0 |
| `Packet.LongOptionsLoseThePayload` | pkg/rawsocket/rawsocket.go:516-556 | with more than 40 bytes of options the payload read is not the one sent |
| `Packet.ParseSerialized` | pkg/faketcp/faketcp.go:574-667 | a serialised header parses to the same fields with padded options, and stripping it leaves the payload |
| `Packet.TransportRoundTrip` | pkg/faketcp/faketcp_raw.go:387-407 | send, receive, rebuild and strip: the reader gets the written payload |
| `PacketBytes.IPHeaderOnWire` | pkg/rawsocket/rawsocket.go:254-294 | every field of a built IP header, byte by byte, the total length included |
| `PacketBytes.IPHeaderSums` | pkg/rawsocket/rawsocket.go:254-294 | its words add up to a positive multiple of 65535 |
| `PacketBytes.TCPHeaderOnWire` | pkg/rawsocket/rawsocket.go:297-346 | every field of a sent TCP header, byte by byte, options and padding included |
| `PacketBytes.TCPSegmentSums` | pkg/rawsocket/rawsocket.go:349-366 | address words, protocol number 6, the segment's length and the words of header and payload as sent add up to a positive multiple of 65535 |
| `PacketBytes.TunnelOptionsFit` | pkg/faketcp/faketcp_raw.go:414-443 | the tunnel's own options make a header of 44 bytes, and a packet with them parses to what was sent |
| `PacketBytes.ParsedIff` | pkg/rawsocket/rawsocket.go:516-543 | which bytes are taken for a packet, and that a fault they have is reported otherwise |
| `PacketBytes.ParsedFields` | pkg/rawsocket/rawsocket.go:524-556 | with any IP and TCP options, each field and the payload lie where the two header lengths put them |
| `PacketBytes.StripIff` | pkg/faketcp/faketcp_raw.go:387-407 | a queued packet is stripped to what lies behind the header length it states, if it is that long |
| `TcpConn.ChunksAreTheData` | pkg/faketcp/faketcp_raw.go:318-347 | the segments' payloads, joined, are the data, numbered without a gap mod 2^32 |
| `TcpConn.ChunksAreFull` | pkg/faketcp/faketcp_raw.go:318-347 | no segment is empty or over 1400 bytes and there are no more than the data needs |
| `TcpConn.ChainSum` | pkg/faketcp/faketcp_raw.go:332-347 | over a gapless stretch, start plus payload bytes is the end mod 2^32 |
| `TcpConn.ConnRaw.WritePacket` | pkg/faketcp/faketcp_raw.go:312-350 | what is sent before the socket refuses a segment, if it does, and the sequence number advanced past exactly that; refused once closed |
| `TcpConn.ConnRaw.ReceivePacket` | pkg/faketcp/faketcp_raw.go:261-306 | the object's new state and the acknowledgement sent are those of the client end in the networks below |
| `TcpConn.ConnRaw.PollHandshake` | pkg/faketcp/faketcp_raw.go:172-209 | the same for a turn of the wait for SYN-ACK: numbers plus one, connected, queue emptied; if the acknowledgement cannot be sent, numbers advanced, not connected, dialling failed |
| `TcpConn.CompletesIff` | pkg/faketcp/faketcp_raw.go:172-209 | the handshake completes on a packet with both SYN and ACK and on no other |
| `TcpNetwork.OnlySentDataIsAcknowledged` | pkg/faketcp/faketcp_raw.go:261-275 | over every run of a network that drops, repeats and reorders, each connected side's `ackNum` is the peer's ISN+1 or the end of a segment the peer sent |
| `TcpNetwork.EverySentAckIsHonest` | pkg/faketcp/faketcp_raw.go:261-275 | over the same runs, every segment with ACK ever put on the network, SYN-ACKs and data included, carries the peer's ISN+1 or the end of a data segment the peer sent |
| `TcpPipe.AcknowledgedPlusInFlight` | pkg/faketcp/faketcp_raw.go:332-347 | over every run with in-order lossless delivery, `ackNum` plus payload bytes in flight is the peer's `seqNum`, both ways |
| `TcpPipe.RepliesAreExact` | pkg/faketcp/faketcp_raw.go:261-275 | over every run each answer on the wire is exact: SYN-ACK, handshake acknowledgement, and for data one acknowledgement of sequence number plus payload length mod 2^32 |
| `TcpPipe.RepliesAreCumulative` | pkg/faketcp/faketcp_raw.go:766-775 | such an acknowledgement plus the payload bytes still in flight is what the peer has sent |
| `TcpDelivery.WhatTheServerReads` | pkg/faketcp/faketcp_raw.go:691-711 | over every run, what the client wrote is what arrived before `Accept`, what arrived since and what is in flight, in order; read and queued together are exactly what arrived since and found room; everything that arrived is acknowledged |
| `TcpDelivery.WhatTheClientReads` | pkg/faketcp/faketcp_raw.go:261-306 | the same at the client, whose handshake throws nothing away |
| `TcpDelivery.EverythingReadIff` | pkg/faketcp/faketcp_raw.go:806-817 | at rest the reader has got everything if and only if nothing arrived before `Accept` and every arrival since found room |
| `TcpDelivery.AcceptThrowsAway` | pkg/faketcp/faketcp_raw.go:806-817 | a run in which a byte is written, arrives, is acknowledged and never reaches the reader |
| `Listener.ListenerRaw.AcceptPacket` | pkg/faketcp/faketcp_raw.go:621-803 | one turn of the accept loop: the whole new state, receive queues included, and the segment sent back |
| `Listener.ListenerRaw.Accept` | pkg/faketcp/faketcp_raw.go:806-817 | the connection loses whatever its receive queue holds, and nothing else changes |
| `Listener.AppIsServerEnd` | pkg/faketcp/faketcp_raw.go:806-817 | accepting and reading do to the entry what they do to the server end in `TcpDelivery` |
| `Listener.AcceptsIsServerHears` | pkg/faketcp/faketcp_raw.go:633-679 | without FIN and RST, the entry at the packet's source and the reply are those of the server end in the TCP networks |
| `Listener.AcceptsKeepsOthers` | pkg/faketcp/faketcp_raw.go:621-803 | a turn leaves every other address's entry as it is |
| `Listener.ListenerRaw.MarkStale` | pkg/faketcp/faketcp_raw.go:841-863 | the first pass collects exactly the closed or idle entries |
| `Listener.ListenerRaw.SweepStale` | pkg/faketcp/faketcp_raw.go:865-888 | the second pass looks at each collected entry again |
| `Listener.OfferedOnceAfterHandshake` | pkg/faketcp/faketcp_raw.go:621-720 | over every run each connection is offered at most once, only after a SYN and a later non-SYN ACK from its address, and every key is its entry's own address |
| `Listener.LiveEntryStays` | pkg/faketcp/faketcp_raw.go:633-679 | no packet but its own FIN replaces or drops a live entry |
| `Listener.FinEnds` | pkg/faketcp/faketcp_raw.go:733-757 | a FIN closes and drops a connected entry, counts as activity and is acknowledged as one sequence number |
| `Listener.ResetIsIgnored` | pkg/faketcp/faketcp_raw.go:723-766 | a reset, or a packet without data, only counts as activity |
| `Listener.SynStartsAnew` | pkg/faketcp/faketcp_raw.go:624-672 | a SYN from an address without an entry, or with a closed one, starts a new connection if the answer could be sent, and else nothing |
| `Listener.AckOpens` | pkg/faketcp/faketcp_raw.go:674-716 | a waiting entry is opened, refreshed and offered by an ACK without SYN, and left alone by any other packet |
| `Listener.ClosedHearsNothing` | pkg/faketcp/faketcp_raw.go:624-631 | over every run, a connection the tunnel closed stays closed and hears nothing more: what it can still read is the rest of its queue |
| `Listener.MarkIsExact` | pkg/faketcp/faketcp_raw.go:841-863 | the first pass marks an entry if and only if it is closed or was silent for over sixty seconds |
| `Listener.RefreshedSurvivesSweep` | pkg/faketcp/faketcp_raw.go:841-888 | an entry refreshed between the passes survives the second, whatever happens in between except its own FIN, its close by the application and an expired offer of its address |
| `Listener.SweepIsExact` | pkg/faketcp/faketcp_raw.go:865-888 | an entry is evicted if and only if it was marked and is still closed or idle; the others are untouched |
| `Listener.IdleTooLong` | pkg/faketcp/faketcp_raw.go:841-888 | an open entry falls to a cleanup if and only if more than sixty seconds lie between its last packet, or the end of its handshake, and the first pass |
| `Listener.ExpiredOfferEvicts` | pkg/faketcp/faketcp_raw.go:681-689 | an expired offer evicts another live connection if and only if that one has taken over its address |
| `Listener.ExpiredOfferEvictsNewcomer` | pkg/faketcp/faketcp_raw.go:681-689 | handshake, FIN and a new SYN lead there |
| `Stun.AddressRoundTrip` | pkg/nat/stun.go:244-283 | plain and XOR address parsing invert their encodings |
| `Stun.AddressIff` | pkg/nat/stun.go:244-283 | which attribute values give which address, plain and XOR-coded |
| `Stun.ParseEncoded` | pkg/nat/stun.go:199-234 | on the encoding of any padded attribute list, wherever it lies, the loop computes the list's meaning |
| `Stun.EncodedIsAligned` | pkg/nat/stun.go:226-234 | attributes end on multiples of four bytes |
| `Stun.CutOffList` | pkg/nat/stun.go:199-234 | a list that breaks off inside an attribute means what the attributes before that mean |
| `Stun.ParseResponse` | pkg/nat/stun.go:170-241 | a well-formed response, with anything behind it, parses to the meaning of its attributes |
| `Stun.LastMappedAddressWins` | pkg/nat/stun.go:215-226 | the result is the address in the last mapped-address attribute of either kind |
| `Stun.LastOfEachKind` | pkg/nat/stun.go:213-226 | each of the four results is the address in the last attribute of its kind, and there is none without one |
| `Stun.OnlyAnswersAreRead` | pkg/nat/stun.go:170-192 | everything but a binding response with the cookie and the request's transaction ID is refused |
| `Stun.RequestOnWire` | pkg/nat/stun.go:128-167 | a binding request byte by byte; its only attribute, there if and only if something is to change, asks for just that |
| `Stun.BuildBindingRequest` | pkg/nat/stun.go:128-167 | the request is that message: header, and at most the one attribute |
| `Stun.ParseBindingResponse` | pkg/nat/stun.go:170-241 | on every byte string the parser reads in range, terminates and gives the specified result or error |
| `Classifier.LooksLikeAEADProxyLoop` | pkg/tunnel/encryption_detection.go:114-143 | the counting loop decides by the number of unprintable bytes in the sample |
| `Classifier.ServiceFlows` | pkg/tunnel/encryption_detection.go:39-78 | a well-formed TCP or UDP packet whose flow key has a listed port is classified as encrypted |
| `Classifier.TCPVerdict` | pkg/tunnel/encryption_detection.go:39-143 | the verdict on any TCP packet, in terms of its bytes |
| `Classifier.UDPVerdict` | pkg/tunnel/encryption_detection.go:39-143 | the same for UDP |
| `Classifier.OthersArePlain` | pkg/tunnel/encryption_detection.go:39-78 | no other packet is taken for encrypted |
| `Classifier.KeyIs` | pkg/xdp/accelerator.go:65-96 | the flow key is addresses, protocol and, for TCP and UDP, both ports |
| `Accelerator.Cache.Classify` | pkg/xdp/accelerator.go:33-62 | the cached or fresh verdict and the new cache |
| `Accelerator.Cache.Flush` | pkg/xdp/accelerator.go:99-104 | the cache is empty |
| `Accelerator.VerdictIsTheDeciders` | pkg/xdp/accelerator.go:33-62 | over every history the verdict is the classifier's on the first packet of the flow since the last flush |
| `Accelerator.CacheAgrees` | pkg/xdp/accelerator.go:33-96 | a classifier that depends on the flow key alone sees no difference |
| `Accelerator.MixedFlowDisagrees` | pkg/xdp/accelerator.go:42-60 | any flow with mixed verdicts gives a wrong cached answer |
| `Accelerator.ServicePortsAgree` | pkg/tunnel/encryption_detection.go:31-78 | on listed ports with well-formed packets, cached and fresh verdicts agree after every history |
| `Sealing.PrependInPlace` | pkg/tunnel/tunnel.go:233-247 | shifting in place puts the type byte in front and leaves the rest of the buffer alone |
| `Sealing.DecryptInvertsEncrypt` | pkg/tunnel/tunnel.go:3577-3661 | decryption gives the data back if and only if a packet sent in clear would also be let through by the receiver |
| `Sealing.NoKeyNoDelivery` | pkg/tunnel/tunnel.go:3653-3660 | without a key what the sender passes through is refused |
| `Sealing.ClearIsLetThroughIff` | pkg/tunnel/tunnel.go:3653-3660 | what opens under no key is let through if and only if there is a key and it is a data packet that looks encrypted |
| `Sealing.RingDecryptsAlike` | pkg/tunnel/tunnel.go:3608-3661 | in every reachable state the key ring and decryption on bytes agree on what opens, and to what |
| `Sealing.RoundTripAfterHistory` | pkg/tunnel/tunnel.go:3560-3575 | after every accelerator history, the round trip holds if and only if the deciding packet did not look encrypted while this one does not |
| `Sealing.MixedFlowIsLost` | pkg/tunnel/tunnel.go:3560-3606 | a TLS record followed by printable text of the same flow is lost |
| `Mtu.Search` | pkg/tunnel/mtu_discovery.go:56-80 | ten attempts find the largest accepted MTU of every monotone probe |
| `Mtu.DiscoverOptimalMTU` | pkg/tunnel/mtu_discovery.go:57-100 | the result is that MTU minus 69, capped at 1371; the lower clamp never fires |
| `Mtu.BestIsUnique` | pkg/tunnel/mtu_discovery.go:56-80 | there is only one largest accepted MTU |
| `Mtu.AdjustedIs` | pkg/tunnel/tunnel.go:354-369 | the MTU is cut only with a key, only above 1371, and to exactly what fits |
| `Mtu.FramedShardFits` | pkg/tunnel/tunnel.go:354-369 | with a key and two or more data shards every framed shard of a packet within the adjusted MTU fits one segment |
| `Mtu.OneDataShardFitsIff` | pkg/fec/fec.go:40-46 | with one data shard a frame fits one segment if and only if neither the packet on the wire nor the shard size exceeds 1387 bytes |
| `Mtu.OneDataShardIsCut` | pkg/faketcp/faketcp_raw.go:318-347 | at full size it makes 1413 bytes and two segments |
| `TunnelPath.OneSegmentPerShard` | pkg/tunnel/tunnel.go:1999-2021 | each frame of a packet within the budget is one segment |
| `TunnelPath.SendInner` | pkg/tunnel/tunnel.go:1999-2021 | the composed sender puts exactly `Raw` on the network: prepend, encrypt, encode, frame, segment, assemble |
| `TunnelPath.OnePacketPerFrame` | pkg/faketcp/faketcp_raw.go:332-347 | within the budget these are one raw packet for each frame, in order, each at the sequence number reached |
| `TunnelPath.FrameArrives` | pkg/faketcp/faketcp_raw.go:283-298 | the reader gets each written frame |
| `TunnelPath.RunIsFecRun` | pkg/tunnel/tunnel.go:1793-1828 | the whole receive path over any run, up to a panic, equals the reassembly machine followed by opening |
| `TunnelPath.OpensToInner` | pkg/tunnel/tunnel.go:1793-1828 | the reassembled bytes open to the inner packet |
| `TunnelPath.OnlyDataComesOut` | pkg/tunnel/tunnel.go:1793-1828 | only the payload of an opened data packet comes out |
| `TunnelPath.OnlyTheInnerPacket` | pkg/tunnel/tunnel.go:1793-1828 | over every run, what comes out is the original IP packet or nothing |
| `TunnelPath.InnerPacketArrives` | pkg/tunnel/tunnel.go:1999-2021 | once a recoverable set arrived within the session timeout, with equally long packets in every other session, the original IP packet has come out |
| `TunnelPath.SampleIsSound` | pkg/tunnel/tunnel.go:1999-2021 | the premises can be met: a concrete cipher, codec and packet |
| `Registry.Server.Register` | pkg/tunnel/tunnel.go:679-700 | the newcomer takes the key, an earlier holder is stopped |
| `Registry.Server.Unregister` | pkg/tunnel/tunnel.go:702-718 | the entry goes only if it is still this client's |
| `Registry.RegistryRun` | pkg/tunnel/tunnel.go:1230-1263 | in every state reached from the start each key is its client's own IP and whoever lost its key is stopped; from there on a set IP never changes |
| `Registry.OneLiveHolder` | pkg/tunnel/tunnel.go:679-700 | of two clients with the same IP at least one is stopped, and one that is not is the one the map names |
| `Registry.NewcomerTakesOver` | pkg/tunnel/tunnel.go:679-700 | a client's first packet makes it the owner of its address, leaves its own `stopped` flag, stops every earlier holder and changes nothing else |
| `Registry.RunExplained` | pkg/tunnel/tunnel.go:679-718 | over every run, from the events alone: an address is held by the last client to register it, if that one was not removed; a client is stopped if and only if it was told to or another registered its address after it |
| `Registry.SupersededRemoval` | pkg/tunnel/tunnel.go:702-718 | removing a superseded client leaves the map as it is |
| `Routes.OfWithout` | pkg/tunnel/tunnel.go:3139-3158 | filtering empties one client's part and keeps every other's, order included |
| `Routes.FilterInPlace` | pkg/tunnel/tunnel.go:3139-3150 | the in-place filter leaves exactly the other clients' entries, in order |
| `Routes.RunConsistent` | pkg/tunnel/tunnel.go:3091-3158 | registrations and cleanups keep list and map consistent over every run |
| `Routes.RunFromEmpty` | pkg/tunnel/tunnel.go:3091-3158 | after every run from the start the list restricted to a client is its map entry, in order |
| `Routes.RunIs` | pkg/tunnel/tunnel.go:3091-3158 | over every run the list is the parsed routes of the registrations not withdrawn, in order, and the map each client's last routes that parse |
| `Routes.GoodIsFilter` | pkg/tunnel/tunnel.go:3098-3114 | the routes kept are those that parse, and their entries these routes parsed |
| `Routes.LookupIsFirst` | pkg/tunnel/tunnel.go:3122-3131 | lookup answers with the first network that contains the address, or nothing if none does |
| `Routes.ContainsIff` | pkg/tunnel/tunnel.go:3122-3131 | a network contains an address if and only if they agree in the bits of the prefix |
| `Routes.LookupFindsOwner` | pkg/tunnel/tunnel.go:3122-3131 | lookup never answers with a client without entries |
| `Routes.RemovalWithdrawsRoutes` | pkg/tunnel/tunnel.go:702-735 | after removal no route to the client is left if and only if it had an IP or no routes |
| `Routes.RoutesLeftBehind` | pkg/tunnel/tunnel.go:702-735 | a client that connects, advertises a route and stops before its first data packet stays the answer to lookups |
| `Routes.Index.RemoveClientRoutes` | pkg/tunnel/tunnel.go:3139-3158 | list and map after withdrawing one client |
| `Routes.Index.RegisterClientRoutes` | pkg/tunnel/tunnel.go:3091-3119 | list and map after a registration, unparsable routes skipped |
| `Routes.Index.FindRouteClient` | pkg/tunnel/tunnel.go:3122-3131 | the scan returns the first match |
| `Election.TraversalIsMutual` | pkg/nat/nat.go:66-91 | between known types traversal is symmetric and fails only for symmetric against symmetric |
| `Election.LineRoundTrip` | pkg/tunnel/tunnel.go:3966-3991 | the announced line parses back to the announced fields |
| `Election.OldLine` | pkg/tunnel/tunnel.go:2668-2711 | a line without a NAT type parses with an unknown one |
| `Election.DisconnectLine` | pkg/tunnel/tunnel.go:2678-2684 | exactly the line with the printed address withdraws a peer |
| `Election.BadLine` | pkg/tunnel/tunnel.go:2671-2695 | a line of fewer parts, or without an address in front, says nothing |
| `Text.DottedIff` | pkg/tunnel/tunnel.go:2692-2695 | text is taken for an address if and only if it is that address printed |
| `Election.AnnouncedPort` | pkg/tunnel/tunnel.go:2742-2760 | the port read from an announcement is the announced one |
| `Election.LocalPortDecides` | pkg/tunnel/tunnel.go:2752-2758 | where the public address names no port, the local one decides |
| `Election.PortIs` | pkg/tunnel/tunnel.go:2744-2751 | an address names the port its text after the colon spells; without a colon, with brackets or with other text it names none |
| `Election.DecisionOn` | pkg/tunnel/tunnel.go:2668-2802 | what a client decides on a current announcement, in terms of the two clients alone |
| `Election.OneInitiator` | pkg/tunnel/tunnel.go:2668-2802 | with known NAT types never both initiate, and exactly one does if and only if traversal is possible and level, port or (given a port) last octet differ |
| `Election.InitiatorIs` | pkg/tunnel/tunnel.go:2730-2802 | which client initiates, waits or leaves it to the relay: the better NAT type, then the lower port, then the lower last octet |
| `Election.LevelsRank` | pkg/nat/nat.go:48-64 | the levels rank the NAT types as listed, and anything else below them |
| `Election.UnknownNATBothInitiate` | pkg/tunnel/tunnel.go:2735-2737 | with an unknown NAT type both initiate |
| `PeerState.Quality` | pkg/p2p/peer.go:168-219 | the score is in 0..150 |
| `PeerState.DirectIsNeverWorse` | pkg/p2p/peer.go:193-216 | connecting never lowers the score and adds exactly 50 while no bound is hit |
| `PeerLaws.ScoreWithoutFaults` | pkg/p2p/peer.go:168-219 | 150, 120, 100 or 70 for a local, direct, unconnected or relayed peer without delay and loss |
| `PeerLaws.FaultsCost` | pkg/p2p/peer.go:182-190 | every ten milliseconds cost five points and every thousandth of loss one, down to zero |
| `PeerLaws.LocalIsWorth` | pkg/p2p/peer.go:193-216 | a local connection scores 30 points more than another one with the same faults |
| `PeerState.StepKeeps` | pkg/p2p/manager.go:583-655 | every manager and table operation keeps the invariant of the shared records |
| `PeerLaws.CheckIs` | pkg/p2p/manager.go:1165-1221 | what a quality check leaves, and that it gives a peer up if and only if it scores below 30 and was silent for over 30 seconds |
| `PeerLaws.KeepaliveIs` | pkg/p2p/manager.go:1001-1143 | a keepalive turn gives a peer up if and only if it was silent for over 60 seconds (120 if never established) or the send failed |
| `PeerLaws.HandshakeIs` | pkg/p2p/manager.go:583-655 | what a handshake leaves in the record and in the connection entry |
| `PeerLaws.NewcomerIs` | pkg/tunnel/tunnel.go:2697-2721 | an announced peer starts unconnected, without delay or loss, on a server route of quality 70, and replaces any record of its address in the table |
| `PeerLaws.ConnectedIff` | pkg/p2p/manager.go:583-655 | what connects a record in one step, and what disconnects it |
| `PeerLaws.ConnectedByHandshake` | pkg/p2p/manager.go:583-655 | over every run a peer is connected if and only if a handshake connected it and nothing gave it up since |
| `PeerLaws.LifeIsItsStory` | pkg/p2p/manager.go:563-567 | over every run a record was last seen at its last sign of life, and its counters are the packets sent and received since its last quality check |
| `PeerLaws.KnownFromEvents` | pkg/p2p/manager.go:213-222 | over every run, from the events alone: which record table and manager hold for an address, and whether there is a connection entry |
| `PeerState.NeverBoth` | pkg/p2p/peer.go:125-146 | after every run no record is both connected and through the server, and every route belongs to a known peer with quality in 0..150 |
| `PeerState.UpdateSettles` | pkg/routing/table.go:181-188 | after an update every known peer has exactly one route, direct if and only if connected, with its current quality |
| `PeerState.FallbackSettles` | pkg/tunnel/tunnel.go:3461-3470 | a fallback leaves that peer on a server route and all routes settled |
| `PeerState.UpdateThenClean` | pkg/tunnel/tunnel.go:2895-2903 | update then cleanup keeps every peer's route if and only if no more than the timeout passed between them |
| `PeerState.AgreementIsKept` | pkg/tunnel/tunnel.go:2715-2721 | table and manager keep the same record for a peer, but for announcements under way, except exactly when an announcement completes after a later one of its address has |
| `PeerState.AgreementIff` | pkg/tunnel/tunnel.go:2715-2721 | over every run they agree at every moment if and only if no announcement is overtaken |
| `PeerState.UncrossedIsInOrder` | pkg/tunnel/tunnel.go:2840-2848 | no announcement is overtaken if none of an address begins between the two calls of another one of it |
| `PeerState.CrossingIsLegal` | pkg/tunnel/tunnel.go:2640-2655 | four calls of two announcements leave different records in table and manager |
| `PeerState.CrossedAnnouncements` | pkg/tunnel/tunnel.go:3306-3325 | a connection and a handshake later, traffic goes directly while every update gives the peer a server route |
| `PeerState.RoutesFollowTheManager` | pkg/p2p/manager.go:738-751 | over every run in which no announcement is overtaken, after an update the route of a peer not just being announced is direct if and only if the manager holds it connected |
| `PeerState.LossStays` | pkg/p2p/peer.go:75-99 | over every run a recorded loss never returns to zero |
| `PeerState.LossIff` | pkg/p2p/peer.go:75-99 | after a run a record's stored loss is zero if and only if it was at the start and no quality check found it connected, with a connection entry and less received than sent |
| `PeerState.LossWitness` | pkg/p2p/peer.go:75-99 | a run with one lossy and one clean period ends with a recorded loss of 1 |
| `PeerObjects.PeerInfo.SetConnected` | pkg/p2p/peer.go:125-132 | connecting clears the through-server flag |
| `PeerObjects.PeerInfo.CalculatePacketLoss` | pkg/p2p/peer.go:75-99 | the returned rate, and the stored one, which a loss-free period leaves alone |
| `PeerLaws.LossOfAPeriod` | pkg/p2p/peer.go:75-99 | the recorded rate is the share of packets sent that was not answered |
| `PeerObjects.PeerInfo.GetQualityScore` | pkg/p2p/peer.go:168-219 | the score of the record |
| `PeerObjects.RoutingTable.AddPeer` | pkg/routing/table.go:55-99 | the peer, its route and its flag after adding |
| `PeerObjects.RoutingTable.UpdateRoutes` | pkg/routing/table.go:181-188 | the loop routes every known record once, in any order, through shared references |
| `PeerObjects.UpdateIsAllRouted` | pkg/routing/table.go:181-188 | what the loop leaves is what the update step on the shared state leaves |
| `PeerObjects.RoutingTable.RemovePeer` | pkg/routing/table.go:171-178 | peer and route go together |
| `PeerObjects.RoutingTable.CleanStaleRoutes` | pkg/routing/table.go:191-201 | exactly the routes older than the timeout are deleted |
| `PeerObjects.Manager.HandleHandshake` | pkg/p2p/manager.go:583-655 | what a handshake does to the shared record and to the connection entry |
| `PeerObjects.Manager.CheckPeer` | pkg/p2p/manager.go:1165-1221 | one peer's turn of the quality check |
| `PeerObjects.ManagerStepsAreSteps` | pkg/p2p/manager.go:583-655 | the same for a handshake and a turn of the quality check |
| `PeerObjects.Manager.IsConnected` | pkg/p2p/manager.go:738-751 | connected means a connection entry and a connected record |
| `PeerObjects.Manager.RemovePeer` | pkg/p2p/manager.go:754-778 | record and connection entry are forgotten |

## Left out

- Locks and goroutine interleavings: one locked operation of the manager, the table, the listener or a session map, and one turn of a periodic loop over peers, is one step. The flag setters inside such an operation are not separate steps, nor are the calls of `markPeerFallbackToServer`; a handshake between two setters could leave both flags of a record set.
- A frame for the flow's own session that its sender did not send: shards are not authenticated, so anyone could add one.
- Receive sessions are values in a map, keyed by the pair of address and session number instead of their joined text; aliasing of session pointers is not captured.
- AES-GCM is symbolic: a packet opens under exactly the key that sealed it, with 28 bytes of overhead; control packets whose first nonce byte is 9 are not covered.
- `encrypt_after_auth` sessions, and the authentication exchange.
- Generations are unbounded integers instead of 64-bit ones; time is an integer of nanoseconds passed in.
- TcpNetwork.OnlySentDataIsAcknowledged: no FIN, reset or cleanup eviction during a run, because the law is about one connection's lifetime.
- TcpPipe.AcknowledgedPlusInFlight: the same, and the receive queue has room for the SYN-ACK.
- FecSessions.SendPacketWithFEC: states the frames handed to the connection; a frame the connection refuses is logged by the code and counts as lost here.
- The capacity of the client's receive queue appears only as a flag saying whether there was room; the accept queue itself, retries of a dial, deadlines and closing are not modelled.
- Routes.LookupIsFirst: networks are IPv4; parsing a CIDR is a parameter, and operating-system routes are not modelled.
- Election.LineRoundTrip: hosts without `|`, `:` or brackets; leading spaces and out-of-range integers in a scanned number are not modelled.
- PeerState.Quality: packet loss is a real number, so floating-point rounding is not captured.
- Sealing.MixedFlowIsLost: the cipher is any lawful pair that does not open the sample as a ciphertext.
- PeerState.LossStays: a peer announced anew gets a new record without loss.
- Peer connections are values in a map; handshake pacing and back-off, and the choice `findPeerByAddr` makes between several matches, are inputs.
- Relay routes, which the routing table never selects.
- Timely detection of a silent P2P peer, and the limit on registered clients, which the code does not enforce at registration.
- The packet-buffer pool, the relay path, and the queues between readers and writers.
- Sockets, pcap, TUN devices, iptables, sysctl, SOCKS5, UPnP, configuration files and the command line.
- Exact wire size against the path MTU: the discovery budget counts a 20-byte TCP header.
