# Verified model of the udptun relay, the rawtcp transport and the kcptun accept loop

This project models three parts of the repository and proves what they promise:

- **udptun**, the UDP relay: the client's flow table and forwarding loops, the server's
  check-dial-recheck flow table, the datagram codec, and both ends composed over a network.
- **rawtcp**, the packet transport disguised as TCP: sequencing, acknowledging, delivery and
  eviction of per-peer flows.
- the **kcptun client**'s accept loop and session scavenger.

`dafny verify dfyconfig.toml` checks everything.

## How the model is built

Code that updates state is a class whose methods follow the source step by step
(`UdpClient.Client`, `UdpServer.Server`, `Packet.Codec`, `Packet.NonceGen`, `RawConn.Conn`,
`RawTcp.Flow`, `WarnLimit.Counter`, `Sessions.AcceptLoop`, `Sessions.Scavenger`). Their
contracts give the new state as a function of the old one, and the machines over which the
whole-run theorems are proved use the same functions on values for what their steps compute
(`InsertFlow`, `RemoveFlow`, `Opens`, `Captured`, `Built`, `Cleaned`, `Kept`, `NewMux`,
`PingDue`, `Silent` and others). `RawConn.Conn` carries the history of its table, so what is
proved about such histories in `RawLife` holds of the object:

| machine | interleaves |
|---|---|
| `ServerMachine` | any number of `flowFor` calls, pumps, failed writes and reaper sweeps, cut at every point where the lock is released |
| `Relay` | any number of clients, one `ServerMachine`, and a network that loses, repeats and reorders but does not forge |
| `RelayUp` | the same runs, for what reaches the target |
| `RelayBound` | one explicit run of `Relay`, to show that its bound is exact |
| `Watchdog` | supervisor, watchdogs, keepalive ticker and receipts, over time |
| `WarnLimit` | concurrent callers of `warn` |
| `RawSync` | two raw endpoints, one direction at a time, every segment captured |
| `RawAcks` | two raw endpoints with loss, duplication, reordering, crossing traffic, kernel segments and eviction |
| `RawLife` | captures, writes, attachments and cleaner ticks on one raw connection, over time |
| `RawKeepAlive` | a relay client pinging and a server answering over two raw connections, with delays and anything else at either end, over time |
| `Sessions` | accept loop, channel and scavenger |

Where a method gives up a lock half-way it calls `Interfere`, which may change the shared state
in any way its contract allows; that the others leave alone what the contract says (a socket only
this thread holds, a pump only it starts) is `ServerMachine.OthersLeaveMineAlone`. Ghost fields
hold what this thread has done whatever the others do: `mine` and `taken` the flows it has
dialled and taken out, `touched` those it has touched.

Choices that matter when reading the statements:

- An address is its `String()` form. `Env.owner` says which client each transport source address
  belongs to, so two clients never share one.
- Words are 32 bits and wrap; sizes and clocks are integers (nanoseconds).
- The block cipher is any pair of functions that keep lengths and undo each other, the AES block
  behind the nonces any permutation of 16-byte blocks. Random keys and seeds are parameters.
- Results of system calls (a dial, a write, a read, `IsClosed`, `NumStreams`, the clock) are
  parameters or free choices of a step.
- Tickers are ideal: exact period, handled in the instant they are due.
- Socket numbers are never used twice. A real local port can be: once a flow's socket is closed,
  the kernel may give its port to a newer flow while a reply to the old one is still under way.
  The attribution theorem assumes that such a reply is not taken for one to the newer socket.
- Keepalives on raw connections are captured within a given delay: a lost one is not modelled in
  `RawKeepAlive` (it is in `RawAcks` and `Relay`).
- History, which no step looks at, is kept beside the state: which flow a socket was dialled for,
  who was given an id, what was carried, replied, delivered, closed.

Facts about the code that the statements bring out:

- The id search (`udptun/client.go:210-215`) holds the lock and never ends when all 2^32 - 1
  nonzero ids are live; below that it ends within (live ids + 2) increments.
- Server sockets attribute replies only while a client opens fewer than 2^32 flows: the comment at
  `udptun/server.go:26-27` holds up to that count and fails at it (`RelayBound.AttributionHoldsIff`).
- The nonce is outside the checksum, so `Open` accepts a datagram whatever its nonce has become.
- One answer brings two raw endpoints into step. One burst does so exactly when the receiver's
  acknowledgement number is at an edge of one of its segments, or is 0 and some segment is not
  empty (`RawSync.OneBurstSufficesIff`).
- A keepalive period and both delays must fit into 60 seconds for raw flows to hold
  (`RawKeepAlive.KeepalivesHoldIff`).
- A watchdog loads `lastRecv` and closes in two steps (`udptun/client.go:172-174`). A packet that
  comes in between is lost, and its transport closed in the very instant it was heard from
  (`Watchdog.ClosedWhenHeardFrom`); if none does, the silence lasts up to the close.
- A flow may be reaped between being found and being touched (`udptun/client.go:251-252`,
  `udptun/client.go:286-290`); its datagram is sent, or its reply written, all the same.
- Writing never keeps a raw flow alive, only capturing does.
- The mux slots are loaded evenly for ever exactly when `numconn` divides 65536.
- With `MaxPacket` below 24 the loops drop every datagram, but keepalives, which have their own
  24-byte buffer, are still sent and then exceed `MaxPacket` (`UdpClient.Client.KeepAlive`,
  `UdpServer.Server.Serve`).

## Model

| member | source | states |
|---|---|---|
| Relay.RepliesAttributed | udptun/client.go:202-295 | over every run in which no client opens more than 2^32 - 1 flows, whatever is lost, repeated, reordered, reaped or redialled, each payload written to a local address was sent by the target to a socket that carried datagrams of that address only |
| RelayBound.AttributionHoldsIff | udptun/client.go:209-223 | attribution holds for clients that open at most n flows if and only if n < 2^32, for every cipher |
| RelayBound.Misdelivers | udptun/client.go:278-291 | the step at which the bound breaks: a late reply meets the new owner of its id |
| RelayBound.CycleTo | udptun/client.go:202-224 | opening and reaping moves the counter to any value below the wrap |
| Relay.NextKeepsInv | udptun/server.go:80-107 | every step of client, network, server and target keeps the attribution invariant |
| Relay.NextIdIsNew | udptun/client.go:209-219 | below the bound flowFor takes the next number, and that id was never given before |
| Relay.OpensAsSealed | udptun/packet.go:163-178 | every packet the network delivers opens as the id and payload sealed into it |
| Relay.ReceiveDownKeeps | udptun/client.go:271-295 | a reply handed to a local address came in on a socket dialled for a flow of that address |
| Relay.ReceiveUpKeeps | udptun/server.go:80-99 | a forwarded datagram comes from the address its flow id was given to; keepalives are answered, not forwarded |
| Relay.ServerStepKeeps | udptun/server.go:99-107 | a datagram is written to the socket of its own (client, id), and a pump sends a reply back under its own flow's id |
| Relay.ThreadFlow | udptun/server.go:111-148 | the flow flowFor returns is the one of the requested client and id |
| RelayUp.DatagramsAreGenuine | udptun/client.go:238-268 | in every run, without any bound, each payload written to a socket was read by the client owning the address the socket was dialled for, from the local address it is attributed to |
| RelayUp.NextKeepsUp | udptun/server.go:80-107 | every step of client, network and server keeps what is on its way up genuine |
| FlowIds.SearchEnds | udptun/client.go:209-215 | with fewer than 2^32 - 1 live ids the search ends within (live ids + 2) increments from any counter value, at the first free id |
| FlowIds.SearchEndsIff | udptun/client.go:209-215 | it can end at all if and only if fewer than 2^32 - 1 ids are live |
| FlowIds.ProbedSize | udptun/client.go:211-211 | up to a full turn of the 32-bit counter all candidates differ |
| ClientTable.StepKeepsTwin | udptun/client.go:202-224 | opening or reaping a flow keeps the two maps inverse, with nonzero ids |
| ClientTable.TwinInEveryRun | udptun/client.go:312-322 | the two maps are inverse in every table of every run of openings and reapings |
| ClientTable.CanOpenIff | udptun/client.go:202-224 | a new address can get a flow if and only if fewer than 2^32 - 1 are live |
| ClientTable.OpensOneWay | udptun/client.go:209-223 | the id a new address gets, and the tables then, are determined by the tables and the counter before |
| UdpClient.Client.constructor | udptun/client.go:85-92 | a client starts with an empty table, no transport and counters at zero |
| UdpClient.Client.FlowFor | udptun/client.go:202-224 | a known address gets its flow and nothing changes; a new one gets a fresh flow under the first free id, entered in both maps |
| UdpClient.Client.NextID | udptun/client.go:209-215 | the counter ends at the first nonzero id not live, within (live ids + 2) increments |
| UdpClient.Client.Lookup | udptun/client.go:226-231 | finds exactly the live ids, each with its own address |
| UdpClient.Client.Reap | udptun/client.go:312-322 | exactly the flows idle longer than idleTTL when visited leave, from both maps |
| UdpClient.Client.ViewIsTwin | udptun/client.go:202-224 | a valid client's two maps, read as values, are inverse of each other |
| UdpClient.Client.LocalDatagram | udptun/client.go:238-268 | an oversized datagram is counted and changes nothing else; any other gets its address's flow, known or opened, which is touched, and no other, even if reaped meanwhile; given a transport by then it goes out sealed under that flow's id and a fresh nonce in exactly 24 + n <= MaxPacket bytes, never failing for want of buffer |
| UdpClient.Client.TransportPacket | udptun/client.go:273-295 | a packet yields a reply exactly when it opens to a nonzero id live at the lookup, for that id's address; it touches that flow, even if reaped meanwhile, and no other, and always counts as received |
| UdpClient.Client.KeepAlive | udptun/client.go:324-331 | with KeepAlive above 0 a keepalive is due if and only if none was sent before or the last was at least that long ago; it is attempted exactly when due and a transport is there, is 24 bytes, within MaxPacket if and only if that is at least 24, and opens as flow 0 with no payload |
| UdpClient.Client.WatchdogTick | udptun/client.go:165-177 | closes its own transport exactly if that is current and silent for more than three periods; stops watching a replaced one |
| ServerMachine.SocketsConserved | udptun/server.go:115-211 | in every state of every interleaving each dialled socket is in exactly one place (held by one flowFor, mapped under one key, being closed by one caller, closed) and none is closed twice |
| ServerMachine.OnePumpEach | udptun/server.go:140-147 | a mapped socket has exactly one pump, started or about to be started by the one flowFor that inserted it, and no socket ever gets two |
| ServerMachine.MappedAreAttended | udptun/server.go:147-173 | in every state a mapped flow has a pump still running or about to be started, or a closeFlow of it is still to come |
| ServerMachine.LeavesOnlyByItsOwnClose | udptun/server.go:175-187 | a mapped flow leaves the map at a step if and only if that step is a closeFlow of that very flow; a late one for an older flow leaves it alone |
| ServerMachine.PairsNeverShareSockets | udptun/server.go:110-148 | in every run each key is the key of its flow's client and id, and different pairs have different sockets |
| ServerMachine.NextKeepsInv | udptun/server.go:115-211 | every atomic step keeps the type, place and pump invariants |
| ServerMachine.InsertStep | udptun/server.go:134-147 | the second look under the lock keeps the place, pump and type invariants, whether it inserts or loses |
| ServerMachine.RacersAgree | udptun/server.go:115-148 | however two flowFor calls for one client and id race, unless a closeFlow takes a flow out under their key meanwhile both return the same flow, the mapped one, and no other socket dialled for the key is in the map |
| ServerMachine.OthersLeaveMineAlone | udptun/server.go:115-187 | no interleaving of other threads unowns, maps or closes a socket a thread has dialled or taken out, or starts a pump on one that it holds or is about to start |
| ServerMachine.PlaceOfSocket | udptun/server.go:28-34 | under the invariant a dialled socket has one place and only one |
| UdpServer.Server.InsertLocked | udptun/server.go:134-141 | inserts unless the key is taken, then returns the holder and changes nothing |
| UdpServer.Server.RemoveLocked | udptun/server.go:176-186 | removes exactly this flow object, if it is still the one under its key |
| UdpServer.Server.Snapshot | udptun/server.go:198-205 | exactly the mapped flows idle longer than idleTTL, each once |
| UdpServer.Server.FlowFor | udptun/server.go:115-148 | under interference returns the flow mapped on entry, or else its own or the winner's, inserted and not taken out before the call, or none exactly if the dial fails; it dials one socket at most, which ends up inserted with one pump, or closed with none |
| UdpServer.Server.Install | udptun/server.go:131-147 | the dialled flow wins exactly if its key is free at the second lock |
| UdpServer.Server.CloseFlow | udptun/server.go:175-187 | closes the socket exactly if the flow was mapped, once; otherwise nothing changes |
| UdpServer.Server.Reap | udptun/server.go:197-208 | every flow idle at the snapshot is put out of the map for good; the reaper takes out no other, and closes the socket of each that it takes out |
| UdpServer.Server.Pump | udptun/server.go:151-173 | handles the readings up to the first failure and sends on exactly the replies among them that fit into MaxPacket with their 24-byte header, by increasing index, each opening as its payload under the flow's id, and touches the flow for each; after a failure the flow is out of the map, its socket closed by this pump if it was the one to take it out |
| UdpServer.Server.Serve | udptun/server.go:80-107 | ignores what does not open, answers a keepalive to its sender, and forwards anything else: to the flow mapped for sender and id, or a newly dialled one, touched at that moment; if the write fails that flow leaves the map, and its socket is closed if this call took it out; drops it exactly if there is no flow and the dial fails |
| FlowKeys.ReadAfterMake | udptun/server.go:111-113 | reading a key back at its last separator gives the client and id it was made of, for every client string |
| FlowKeys.FlowKeyInjective | udptun/server.go:111-113 | two keys are equal if and only if client and id are |
| FlowKeys.DecimalReadsBack | udptun/server.go:112-112 | the decimal print of an id parses back and contains no separator |
| FlowKeys.DecimalIsPlain | udptun/server.go:112-112 | the decimal print holds digits only, and no leading zero but that of zero |
| FlowKeys.KeyLooksLike | udptun/server.go:112-112 | one key, written out |
| Packet.OpenAfterSeal | udptun/packet.go:144-178 | whatever is sealed opens to the same id and payload, and is 24 bytes longer than the payload |
| Packet.WireLayout | udptun/packet.go:144-160 | behind decryption stand 16 bytes of nonce, the checksum of all that follows it, the flow id, both low byte first, and the payload |
| Packet.OpenVerdicts | udptun/packet.go:163-178 | too short exactly below 24 bytes; otherwise refused exactly if bytes 16 to 19 are not the checksum of bytes 20 onward |
| Packet.OpenAcceptsExactlySealed | udptun/packet.go:163-178 | Open accepts a datagram as (id, payload) if and only if Seal produces it with some nonce |
| Packet.WindowChangeRejected | udptun/packet.go:172-175 | a plaintext changed inside one four-byte window of id and payload, whatever its nonce, fails the checksum |
| Packet.BurstChangeRejected | udptun/packet.go:172-175 | so does a change inside any 32 consecutive bits, which may touch five bytes |
| Packet.FlowIdChangeRejected | udptun/packet.go:172-177 | a change confined to the flow id never opens as another flow |
| Packet.FirstRepeatIsFirstNonce | udptun/packet.go:115-118 | the first nonce to come up again is the first one issued |
| Packet.NoncesArePeriodic | udptun/packet.go:115-118 | once a nonce repeats, the whole sequence is periodic from its start |
| Packet.NonceGen.Fill | udptun/packet.go:115-118 | each nonce is the block cipher's image of the one before and is what the datagram gets |
| Packet.Codec.Frame | udptun/packet.go:149-153 | writes checksum, id and payload and nothing behind them |
| Packet.Codec.Seal | udptun/packet.go:144-160 | fills exactly 24 + n bytes with the sealed datagram under the next nonce, leaves the rest of the buffer alone, and refuses exactly the buffers that are too small, untouched |
| Packet.Codec.Open | udptun/packet.go:163-178 | decrypts in place, gives the verdict of the format, and the payload is what then stands behind the header |
| Crc32.WindowDetermined | udptun/packet.go:173-173 | equal CRC-32 values (section 8 of RFC 1952) around a four-byte window force equal windows, at any position and length |
| Crc32.BurstDetermined | udptun/packet.go:173-173 | equal CRC-32 values around five bytes that differ only within 32 consecutive bits force equal bytes, whatever bit the difference starts at |
| Crc32.NoCancelling | udptun/packet.go:173-173 | the part of such a difference in the first byte and the part behind it cannot make up for each other |
| Crc32.FourBytesAreOneWord | udptun/packet.go:153-153 | four bytes enter the CRC register as one little-endian word |
| Crc32.UpdateIsTable | udptun/packet.go:153-153 | the byte-wise table step divides the whole mixed register |
| Crc32.RegisterInjective | udptun/packet.go:153-153 | different registers stay different through any common suffix |
| Crc32.StepsInjective | udptun/packet.go:153-153 | dividing by any number of bits loses nothing of the register |
| CrcValues.ChecksumIsRemainder | udptun/packet.go:153-153 | for every message the checksum is the complement of the remainder modulo the 15-term polynomial of degree 32, given by its exponents, bits taken low first, with 32 ones as the initial register (section 8 of RFC 1952) |
| CrcValues.RegisterIsRemainder | udptun/packet.go:153-153 | the register is that remainder after any bytes, from any initial value |
| CrcValues.StepIsTimesX | udptun/packet.go:153-153 | one bit of division multiplies by x modulo the polynomial |
| CrcValues.ChecksumOfCheckBytes | udptun/packet.go:153-153 | the checksum of "123456789" is 0xCBF43926, that of nothing 0 |
| CrcValues.Residue | udptun/packet.go:173-173 | running on over its own checksum leaves the register at 0xDEBB20E3 for every message |
| Watchdog.WatchdogIsSafeAndPrompt | udptun/client.go:122-179 | a watchdog condemns its transport only more than 3K after that was installed or heard from, with at least three keepalives attempted on it since, and within one second after 3K of silence, and closes it in that instant; the silence holds at the close, too, if and only if nothing came in between; a current transport silent for longer than 3K and a second has been closed |
| Watchdog.ClosedWhenHeardFrom | udptun/client.go:172-174 | for every K some run closes a transport in the instant in which it was heard from |
| Watchdog.TimeGoesOn | udptun/client.go:159-179 | from every reachable state the tickers alone lead to a later moment, so the bounds above are met |
| Watchdog.HandsOutOnlyTheCurrent | udptun/client.go:107-148 | in every run the transport handed out is the supervisor's current one, none while it dials, and one taken back is never handed out again |
| Watchdog.SilenceMeansPings | udptun/client.go:324-331 | more than three silent periods mean at least three keepalives on the current transport |
| Watchdog.PingsOnTime | udptun/client.go:324-325 | the next keepalive is never overdue and never more than a period away |
| Watchdog.KeepalivesArePaced | udptun/client.go:298-331 | over every run keepalives are sent one second after the start and then exactly every KeepAlive seconds, none early, late or left out |
| Watchdog.NextKeepsInv | udptun/client.go:107-181 | every step of supervisor, watchdogs, ticker and receipts keeps the invariant |
| WarnLimit.MessagesAreSpaced | udptun/client.go:192-199 | over every interleaving of callers, with any clock, two messages of a counter are at least a second apart |
| WarnLimit.RunKeepsInv | udptun/client.go:192-199 | the counter holds the time of the last message, and messages are spaced, after every run |
| WarnLimit.Counter.Warn | udptun/client.go:192-199 | a message passes only a second or more after the value the counter had on entry, and this call prints it and no other; a suppressed one means less than a second has passed or another caller printed meanwhile; messages stay spaced under interference |
| RawSync.Stabilises | rawtcp/conn_linux.go:143-168 | from any numbers at both ends, once one answer has been given every quiet moment finds each end's seq equal to the other's ack, over bursts of any length, across wraps and ack 0 |
| RawSync.InStepStays | rawtcp/conn_linux.go:228-280 | ends in step are in step again whenever nothing is in flight |
| RawSync.OneBurstSufficesIff | rawtcp/conn_linux.go:148-166 | one burst captured in order brings the ends into step if and only if the receiver's ack is at the edge of one of its segments, or is 0 and some segment takes up sequence space |
| RawSync.FollowedIff | rawtcp/conn_linux.go:164-166 | the same for an acknowledgement number and any contiguous segments |
| RawSync.OneWayIsNotEnough | rawtcp/conn_linux.go:164-166 | a start from which a single segment leaves the ends out of step |
| RawSync.NextKeepsInv | rawtcp/conn_linux.go:148-166 | each send, answer and in-order capture keeps the segments in flight contiguous from the receiver's ack to the sender's seq |
| RawAcks.NumbersAreEarned | rawtcp/conn_linux.go:148-166 | in every run each written segment's Ack is 0 or, modulo 2^32, sequence number plus length plus one each for SYN and FIN of a segment the peer did send and this flow captured, its Seq is the last captured Ack plus the bytes written since, its timestamp echo the last captured clock |
| RawAcks.PayloadsArriveIntact | rawtcp/conn_linux.go:170-280 | in every run whatever is handed over for a segment the peer's WriteTo put on the wire is what that WriteTo was called with, byte for byte |
| RawAcks.StepAtMe | rawtcp/conn_linux.go:235-279 | captures, writes with every outcome, kernel segments, attaching and evicting all keep a flow's numbers equal to what its history says |
| RawAcks.CaptureMatches | rawtcp/conn_linux.go:147-166 | a captured segment leaves the numbers that its history then calls for |
| RawTcp.BuiltFields | rawtcp/conn_linux.go:235-250 | a built segment's end is the flow's next seq, and its timestamp option reads back both clocks |
| RawTcp.BuiltOnTheWire | rawtcp/conn_linux.go:235-269 | a built segment carries the caller's bytes, both ports, the flow's numbers, PSH and ACK only, and options 1, 1 and 8 with both clocks high byte first |
| RawTcp.AnswerNumbers | rawtcp/conn_linux.go:148-166 | after a captured segment that was expected, or the first, the next written one acknowledges its data plus one each for SYN and FIN, modulo 2^32, and starts where it acknowledged |
| RawTcp.FirstTimestamp | rawtcp/conn_linux.go:151-156 | the clock is that of the first option of kind 8 with eight bytes, high byte first |
| RawTcp.PutBE32 | rawtcp/conn_linux.go:249-250 | big-endian encoding reads back |
| RawTcp.FindTimestamp | rawtcp/conn_linux.go:151-156 | the first timestamp option of eight bytes, and no other |
| RawTcp.Flow.Capture | rawtcp/conn_linux.go:143-168 | the flow's new numbers, and whether it had its connection |
| RawConn.Conn.LockFlow | rawtcp/conn_linux.go:78-90 | finds the address's flow or makes one, without connection or handle, with its numbers at 0 and created now, and changes no other |
| RawConn.Conn.CaptureOne | rawtcp/conn_linux.go:142-168 | only the source's flow changes, as the segment calls for |
| RawConn.Conn.WriteTo | rawtcp/conn_linux.go:201-282 | without a handle nothing is sent yet the full length is reported; a segment that cannot be serialised reports 0 and moves nothing; otherwise the caller's bytes go out from this port to that one under the flow's numbers on the flow's handle, and seq advances even if the write fails |
| RawConn.Conn.Attach | rawtcp/conn_linux.go:406-509 | a flow gets its connection, keeping its numbers and its time |
| RawConn.Conn.Clean | rawtcp/conn_linux.go:101-116 | evicts exactly the flows past their time to live, and closes the connections of exactly those that had one |
| RawConn.Conn.CaptureFlow | rawtcp/conn_linux.go:122-180 | captures exactly the segments for its port that it reads, in order; the messages sent are the payload and source of exactly those packets, by increasing index, that are pushed, nonempty and met a flow with its connection; on die all of them but the one in hand |
| RawConn.Conn.Take | rawtcp/conn_linux.go:122-178 | a packet yields a message if and only if it is TCP for the port, with PSH, data and a flow that has its connection in the table it meets; the message is its payload and source |
| RawLife.DeliveryIgnoresSequencing | rawtcp/conn_linux.go:142-178 | histories that differ only in sequence and acknowledgement numbers, other flags, options and amounts written call for the same messages, which are the ones CaptureFlow hands over |
| RawLife.OnlyCapturesDeliver | rawtcp/conn_linux.go:170-178 | whatever happens to the table between two captures of a loop adds nothing to what it hands over |
| RawLife.WrittenIsHandedOver | rawtcp/conn_linux.go:170-269 | a segment built by WriteTo and captured on a flow with its connection hands over exactly the bytes written |
| RawLife.ConnectedIff | rawtcp/conn_linux.go:144-146 | a flow has its connection if and only if it was attached and has not been evicted since |
| RawLife.HandleIff | rawtcp/conn_linux.go:167-167 | a flow's handle is that of its last capture since it was made, and none before the first |
| RawLife.SurvivesIffFed | rawtcp/conn_linux.go:101-116 | a connected flow is never evicted if and only if every cleaner tick comes within a minute of its last capture |
| RawKeepAlive.KeepalivesHoldIff | udptun/client.go:324-331 | with a ping every period, an answer to each one captured and any other traffic, neither cleaner evicts the relay's flow in any run if and only if the period and both delays fit into the minute a flow lives unfed |
| RawKeepAlive.NextKeepsInv | udptun/server.go:90-97 | pings, pongs, their captures and anything else at either end keep the next capture at each end due in time |
| RawKeepAlive.Starves | rawtcp/conn_linux.go:103-114 | with longer delays a run that delivers as late as it may ends with the client's flow evicted |
| RawLife.WriterEvictedInTime | rawtcp/conn_linux.go:93-119 | a connected flow that only writes is evicted between 60 and 65 seconds after its last capture or its creation |
| RawLife.OrphanEvictedInTime | rawtcp/conn_linux.go:103-114 | an orphan is evicted between 5 and 10 seconds after its last capture or its creation |
| RawLife.SilentFlowEvicted | rawtcp/conn_linux.go:103-114 | any uncaptured flow is there up to its time to live and gone at the first tick after it, at most five seconds late; orphans after five seconds |
| Sessions.SessionsConserved | client/main.go:445-477 | with the accept loop at its head every session made is exactly once in a mux slot, the channel, the scavenger's list or among the released |
| Sessions.ServedFromLiveSessions | client/main.go:466-475 | in every run a connection is served from the session its slot held if and only if that was neither closed at the accept nor, with autoExpire, older than that many seconds then; otherwise from one made since; no live session is replaced |
| Sessions.ChannelIsBounded | client/main.go:462-470 | at most 128 sessions wait for the scavenger |
| Sessions.ListStaysOrdered | client/main.go:487-513 | the scavenger's list is in arrival order and sorted by time stamp in every state |
| Sessions.ReleasedInTime | client/main.go:487-513 | from any point of any run a listed session stays listed exactly until a tick finds it over or its ttl passed, and is then released for good; so by the first tick at or after ts + ttl at the latest |
| Sessions.TickReleasesExactly | client/main.go:496-510 | a tick keeps an entry if and only if its session is not over and its ttl, if any, has not passed; the others are released |
| Sessions.SharesStayEven | client/main.go:459-476 | in every run two slots' shares differ by at most accepts/65536 + 1, and by at most 1 if numconn divides 65536 |
| Sessions.TickConserves | client/main.go:497-510 | a tick loses and duplicates no session |
| Sessions.NextKeepsOwners | client/main.go:466-494 | every step of accept loop and scavenger keeps the ownership of sessions |
| Sessions.Scavenger.Tick | client/main.go:496-510 | the new list and the closed sessions are exactly the two halves of the old list, in order |
| Sessions.Scavenger.Receive | client/main.go:493-495 | a session arrives at the end of the list, stamped |
| Sessions.AcceptLoop.constructor | client/main.go:445-459 | every slot starts with its own fresh session and expiry |
| Sessions.AcceptLoop.AcceptOne | client/main.go:466-476 | the slot of the wrapped counter is replaced exactly if closed or expired, its old session goes to the scavenger, and the connection is served by what the slot then holds |
| RoundRobin.ServedDifference | client/main.go:466-476 | the exact difference between two slots after any number of accepts |
| RoundRobin.SlotsDifferLittle | client/main.go:466-476 | it is between 0 and accepts/65536 + 1, lower slots leading |
| RoundRobin.EvenForEverIff | client/main.go:459-476 | it never exceeds 1 if and only if numconn divides 65536 |

## Left out

- UdpServer.Server.FlowFor: says nothing of the whole map at its end, because other threads change it between its two locks; `ServerMachine` follows the map through every step.
- UdpServer.Server.Reap: does not say that a snapshot flow which another thread took out first is closed yet; that thread closes it (`ServerMachine.SocketsConserved`).
- UdpServer.Server.Pump: does not give lastActive at its end, which RunServer may touch at any time; it gives the touches among those made since.
- UdpClient.Client.SetTransport: only stores what supervise hands out; the loop around it is a machine, `Watchdog`.
- RawSync.Stabilises: covers captures in order without loss; with loss and crossing traffic seq may be rewound, and `RawAcks` states what is kept then.
- Watchdog.WatchdogIsSafeAndPrompt: assumes ideal tickers and `KeepAlive` above 0; with 0 the source starts no watchdog.
- RawLife.WriterEvictedInTime: assumes ideal cleaner ticks.
- Packet.FirstRepeatIsFirstNonce: does not bound how soon a nonce repeats, which depends on the AES key.
- Sockets, TTL, fwmark and DSCP settings, buffer sizes, interface enumeration: system calls without decidable content.
- The ciphers, key derivation and the choice of a cipher by name.
- Parsing and serialising of packets by gopacket, and IP and TCP checksums: a segment is a record of its fields.
- The read and write deadlines of the raw connection, `ReadFrom`, and its `Close` and `Cleanup`.
- Shutdown of client and server, which leaves sockets open; no statement is made about states after it.
- A raw `Dial` whose TTL setting fails before the connection is registered.
- The inner workings of kcp-go, smux and snappy, and stream copying.
- Flags, configuration files, logging text, statistics and signal handling.
