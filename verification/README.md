# Network programs: a verified model

This project models four programs of the repository in Dafny and proves what they
guarantee over all inputs and all runs. Where the code does not give what one would
expect of it, the model keeps the code's behaviour, shows a concrete failing run, and
states when the expected behaviour does hold.

Check everything with `dafny verify dfyconfig.toml`.

## What is modelled

**Reliable transport over datagrams** (`Types`, `Sender`, `Receiver`, `Reassembly`,
`Congestion`, `Transport`, `Packing`, `FlowControl`, `Limits`, `Deadlocks`, `Gap`, `Recovery`).
`SendSocket` and `RecvSocket` are the two socket structures with their fields; their methods are the functions of the wrapper,
one critical section each, and every method is proved equal to a function on values.
`Reassembly` proves the shifted deque with its scan for a gap equivalent to a receiver
that just remembers which bytes it got. `Congestion` proves laws of the window over
whole runs of acknowledgements and timeouts. `Transport` puts the steps of all threads
and of a network that loses, duplicates and reorders into one state machine. The path
of the rate thread that sends a new packet is three steps, because the mutex is
released in between. A failed assertion, a division by zero or an index outside a
deque is the outcome `Fault`; a wait is the outcome `Blocked`. `FlowControl` proves that
the receive window is respected across both ends, `Packing` when bytes are taken in and how
they are packed. `Limits`, `Deadlocks` and `Recovery`
say when a connection is dead for good, how it gets there and when a timeout brings it back;
`Gap` says when the packet sent after the unlocked gap is the right one. A timer starts only
when the rate thread finds the window used up, and then fires or is interrupted at any time.

**Stop-and-wait file transfer** (`Hello`, `AlternatingBit`, `Receiving`). `Hello` is the text of the
first packet, as written by the client and parsed by the server. `AlternatingBit` is the
server's receive loop as a class, the client's cutting and retry loops, and both of them
with two FIFO channels that lose and duplicate, timeouts at any moment, and at most ten
tries for each packet. `Receiving` gives the server as a function of any packets it got,
whoever sent them.

**Internet checksum** (`Checksum`). The word loop in 32-bit unsigned arithmetic, the
carry loop, the complement, and the filling of both checksum fields of an echo request,
against the one's-complement addition of RFC 1071, sections 1 and 2.

**Flooding and ledger** (`Peer`, `Decisions`, `Outbox`, `Network`, `Votes`, `Flood`,
`History`, `Arrival`, `Agreement`). The handlers of one node as a class, and any directed graph of nodes that exchange transactions and votes, with the consensus
threads waking up at any time. `Decisions` and `Outbox` read off the history of a node what it
commits and what it sends,
and `History` gives the history of every node in a run of the network.

## Where the code differs from what one would expect

- The transport has no liveness, and losing packets is not even needed to stop it. Without any
  loss or timeout, nine acknowledged packets of one byte use up the window for good, because
  packets are counted off at 1024 bytes each (`Deadlocks.ShortPacketsStarve`); a sender that
  never fills its packets sends a bounded number of them, ever (`FlowControl.ShortPacketsEnd`).
  A receive window that is advertised as zero is never advertised again
  (`Deadlocks.DeadlockReachable`). One lost acknowledgement can be fatal, because packets below
  `prev_ack` are dropped without a new acknowledgement (`Deadlocks.LostAckIsFatal`).
  `Recovery.RecoversIff` gives the exact condition under which a connection with nothing under
  way and a window of one packet delivers anything more.
- The third duplicate acknowledgement sets `cwnd` to the old `ssthresh`, which is half the
  window at the loss before. It halves the window exactly when the two halves agree
  (`Congestion.ThirdDuplicateHalvesIff`); on a new connection it enlarges the window from 11 to
  256 packets (`Congestion.LossEnlargesWindow`).
- `cwnd_cnt` counts bytes while `cwnd` counts packets. The credit law is stated in these
  units.
- After the unlocked gap of the rate thread the packet sent can be outside the window,
  and is then not the one `currptr` stands for. A timer that the application's wake-up left
  running does it (`SendGap.GapOvershoots`). `SendGap.GapKeptIff` says exactly which timeouts
  and acknowledgements in the gap do it.
- `ack_packet.rwnd` is documented in bytes (`Transport wrapper/transport-wrapper.h:52`),
  but carries packets (`Transport wrapper/transport-wrapper.cpp:68`). The model follows the code.
- The 32-bit sum of `calculate_checksum` is exact for all buffers of an even length
  up to 131074 bytes and for no longer length (`Checksum.LengthLimit`). Inserting a checksum and
  verifying it works for every even length nevertheless, since both computations wrap around
  alike (`Checksum.InsertThenVerify`).
- A file whose name has a blank in it is never stored under its name
  (`AlternatingBit.NameCondition`), since the second word is taken for the size
  (`AlternatingBit.TwoWords`). The server can even write to a file it has closed, or fail to
  parse the first packet; `AlternatingBit.NeverFaultsIff` says exactly for which files and names.
- Votes are not relayed: the record of votes already sent compares time stamps only, so
  the vote of a node reaches its neighbours and nobody else (`LedgerNetwork.VotesGoOneHop`).
- A late copy of a transaction resets its tally, and it can then be committed a second time:
  three nodes that know each other are enough (`LedgerAgreement.CommittedTwice`). How often a
  node commits a transaction is given exactly, for every history (`LedgerDecisions.CommitLaw`).
- Ledgers need not agree: a node does not count its own vote, and a vote that arrives before its
  transaction is not counted either, so of two nodes one can commit and the other not
  (`LedgerAgreement.LedgersDiverge`). Two nodes decide alike exactly if the votes that reached
  them since their last copies have the same majority (`LedgerAgreement.DecideAlikeIff`); when
  all votes are in favour, exactly if both or neither of them found a vote
  (`LedgerAgreement.UnanimousDifferIff`).

## Model

| member | source | states |
|---|---|---|
| Common.CDivModExact | Transport wrapper/transport-wrapper.cpp:346-354 | division and remainder of C: truncation toward zero, the two add up to the dividend, and for non-negative operands they are the mathematical ones |
| TransportSender.SendSocket.constructor | Transport wrapper/transport-wrapper.cpp:72-95 | a new socket is in the initial state: windows 5, 10 and 10 packets, threshold 256, nothing acknowledged or buffered |
| TransportSender.SendSocket.SendBufferHandle | Transport wrapper/transport-wrapper.cpp:171-192 | the bytes are appended in order exactly if they all fit into 10240; otherwise nothing changes |
| TransportSender.SendSocket.GetData | Transport wrapper/transport-wrapper.cpp:231-252 | takes the first min(size, 1024) bytes off the send buffer, or nothing when it is empty |
| TransportSender.SendSocket.TimeoutHandler | Transport wrapper/transport-wrapper.cpp:254-269 | halves the threshold (at least 1), sets the window to one packet and goes back to the first unacknowledged packet |
| TransportSender.SendSocket.RateSection | Transport wrapper/transport-wrapper.cpp:277-299 | stops beyond the window, goes for new data just past the buffer, otherwise sends the packet at currptr and advances |
| TransportSender.SendSocket.PushSection | Transport wrapper/transport-wrapper.cpp:289-299 | appends the held data under the next sequence number and sends the last packet of the buffer, whatever happened in the gap |
| TransportSender.SendSocket.GrowWindow | Transport wrapper/transport-wrapper.cpp:338-350 | slow start below the threshold, additive increase with carried remainder from there on, with C's division |
| TransportSender.SendSocket.PopAcked | Transport wrapper/transport-wrapper.cpp:353-359 | the loop removes exactly the given number of packets from the front, ends, and never pops from an empty buffer |
| TransportSender.SendSocket.RepeatedAck | Transport wrapper/transport-wrapper.cpp:323-333 | counts the repeat; the third one moves back to the first unacknowledged packet and changes the window |
| TransportSender.SendSocket.UpdateWindow | Transport wrapper/transport-wrapper.cpp:312-366 | the whole new state for a stale, a repeated and a new acknowledgement |
| TransportReceiver.FirstGap | Transport wrapper/transport-wrapper.cpp:425-430 | the first slot not filled, from a given slot on, or the end of the deque |
| TransportReceiver.RecvSocket.constructor | Transport wrapper/transport-wrapper.cpp:97-105 | a new receiver has an empty deque, the full window, and waits for byte 0 |
| TransportReceiver.RecvSocket.CopyPayload | Transport wrapper/transport-wrapper.cpp:415-423 | after resizing and copying every slot is the payload's, the old one or empty, and rwnd fell by the number of slots newly filled |
| TransportReceiver.RecvSocket.ScanForGap | Transport wrapper/transport-wrapper.cpp:425-430 | the loop finds the first gap from the old prev_ack on |
| TransportReceiver.RecvSocket.RecvBufferHandle | Transport wrapper/transport-wrapper.cpp:400-436 | an old packet is dropped without an acknowledgement, one beyond the window waits, any other is stored and the new prev_ack acknowledged |
| TransportReceiver.RecvSocket.AppRecv | Transport wrapper/transport-wrapper.cpp:500-525 | delivers the first len bytes in order into buf and frees their slots, or waits and changes nothing; the rest of buf is untouched |
| Reassembly.FilledIsCardinality | Transport wrapper/transport-wrapper.cpp:418-423 | the number of filled slots is the number of sequence numbers they stand for |
| Reassembly.WindowIsFreeSpace | Transport wrapper/transport-wrapper.cpp:415-431 | rwnd is 10240 less the bytes received and not read, and always between 1 and 10240 |
| Reassembly.StoreMovesAck | Transport wrapper/transport-wrapper.cpp:425-432 | the scan from the old prev_ack finds the least sequence number never received, counted from 0 |
| Reassembly.ResumeRefines | Transport wrapper/transport-wrapper.cpp:408-433 | storing a packet and acknowledging it does what the set of received bytes says |
| Reassembly.ReadRefines | Transport wrapper/transport-wrapper.cpp:506-522 | reading does what the set of received bytes says, and every slot read is filled |
| Reassembly.DequeRefinesSimple | Transport wrapper/transport-wrapper.cpp:400-525 | for packets in any order with any overlaps and reads in between: no fault, the same waits, acknowledgements and delivered bytes as a receiver that keeps a set of received bytes |
| Reassembly.AckProgress | Transport wrapper/transport-wrapper.cpp:418-432 | prev_ack never decreases, and a packet that starts at it moves it to at least the packet's end |
| Congestion.WinRun | Transport wrapper/transport-wrapper.cpp:254-366 | every run of acknowledgements and timeouts keeps cwnd and ssthresh at 1 or more, the credit non-negative and swnd within its three limits |
| Congestion.SoundAfterAck | Transport wrapper/transport-wrapper.cpp:315-351 | no acknowledgement divides by zero or breaks these bounds |
| Congestion.GrowthBounds | Transport wrapper/transport-wrapper.cpp:338-350 | additive increase spends exactly cwnd bytes of credit for each unit, and the rest is less than cwnd |
| Congestion.AckHistory | Transport wrapper/transport-wrapper.cpp:315-335 | curr_ack is the highest acknowledgement so far and num_dupacks the number of its repeats, through any stale acknowledgements and timeouts |
| Congestion.FastRetransmitIff | Transport wrapper/transport-wrapper.cpp:323-333 | the sender goes back exactly at the third repeat of the highest acknowledgement |
| Congestion.FastRetransmitOnce | Transport wrapper/transport-wrapper.cpp:323-335 | it does so at most once for each acknowledgement number |
| Congestion.CreditLaw | Transport wrapper/transport-wrapper.cpp:341-350 | in congestion avoidance increments weighted with the window before them, plus the final credit, equal the initial credit plus the bytes acknowledged; the window never shrinks |
| Congestion.IncreaseBounds | Transport wrapper/transport-wrapper.cpp:341-350 | hence (c - c0) * c0 is at most the credit, and c * c is at least c0 * c0 plus twice the credit spent |
| Congestion.SlowStartLaw | Transport wrapper/transport-wrapper.cpp:337-340 | below the threshold the window grows by one for each acknowledgement of new data |
| Congestion.TimeoutRecovery | Transport wrapper/transport-wrapper.cpp:257-263 | after a timeout slow start leads back to half the old window and ends with exactly the acknowledgement that reaches it |
| Congestion.ThresholdLaw | Transport wrapper/transport-wrapper.cpp:259-334 | in every run ssthresh is half the window at the last timeout or third duplicate, or the initial 256 |
| Congestion.ThirdDuplicateHalvesIff | Transport wrapper/transport-wrapper.cpp:325-332 | in every run the window after a third duplicate is half the window at the loss before, so it is halved if and only if the two halves agree |
| Congestion.LossEnlargesWindow | Transport wrapper/transport-wrapper.cpp:325-332 | on a new connection three duplicates raise the window from 11 to 256 |
| Congestion.UsableLaw | Transport wrapper/transport-wrapper.cpp:337-351 | in every run rwnd is the window of the last acknowledgement that was above all before it, or 10, and swnd is 5 until the first new acknowledgement or sign of loss and exactly the least of cwnd, that window and 32767 from then on |
| Congestion.OthersChangeNothing | Transport wrapper/transport-wrapper.cpp:315-335 | any other acknowledgement changes nothing but the count of repeats |
| Congestion.CreditKept | Transport wrapper/transport-wrapper.cpp:341-350 | in every run, losses included, cwnd_cnt is exactly the bytes acknowledged in congestion avoidance less the cost of the increments |
| Transport.CutExtends | Transport wrapper/transport-wrapper.cpp:289-292 | a packet pushed under the next sequence number keeps the packets a gapless cut of the stream |
| Transport.AckIsSafe | Transport wrapper/transport-wrapper.cpp:341-359 | no acknowledgement in flight makes tmp negative or larger than pkt_buffer |
| Transport.PushKeeps | Transport wrapper/transport-wrapper.cpp:288-299 | the second critical section keeps the invariant in whatever state it finds the socket |
| Transport.AckKeeps | Transport wrapper/transport-wrapper.cpp:312-366 | an acknowledgement keeps the invariant, short packets included |
| Transport.ResumeKeeps | Transport wrapper/transport-wrapper.cpp:408-433 | storing a packet keeps the invariant: only bytes of the stream, and whole packets, are ever received |
| Transport.StepKeeps | Transport wrapper/transport-wrapper.cpp:171-525 | every step of every thread and of the network keeps the invariant and fails no assertion |
| Transport.NeverFaults | Transport wrapper/transport-wrapper.cpp:285-296 | in no run does an assertion of the sender or receiver fail, an index leave its deque, or a division meet zero |
| Transport.StreamSafety | Transport wrapper/transport-wrapper.cpp:171-525 | the bytes app_recv returned are a prefix of the bytes app_send accepted, in every reachable state |
| Transport.WaitsAtBoundary | Transport wrapper/transport-wrapper.cpp:425-432 | whole packets only are received: the packet that contains byte prev_ack starts at it |
| Transport.NeededPacketKept | Transport wrapper/transport-wrapper.cpp:353-359 | while prev_ack is below byte_seq_num, pkt_buffer holds the packet that starts at prev_ack, although ack / 1024 undercounts short packets |
| Transport.ResendIsCurrent | Transport wrapper/transport-wrapper.cpp:280-297 | on the path without the gap the packet sent is number currptr and in the window |
| Transport.SenderIndices | Transport wrapper/transport-wrapper.cpp:277-300 | pkt_buffer is exactly the packets from baseptr + 1 on, currptr is within it or just past it, and baseptr = curr_ack / 1024 - 1 |
| Transport.CounterOrder | Transport wrapper/transport-wrapper.cpp:315-362 | acknowledgements in flight and curr_ack are at most prev_ack, which is at most byte_seq_num |
| Transport.WindowAccounting | Transport wrapper/transport-wrapper.cpp:409-423 | rwnd is 10240 less the filled slots, the deque has at most 10239 slots, rwnd is between 1 and 10240, also while the receiver waits |
| Transport.ByteConservation | Transport wrapper/transport-wrapper.cpp:175-292 | the accepted bytes are the popped packets, the buffered packets, the bytes held in the gap and the send buffer, in this order; every packet's seq is the number of bytes before it |
| Transport.CongestionSafety | Transport wrapper/transport-wrapper.cpp:258-351 | in every reachable state cwnd and ssthresh are at least 1 and swnd is within its limits |
| Packing.QueueIff | Transport wrapper/transport-wrapper.cpp:175-187 | in every reachable state app_send waits if and only if the bytes accepted and not cut into packets, with the new ones, are more than 10240 |
| Packing.FetchTakesAll | Transport wrapper/transport-wrapper.cpp:233-248 | the thread waits only for an empty send buffer, and takes a full packet from its front or, if that is less, everything |
| Packing.MessageInFullPackets | Transport wrapper/transport-wrapper.cpp:241-292 | of a message accepted before any of it is taken every packet but the last is full, and n bytes take n / 1024 packets, rounded up |
| FlowControl.StepFlow | Transport wrapper/transport-wrapper.cpp:171-525 | every step keeps: the packets cut, the sender's window and every acknowledgement in flight, however stale, end where the receiver has room, at the latest after one more byte is read |
| FlowControl.WaitsForReaderOnly | Transport wrapper/transport-wrapper.cpp:409-413 | the wait for space never needs another packet: for any packet ever sent, if it does not fit there is a byte to read, and reading it makes the packet fit |
| TransportLimits.StuckStep | Transport wrapper/transport-wrapper.cpp:280-406 | no step leads out of a stuck state, moves prev_ack or cuts a packet |
| TransportLimits.StuckForever | Transport wrapper/transport-wrapper.cpp:280-406 | once everything the sender can repeat is below prev_ack and nothing else is under way, no run sends a new packet or delivers another byte |
| FlowControl.PacketsBounded | Transport wrapper/transport-wrapper.cpp:280-359 | 1024 bytes for every packet ever cut, however short, are at most the bytes read plus 10240 |
| FlowControl.ShortPacketsEnd | Transport wrapper/transport-wrapper.cpp:280-359 | a sender whose packets carry at most a given size sends at most 10240 / (1024 - size) packets, ever |
| Deadlocks.DeadlockReachable | Transport wrapper/transport-wrapper.cpp:337-431 | a run without loss, duplication or timeout, of ten full packets and one byte read in between, ends in a connection that is dead for good |
| Deadlocks.LostAckIsFatal | Transport wrapper/transport-wrapper.cpp:302-406 | after a run without loss, duplication or timeout the window of one packet is used up and a timer starts; the one acknowledgement is lost, the timer fires, and the connection is dead for good |
| Deadlocks.ShortPacketsStarve | Transport wrapper/transport-wrapper.cpp:353-359 | nine packets of one byte, all acknowledged, without loss or timeout and with an open receive window, leave a connection that is dead for good |
| SendGap.GapKeptIff | Transport wrapper/transport-wrapper.cpp:285-297 | from a packet in place, an event in the gap leaves it in place if and only if it is harmless: for a timeout or third duplicate an empty buffer and a window of at least one packet, for a new acknowledgement a window that covers the packets after it, and always for everything else |
| SendGap.GapEntered | Transport wrapper/transport-wrapper.cpp:280-288 | the gap is entered only with a packet in its place |
| SendGap.GapOvershoots | Transport wrapper/transport-wrapper.cpp:254-309 | in a run with two timers, of which the acknowledgement interrupts the second, the first fires in the gap: the packet sent is not number currptr and outside the window |
| Recovery.Repeats | Transport wrapper/transport-wrapper.cpp:278-300 | from the first packet of the buffer on, the rate thread sends each packet once and in order as far as buffer and window reach |
| Recovery.LossRepeats | Transport wrapper/transport-wrapper.cpp:257-263 | after a timeout or third duplicate exactly the buffered packets inside the new window are sent again, then new data if window is left, otherwise nothing |
| Recovery.LossInGapRepeats | Transport wrapper/transport-wrapper.cpp:254-300 | after a timeout or third duplicate in the gap the new packet is sent, and then the buffered packets from the second one on, each once and in order, as far as the window reaches |
| Recovery.WindowOfRun | Transport wrapper/transport-wrapper.cpp:254-366 | in every run of the connection its window is the one the congestion laws give for the acknowledgements and timeouts of that run |
| Recovery.OnlyThreadMoves | Transport wrapper/transport-wrapper.cpp:171-366 | acknowledgements, timeouts and app_send do not move the rate thread, cut packets or take bytes |
| Recovery.CurrPtrCounts | Transport wrapper/transport-wrapper.cpp:296-297 | without a sign of loss or a new acknowledgement currptr grows by exactly the packets put on the network |
| Recovery.AckNeverGoesBack | Transport wrapper/transport-wrapper.cpp:353-355 | a new acknowledgement takes currptr to the end of what it covers if it is not there yet, and never back |
| Recovery.Delivers | Transport wrapper/transport-wrapper.cpp:400-436 | a packet that arrives where the receiver is waiting raises prev_ack, after reading one byte if need be |
| Recovery.RecoversIff | Transport wrapper/transport-wrapper.cpp:254-436 | with nothing under way and a window of at most one packet, some run still delivers if and only if the known receive window is not zero and the first buffered packet, if any, is the one awaited |
| Hello.HelloRoundTrip | UDP/Server/udpserver.c:143-146 | the server reads back name, size and number of chunks exactly when the name is not empty and has no blank |
| Hello.AtoiDecimal | UDP/Server/udpserver.c:144-145 | atoi inverts %d for every non-negative number |
| Hello.TokenOf | UDP/Server/udpserver.c:143-145 | strtok gives back a word without blanks and leaves what follows it |
| Hello.AtoiPrefix | UDP/Server/udpserver.c:144-145 | atoi of any word is the value of the digits it starts with, with the sign before them, and reading stops at the first other character |
| Hello.TokenLaw | UDP/Server/udpserver.c:143-145 | strtok on any string skips blanks, yields the word, drops the blank after it, and finds nothing in blanks alone |
| Hello.DecimalDigits | UDP/Client/udpclient.c:120 | a number is printed with digits only and no leading zero |
| AlternatingBit.FileServer.constructor | UDP/Server/udpserver.c:96-98 | the server starts with ack -1 and no file |
| AlternatingBit.FileServer.Receive | UDP/Server/udpserver.c:99-188 | the new state and the replies for a first packet, a duplicate, a chunk and the last chunk |
| FileReceiving.ServerLaw | UDP/Server/udpserver.c:97-188 | after any packets in any order the server's number, file, count, name and size are what those packets say, and it failed exactly at an unreadable first packet or new data with no file open |
| FileReceiving.RepliesLaw | UDP/Server/udpserver.c:133-185 | every packet is answered with its own number, and the data that completes the file with the digest of the file as well |
| AlternatingBit.CutFile | UDP/Client/udpclient.c:150-163 | the reading loop yields the chunks of the file in order with alternating sequence numbers from 1, as many as announced |
| AlternatingBit.SendPacket | UDP/Client/udpclient.c:36-59 | succeeds exactly with the first matching acknowledgement among at most ten replies, and aborts only after ten |
| AlternatingBit.ChunkBounds | UDP/Client/udpclient.c:116-154 | every chunk but the last has 1024 bytes, the last 1 to 1024, and only the last of num_chunks reaches the file's size |
| AlternatingBit.ServeNew | UDP/Server/udpserver.c:151-186 | the next chunk is appended, and it closes the file and reports it exactly if the size expected is reached |
| AlternatingBit.ServeDuplicate | UDP/Server/udpserver.c:128-140 | a repeated chunk changes nothing and is acknowledged again |
| AlternatingBit.ServeFirst | UDP/Server/udpserver.c:141-150 | a first packet, new or repeated, opens an empty file under the name and of the size read from it |
| AlternatingBit.MatchKeeps | UDP/Client/udpclient.c:47-51 | when the client gets its acknowledgement no packet or acknowledgement of an older one is left in either channel |
| AlternatingBit.StepKeeps | UDP/Server/udpserver.c:99-188 | every step of client, server and channels keeps the invariant |
| AlternatingBit.PlainIsSane | UDP/Server/udpserver.c:143-146 | with a name without blanks the server expects the true size, and the condition of the next row holds |
| AlternatingBit.NeverFaultsIff | UDP/Server/udpserver.c:141-157 | in no run does the server fail to parse the first packet or write to a closed file if and only if that packet can be parsed and the size read from it exceeds all chunks but the last |
| AlternatingBit.TwoWords | UDP/Server/udpserver.c:143-145 | of a name of two words the server takes the first for the name and the second for the size |
| AlternatingBit.FileIsPrefix | UDP/Server/udpserver.c:128-155 | the server's file is always the first m chunks, each appended once, with m the client's current chunk or the one before |
| AlternatingBit.CompletionTest | UDP/Server/udpserver.c:156-185 | the test for completion succeeds exactly once, on the last chunk, and the file is then the client's, provided the size read is not more than the file's |
| AlternatingBit.TransferComplete | UDP/Client/udpclient.c:148-163 | when the client's loop ends, the server has the whole file, and under its name if that has no blank |
| AlternatingBit.RetriesBounded | UDP/Client/udpclient.c:38-58 | at most ten datagrams for each of num_chunks + 1 packets; the client gives up only after ten tries of one packet |
| AlternatingBit.OneResultEach | UDP/Client/udpclient.c:39-58 | in every run the client receives once for each datagram, and after any result but the awaited acknowledgement sends again or gives up |
| AlternatingBit.ProgressLaw | UDP/Client/udpclient.c:49-51 | in every run the client is past exactly the packets whose acknowledgement it took, and every datagram counted was put on the channel |
| AlternatingBit.LosslessRun | UDP/Client/udpclient.c:148-163 | without losses every packet is sent exactly once, as far as the server keeps the file open |
| AlternatingBit.CompleteStays | UDP/Server/udpserver.c:128-140 | after completion no run alters the file or reports it again |
| AlternatingBit.NameCondition | UDP/Server/udpserver.c:143-150 | a transfer can end with the file under its name if and only if the name has no blank |
| Checksum.ByteOrder | ping/p.c:68-69 | the word sum is 256 times the bytes at even offsets plus those at odd offsets |
| Checksum.NoOverflow | ping/p.c:63-70 | up to 131074 bytes the sum fits into 32 bits |
| Checksum.FoldKeepsOnes | ping/p.c:72-75 | a round of the carry loop keeps the value modulo 65535 and whether it is zero, and decreases it |
| Checksum.FoldTwice | ping/p.c:72-75 | two rounds bring every 32-bit sum below 65536 |
| Checksum.Fold | ping/p.c:72-79 | carry loop and complement give 65535 less the one's-complement value, in at most two rounds |
| Checksum.CalculateChecksum | ping/p.c:60-80 | the loops compute the complement of the one's-complement value of the 32-bit word sum |
| Checksum.DeferredCarries | ping/p.c:66-75 | folding the plain sum once equals adding word by word with end-around carry |
| Checksum.FoldOfParts | ping/p.c:66-75 | the fold of a concatenation is the fold of the sum of its parts' folds |
| Checksum.LengthLimit | ping/p.c:60-80 | for an even length the checksum is the one's-complement one for all buffers if and only if the length is at most 131074 |
| Checksum.InsertThenVerify | ping/p.c:120-127 | storing the checksum in a zeroed field at an even offset makes the recomputed checksum zero |
| Checksum.FillChecksums | ping/p.c:115-127 | the two fields hold the checksums of the buffer with both fields zero, both headers verify afterwards, and no byte outside the fields changes |
| LedgerPeer.Broadcast | public-ledger/p2p.cpp:130-139 | one message to every neighbour but the one left out, and to nobody else |
| LedgerPeer.BroadcastExact | public-ledger/p2p.cpp:130-139 | exactly one message for each time a node is listed as a neighbour, and none to the one left out |
| LedgerNode.Node.constructor | public-ledger/p2p.cpp:69-76 | a node starts with empty histories and ledger and the initial money of every user |
| LedgerNode.Node.SendToNeighbours | public-ledger/p2p.cpp:130-139 | the loop sends exactly the messages of a broadcast |
| LedgerNode.Node.BroadcastTransaction | public-ledger/p2p.cpp:113-141 | resets the tally, and forwards a transaction seen for the first time |
| LedgerNode.Node.BroadcastVote | public-ledger/p2p.cpp:143-168 | sends a vote unless one was sent for the same time stamp |
| LedgerNode.Node.ReceiveTransaction | public-ledger/p2p.cpp:170-229 | forwards, checks the payer's money and broadcasts the node's own vote to all neighbours |
| LedgerNode.Node.ReceiveVote | public-ledger/p2p.cpp:231-245 | counts the vote if the tally is open, ignores it otherwise |
| LedgerNode.Node.ReachConsensus | public-ledger/p2p.cpp:192-209 | commits with more votes for than against, and closes the tally in any case |
| LedgerPeer.TransferConserves | public-ledger/p2p.cpp:203-204 | a commit leaves the total money unchanged, also when payer and payee are the same |
| LedgerPeer.ConsensusBalanced | public-ledger/p2p.cpp:192-209 | a decision keeps balances equal to initial money plus replay of the ledger |
| LedgerDecisions.TallyLaw | public-ledger/p2p.cpp:113-245 | after any history a tally is open exactly if a copy was the last copy or decision, and holds the votes counted since |
| LedgerDecisions.LedgerLaw | public-ledger/p2p.cpp:192-245 | after any history the ledger grew by exactly the transactions of the decisions that found more votes in favour than against since the last copy |
| LedgerDecisions.CommitLaw | public-ledger/p2p.cpp:192-245 | a transaction was committed exactly as often as such a decision on it was made |
| LedgerDecisions.WinsPerCopy | public-ledger/p2p.cpp:113-209 | which is at most as often as copies of it arrived |
| LedgerDecisions.MajorityRule | public-ledger/p2p.cpp:192-245 | after a copy and any further messages and decisions on other transactions, the decision commits exactly if more votes that came are in favour than against |
| LedgerDecisions.NoCopyNoCommit | public-ledger/p2p.cpp:192-245 | without an open tally and without another copy nothing commits the transaction |
| LedgerDecisions.AgreeIff | public-ledger/p2p.cpp:192-245 | two nodes with any histories decide alike if and only if the votes counted since their last copies have the same majority |
| LedgerOutbox.KnowsLaw | public-ledger/p2p.cpp:121-154 | after any history both histories of a node hold exactly the transactions it got a copy of |
| LedgerOutbox.OutLaw | public-ledger/p2p.cpp:113-229 | after any history a node answers the first copy of a transaction with copies for all neighbours but the sender and its vote, for or against by its ledger, for all neighbours, and sends nothing else |
| LedgerOutbox.RelayIff | public-ledger/p2p.cpp:143-244 | a vote counted by a node that has not voted on it is passed on to all neighbours but the sender, any other is not |
| LedgerNetwork.StepKeeps | public-ledger/p2p.cpp:113-245 | every handler at every node keeps the network's invariant |
| LedgerNetwork.FloodCoverage | public-ledger/p2p.cpp:113-141 | with no copy under way, the nodes that have a transaction are exactly those reachable from its originator |
| LedgerNetwork.AtMostOnce | public-ledger/p2p.cpp:113-168 | each node forwards a transaction at most once and votes on it exactly if it forwarded it, once |
| LedgerNetwork.VotesGoOneHop | public-ledger/p2p.cpp:143-168 | every vote on its way was sent by its voter to a neighbour |
| LedgerNetwork.TalliesAreKnown | public-ledger/p2p.cpp:219-245 | between handlers every open tally belongs to a transaction in both histories |
| LedgerNetwork.BalancesMatchLedger | public-ledger/p2p.cpp:192-209 | at every node and for every user the balance is the initial money plus the replay of that node's ledger, and the total is constant |
| LedgerVotes.CastStep | public-ledger/p2p.cpp:170-229 | every step keeps: each vote ever cast says whether the ledger its voter had then leaves the payer enough money, and each vote under way was cast |
| LedgerVotes.VoteFollowsLedger | public-ledger/p2p.cpp:170-190 | every vote on its way is one its sender cast, and is in favour exactly if the ledger the sender had then, still the beginning of its ledger, leaves the payer enough money |
| LedgerFlood.MeasureStep | public-ledger/p2p.cpp:113-141 | each delivery of a copy lowers the copies under way plus the edges out of nodes without the transaction, and no step raises this sum |
| LedgerFlood.FloodTerminates | public-ledger/p2p.cpp:113-141 | in every run at most as many copies of a transaction are delivered as the graph has edges |
| LedgerFlood.NoVoteCountedTwice | public-ledger/p2p.cpp:231-245 | a tally never exceeds the number of neighbours that voted, late copies included |
| LedgerHistory.LocalRun | public-ledger/p2p.cpp:211-259 | in every run of the network a node is what its own history of copies, votes and decisions makes it |
| LedgerHistory.LedgerFromHistory | public-ledger/p2p.cpp:192-245 | in every run of the network the ledger of every node is exactly its decisions that found a majority, and it holds a transaction as often as such decisions on it |
| LedgerHistory.CommitsIff | public-ledger/p2p.cpp:192-209 | a decision in a run of the network commits if and only if the votes that reached the node since its last copy have a majority in favour |
| LedgerArrival.VotesArrive | public-ledger/p2p.cpp:143-168 | in every run, for every node and both answers, the votes delivered and under way to it are exactly the votes its neighbours cast |
| LedgerArrival.CastsOnce | public-ledger/p2p.cpp:143-229 | a node has cast a vote on a transaction if and only if it has it, and then exactly one |
| LedgerAgreement.DecideAlikeIff | public-ledger/p2p.cpp:192-245 | two decisions in runs of the network come out alike if and only if those majorities are the same |
| LedgerAgreement.UnanimousCommitsIff | public-ledger/p2p.cpp:192-245 | when all votes cast are in favour, a decision commits if and only if a vote was counted since the last copy |
| LedgerAgreement.UnanimousDifferIff | public-ledger/p2p.cpp:192-245 | then two decisions differ if and only if exactly one of them found no vote |
| LedgerAgreement.LedgersDiverge | public-ledger/p2p.cpp:231-241 | two nodes end with different ledgers, everything delivered and decided, when a vote overtakes its transaction |
| LedgerAgreement.CommittedTwice | public-ledger/p2p.cpp:113-229 | in a run of three nodes, without loss or duplication, one of them commits a transaction twice |

## Left out

- Liveness of the transport: the code does not give it; `Deadlocks` and `Recovery` say when it fails.
- Alternating-bit transfer under reordering: one bit cannot tell old packets apart then; channels are FIFO, with adjacent duplication.
- Sockets, DNS, threads, signals and mutexes: a locked region is one atomic step, a wait is a step that cannot be taken yet, and a method that would wait returns without effect.
- `is_timeout` and `ssock.prev_ack`: written and never read.
- `skip_timeout` and `timeout_t`: they decide whether a stop starts a timer and which timer an acknowledgement interrupts; in the model every stop may start one, and any sleeping timer may fire or be interrupted at any moment.
- Connection setup (`app_connect`, `app_accept`, `conn_request_handler`) and session lookup: the model starts from one established connection and follows one direction of it.
- C integer widths of sequence numbers, windows, sizes and money: mathematical integers; only the checksum's 32-bit sum wraps.
- Local variables of `rate_control` that survive its unlocked gap are fields of `SendSocket`.
- Negative lengths passed to `app_send` and `app_recv`.
- Checksums of odd lengths: the loop then reads one byte past the buffer.
- The md5 sum: it is the file it was computed from; the client's final comparison of it is not modelled.
- Bounds of 1024 and 100 bytes on the text of the first packet and on file names, and white space other than the blank before a number.
- Several clients of one file server at a time, and a second transfer after the first.
- Loss and duplication between ledger nodes: every message is delivered at most once, in any order.
- Transactions of the ledger with equal time stamps: the maps cannot tell them apart, so a new transaction carries a new stamp; `ctime` has a resolution of one second.
- 1-based neighbour ids against the 0-based `user_info`: one numbering of nodes.
- Ledger handlers interleaved with each other: each runs atomically.
- Console and topology parsing, `viewledger`, the statistics and the reply check of `ping`.
- The chat program and both TCP programs: thin loops over the operating system's TCP.
