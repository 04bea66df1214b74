# A verified model of the reliable transport over UDP

The repository moves one file from a sender to a receiver over UDP. `src/rtp.cpp` builds that from a handshake, a
sliding window with cumulative ACKs and Reno-style congestion control, a buffering receiver and a FIN exchange;
`src/util.c` guards every packet with a CRC-32. This project models both programs and proves what they promise
together, for every file, every random start number and everything the channels may lose, repeat, reorder or damage.

The model has four layers.

* **Bytes.** `RegisterAlgebra` and `Crc32` define CRC-32 bit by bit and prove the table-driven loop equal to it;
  `ByteNumbers` and `Datagram` fill the packed structs in place and decide which datagrams are accepted.
* **Endpoints.** `SequenceNumbers`, `Packets`, `Segmentation` and `Congestion` hold the arithmetic. `SenderSide` and
  `ReceiverSide` say what one loop iteration does to the fields, as functions. `RtpEndpoint` is the class `Rtp` with
  its own fields and loops, each method proved to do what those functions say; `Routines` puts the two `main`
  programs on top of it.
* **System.** `TransferSystem` composes a sender, a receiver and two channels. A channel is the set of all packets
  ever sent, so delivering any of them any number of times or never is duplication, reordering and loss; a damaged
  packet is dropped by its checksum and is a loss too. One step is one loop iteration of either program, fed by a
  `Turn`: the packets that arrive, and whether the deadline and the retransmission timer have passed. Either process
  may also stop at any send whose result it looks at, as it does when `sendto` fails; the fast retransmit
  (`src/rtp.cpp:943`) ignores its result, so there a failing send is a loss.
* **Results.** `TransferInvariant` is one joint invariant. `TransferTheorems`, `StreamRefinement`,
  `TransferProgress`, `TransferCompletion`, `TransferEndings`, `PacketLoss` and `NumberRefinement` draw the
  conclusions. `SenderWindow`, `ReceiverOrder` and `WaitingLoops` hold for one endpoint against any peer: they say by
  what arrives, and without the code, what each loop does. `EndToEnd` joins the layers.

For safety it is enough that a packet may never be delivered. What can still happen after a loss is another question:
there `PacketLoss` takes packets out of the channels for good, at any moment of a run.

The start number `x`, the file, and what the fields of the two objects hold before anything sets them (the constructor
leaves `seq_num`, `seq_base` and the FIN fields as they were) are parameters of every transfer.

A turn reads only packets that were sent before it began. Only the send loop sends before it waits, and one of its
turns is the same as a turn that sends and reads nothing followed by one that waits (`SplitTurn`, `SplitStep`), so an
ACK for a packet can still be read in the very wait that follows it.

Where the code and its comments or evident intent part, the code is modelled, and the difference is stated exactly:

* `recv_file_gbn` can report success with packets missing (`src/rtp.cpp:988-991`). `SuccessCompleteExactly` says when,
  for any peer; `NoEarlyExit` proves the branch closed when the peer is this sender.
* The window inflation meant for fast recovery (`src/rtp.cpp:953-958`) is never reached; every further duplicate ACK
  takes the third-duplicate branch again and pulls the window towards 6 (`WindowBounded`, `RecoveryConverges`).
* A receiver whose `seq_base` happens to be above the peer's number can take no packet numbered 2^30 or more.
  `CompletableExactly` gives the transfers that can complete; the others stay safe and never leave the send loop.
* File sizes are 32 bits wide; `RoundTrip` gives the exact bound, 2^32 - 1461 bytes.
* The late check of `recv_file_gbn` comes before the completion check (`src/rtp.cpp:986-1001`), so a complete transfer
  can still end in the timeout exit. `CompleteEndsExactly` says that this happens exactly if the receiver's next turn
  is late, and `CompleteCanFail` that every transfer that can be completed can come to that point. Late means that ten
  seconds have passed since the last packet; as receiving the FIN restarts that clock (`src/rtp.cpp:164`) and the next
  look at it comes about 5 ms later, the process has to be stalled for that long.
* Two packets are not sent again. `wait_close` answers a latched FIN once and returns (`src/rtp.cpp:563-578`), so when
  that FIN&ACK is lost the file is written and `close` can no longer succeed (`FinAckOnce`). `connect` repeats the handshake ACK
  for two seconds only (`src/rtp.cpp:352-386`), so when it is lost and no SYN&ACK comes in that time, `wait_connect`
  can no longer succeed (`HandshakeAckOnce`). `CanCloseExactly` gives all the states from which `close` can still succeed.

## Model

| member | source | states |
|---|---|---|
| SequenceNumbers.DecodeEncode | src/rtp.cpp:19-26 | an encoded number is below 2^30, and decoding returns it exactly if it lies in [base, base + 2^30) |
| SequenceNumbers.DecodeEncodeHighBase | src/rtp.cpp:19-26 | with a base 2^30 too high, numbers below 2^30 decode 2^30 too high and wrapped ones decode to themselves |
| SequenceNumbers.SuccessorEncodes | src/rtp.cpp:27-30 | the 32-bit increment is the encoding of the next number, also at the wrap |
| SequenceNumbers.EncodeCongruent | src/rtp.cpp:23-26 | every encoded number differs from its number by a multiple of 2^30 and is below 2^30; a negative one comes out at the top of 32 bits |
| SequenceNumbers.DecodeExactly | src/rtp.cpp:19-22 | for any base and any 32-bit number a peer may send, decoding adds 2^30, in 32 bits, exactly to the numbers below the base |
| Packets.ReadUntilHit | src/rtp.cpp:219-252 | waitfor returns the first packet whose flags match exactly; packets of every other kind change nothing of it |
| Packets.ReadUntilLatches | src/rtp.cpp:146-155 | a FIN is latched only while connected, only from a FIN that arrived, and never replaced |
| Packets.FirstFinLatched | src/rtp.cpp:146-155 | a wait latches a FIN exactly if it reads one while connected, from the start or by an earlier SYN, and then the first such FIN |
| Packets.OpenedExactly | src/rtp.cpp:157-160 | an open connection stays open through a wait, and waiting for a SYN opens it exactly if one comes |
| Crc32.TableRunDivides | src/util.c:12-13 | from any start and for any message the table loop keeps the complement of the standard register |
| Crc32.TableRunIsCrc | src/util.c:15-19 | started from 0, the table loop computes bit-serial CRC-32 with all-ones start and final complement |
| Crc32.FirstEntryNonzero | src/util.c:10-11 | entry 0 of the table is not zero, so the lazy-fill condition tells a filled table from a fresh one |
| Crc32.BurstDetected | src/util.c:3-14 | two different messages of one length that agree outside 32 consecutive bits have different checksums |
| Crc32.GeneratorExponents | src/util.c:4-5 | the feedback word is the generator of RFC 1952, section 8: exponents 0, 1, 2, 4, 5, 7, 8, 10, 11, 12, 16, 22, 23 and 26 |
| Crc32.CheckValue | src/util.c:15-19 | the digits 1 to 9 have the check value 0xCBF43926 |
| Crc32.Checksum.Crc32ForByte | src/util.c:3-6 | the eight rounds compute the table entry of the index |
| Crc32.Checksum.Crc32 | src/util.c:8-14 | fills the table if it is fresh, leaves every entry right, and returns the state after the whole message |
| Crc32.Checksum.ComputeChecksum | src/util.c:15-19 | returns the bit-serial CRC-32 of the bytes, at the first call and at every later one |
| Datagram.PacketWrapper | src/rtp.cpp:176-189 | the struct becomes the datagram of a DAT packet with number, length, CRC and payload in place, zero behind it |
| Datagram.HeaderWrapper | src/rtp.cpp:192-201 | the struct becomes the datagram of a packet without payload |
| Datagram.WireLayout | src/rtp.h:32-48 | number, length and checksum stand on the wire with their low byte first, then flags and payload; the checksum is the CRC with zeros in its place |
| Datagram.WireFlags | src/rtp.h:23-29 | SYN is 1, ACK 2, FIN 4, DAT 0, their pairs 3 and 6, and a header has 11 bytes |
| Datagram.WireSizes | src/rtp.h:20 | exactly the payloads of at most 1461 bytes fit a packet, of 1472 bytes in all |
| Datagram.RecvPacket | src/rtp.cpp:98-145 | -1 exactly for a null buffer or a failing recvfrom; otherwise accepts exactly by length and CRC over the buffer and by the peer's address, returns the size or 0, and leaves the buffer as it came, its checksum field zero after a checksum error |
| Datagram.AcceptsExactly | src/rtp.cpp:116-125 | a datagram of the right length is accepted exactly if its checksum field is the CRC of its other bytes |
| Datagram.IntactAccepted | src/rtp.cpp:116-133 | every wrapped packet is accepted and read back field by field, whatever the buffer held before |
| Datagram.BurstRejected | src/rtp.cpp:116-125 | every error within 32 consecutive bits outside the length and checksum fields is rejected |
| Datagram.ChecksumErrorRejected | src/rtp.cpp:116-125 | every error inside the checksum field is rejected |
| Segmentation.TotalPackets | src/rtp.cpp:711 | no 32-bit sum or product wraps: the packets end at or behind the file size and the last one starts before it |
| Segmentation.SegmentLength | src/rtp.cpp:716 | every length is in 1..1461, and the segments end where the next begins or at the file size |
| Segmentation.SegmentOffset | src/rtp.cpp:717 | the 32-bit offset does not wrap and the slice stays inside the buffer |
| Segmentation.InOrderContiguous | src/rtp.cpp:783-788 | a map without gaps is written as its payloads in order, and its size is the number of keys |
| Segmentation.InOrderAscending | src/rtp.cpp:783-788 | any map, also one with gaps, is written as its payloads in ascending order of the keys |
| Segmentation.FullButTheLast | src/rtp.cpp:713-717 | packet i carries the bytes from 1461 i to 1461 (i + 1) of the file, the last one what is left |
| Segmentation.RoundTrip | src/rtp.cpp:699-719 | packing a file and writing the packets back in key order gives the file, exactly if it has at most 2^32 - 1461 bytes |
| Congestion.ReactKeeps | src/rtp.cpp:888-959 | every ACK or timeout keeps cwnd >= 1, ssthresh >= 2, the duplicate count in 0..3, recovery exactly at 3 with cwnd = ssthresh + 3, and bounds the growth |
| Congestion.WindowBounded | src/rtp.cpp:929-959 | over every sequence of ACKs and timeouts the window is at most 6 plus the new ACKs, and the inflation branch is never reached |
| Congestion.SlowStartGrowth | src/rtp.cpp:912-917 | below ssthresh k new ACKs add exactly k segments |
| Congestion.TimeoutRestarts | src/rtp.cpp:855-858 | after a timeout the window is 1 and climbs by one per new ACK up to half its old size |
| Congestion.RecoveryHalvesOnce | src/rtp.cpp:927-952 | two duplicate ACKs change nothing, the third sets half the window plus 3, and the next new ACK leaves half the window |
| Congestion.RecoveryConverges | src/rtp.cpp:930-952 | k further duplicate ACKs divide the distance of the window from 6 by exactly 2^k |
| Congestion.RecoveryExactly | src/rtp.cpp:857-951 | after every sequence of ACKs and timeouts the duplicate count is the number of duplicate ACKs at its end, up to 3, and the transfer is in recovery exactly if that is 3 or more |
| Congestion.AvoidanceGrowth | src/rtp.cpp:909-923 | k new ACKs in congestion avoidance raise the square of the window by 2k to 3k, and the window by at most 1 if k is at most its size |
| Congestion.AvoidanceRate | src/rtp.cpp:918-922 | from ssthresh on, one new ACK adds 1/cwnd and clears the duplicate count |
| SenderWindow.WholeTransferWindow | src/rtp.cpp:829-959 | against any peer, over a whole first transfer cwnd <= 6 + packets acknowledged and next - base < 1 + the peak window |
| SenderWindow.TransferDriven | src/rtp.cpp:820-967 | against any peer, over a whole first transfer that is in time, base, last ACK, congestion state and the end of the loop are those of the ACKs and timeouts its turns bring, compared with the greatest number acknowledged so far |
| SenderWindow.TurnSends | src/rtp.cpp:829-951 | every turn fills the window, or reaches the end of the file, and sends each new packet once and in order, after a timeout all that is outstanding, and the packet at base exactly for the third or a later duplicate ACK in a row |
| SenderWindow.AckDrives | src/rtp.cpp:884-964 | one ACK moves base past it, or counts as a duplicate and repeats base from the third on, or does nothing |
| SenderWindow.AckWithoutPacket | src/rtp.cpp:927-951 | duplicate ACKs for a packet that is not in the map are only counted |
| SenderSide.WindowFull | src/rtp.cpp:829 | the fill loop stops only past the file or with next - base at least cwnd |
| SenderSide.StoredExactly | src/rtp.cpp:829-848 | packets that are all there are sent once each, in order |
| WaitingLoops.LateSenderEnds | src/rtp.cpp:820-826 | past their deadlines send_file_gbn and close fail and connect returns 0, and nothing is sent any more |
| WaitingLoops.LateReceiverEnds | src/rtp.cpp:415-580 | past its deadline every loop of the receiver is left, and nothing is sent any more |
| WaitingLoops.ConnectLoop | src/rtp.cpp:290-350 | for any peer, connect ignores SYN&ACKs with a wrong number, sends the SYN once more after every silent wait and gives up after the fifty-first, and fails at an error; the right SYN&ACK is answered with the ACK for x+1 |
| WaitingLoops.SettleLoop | src/rtp.cpp:352-391 | for any peer, every further SYN&ACK with the right number is answered once, and connect returns 0 at the deadline unless an error comes first |
| WaitingLoops.ListenLoop | src/rtp.cpp:405-443 | for any peer, nothing is sent and only a FIN is latched until a SYN comes in time; the first one fixes the numbers and is answered, and the deadline or an error before it fails |
| WaitingLoops.AcceptLoop | src/rtp.cpp:445-493 | for any peer, wait_connect succeeds exactly if the ACK with the right number comes before the deadline and any error, and repeats the SYN&ACK after every silent wait |
| WaitingLoops.CloseLoop | src/rtp.cpp:508-558 | for any peer, close succeeds exactly if the FIN&ACK with the right number comes before the deadline and any error, and repeats the FIN after every silent wait |
| WaitingLoops.FinLoop | src/rtp.cpp:561-625 | for any peer, wait_close answers a latched FIN at once; otherwise it sends nothing until the FIN with the next number comes, answers that, and fails at the deadline or an error before it |
| WaitingLoops.LingerLoop | src/rtp.cpp:626-665 | for any peer, every further FIN with the right number is answered once, and wait_close returns 0 at the deadline unless an error comes first |
| SenderSide.SplitTurn | src/rtp.cpp:829-884 | filling and resending without reading anything and then waiting, the timer not expired again, is the whole turn: the second fill sends nothing |
| ReceiverOrder.ArrivalsDecide | src/rtp.cpp:1016-1028 | after any DAT arrivals the map holds exactly the numbers seen, each with its first packet, and recv_base is the least not seen |
| ReceiverOrder.AckIsGreatestContiguous | src/rtp.cpp:1024-1036 | every ACK is for the greatest number up to which everything has arrived |
| ReceiverOrder.OrderIrrelevant | src/rtp.cpp:1016-1028 | the receiver's state depends only on the set of packets that arrived: order and repetition change nothing |
| ReceiverOrder.ReceiveLoop | src/rtp.cpp:984-1046 | for any peer, as long as recv_file_gbn runs its state is that of the DAT packets read, it has sent one ACK for each and nothing else, and the first FIN is latched |
| ReceiverOrder.ReceiveLoopEnds | src/rtp.cpp:984-1001 | for any peer, the next turn ends it exactly if it is late or all data before the FIN has come, with success in the second case and in the first only with a FIN beyond the data |
| TransferSystem.TransferOf | src/rtp.cpp:277-279 | every start number, file and leftover field value of either object is a transfer of the model: none is excluded |
| TransferInvariant.ReachableInv | src/rtp.cpp:803-1050 | every run, also one in which a process stops at a failed send, keeps the joint invariant over both endpoints and all packets in flight |
| TransferTheorems.JointWindow | src/rtp.cpp:811-1047 | x+1 <= base <= expected <= next <= x+n+1; DATs in flight were sent, ACKs in flight are for passed numbers, the receiver's map is part of the sender's |
| TransferTheorems.FileDelivered | src/rtp.cpp:745-796 | whatever recv_file writes is what the sender carries, and it is the file exactly up to the size bound |
| TransferTheorems.ReceivedIsPrefix | src/rtp.cpp:1016-1028 | at every moment of recv_file the gapless payloads are a prefix of the file |
| TransferTheorems.FinMeansComplete | src/rtp.cpp:496-507 | a FIN in flight means that the receiver holds every packet, and it carries the number after the last one |
| TransferTheorems.NoEarlyExit | src/rtp.cpp:986-995 | in every run a latched FIN is never beyond the data received, so a late loop never reports success |
| TransferTheorems.EarlyExitFromStrangePeer | src/rtp.cpp:986-991 | a FIN that comes too early and then silence make the receiver alone return 0 with a packet missing |
| TransferTheorems.SuccessCompleteExactly | src/rtp.cpp:984-1001 | for any peer, after a return of 0 everything before the FIN is in the map exactly if the last turn was not late |
| TransferTheorems.WaitCloseImmediate | src/rtp.cpp:563-577 | after a successful recv_file_gbn, wait_close answers the FIN at once |
| TransferTheorems.CloseMeansWritten | src/rtp.cpp:514-557 | if close returns 0, the receiver has already written the whole file |
| TransferTheorems.FinNumbersAgree | src/rtp.cpp:561-577 | the FIN&ACK number, computed from the size of the receiver's map, is the number of the FIN |
| TransferTheorems.HandshakeAgreement | src/rtp.cpp:296-341 | once connect or wait_connect has returned 0 both sides hold x, up to 2^30 |
| TransferTheorems.SeqBaseAfterHandshake | src/rtp.cpp:429-431 | after wait_connect seq_base is x if its old value was at most x, and x + 2^30 otherwise |
| TransferTheorems.DataAfterSync | src/rtp.cpp:296-345 | no DAT is sent before the receiver has fixed its numbers |
| TransferTheorems.WireNumbers | src/rtp.cpp:19-30 | every number put on the wire is a 30-bit encoding that the sender's base decodes to a number of the transfer, also across the wrap |
| StreamRefinement.StepRefines | src/rtp.cpp:978-1050 | each step is a step of a reliable stream: bytes only appear in order, and the end only when all have come |
| StreamRefinement.RunRefines | src/rtp.cpp:745-796 | every run, also one in which a process stops at a failed send, is seen from the receiver a run of the stream of the file |
| TransferProgress.RemainingNeverRises | src/rtp.cpp:888-896 | no run raises the number of unacknowledged packets |
| TransferProgress.SplitStep | src/rtp.cpp:820-967 | a turn of the send loop is two steps of the system, one that sends and one that waits, and receiver turns can come between them |
| TransferProgress.TimeoutResendsWindow | src/rtp.cpp:828-875 | after the fill loop something is outstanding, and a timeout sends all of it |
| TransferProgress.DeliveriesCover | src/rtp.cpp:1009-1037 | after deliveries in any order and repetition every packet delivered is held, and the last ACK is just below the number expected |
| TransferProgress.AckMovesBase | src/rtp.cpp:884-893 | a turn that reads the ACK for k moves the base just past k, unless it is there already |
| TransferProgress.RoundProgress | src/rtp.cpp:852-896 | a timeout resend, fully delivered, and its last ACK move the base to next: fewer packets remain |
| TransferProgress.RoundsFinish | src/rtp.cpp:820-968 | no run has more complete rounds than packets, and one with that many has left the send loop, whatever happens between the rounds |
| TransferCompletion.RoundExists | src/rtp.cpp:820-968 | whenever both loops are running, a complete round can follow |
| TransferCompletion.CanFinish | src/rtp.cpp:820-971 | from every state in which both loops are running, the sender can still get through close |
| TransferCompletion.StuckBelowWrap | src/rtp.cpp:1012-1016 | a receiver that started above x stops at 2^30: nothing is written and the send loop is never left |
| TransferCompletion.CompletableExactly | src/rtp.cpp:429-431 | a completing run exists exactly if seq_base was at most x or the transfer ends by 2^30 |
| TransferEndings.CompleteEndsExactly | src/rtp.cpp:984-1001 | once the FIN is latched, the next turn of recv_file writes the whole file and succeeds exactly if it is not late; late it fails and writes nothing |
| TransferEndings.CompleteCanFail | src/rtp.cpp:986-1001 | every transfer that can be completed has a run in which the receiver holds everything and the FIN, and a late turn still makes it fail |
| TransferEndings.ReachableFlow | src/rtp.cpp:271-558 | in every run the phase of each side tells which of SYN, ACK, FIN and FIN&ACK have been sent, and FIN&ACK exactly by a receiver that is done |
| PacketLoss.CanCloseExactly | src/rtp.cpp:496-558 | from any state of any run, whatever has been lost for good on the way, close can still return 0 exactly if the receiver can take every number and the sides are in reach: each still repeats what the other waits for, or the SYN, handshake ACK or FIN&ACK it no longer repeats is not lost |
| PacketLoss.AnyLossExactly | src/rtp.cpp:271-391 | the states in which the loss of everything in flight, or of any part of it, leaves close a chance: connecting with a retry left or with the receiver waiting for the ACK, in the two seconds after that ACK, and with the receiver in its loop |
| PacketLoss.NoLossExactly | src/sender.cpp:25-41 | if everything sent can still arrive, close can still return 0 exactly if neither side has failed and the receiver can take every number |
| PacketLoss.FinAckOnce | src/rtp.cpp:561-578 | every transfer that can be completed can come to a state in which the file is written and the loss of one packet, the FIN&ACK, ends every chance that close returns 0 |
| PacketLoss.HandshakeAckOnce | src/rtp.cpp:343-391 | every transfer that can be completed can come to a state in which connect has returned 0 and the loss of one packet, the handshake ACK, ends every chance that close returns 0 |
| NumberRefinement.StepSame | src/rtp.cpp:19-30 | each step on wire numbers is, decoded, the same step on unbounded numbers |
| NumberRefinement.WireRunRefines | src/rtp.cpp:19-30 | the same turns, with their packets decoded, take the program on wire numbers and the one on numbers that never wrap the same way |
| NumberRefinement.WireRefinesUnbounded | src/rtp.cpp:19-30 | every run on wire numbers, also one in which a process stops, is, decoded, event by event a run of the same program on numbers that never wrap, with the same phases, windows, map and file |
| RtpEndpoint.Rtp.constructor | src/rtp.h:86-88 | the congestion fields and addrlen get their initial values, the other fields keep whatever they had |
| RtpEndpoint.Rtp.RecvPacket | src/rtp.cpp:134-164 | the first FIN of a connection is remembered, and the first SYN opens the connection |
| RtpEndpoint.Rtp.WaitFor | src/rtp.cpp:207-267 | in any state, returns 0 and the first packet with exactly these flags, -1 if the wait ends in an error or 1 if it times out, latches the FIN that came before it, and opens the connection on a SYN |
| RtpEndpoint.Rtp.AwaitSynAck | src/rtp.cpp:296-351 | one wait of connect: answered, wrong number, resend after the timeout, or error |
| RtpEndpoint.Rtp.AnswerSynAck | src/rtp.cpp:355-386 | one wait of the two seconds after the handshake ACK |
| RtpEndpoint.Rtp.Connect | src/rtp.cpp:271-391 | whatever turns it meets, fields, packets sent and result are those of the sender's handshake |
| RtpEndpoint.Rtp.SendWindow | src/rtp.cpp:828-848 | with every packet stored that it comes to, the fill loop ends, sends exactly the stored packets up to the end of the window, and stops only past the file or with the window full |
| RtpEndpoint.Rtp.ResendWindow | src/rtp.cpp:852-872 | a timeout sets the congestion state and sends all of [base, next) in order |
| RtpEndpoint.Rtp.CountNewAck | src/rtp.cpp:901-925 | a new ACK ends recovery or grows the window by the slow-start or avoidance amount |
| RtpEndpoint.Rtp.CountDuplicate | src/rtp.cpp:927-958 | a duplicate ACK is counted, and the third and every later one repeats base and sets the window, both only if base is in the map |
| RtpEndpoint.Rtp.TakeAck | src/rtp.cpp:884-964 | a cumulative ACK slides the window, a duplicate is counted, an old one is ignored, whatever the map holds |
| RtpEndpoint.Rtp.SendOnce | src/rtp.cpp:820-967 | one iteration of the send loop is one sender turn, in fields and packets |
| RtpEndpoint.Rtp.SendFileGbn | src/rtp.cpp:803-971 | the send loop is a sequence of sender turns, returns 0 exactly when base passes the highest number, and never changes the map |
| RtpEndpoint.Rtp.PackFile | src/rtp.cpp:699-719 | the packing loop in 32-bit arithmetic adds exactly the packets of the file to the map, and an entry already there stays as it is |
| RtpEndpoint.Rtp.SendFile | src/rtp.cpp:691-739 | packs, sends, empties the map and moves seq_num past the file; from an empty map, exactly the packets of the file |
| RtpEndpoint.Rtp.Close | src/rtp.cpp:496-558 | sends the FIN with the next number and repeats it after silent waits; returns 0, and disconnects, exactly if the right FIN&ACK comes before the deadline and any error, and -1 at the first of these |
| RtpEndpoint.Rtp.WaitConnect | src/rtp.cpp:396-493 | whatever turns it meets, fields, packets sent and result are those of the receiver's handshake |
| RtpEndpoint.Rtp.StoreAndAck | src/rtp.cpp:1012-1043 | a DAT is buffered unless known, recv_base moves to the first gap, and the ACK is just below it |
| RtpEndpoint.Rtp.ReceiveOnce | src/rtp.cpp:984-1046 | one iteration of the receive loop is one receiver turn, in fields and packets |
| RtpEndpoint.Rtp.RecvFileGbn | src/rtp.cpp:978-1050 | the receive loop is a sequence of receiver turns |
| RtpEndpoint.Rtp.WriteFile | src/rtp.cpp:783-787 | writes every payload of the map in ascending key order |
| RtpEndpoint.Rtp.RecvFile | src/rtp.cpp:745-796 | on success writes the map, empties it and adds its size to seq_num; otherwise writes nothing |
| RtpEndpoint.Rtp.WaitClose | src/rtp.cpp:561-665 | answers a latched FIN at once, otherwise waits for it, answers it and lingers |
| Routines.SenderOfRun | src/sender.cpp:9-44 | in every run of the system, the sender and its channel are what its own turns make of them |
| Routines.ReceiverOfRun | src/receiver.cpp:7-54 | in every run of the system, the receiver, its channel and its file are what its own turns make of them |
| Routines.SenderRoutine | src/sender.cpp:9-44 | the sending program on the class ends with the fields, the packets and the result of the system's sender after the same turns |
| Routines.ReceiverRoutine | src/receiver.cpp:7-54 | the receiving program on the class ends with the fields, the packets, the file and the result of the system's receiver after the same turns |
| EndToEnd.PacketsSurviveTheWire | src/rtp.cpp:116-133 | every packet of every run fits its struct, and its datagram is accepted and read back unchanged |
| EndToEnd.ProgramsDeliver | src/sender.cpp:25-41 | in every run, when the sending program has returned from close, the receiving program has written the file |
| EndToEnd.TransferFile | src/sender.cpp:25-41 | the two programs on the class, fed with the turns of any run: if the sending one returns 0, so does the receiving one, and it has written the file |

## Left out

What the class `Rtp` does not show of a failing call: a send that fails ends the method with an error and with it the
process, except in the fast retransmit. In the composed system every such ending is a step (`SenderStopping`, `ReceiverStopping`), and all results
about reachable states hold with them; the methods below state what happens when no send fails.

- RtpEndpoint.Rtp.SendPacket: always succeeds; the -1 of a failing `sendto` is not a result of it.
- RtpEndpoint.Rtp.AwaitSynAck: the error return when a SYN or ACK cannot be sent.
- RtpEndpoint.Rtp.AnswerSynAck: the error return when the ACK cannot be repeated.
- RtpEndpoint.Rtp.Connect: the error returns of failing sends.
- RtpEndpoint.Rtp.ResendWindow: the error return when a resend fails.
- RtpEndpoint.Rtp.SendOnce: the error returns of failing sends; the retransmission timer is an input (`rto`), so where `base_send_time` is reset is not modelled, and every timing the code can show is among the turns.
- RtpEndpoint.Rtp.SendFileGbn: the -1 after a failing send.
- RtpEndpoint.Rtp.SendFile: an input file that cannot be opened or read, and the -1 after a failing send.
- RtpEndpoint.Rtp.Close: the error returns of failing sends.
- RtpEndpoint.Rtp.WaitConnect: the error returns of failing sends.
- RtpEndpoint.Rtp.StoreAndAck: the exit after an ACK that cannot be sent.
- RtpEndpoint.Rtp.ReceiveOnce: the exits after a failing allocation and after an ACK that cannot be sent.
- RtpEndpoint.Rtp.RecvFileGbn: the exits after a failing allocation and after an ACK that cannot be sent.
- RtpEndpoint.Rtp.RecvFile: the exit when the output file cannot be opened; in the system it is a `ReceiverStopping` with nothing saved.
- RtpEndpoint.Rtp.WaitClose: the error returns of failing sends.
- RtpEndpoint.Rtp.SendWindow: a map that lacks a packet the loop comes to; there the source's loop never ends, and its precondition leaves out exactly those maps.
- RtpEndpoint.Rtp.RecvPacket: the time stamp; the comparison of the source address is in `Datagram.RecvPacket`.
- RtpEndpoint.Rtp.WaitFor: time is an input; the arrivals of one wait are given as a sequence, and whether it ends in a `poll` or `recvfrom` error is the turn's `fault`.
- Datagram.BurstRejected: errors that reach the length or checksum field together with other bytes; no detection is promised for them.
- Congestion.ReactKeeps: `double` rounding; the window sizes are real numbers.
- Congestion.AvoidanceGrowth: `double` rounding; the bounds are those of the exact real sums.
- SenderWindow.WholeTransferWindow: an ACK-flagged datagram that carries a payload; the source copies it whole into the 11-byte `ack_header` of `src/rtp.cpp:878` (`memcpy` at line 239), and what follows from that is not modelled. This receiver never sends one.
- TransferSystem: damaged packets outside the proved error class are taken as dropped by the checksum.
- NumberRefinement.WireRefinesUnbounded: transfers that end at 2^30 or later behind a `seq_base` above x; for them `StuckBelowWrap` and `CompletableExactly` say what happens.
- Sockets, address setup, `malloc` and leaks, logging, the simulated-loss block, `dec_seq32`, and command lines.
- A second transfer or connection on one object, several peers, and packets of earlier connections.
- The second half of `wait_close` and its lingering are modelled in `ReceiverSide` and `RtpEndpoint`; in the composed system they are never entered, because `wait_close` always follows a latched FIN.
- The packet maps are values that the methods reassign, as the source's `std::map` is a field; ownership of the heap packets they point to is not modelled.
