# NetTransfer, verified model

NetTransfer moves files between machines of one local network. Devices find each other by UDP
broadcasts, a sender offers a file over an encrypted TCP connection, the receiving user accepts or
rejects, the file travels in chunks, and the receiver acknowledges it after comparing SHA-256 digests.
A receiver only shows offers of devices whose certificate fingerprint its user has trusted.

This project models that behaviour in Dafny and proves what it promises, for every file, every peer
and every interleaving.

| file | content |
|---|---|
| `Bytes.dfy` | bytes, fixed-width unsigned integers, big-endian fields |
| `Crc32.dfy` | bit-serial CRC-32, its algebra, and the table-driven code that refines it |
| `CrcReference.dfy` | the checksum as the remainder of a polynomial division |
| `Header.dfy`, `Payloads.dfy`, `Framing.dfy` | the wire format and its parsers |
| `Files.dfy` | the digest loop and the choice of a free file name |
| `Sending.dfy`, `Receiving.dfy` | both peers as functions from state and callback to state and output |
| `SenderCallbacks.dfy`, `ReceiverCallbacks.dfy` | both peers as objects, each handler proved equal to one step |
| `Trust.dfy` | fingerprints, trust store and pending decision |
| `Channels.dfy`, `Transfers.dfy` | the joint system: one receiver, any number of sessions, cuttable byte streams |
| `SessionInvariant.dfy`, `ReceiverInvariant.dfy`, `TransferSafety.dfy` | the invariant of the joint system |
| `SenderRuns.dfy` | what a sender writes and reports over whole runs against any peer |
| `TransferTheorems.dfy`, `TransferProgress.dfy` | safety, conservation and progress of transfers |
| `TransferHistory.dfy` | what in the past of a run explains a stall, a trusted device and the name of a stored file |
| `DeviceTable.dfy`, `DiscoveryHistory.dfy`, `DiscoveryNetwork.dfy` | the device table, its history, and many services on one network |

## How the transfer is modelled

Each asynchronous handler is one atomic step. A connection is two channels; a channel keeps everything
ever written, how much of it has arrived and how much has been read, so delivery may split the stream
anywhere and a disconnect (possible in every state) freezes what has arrived. A world holds the receiver,
the trust gate and all sessions so far; a session's peer is either this program's sender or a foreign
peer that writes arbitrary bytes. Old sessions keep running while the receiver serves new ones. Each
session carries the log of what the receiver did in it: the offer shown to the user, the decision, the
data bytes stored, the acknowledgement and the completion reports. `Reachable` quantifies over all runs
from a listening receiver over an arbitrary folder. SHA-256 is a parameter of every statement, so nothing
depends on which function it is.

Discovery is modelled on bytes in the same way: a datagram in flight is what the sending service built,
it may be lost, and a delivery runs the listener's handler on its 512-byte buffer with whatever earlier
datagrams left in it. Every service has its own clock.

Three results go against what one might expect of the code, each with the inputs that show it and the
exact condition:

- A receiver that hits one of the early returns of `listenForConnections` or `accept` never listens
  again (`TransferTheorems.StalledForever`). One failed handshake is enough
  (`TransferHistory.StallIsReachable`), and a receiver has stalled exactly when such a return was taken
  (`TransferHistory.StalledIff`).
- The sender does not always report. For every file there is a run that sends all of it and ends silently
  because the receiver's acknowledgement is negative (`Sending.SilentOnBadChecksum`), and one that ends
  silently on an unexpected reply (`Sending.SilentOnStrangeReply`); exactly those endings are silent
  (`Sending.EndsSilentlyIff`). Against this program's own receiver they never happen
  (`TransferTheorems.ReportsAtMostOnce`).
- A service is heard by others exactly when its name has at most 486 bytes
  (`DeviceTable.AnnouncementIsHeard`); a longer name, as far as its length field describes it, makes the
  listener look beyond its buffer (`DeviceTable.AnnouncementIsReadable`).

## Model

| member | source | states |
|---|---|---|
| `Bytes.PushBigEndian` | src/core/protocol.cpp:67-69 | the push loop appends the lowest bytes of the value, most significant first |
| `Bytes.ReadBigEndian` | src/core/protocol.cpp:114-119 | the read loop yields the unsigned value of the bytes and advances the counter past them |
| `Bytes.ValueOfBigEndian` | src/core/protocol.cpp:192-194 | decoding an encoded value gives it modulo 256 to the field width, for all values |
| `Bytes.BigEndianOfValue` | src/core/protocol.cpp:223-229 | encoding a decoded field gives back its bytes |
| `Crc32.Engine.Entry` | src/core/protocol.cpp:24-33 | the inner loop computes eight register steps of the index |
| `Crc32.Engine.FillTable` | src/core/protocol.cpp:22-35 | every table slot holds eight register steps of its index, whatever it held before |
| `Crc32.Engine.Crc32` | src/core/protocol.cpp:19-43 | the table-driven loop equals the bit-at-a-time reflected CRC-32 for strings of every length and every earlier table content |
| `CrcReference.CrcIsRemainder` | src/core/protocol.cpp:7-43 | the checksum of every string is the inverted remainder of its bits, the first 32 inverted and 32 zeros behind, divided by x^32+x^26+x^23+x^22+x^16+x^12+x^11+x^10+x^8+x^7+x^5+x^4+x^2+x+1 |
| `CrcReference.PolynomialIsGenerator` | src/core/protocol.cpp:7-7 | the constant of the code is that generator without its leading power, bit-reversed |
| `Crc32.StepsLinear` | src/core/protocol.cpp:25-32 | any number of register steps is linear over exclusive or |
| `Crc32.StepBijective` | src/core/protocol.cpp:26-31 | the register step is a bijection, with its inverse |
| `Crc32.FeedIsXorThenSteps` | src/core/protocol.cpp:37-40 | feeding up to 32 message bits one by one equals mixing them in at once and then stepping |
| `Crc32.EightSteps` | src/core/protocol.cpp:38-39 | eight steps split into a shift by 8 and a table look-up |
| `Crc32.TableByte` | src/core/protocol.cpp:38-39 | one table look-up equals clocking the eight bits of the byte |
| `Crc32.BurstDetected` | src/core/protocol.cpp:19-43 | messages that differ only inside a burst of at most 32 bits, at any bit offset, end in different registers, and only those |
| `Crc32.WindowDetected` | src/core/protocol.cpp:19-43 | byte strings that differ only inside four consecutive bytes have equal checksums exactly when they are equal |
| `Header.SerializeHeader` | src/core/protocol.cpp:50-84 | writes the 22 header bytes with the checksum of the first 18 |
| `Header.DeserializeHeader` | src/core/protocol.cpp:94-154 | answers with the fields or with a refusal, as the header specification says |
| `Header.HeaderRoundTrip` | src/core/protocol.cpp:50-154 | parsing serialised headers gives the header with its checksum filled in, or a refusal exactly for foreign magic or version |
| `Header.HeaderLayout` | src/core/protocol.cpp:50-84 | which byte of a built header holds what: NTFR, version 1, type, session id, payload length, checksum |
| `Header.HeaderExact` | src/core/protocol.cpp:94-154 | every accepted 22 bytes are reproduced by serialising the parsed header |
| `Header.HeaderAcceptedIff` | src/core/protocol.cpp:137-153 | the parser answers with a header exactly for the bytes of that sealed header |
| `Header.BurstRejected` | src/core/protocol.cpp:137-144 | an accepted header hit by one burst of at most 32 bits in its covered part is refused |
| `Header.WindowRejected` | src/core/protocol.cpp:137-144 | an accepted header changed inside any four consecutive covered bytes is refused |
| `Payloads.SerializeOffer` | src/core/protocol.cpp:172-212 | the push loops write the offer layout |
| `Payloads.DeserializeOffer` | src/core/protocol.cpp:214-292 | the parser's answer depends only on the first `len` bytes, although it may look at two more |
| `Payloads.OfferRoundTrip` | src/core/protocol.cpp:172-292 | decoding an encoded offer gives every field, the device name cut modulo 65536, exactly when the file name length fits 16 bits |
| `Payloads.OfferLayout` | src/core/protocol.cpp:172-212 | which byte of an encoded offer holds what, for names of every length |
| `Payloads.OfferReencodes` | src/core/protocol.cpp:214-292 | an accepted input is at least 52 bytes plus both names long and begins with the encoding of the answer |
| `Payloads.OfferAcceptedIff` | src/core/protocol.cpp:214-292 | an input decodes to an offer exactly when both names fit 16 bits and it begins with that offer's encoding |
| `Payloads.SerializeError` | src/core/protocol.cpp:355-371 | writes the code, the 16-bit length and as many bytes as it says |
| `Payloads.DeserializeError` | src/core/protocol.cpp:373-401 | answers as the error payload specification says, malformed input included |
| `Payloads.ErrorRoundTrip` | src/core/protocol.cpp:355-401 | every error payload decodes to its code and its message cut modulo 65536 |
| `Payloads.SerializeDiscovery` | src/core/protocol.cpp:403-421 | writes the port, the 16-bit length and as many bytes as it says |
| `Payloads.DeserializeDiscovery` | src/core/protocol.cpp:423-458 | answers as the discovery payload specification says, malformed input included |
| `Payloads.DiscoveryRoundTrip` | src/core/protocol.cpp:403-458 | every discovery payload decodes to its port and its name cut modulo 65536 |
| `Payloads.ShortLayouts` | src/core/protocol.cpp:355-421 | which byte of an encoded error or discovery payload holds what |
| `Payloads.AckRoundTrip` | src/core/protocol.cpp:336-353 | both verdicts survive the wire, and any nonzero byte means yes |
| `Framing.BuildMessage` | src/core/transfer.cpp:194-200 | header and payload form one frame |
| `Framing.UniqueFraming` | src/core/transfer.cpp:471-504 | reading 22 header bytes and then the announced payload recovers exactly the frames that were written |
| `Framing.ReadingReencodes` | src/core/transfer.cpp:471-504 | on any stream the frames read and the unread rest are the stream |
| `Framing.FramingSurvivesDelivery` | src/core/transfer.cpp:471-504 | however delivery splits the bytes, the frames read are those written |
| `Files.HashFile` | src/core/transfer.cpp:46-58 | the digest loop feeds the hash exactly the bytes of the file |
| `Files.ResolveFilePath` | src/core/transfer.cpp:603-616 | returns the name if free, else the least free numbered variant, within as many probes as the folder has entries |
| `Files.Pigeonhole` | src/core/transfer.cpp:611-614 | a folder of n entries cannot hold the name and n of its numbered variants |
| `Files.NumberedInjective` | src/core/transfer.cpp:613-613 | different counters give different names |
| `Files.NumberedShape` | src/core/transfer.cpp:608-613 | a numbered name is the stem, a space, the decimal number in parentheses, and the extension |
| `Files.NumberedKeepsExtension` | src/core/transfer.cpp:608-613 | a numbered name has the extension of the name exactly unless the name is two dots |
| `Sending.EndsSilentlyIff` | src/core/transfer.cpp:110-265 | in every run against any peer, a sender that has ended made no report exactly when its last callback was a negative acknowledgement or a message of unexpected type, and one report otherwise |
| `Sending.SilentOnStrangeReply` | src/core/transfer.cpp:148-152 | for every file and every type but accept and reject, a run that ends without a report |
| `Sending.SilentOnBadChecksum` | src/core/transfer.cpp:251-257 | for every file, a run in which all of it is sent and the sender still ends without a report |
| `SenderRuns.SenderWrites` | src/core/transfer.cpp:67-225 | in every run against any peer the sender writes a beginning of its script: something exactly if connection and handshake succeeded, and more than the offer exactly after an accept |
| `SenderRuns.FailureEnds` | src/core/transfer.cpp:67-212 | a failed connection, handshake, write or read, wherever it comes in a run, is the end, with a failure report |
| `SenderRuns.FailureIff` | src/core/transfer.cpp:67-265 | a failure is reported exactly after such a failure or a rejection |
| `SenderRuns.SuccessIff` | src/core/transfer.cpp:228-258 | success is reported exactly after an acknowledgement with a nonzero byte, and then the whole script was written |
| `Sending.SenderCountsAndReportsOnce` | src/core/transfer.cpp:187-265 | against any peer the byte counter never falls, is the written less the header bytes of all completed chunk writes, is the file size once done is sent, and completion is reported at most once |
| `SenderCallbacks.TransferSender.Start` | src/core/transfer.cpp:31-85 | opens, measures and hashes the file, or returns false and changes nothing |
| `SenderCallbacks.TransferSender.OnConnect` | src/core/transfer.cpp:67-70 | the connect handler is the model's step |
| `SenderCallbacks.TransferSender.OnHandshake` | src/core/transfer.cpp:72-82 | the handshake handler is the model's step: the offer, or a failure report and nothing written |
| `SenderCallbacks.TransferSender.SendOffer` | src/core/transfer.cpp:87-105 | writes the offer frame of the job |
| `SenderCallbacks.TransferSender.SendNextChunk` | src/core/transfer.cpp:187-225 | writes the next chunk frame, or the done frame at the end of the file |
| `SenderCallbacks.TransferSender.OnReplyHeader` | src/core/transfer.cpp:110-153 | the reply handler is the model's step for accept, reject, other types and errors |
| `SenderCallbacks.TransferSender.OnNoise` | src/core/transfer.cpp:126-128 | a payload behind an accept is skipped and a read error there is ignored |
| `SenderCallbacks.TransferSender.OnReason` | src/core/transfer.cpp:132-147 | a rejection is reported as a failure |
| `SenderCallbacks.TransferSender.OnChunkWritten` | src/core/transfer.cpp:202-212 | a completed write adds its data bytes to the counter and sends the next chunk; a failed one, however much it wrote, is reported and counts nothing |
| `SenderCallbacks.TransferSender.OnAckHeader` | src/core/transfer.cpp:228-262 | the acknowledgement header handler is the model's step |
| `SenderCallbacks.TransferSender.OnAckPayload` | src/core/transfer.cpp:242-258 | the acknowledgement handler reports success for a nonzero byte only |
| `Receiving.SettledGrows` | src/core/transfer.cpp:405-564 | no callback touches a finished file, and it finishes at most one more: the one it reports, with the announced hash |
| `ReceiverCallbacks.TransferReceiver.OnConnection` | src/core/transfer.cpp:323-338 | an accepted connection starts the handshake, a failed accept listens again |
| `ReceiverCallbacks.TransferReceiver.OnHandshake` | src/core/transfer.cpp:338-350 | the handshake handler is the model's step |
| `ReceiverCallbacks.TransferReceiver.OnOfferHeader` | src/core/transfer.cpp:349-375 | the offer header handler is the model's step, early returns included |
| `ReceiverCallbacks.TransferReceiver.OnOfferPayload` | src/core/transfer.cpp:376-399 | the offer is stored and raised exactly when the gate knows the certificate; otherwise the connection is closed |
| `ReceiverCallbacks.TransferReceiver.Accept` | src/core/transfer.cpp:405-416 | writes the accept frame under the pending session id |
| `ReceiverCallbacks.TransferReceiver.OnAcceptWritten` | src/core/transfer.cpp:417-433 | creates an empty file under a free name |
| `ReceiverCallbacks.TransferReceiver.Reject` | src/core/transfer.cpp:436-451 | writes the reject frame under the pending session id |
| `ReceiverCallbacks.TransferReceiver.OnRejectWritten` | src/core/transfer.cpp:452-465 | closes the connection and listens again, also after a write error |
| `ReceiverCallbacks.TransferReceiver.CleanupFailedTransfer` | src/core/transfer.cpp:558-564 | from any state the stream is closed afterwards, and exactly the file it was writing, if any, is gone |
| `ReceiverCallbacks.TransferReceiver.GiveUp` | src/core/transfer.cpp:549-553 | cleaning up, reporting and listening again are the model's failure step |
| `ReceiverCallbacks.TransferReceiver.OnChunkHeader` | src/core/transfer.cpp:471-555 | the header handler is the model's step for chunk, done, other types and errors |
| `ReceiverCallbacks.TransferReceiver.FinishTransfer` | src/core/transfer.cpp:505-547 | hashes the stored file, acknowledges the verdict with 1 or 0, removes a file that does not match, reports |
| `ReceiverCallbacks.TransferReceiver.OnChunkPayload` | src/core/transfer.cpp:489-504 | appends the chunk to the file and counts its bytes in 64 bits |
| `SessionInvariant.SenderKeeps` | src/core/transfer.cpp:67-265 | every sender callback keeps the session invariant and leaves the receiver's log alone |
| `SessionInvariant.AckLost` | src/core/transfer.cpp:228-250 | after done a read fails only if the connection was cut or the receiver gave up without a positive acknowledgement |
| `ReceiverInvariant.ReceiverKeeps` | src/core/transfer.cpp:323-564 | every receiver callback keeps the session invariant and the receiver's place in the sender's script |
| `ReceiverInvariant.OwnDone` | src/core/transfer.cpp:505-529 | when done arrives from this program's sender, the stored bytes are the whole file |
| `TransferSafety.ActionKeeps` | src/core/transfer.cpp:15-564 | every action of sender, receiver, user, network and foreign peer keeps the invariant of the joint system |
| `TransferSafety.StillListening` | src/core/transfer.cpp:331-336 | a failed accept leaves the receiver as it was, listening |
| `TransferTheorems.SuccessMeansStored` | src/core/transfer.cpp:187-265 | in every run a sender's success report means that the receiver reported success and stored a new file equal to the sender's, byte for byte |
| `TransferTheorems.StoredMeansSuccessOrLostAck` | src/core/transfer.cpp:505-547 | once the receiver reports success the sender succeeds too, still waits, or was cut off from the acknowledgement |
| `TransferTheorems.FolderIsClean` | src/core/transfer.cpp:405-564 | in every run the original files are unchanged and every other file, except one being received, is the complete result of one accepted session with the hash its own offer announced; while listening no file is open |
| `TransferTheorems.ReportsAtMostOnce` | src/core/transfer.cpp:468-556 | per session at most one receiver report, only for a raised and accepted offer, and exactly one once the receiver has moved on; exactly one sender report when the sender ends |
| `TransferTheorems.OffersAreTrusted` | src/core/transfer.cpp:383-398 | an offer is raised only for a certificate whose fingerprint is in the store |
| `TransferTheorems.OffersAreTrue` | src/core/transfer.cpp:87-105 | a raised offer of this program's sender has the true size, name and hash of the file, the sender's device name and no resume offset |
| `TransferTheorems.TrustNeverShrinks` | src/core/NetTransfer.cpp:416-436 | in every run of the joint system the trust store never loses a fingerprint |
| `TransferTheorems.BytesAreConserved` | src/core/transfer.cpp:187-225 | what the sender wrote reads back as one offer, the chunks so far and at most one done; its counter is the completed data bytes |
| `TransferTheorems.SentFramesAreRight` | src/core/transfer.cpp:87-225 | what the sender wrote, in plain numbers: an offer of type 0x10 with the true description, chunks of type 0x20, at most one done of type 0x13 with the hash |
| `TransferTheorems.ChunksFit` | src/core/transfer.cpp:187-200 | the chunk count is the size over 32746 rounded up, no chunk is empty, and each fits the receiver's buffer behind a header |
| `TransferTheorems.ChunksAreFile` | src/core/transfer.cpp:187-200 | the chunks concatenate to the file |
| `TransferTheorems.ReceiverCountsEverything` | src/core/transfer.cpp:273-273 | the receiver's counter is the data stored over all sessions, in 64 bits |
| `TransferTheorems.RepliesCarryId` | src/core/transfer.cpp:405-466 | every answer of the receiver carries the session id of the peer's offer |
| `TransferTheorems.RepliesAreRight` | src/core/transfer.cpp:405-547 | for every peer the receiver writes nothing, a reject with the user's reason, or an accept and then 1 if the stored bytes have the announced hash, else 0; its report agrees |
| `TransferTheorems.OneSessionId` | src/core/transfer.cpp:87-105 | all frames of a session in both directions carry the sender's session id |
| `TransferTheorems.StalledForever` | src/core/transfer.cpp:338-381 | a stalled receiver never serves a session again |
| `TransferHistory.StalledIff` | src/core/transfer.cpp:338-431 | in every run the receiver has stalled exactly when some callback before took one of the early returns |
| `TransferHistory.StallIsReachable` | src/core/transfer.cpp:342-346 | over every folder and trust store one failed handshake leads to a stalled receiver |
| `TransferHistory.StoredUnderFreeName` | src/core/transfer.cpp:423-427 | in every run a received file, kept or dropped by its verdict, is reported under the name that resolving the offered name gave when it was created: the name itself if free, else its least free numbered variant |
| `TransferHistory.TrustIsByConsent` | src/core/NetTransfer.cpp:416-440 | in every run of the joint system a fingerprint enters the store exactly by a trust that follows the refusal of an offer with that certificate, with no other refusal, trust or ignore between, and under the name in that offer |
| `TransferHistory.PendingInRun` | src/core/NetTransfer.cpp:267-302 | in every run of the joint system a device waits for the user exactly from its refusal to the next refusal, trust or ignore |
| `TransferProgress.OwnPeersUnderstandEachOther` | src/core/transfer.cpp:349-388 | in every reachable state all that this program's peers can read from each other parses, and chunks fit the buffer |
| `TransferProgress.CleanStepProgresses` | src/core/transfer.cpp:187-265 | each action of an error-free accepted transfer strictly raises bytes written, delivered, read and phase |
| `TransferProgress.ElsewhereKeeps` | src/core/transfer.cpp:318-403 | nothing that other sessions, new connections or trust decisions do touches the transfer or its progress |
| `TransferProgress.CleanStepExists` | src/core/transfer.cpp:187-265 | an error-free accepted transfer never gets stuck before both sides have reported success |
| `TransferProgress.CleanRunsEnd` | src/core/transfer.cpp:187-265 | whatever happens in other sessions, an error-free accepted transfer takes no more steps than three times the bytes of its conversation, counted from names, size and chunks |
| `TransferProgress.CleanRunsSucceed` | src/core/transfer.cpp:468-556 | whatever happens in other sessions, when no step of an error-free accepted transfer is left both sides have reported success, the file is stored, and one offer, the rounded-up number of chunks and one done were sent |
| `TransferProgress.SuccessIsReachable` | src/core/transfer.cpp:468-556 | in every reachable state in which a trusted sender, whose offer fits the buffer, has just connected, some run leads to success on both sides |
| `Trust.CertFingerprint` | src/core/NetTransfer.cpp:243-265 | the loop writes two hexadecimal digits per byte with colons between |
| `Trust.FingerprintInjective` | src/core/NetTransfer.cpp:255-264 | fingerprint texts are equal exactly for equal digests |
| `Trust.FingerprintAt` | src/core/NetTransfer.cpp:255-264 | every character of the text: two lower-case hexadecimal digits per byte, high one first, and a colon between bytes |
| `Trust.TrustGate.ValidatePeerCert` | src/core/NetTransfer.cpp:267-302 | allows exactly stored certificates and queues an unknown one; a peer without certificate changes nothing |
| `Trust.TrustGate.TrustDevice` | src/core/NetTransfer.cpp:416-436 | stores the queued fingerprint, if there is one, and clears the queue |
| `Trust.TrustGate.IgnorePendingTrust` | src/core/NetTransfer.cpp:440-440 | clears the queue and keeps the store, so that a later trust finds nothing |
| `Trust.GateRunKeepsInv` | src/core/NetTransfer.cpp:267-302 | over all runs a queued fingerprint is not stored and the store only grows |
| `Trust.PendingIff` | src/core/NetTransfer.cpp:267-302 | over all runs of the gate a device waits exactly from its refusal to the next refusal, trust or ignore, under the name given at the refusal |
| `Trust.StoreGrowsByConsent` | src/core/NetTransfer.cpp:416-440 | over all runs of the gate a fingerprint enters the store exactly by a trust that follows its refusal with no other refusal, trust or ignore between |
| `DeviceTable.AnnouncementIsHeard` | src/core/discovery.cpp:126-156 | a listener understands a datagram of a service, whatever its buffer held before, exactly when the name has at most 486 bytes |
| `DeviceTable.AnnouncementIsReadable` | src/core/discovery.cpp:163-198 | the handler stays inside its 512-byte buffer exactly when the encoded name has at most 486 bytes |
| `DeviceTable.AnnouncementIsFrame` | src/core/discovery.cpp:128-146 | a datagram reads back as one frame of its kind with session id zero and the service's name and port |
| `DeviceTable.HandleIgnores` | src/core/discovery.cpp:181-290 | a datagram without valid header, of another type, malformed or from the own name changes nothing and gets no answer, and replies are never answered |
| `DeviceTable.DiscoveryService.CheckExpiredDevices` | src/core/discovery.cpp:108-124 | erasing while iterating equals the order-preserving filter, with one left notice per dropped device in order |
| `DeviceTable.DiscoveryService.NotePacket` | src/core/discovery.cpp:202-225 | refreshes the entry of a known name, or adds the device and gives a found notice |
| `DeviceTable.DiscoveryService.OnDatagram` | src/core/discovery.cpp:178-291 | ignores foreign, malformed and own packets, notes others, and answers broadcasts only, as the network model says |
| `DeviceTable.DiscoveryService.BuildAnnouncement` | src/core/discovery.cpp:128-146 | builds the datagram with the service's name and port |
| `DiscoveryHistory.RenamedToListed` | src/core/discovery.cpp:296-298 | a service that takes a listed name ignores that device from then on and keeps its entry exactly while the latest packet from before is at most 15 seconds old |
| `DiscoveryHistory.TableUnique` | src/core/discovery.cpp:202-225 | over every history the names in the table are unique |
| `DiscoveryHistory.TableAfterSweep` | src/core/discovery.cpp:108-124 | over every history, renames included, right after a sweep the table lists exactly the names whose latest packet not taken for the service's own is at most 15 seconds old, each with address and port of the packet that brought it back |
| `DiscoveryHistory.NoticesAlternate` | src/core/discovery.cpp:108-124 | per name, found and left notices alternate, ending with found exactly while listed |
| `DiscoveryHistory.FoundIsLeftPlusPresent` | src/core/discovery.cpp:203-225 | devices found are devices left plus devices present, as multisets |
| `DiscoveryHistory.NoticesShowTable` | src/core/discovery.cpp:108-225 | whoever adds found devices at the end and removes left ones sees the table: same devices, addresses and ports, same order |
| `DiscoveryNetwork.DeliveryIsHeard` | src/core/discovery.cpp:178-291 | every delivery between services stays inside the buffer, is heard as the sender's name and port, and is answered if it is another's broadcast |
| `DiscoveryNetwork.DeliveryLowersWeight` | src/core/discovery.cpp:187-290 | each delivery or loss lowers twice the broadcasts plus the replies in flight |
| `DiscoveryNetwork.NetworkQuiesces` | src/core/discovery.cpp:187-290 | between timer ticks the exchange of any number of services ends, and only with nothing in flight |
| `DiscoveryNetwork.TickDiscovers` | src/core/discovery.cpp:93-156 | from any state one timer tick and two deliveries are enough for two services to list each other, whatever their clocks say and their buffers hold |
| `DiscoveryNetwork.ServiceFollowsHistory` | src/core/discovery.cpp:93-291 | in every network run each service is what its own history of packets and sweeps makes of it |
| `DiscoveryNetwork.NetworkTable` | src/core/discovery.cpp:93-124 | in every network run, right after a tick, a service lists exactly the names it has heard from in the last 15 seconds of its own clock |
| `DiscoveryNetwork.MutualDiscovery` | src/core/discovery.cpp:187-282 | a delivered broadcast followed by a delivered reply leaves both services listing each other unless the listener swept late, by its own clock, in between |

## Modelling choices

- `uint8_t` to `uint64_t` are integers with their range; shifts and masks on fields are division and
  remainder by powers of 256, and `|` of bytes in different places is a sum. The CRC register is its 32 bits.
- The CRC engine is an object with the table and the flag, because `crc_table` and `crc_table_ready` are
  module variables; the flag is never set in the source, so every call refills the table.
- File names are byte strings and the folder is a map from flat names to contents. The stem and
  extension follow the rule of `std::filesystem` for names with one, several, leading or no dots.
- A written byte string counts as sent at once; the completion of an asynchronous write is a separate
  step that may come later or fail once the connection is gone.
- When the receiver closes a connection, bytes that it has already written still reach the sender.

## Left out

- TLS handshake, certificate generation and hashing internals: foreign code; the handshake may succeed or fail and the hash is any function.
- Sockets, timers, threads and `stop()`: library behaviour; handlers and trust calls are atomic steps.
- Exceptions of synchronous writes and of file removal, and failing file writes: taken to succeed.
- Peers that send undecodable frames, chunks larger than the receiver's buffer or names with a slash: the handlers ignore parse results, so their behaviour is then undefined; this program's own peer is proved never to do so.
- Acknowledgements without payload from a foreign receiver: the flag would be read uninitialised.
- The user answers each raised offer once, the trust file is readable, no other process writes to the downloads folder, and the sent file does not change.
- `onProgress`, `onFirstRun` and log output: they have no effect on the state modelled here.
- Configuration files, the port binding loop and the choice of the downloads folder: platform code.
- Resume offsets, keepalive and error exchanges: declared but not used by the transfer; only the error payload codec is modelled.
- The done and reject payload parsers: the transfer never uses their result, and they would only add easy members.
- The graphical and console front ends.
- Payloads.DeserializeOffer: requires that the second length field, which is read before it is checked, lies in the buffer; this holds for every well-formed offer and whenever two bytes follow the payload.
- DeviceTable.DiscoveryService.OnDatagram: requires that a name which the handler goes on to read lies in the 512-byte buffer, because the source does not check it; services with longer names are not part of the network model.
- DiscoveryNetwork.MutualDiscovery: the names of the services are fixed; renaming is modelled for one service, in the history of its table.
- Files.ResolveFilePath: the counter is unbounded; the source's 32-bit counter is the same for folders of fewer than 2147483647 entries, by the proved probe bound.
