# Verified model of the firmware-update link

A Python host updates microcontroller firmware over a serial line. It sends framed, optionally authenticated
commands; a C device parses them, answers retries from a cache, runs a BEGIN/DATA/END/ABORT transfer and switches
its boot slot. This project models both ends and the line between them in Dafny and proves what the protocol is for.
`dafny verify dfyconfig.toml` checks all of it.

## What is proved, from the top

1. **An update that returns has installed the file** (`Update.RunUpdate`). The host's three phases run against the
   device over two FIFO queues that may drop any request or reply, deliver copies late, and time out early. If the
   update returns, the device boots from a slot that holds exactly the file. This holds with a session and, less
   obviously, without one. It returns if and only if every one of its requests could be built, was delivered and
   acknowledged (`ClientCalls.MadeExactly`); a request raises an error only because a packet stayed unanswered, was too
   long or got an answer the host cannot accept (`RequestMoments.RequestFailed`), and no request of an update is too
   long. On a link that loses nothing, with a platform that grants what it is asked, it returns exactly if the file fits
   the slot and ends in the digest the platform reports for its image (`LosslessUpdate.UpdateReturnsExactly`). At every
   moment of a DATA request, through its retries and handshakes, the device has received what was acknowledged before or
   that and the chunk (`Update.ChunkAtEveryMoment`), and wherever the data loop gives up the device has a prefix of the
   file.
2. **One call is one atomic step** (`RemoteCall`, `LossyLink`). An inductive invariant over both endpoints and both
   queues shows that a reply accepted by its sequence number answers the current request, and that a request whose
   repetition changes nothing amounts to one handling, however many copies were made. If that handling changed nothing,
   another copy may still have moved the device once: without authentication a NACK does not mean "not executed"
   (`LinkRuns.NackedYetWritten` is such a run). If only one copy was handled, reply and device are those of that
   handling for every request (`CopyCount.SingleCall`).
3. **Exactly once** (`RequestOutcome`, `SealedCalls`, `PlainCalls`). With a session a completed OTA request was executed
   exactly once on the host's own payload and its status returned, however often it was sent and even if the session had
   to be renewed. It can be reported as refused only if two concrete server nonces of that renewal have the same proof.
   Whatever is still in flight when the request begins, this holds from the moment its first copy meets the device
   (`Draining.RequestOnceAnywhere`). Without a session, OTA commands still take effect at most once and an ACK still
   tells the truth, but the reply to a repeated command is the same exactly for DATA. For REBOOT and ROLLBACK "exactly
   once" holds if and only if the host is configured to send a packet only once
   (`RequestOutcome.RequestOnce`, `RepeatedRestart.RestartsTwiceExactly`).
4. **The handshake agrees** (`HandshakeTheory`). When the host takes the handshake for complete, the device holds the
   same session key, whatever was lost or redrawn; or else the two server nonces at hand collide under the proof. A
   request to a device that has lost its session runs one handshake and is then done (`Recovery.RequestRecovers`).
5. **The authenticated dispatcher refines the plain machine** on the requests it admits, and the ring refines "the last
   eight responses" (`DispatchTheory`, `SessionTheory`).
6. **Boot switches are justified** at the moment they happen, over every run of OTA commands (`OtaTheory`). For each
   command it is stated exactly when it succeeds, under which code it is refused, and what it changes: in terms of what
   an observer of the transfer knows (`OtaTheory.BeginExactly` and its neighbours), and through the dispatcher
   (`CommandEffects`).
7. **Framing.** Fragmentation independence, the exact condition under which the two parsers agree, round trips through
   noise, tight resynchronisation, and detection of every burst of up to 32 bits by the bitwise CRC.
8. **INFO.** What the device writes is what the host reads, the host reads nothing else in the current layout
   (`InfoReading`), and the writer stays inside its buffer.
9. **The wire format** is that of the protocol document, byte by byte, with the check value of CRC-32 (`WireFormat`).

## How it is laid out

| part | modules |
|---|---|
| framing and CRC | `Bytes`, `Words`, `Crc`, `CrcTheory`, `Frame`, `DeviceParser`, `HostParser`, `ParserAgreement`, `FramedStream` |
| transfer | `Codes`, `Esp`, `OtaMachine`, `OtaTheory`, `OtaManager` |
| session and dispatcher | `HmacSha`, `Sealing`, `DeviceMachine`, `SessionTheory`, `DispatchTheory`, `CommandEffects`, `AuthSession`, `Dispatcher`, `CommandLoop`, `SealedFrames` |
| one call over the link | `LossyLink`, `RemoteCall`, `CopyCount`, `CallTheory`, `HandshakeTheory`, `PlainCalls`, `SealedCalls` |
| the host | `Payloads`, `Transport`, `RequestTrace`, `RequestOutcome`, `RequestMoments`, `Draining`, `CalmCalls`, `ClientSteps`, `HostClient`, `ClientCalls`, `Update` |
| runs and restarts | `LinkRuns`, `RepeatedRestart`, `Recovery`, `LosslessUpdate` |
| INFO and the document | `VersionText`, `InfoPayload`, `InfoReading`, `WireFormat` |

The C files and the host's stateful objects are classes whose methods update fields and buffers in place; each method
is tied to a function of the old state (`OtaMachine`, `DeviceMachine`, `DeviceParser.Step`, `HostParser.Scan`), and
the theorems are about those functions. The host's request loop is tied to a trace of the passes and handshakes it
made (`RequestTrace.Completes`); what a request means is proved about traces. `Outcome` carries what ESP-IDF and the
random generator answer while one packet is handled, so every theorem holds for every answer. What link and device do
while the host waits is arbitrary. A transport may be declared calm: then nothing is lost, the wait is long enough and
the platform grants what it is asked, and each method of the host also says what it returns in that case.

## Assumptions

- A failing platform call leaves the flash contents as they were. This includes a failed `esp_ota_begin`, which on the
  real platform may already have erased the slot it was asked for (never the booted one).
- A failed `esp_ota_write` does not advance its handle; ending or aborting retires a handle whatever the result;
  handles are not reused; a slot is at most 2^32 - 1017 bytes (`Esp.Plausible`). `OtaTheory.SizeCheckIsExact` shows
  that the last bound is exactly what the 32-bit size check needs.
- SHA-256 is any function with 32-byte digests. Nothing about collisions is assumed: where agreement of keys needs it,
  the conclusion is "or these two concrete nonces collide".
- The link works on whole packets, in order, and may drop any of them. `FramedStream.StreamRoundTrip` and
  `FramedStream.BurstIsDropped` are the byte-level facts behind that.
- `zlib.crc32` is the function the C loop computes.

## Conditions that matter

- The host's reply filter needs fewer than 2^16 sequence numbers between the last completed request and the current one
  (`RequestTrace.WindowOpen`); `LossyLink.WindowIsTight` builds, from single link steps, a stale reply getting through
  at exactly 2^16.
- A protected request is executed exactly when its command and sequence number are none of the last eight cached
  responses (`DispatchTheory.ExecutedExactlyWhenAdmitted`). After sequence numbers wrap, a retained pair would be
  answered from the cache or refused. `SealedCalls.RingClear` is the condition that this cannot happen; a handshake
  establishes it and every protected request keeps it. An unprotected request keeps it exactly when it still holds one
  number further on (`Update.UnprotectedKeepsPrepared`).
- The theorems about one call are stated from a settled link: nothing still in flight can change the device. Every
  answered call starts from one, the link that its first copy met, if the device is the host's and, in a session, the
  number window is open and no cached response carries one of the next eight numbers (`Draining.Drains`). So an update
  may be started again after anything: always without a session, and with one under that condition
  (`Update.MayStartAgain`).
- After a restart of the device on its own, the link itself is settled exactly if no challenge, or without
  authentication no BEGIN, REBOOT or ROLLBACK, may still be on its way (`Recovery`).
- However a request ends, it has used at most six numbers, so a caller can tell beforehand whether the number window
  will still be open (`RequestMoments.WindowAfter`).

## Where code and documentation differ

- A comment in the replay check (auth.c:338-341) names REBOOT and ROLLBACK among the commands for which the cache makes
  a lost acknowledgement safe. The restart wipes the cache: a REBOOT, or a ROLLBACK the platform allows, whose first
  reply is lost is sent again to the restarted device, refused there, and executed a second time after the new
  handshake (`RepeatedRestart.RestartsTwice`). It happens only when a packet is sent more than once, which is the
  default: `RepeatedRestart.RestartsTwiceExactly`; with single copies every protected command is done exactly once
  (`RequestOutcome.RequestOnce`).
- The production guide says the host verifies the tag before it accepts a NACK. The host looks for a demand to
  authenticate first. Of the raw replies of a completed request the last one verified and is what the caller gets; an
  earlier one was acted on exactly because it was such a demand, verified or not (`RequestOutcome.RepliesActedOn`,
  `RequestTrace.UnsignedRefusalIsActedOn`). From a device that holds the key such an answer to an OTA command means that
  it was not executed (`RequestTrace.AuthRequiredMeansNothingDone`).
- The guide says reuse of a sequence number with other bytes is rejected. It is, exactly while the pair is among the
  last eight cached responses (`DispatchTheory.ExecutedExactlyWhenAdmitted`); a pair answered before those is executed
  with whatever bytes it is sealed (`DispatchTheory.ForgottenPairIsExecuted`). The refusal itself is cached and may
  leave two entries with the same pair (`DispatchTheory.ReuseBreaksDistinctness`), after which an exact retry gets its
  own response just when that stands first (`DispatchTheory.RetryExactly`).
- On an over-long length field the device drops eight bytes, the host two. `ParserAgreement` gives the exact condition
  under which this is harmless, and a frame that it hides from the device.

## Model

| member | source | states |
|---|---|---|
| Update.RunUpdate | host/otalink.py:373-428 | An update that returns, over a link that loses, repeats and delays, with or without authentication, leaves the device booting from a slot that holds exactly the firmware file; it may start with anything in flight, in a session if no cached response carries one of the next eight numbers. It returns if and only if the file has at least 32 bytes and each of its requests, in order, could be built, was delivered and acknowledged; none is too large for a frame |
| LosslessUpdate.UpdateReturnsExactly | host/otalink.py:373-428 | On a link that loses nothing, with time enough and a platform that grants what it is asked, the requests that the update makes are all acknowledged if and only if the file fits the slot and ends in the digest the platform reports for its image |
| ClientCalls.MadeExactly | host/otalink.py:373-428 | The requests made are the first of those meant, in order; all but perhaps the last were acknowledged; a failure means that the last was not or that the next could not be built |
| ClientCalls.NotTooLarge | host/otalink.py:120-124 | A request whose payload fits a frame, with its tag if there is a key, never raises "too large" |
| Update.DigestIsLast | host/otalink.py:366-370 | Of every file that is an image followed by 32 bytes, exactly these are what BEGIN declares |
| HostClient.OtaLinkClient.MaxOtaChunkDataSize | host/otalink.py:180-181 | A full chunk with its header, and its tag if there is a key, fills a payload of 1024 bytes exactly |
| LosslessUpdate.UpdateCanReturn | host/otalink.py:373-428 | For every image followed by its digest that fits a slot, with or without authentication, there is a run of the update's requests, the first declaring that size and digest, built from link steps and each acknowledged, after which the device boots from a slot that holds the file |
| Update.MayStartAgain | host/otalink.py:477-490 | After anything the client has done an update may be started again: always without a session, and in one if the number window is open and no cached response carries one of the next numbers |
| Update.RunUpdateData | host/otalink.py:393-418 | If the data loop returns after an accepted BEGIN, the bytes written in that session are exactly the file, each byte once and in order; wherever it gives up they are a prefix of the file. It returns if and only if every chunk, full but for the last, was acknowledged |
| Update.RunUpdateBegin | host/otalink.py:373-390 | True if and only if the file has at least 32 bytes and BEGIN was acknowledged; then, whatever the image, a transfer is open for the size of the file and the digest behind the image, with nothing written |
| Update.RunUpdateEnd | host/otalink.py:421-428 | True if and only if END was acknowledged; then the boot pointer is on the slot holding what was written, of the declared length |
| Update.RunAbort | host/otalink.py:431-438 | True if and only if ABORT was acknowledged; then no transfer is open, an update may be started, and from a prepared link slots and boot pointer are as they were |
| Update.AbortEnds | firmware/components/ota_link/src/ota_manager.c:80-95 | An acknowledged ABORT has ended the transfer on the device, whatever the link did |
| Update.ChunkAtEveryMoment | host/otalink.py:106-141 | At every moment of a DATA request with a session, through its passes and handshakes, answered or not, the device has received what was acknowledged before it, or, during a pass, that and the chunk |
| Update.NothingDoneBefore | host/otalink.py:114-134 | When a pass or handshake of an OTA request begins, the link is prepared and the request has not been executed |
| Update.OutstandingChunk | host/otalink.py:196-204 | At every moment of one pass of a DATA request with a session, answered or not, the device has received what was acknowledged, or that and the chunk |
| Update.OutstandingPlainChunk | host/otalink.py:196-204 | The same without authentication, where a request has one pass |
| Update.UnprotectedKeepsPrepared | host/otalink.py:106-141 | PING and GET_INFO leave the device as it was and the link settled; in a session the next protected request is safe exactly when the replay window is still clear one number further on |
| Update.UpdateAfterInfo | host/otalink.py:106-141 | Without a session, or without a key, an update may follow a request for information |
| Update.UnprotectedIsInert | firmware/components/ota_link/src/commands.c:33-62 | PING, GET_INFO and unknown commands change nothing |
| Update.DataExtends | firmware/components/ota_link/src/ota_manager.c:97-150 | An acknowledged chunk at the offset reached so far is appended to the transfer and to nothing else |
| Update.EndInstalls | firmware/components/ota_link/src/ota_manager.c:152-192 | A successful END boots the slot whose content is the written image, of declared size and digest |
| Update.PlainAtMostOnce | firmware/components/ota_link/src/ota_manager.c:97-150 | Without authentication an outstanding OTA command has taken effect at most once, whatever the link did |
| SealedCalls.SealedCall | firmware/components/ota_link/src/auth.c:311-353 | Once a protected request is answered the device refused it unchanged, or executed it exactly once on the host's own payload however often it was sent; with the same session key it did execute it |
| SealedCalls.SealedAtMostOnce | firmware/components/ota_link/src/auth.c:311-353 | At every moment of an outstanding protected request, answered or not, the command has had no effect or has taken effect once, restarts included |
| SealedCalls.SealedSingleCall | firmware/components/ota_link/src/auth.c:311-353 | If the device handled only one copy, the reply is that of this handling and also a REBOOT or ROLLBACK was executed exactly once or refused; under the device's session key it was executed |
| SealedCalls.ClearRingPush | firmware/components/ota_link/src/auth.c:415-429 | Answering one request keeps the replay window clear of the sequence numbers the host uses next |
| PlainCalls.PlainCall | firmware/components/ota_link/src/ota_manager.c:97-150 | Without authentication an acknowledged OTA command did succeed, took effect exactly once if it changed anything, and nothing in flight can change the device any more |
| PlainCalls.ExecuteStaysTransferable | firmware/components/ota_link/src/ota_manager.c:36-192 | Every OTA command leaves the transfer in a state the OTA machine can reach |
| CallTheory.OtaRepeats | firmware/components/ota_link/src/ota_manager.c:36-192 | Doing any OTA command a second time does nothing more, and reports success only if the first time did |
| CallTheory.FreshIsSteady | firmware/components/ota_link/src/auth.c:382-433 | A request answered for the first time in a session, sent again right after, changes nothing, and is answered the same unless the device restarted |
| CallTheory.PlainRepeatsReplyExactly | firmware/components/ota_link/src/ota_manager.c:36-192 | What only authentication gives: without it, a command that took effect is answered the same when it is sent again if and only if it is DATA |
| CallTheory.PlainEndIsNotAnsweredTwice | firmware/components/ota_link/src/ota_manager.c:152-156 | An instance: without authentication the repeated END is refused although it succeeded |
| RemoteCall.CallIsAtomic | host/otalink.py:65-79 | Whatever copies were lost, delayed or repeated, the accepted reply is that of one handling of the request; the device left behind is that of the same handling, or, if that handling changed nothing, the untouched device or one moved once by another copy |
| CopyCount.SingleCall | host/otalink.py:65-79 | If one copy of a request was handled, the accepted reply and the device left behind are exactly those of that handling, whatever the request |
| LinkRuns.NackedYetWritten | host/otalink.py:196-204 | A run from single link steps: without authentication a chunk is refused with FLASH_ERROR and yet written, because the refusal answers an earlier copy |
| RemoteCall.CallStates | host/otalink.py:196-204 | At every record of the link during a call the device is untouched or moved once by a copy of the current request |
| RemoteCall.CallSettles | host/otalink.py:196-204 | After a completed call that took effect no copy in flight can change the device |
| LossyLink.AcceptedIsCurrent | host/otalink.py:65-79 | A reply that passes the sequence filter answers the current request; from its record on the device saw only copies of it, and nothing else is in flight |
| LossyLink.WindowIsTight | host/otalink.py:254-256 | The 2^16 window of the filter is exact: a link built by issuing, transmitting and delivering on which a reply 2^16 numbers old passes it |
| LossyLink.DeliverKeepsInv | firmware/components/ota_link/src/ota_link.c:83-98 | Handling the oldest copy keeps the invariant over host, device and both queues |
| LossyLink.IssueKeepsInv | host/otalink.py:254-256 | Issuing a request with a fresh number inside the window keeps the invariant |
| HandshakeTheory.HandshakeAgreement | host/otalink.py:143-178 | When both handshake replies are accepted and the second is an ACK, the device is authenticated with the host's session key and an empty cache, and nothing in flight changes it; or the two nonces at hand are a collision of the proof |
| HandshakeTheory.HandshakeIsQuiet | host/otalink.py:143-178 | On a settled link a handshake leaves transfer, flash and boot pointer as they were, at each of its moments and whether or not it is completed |
| HandshakeTheory.ProofAnswered | firmware/components/ota_link/src/auth.c:278-306 | The proof is acknowledged exactly when a session is pending or on for the same client nonce and the device's own nonce gives the same proof; a repeated proof changes nothing |
| HandshakeTheory.HonestChallengePasses | firmware/components/ota_link/src/auth.c:244-276 | A device that holds the key always passes the host's checks of its challenge reply |
| Recovery.PowerCyclePrepares | host/otalink.py:106-141 | After the device restarted on its own the link is settled for the host's next request if and only if no challenge may still be on its way |
| Recovery.RequestRecovers | host/otalink.py:106-141 | Then the next request recovers: one handshake, run by a client that takes itself for authenticated after one refusal that changed nothing, and the command is executed exactly once on the restarted device with its status returned; the exceptions are concrete collisions of the proof |
| Recovery.PlainPowerCyclePrepares | host/otalink.py:106-141 | Without authentication it does if and only if no BEGIN, REBOOT or ROLLBACK may still be on its way |
| Recovery.PowerCycleKeepsInv | firmware/components/ota_link/src/ota_link.c:106-130 | A restart of the device on its own keeps the link's invariant |
| Recovery.OnlyStartsMove | firmware/components/ota_link/src/commands.c:33-197 | A packet can change an idle device without authentication, with an answer the platform may really give, if and only if it is a well-formed REBOOT or ROLLBACK or a BEGIN of a size some slot may have |
| Recovery.IdleSettlesExactly | firmware/components/ota_link/src/commands.c:63-111 | Without authentication, after a completed request to a device that is now idle, nothing left behind can change it if and only if the request was none of these |
| Recovery.OnlyChallengesMove | firmware/components/ota_link/src/auth.c:238-309 | A packet changes a freshly started device if and only if it is a challenge |
| Recovery.FreshLinkMayStart | firmware/components/ota_link/src/ota_link.c:106-130 | The states an update may start from include start-up with an unused link, in both configurations |
| Transport.SerialTransport.Request | host/otalink.py:65-79 | One copy is written; a returned packet is the recorded reply to the current request; on a calm link it is returned |
| Transport.SerialTransport.Read | host/otalink.py:73-77 | Of the packets of a chunk the first that carries the number is the answer, and there is none only if none carries it; the chunk is used up |
| Transport.SerialTransport.Pop | host/otalink.py:75-77 | The next packet is the answer if and only if it carries the number; then the rest of its chunk is dropped, else only the packet |
| Transport.SerialTransport.Retry | host/otalink.py:196-204 | The same bytes are written again until they are answered, and as often as configured if they are not |
| Transport.FirstIsTaken | host/otalink.py:70-77 | In calm surroundings the first reply read answers the one copy sent |
| HostClient.OtaLinkClient.Request | host/otalink.py:106-141 | A returned request is a completed trace, or one plain pass; an error is raised only for a reason: an unanswered packet, one too long, or an answer that cannot be accepted; the session kept is told; in calm surroundings the status of exactly one execution is delivered |
| HostClient.OtaLinkClient.RequestSealed | host/otalink.py:114-139 | The loop for a protected command keeps its trace and the moment it stopped at, raises only for a reason, and in calm surroundings delivers the status of exactly one execution, renewing a session the device has lost |
| CalmCalls.SmoothInSession | host/otalink.py:118-139 | In a common session one copy, handled once, is answered with a reply that verifies as the status of one execution, and the next call may follow |
| CalmCalls.SmoothWithoutSession | host/otalink.py:125-134 | A device that has lost its session asks for authentication and stays as it is |
| CalmCalls.SmoothProof | host/otalink.py:143-178 | After an answered challenge the proof is acknowledged and both ends share the session |
| CalmCalls.SealedAccepted | firmware/components/ota_link/src/auth.c:311-433 | A freshly sealed command is executed once on the payload, and its signed status is what the host reads |
| RequestOutcome.RequestOnce | host/otalink.py:106-141 | A completed OTA request, or any protected request of a host that sends a packet only once, was executed exactly once, restarts included, and its status returned; it can have been refused only if the two server nonces of its renewal have the same proof |
| Draining.RequestOnceAnywhere | host/otalink.py:106-141 | The same with anything in flight when the request begins, seen from the device that its first copy met or that its opening handshake left |
| Draining.Drains | host/otalink.py:65-79 | Whatever is in flight, an answered call is the same call on a prepared link: the one its first copy met, all older copies having been handled before |
| Draining.CompletesDrained | host/otalink.py:106-141 | A completed request is the same completed request from that prepared link |
| RequestOutcome.AuthenticatesOnce | host/otalink.py:106-141 | A completed request to a device without a session runs one handshake, whatever the client believes, or the nonces of its opening handshake collide |
| RequestOutcome.StaleSessionRenews | host/otalink.py:124-134 | A client that takes itself for authenticated to such a device is refused once, with the device as it was, and then authenticates again |
| RequestOutcome.SyncedNeedsNone | host/otalink.py:143-145 | In a common session a completed request runs no handshake |
| RequestOutcome.RepliesActedOn | host/otalink.py:124-139 | Of the raw replies of a completed request the last verified under the session key and is returned; the first led to a new handshake if and only if it asked for authentication, and if it did not verify it did ask |
| RequestMoments.WindowAfter | host/otalink.py:254-256 | After the numbers a client has used, the window that was open for as many more is still open |
| RequestTrace.RequestRestarts | host/otalink.py:106-141 | A completed protected request restarts the device at most twice, an acknowledged REBOOT at least once, and leaves the link prepared |
| RepeatedRestart.RestartsTwice | firmware/components/ota_link/src/auth.c:338-341 | The witness against the comment: from any session with an idle device a run of link steps in which a lost first reply makes one acknowledged REBOOT or ROLLBACK restart the device twice |
| RepeatedRestart.RestartsTwiceExactly | firmware/components/ota_link/src/auth.c:338-341 | A completed REBOOT or ROLLBACK can restart the device twice if and only if the host sends a packet more than once |
| RequestTrace.UnsignedRefusalIsActedOn | host/otalink.py:124-134 | Such a reply: the unsigned refusal does not verify and makes the host run the handshake again |
| HostClient.OtaLinkClient.Authenticate | host/otalink.py:143-178 | Does nothing in a session, else runs the handshake; it fails only for the handshake's reasons |
| HostClient.OtaLinkClient.Handshake | host/otalink.py:147-178 | Returns with both packets answered and accepted; fails only if one stayed unanswered, the challenge's reply does not pass or the proof is not acknowledged; in calm surroundings with a device that holds the key it returns |
| HostClient.OtaLinkClient.SendChallenge | host/otalink.py:147-148 | One packet with the client's nonce, answered or not |
| HostClient.OtaLinkClient.SendProof | host/otalink.py:164-176 | The session key is kept before the proof is sent, and the proof is one answered packet or none |
| RequestTrace.HandshakeAgrees | host/otalink.py:143-178 | From two accepted replies host and device agree on the session key (or a concrete collision is at hand) and nothing was done to the transfer |
| HostClient.OtaLinkClient.RequestPacket | host/otalink.py:196-204 | Issues the packet and ends with its recorded answer, or with none after writing it as often as configured |
| HostClient.OtaLinkClient.NextSequence | host/otalink.py:254-256 | The 16-bit number is the counter modulo 2^16, whether or not the window is open; inside the window it may be used |
| RequestTrace.PassRestarts | firmware/components/ota_link/src/commands.c:63-84 | One answered pass restarts the device at most once, and an acknowledged REBOOT does restart it |
| RequestTrace.VerifiedFinishes | host/otalink.py:224-244 | A reply that verifies is the status of the one execution, or the refusal of a request not done |
| RequestTrace.AuthRequiredMeansNothingDone | host/otalink.py:246-252 | An answer that asks for authentication means the OTA command was not executed |
| Payloads.BeginReadBack | host/protocol.py:87-92 | The device reads from a BEGIN payload exactly what the host put in |
| Payloads.DataReadBack | host/protocol.py:95-104 | The device reads from a DATA payload exactly what the host put in |
| Payloads.ChunksFit | host/protocol.py:95-104 | A built DATA payload fits a frame; with a tag it fits exactly when the chunk has at most 1000 bytes |
| DispatchTheory.RunRefines | firmware/components/ota_link/src/commands.c:33-197 | Over every run of packets, transfer, slots, boot pointer and restarts of the authenticated device are those of the unauthenticated one fed only the admitted requests, tags stripped; the session invariant holds throughout |
| DispatchTheory.ExecutedExactlyWhenAdmitted | firmware/components/ota_link/src/auth.c:311-380 | A protected request is executed if and only if the session is on, its tag is right and its command and sequence are none of the last eight cached responses |
| DispatchTheory.SearchIsWindow | firmware/components/ota_link/src/auth.c:323-352 | The ring search misses exactly when the pair is none of the last eight responses |
| DispatchTheory.StepRefines | firmware/components/ota_link/src/commands.c:33-197 | One packet of the authenticated device is one packet of the plain device or none |
| DispatchTheory.ExactRetry | firmware/components/ota_link/src/auth.c:338-349 | The packet just answered, sent again, gets the identical reply and changes nothing, executed or refused |
| DispatchTheory.RetryWhileRetained | firmware/components/ota_link/src/auth.c:338-349 | While a response is retained and pairs are distinct an exact retry gets that very response and no side effect |
| DispatchTheory.RetryExactly | firmware/components/ota_link/src/auth.c:323-349 | In any ring a retained exact retry gets its own response if and only if the first place of its pair holds that response to that request |
| DispatchTheory.ForgottenPairIsExecuted | firmware/components/ota_link/src/auth.c:323-352 | A pair answered before the last eight responses is executed again, whatever its bytes, if it is sealed for the session |
| DispatchTheory.ReuseIsRefused | firmware/components/ota_link/src/auth.c:323-343 | While the response to a request is the first cached with its command and number, a request that reuses them with other bytes is refused and not executed; or the digests of these two requests collide |
| DispatchTheory.ReuseBreaksDistinctness | firmware/components/ota_link/src/auth.c:331-336 | Reusing a retained pair with other bytes leaves the pairs distinct exactly when its refusal overwrites that very entry |
| DispatchTheory.ReplyEchoes | firmware/components/ota_link/src/commands.c:33-197 | Every reply echoes the request's sequence number and fits a frame |
| DispatchTheory.RestartsOnlyWhenIdle | firmware/components/ota_link/src/commands.c:63-111 | A restart is caused only by an admitted REBOOT or ROLLBACK with no transfer under way |
| SessionTheory.HandleKeepsInv | firmware/components/ota_link/src/auth.c:238-433 | Every packet keeps the session invariant: pending and authenticated exclude each other, a non-empty cache implies authentication, every cached reply is validly signed, the key belongs to the nonces |
| SessionTheory.RingRefinesLastEight | firmware/components/ota_link/src/auth.c:415-429 | After every packet the ring holds exactly the last eight responses since it was cleared, oldest first |
| SealedFrames.RequestRoundTrip | firmware/components/ota_link/src/auth.c:355-380 | With equal keys, tagging, framing, noise, parsing and unwrapping give back command, sequence and payload |
| SealedFrames.ResponseRoundTrip | host/otalink.py:224-244 | A signed response framed into noise reaches the caller as the device meant it |
| SealedFrames.UnwrapExactly | firmware/components/ota_link/src/auth.c:355-380 | The device takes a payload from a request if and only if the request is that payload sealed with its session key |
| SealedFrames.VerifiedExactly | host/otalink.py:224-244 | The host accepts a reply if and only if it is that reply signed for this very request |
| Sealing.RequestInputInjective | firmware/components/ota_link/src/auth.c:154-174 | Tag inputs of requests determine command, sequence and payload |
| Sealing.ResponseInputInjective | firmware/components/ota_link/src/auth.c:176-203 | Tag inputs of responses determine both commands, sequence and payload |
| Sealing.RequestIsNoResponse | firmware/components/ota_link/src/auth.c:154-203 | No request input under the session key is a response input |
| Sealing.NonceDomainsDisjoint | firmware/components/ota_link/src/auth.c:109-131 | Proof, device proof and session derivation never share an input under the pre-shared key |
| Sealing.NonceInputInjective | firmware/components/ota_link/src/auth.c:109-131 | Under one prefix the input determines both nonces |
| Sealing.InputsFit | firmware/components/ota_link/src/auth.c:82-84 | No input the component builds reaches the HMAC length bound, so its failure return is unreachable |
| HmacSha.HmacSha256 | firmware/components/ota_link/src/auth.c:64-98 | Computes HMAC as section 2 of RFC 2104 defines it, failing exactly beyond the length bound |
| Dispatcher.Commands.HandlePacket | firmware/components/ota_link/src/commands.c:33-197 | The dispatcher on its static state: new device state and exactly one reply, those of the dispatch function |
| Dispatcher.Commands.HandleAuthenticatedReplay | firmware/components/ota_link/src/commands.c:22-31 | Replays and reuses are answered before any side effect; otherwise nothing has changed |
| Dispatcher.Commands.OtaData | firmware/components/ota_link/src/commands.c:153-169 | Replay check, unwrap, write and one signed status |
| Dispatcher.Commands.Reboot | firmware/components/ota_link/src/commands.c:63-84 | Acknowledges, then restarts; refuses while a transfer is active |
| Dispatcher.Commands.Rollback | firmware/components/ota_link/src/commands.c:86-111 | Refuses while a transfer is active or no rollback is possible; otherwise acknowledges and switches |
| AuthSession.Session.HandlePacket | firmware/components/ota_link/src/auth.c:238-309 | Challenge and proof on the static state: the reply sent or the error reported, and the new session |
| AuthSession.Session.CheckReplay | firmware/components/ota_link/src/auth.c:311-353 | The loop over the ring resends the first matching response, refuses different bytes, or lets the request pass |
| AuthSession.Session.UnwrapPacket | firmware/components/ota_link/src/auth.c:355-380 | The unwrapped length delimits exactly the authenticated payload |
| AuthSession.Session.SendResponse | firmware/components/ota_link/src/auth.c:382-433 | Signs, caches at the next ring place and sends, or sends as is without a session |
| AuthSession.Session.Configure | firmware/components/ota_link/src/auth.c:211-221 | Clears everything; authentication needs a key of 1 to 64 bytes |
| CommandLoop.Loop.Receive | firmware/components/ota_link/src/ota_link.c:83-98 | Whatever bytes arrive, the device ends in the state after the packets they contain and has answered each once, in order, under its sequence number |
| OtaTheory.BootSwitchesAreJustified | firmware/components/ota_link/src/ota_manager.c:152-192 | In every run from start-up the boot pointer moves only in a successful END, to a slot that then holds the concatenated accepted chunks, of declared length and digest; no handle was ever misused |
| OtaTheory.SwitchOnlyInEnd | firmware/components/ota_link/src/ota_manager.c:152-192 | END succeeds exactly when the transfer is complete and every platform check passes |
| OtaTheory.BeginExactly | firmware/components/ota_link/src/ota_manager.c:36-78 | A device acknowledges BEGIN if and only if it is idle, the payload has 36 bytes, a slot is offered that holds the declared size, not 0, and the platform begins; then that slot alone is erased; each refusal has its own code and changes nothing |
| OtaTheory.DataExactly | firmware/components/ota_link/src/ota_manager.c:97-150 | An open transfer acknowledges DATA if and only if it is the last accepted chunk again or the next one, which fits and is written; only the latter changes anything; each refusal has its own code |
| OtaTheory.EndExactly | firmware/components/ota_link/src/ota_manager.c:152-192 | END succeeds if and only if the image is complete and every platform check passes; each failure has its own code; an incomplete transfer stays open, any other END ends it and retires the handle; only success moves the boot pointer, to the slot of the transfer |
| OtaTheory.AbortExactly | firmware/components/ota_link/src/ota_manager.c:80-95 | ABORT ends an open transfer and retires its handle whatever the platform answers, leaves slots and boot pointer, and reports the platform's answer; an idle device refuses it |
| OtaTheory.ApplyKeepsInv | firmware/components/ota_link/src/ota_manager.c:36-192 | Every OTA command keeps the transfer invariant, whatever the platform answers: the bytes written are the accepted chunks, within the declared size, which is within the slot that was granted |
| OtaTheory.RunKeepsInv | firmware/components/ota_link/src/ota_manager.c:36-192 | The transfer invariant holds after every run |
| OtaTheory.DataRepeats | firmware/components/ota_link/src/ota_manager.c:114-128 | A refused DATA changes nothing; an accepted one is recognised whenever it is sent again |
| OtaTheory.NoSumWraps | firmware/components/ota_link/src/ota_manager.c:114-128 | In an active transfer no 32-bit sum wraps |
| OtaTheory.SizeCheckIsExact | firmware/components/ota_link/src/ota_manager.c:128-132 | The 32-bit size check equals the exact one if and only if the size is at most 2^32 - 1017 |
| OtaManager.Manager.WriteData | firmware/components/ota_link/src/ota_manager.c:97-150 | The write on its static state and chunk buffer does what the OTA machine does |
| OtaManager.Manager.Begin | firmware/components/ota_link/src/ota_manager.c:36-78 | The begin on its static state does what the OTA machine does |
| OtaManager.Manager.End | firmware/components/ota_link/src/ota_manager.c:152-192 | The end on its static state does what the OTA machine does |
| OtaManager.Manager.Abort | firmware/components/ota_link/src/ota_manager.c:80-95 | The abort on its static state does what the OTA machine does |
| FramedStream.StreamRoundTrip | host/protocol.py:113-151 | Any list of frames interleaved with noise, cut in any way, decodes to that list in both parsers, with the same residual buffer |
| FramedStream.DeviceDecodesStream | firmware/components/ota_link/src/protocol.c:64-107 | The device parser decodes framed packets in noise to exactly those packets |
| FramedStream.HostDecodesStream | host/protocol.py:113-151 | The host parser decodes framed packets in noise to exactly those packets |
| FramedStream.BurstIsDropped | firmware/components/ota_link/src/protocol.c:46-57 | A built frame hit by a burst of at most 32 bits outside magic and length is never delivered by either parser and leaves it idle |
| FramedStream.ResyncThenDecode | firmware/components/ota_link/src/protocol.c:64-107 | From every reachable state 1035 bytes other than 0xAA make the device decode the next frame |
| FramedStream.ResyncBoundIsTight | firmware/components/ota_link/src/protocol.c:64-107 | 1034 such bytes do not suffice: from a reachable state the next frame with an empty payload is lost |
| ParserAgreement.ParsersAgreeExactly | firmware/components/ota_link/src/protocol.c:82-86 | The two parsers agree after every byte of a stream if and only if every over-long header they meet dissolves in the host's rescan |
| ParserAgreement.StepAgreement | firmware/components/ota_link/src/protocol.c:64-107 | From a common buffer the two parsers agree on one byte exactly when it completes no over-long header or the rescan of that header keeps nothing |
| ParserAgreement.StrayMagicHidesFrame | host/protocol.py:134-136 | The parsers' difference made concrete: a stray magic before a frame whose sequence exceeds 1024 leaves the host with the frame and the device with the frame less its first six bytes, hence with nothing when the payload is shorter than six |
| ParserAgreement.ScanLeavesPartial | host/protocol.py:113-158 | The residual buffer of the host parser has at most 1035 bytes and is a partial frame |
| HostParser.FragmentationIndependence | host/protocol.py:113-151 | Every way of splitting a stream yields the same packets and the same residual buffer |
| HostParser.ScanConcat | host/protocol.py:113-151 | Feeding two pieces equals feeding them joined |
| HostParser.PacketParser.Feed | host/protocol.py:113-151 | The rescan loop terminates and computes the rescan of the whole buffer |
| HostParser.PacketParser.Rescan | host/protocol.py:118-151 | One turn of the loop; its second magic check cannot fire |
| DeviceParser.Parser.Feed | firmware/components/ota_link/src/protocol.c:64-107 | The byte-wise machine on its fixed buffer computes one parser step and never writes outside |
| DeviceParser.Transmitter.SendPacket | firmware/components/ota_link/src/protocol.c:124-142 | Fills the transmit buffer with exactly the frame of the packet |
| DeviceParser.RunConcat | firmware/components/ota_link/src/protocol.c:64-107 | Feeding a stream in two parts equals feeding it whole |
| Frame.EncodeDecode | host/protocol.py:76-84 | A frame is complete, passes its checksum and decodes to its packet |
| Frame.DecodeEncode | firmware/components/ota_link/src/protocol.c:88-106 | The encoding is canonical: an accepted frame is the frame of its packet |
| WireFormat.FrameFormat | protocol/protocol.md:5-22 | A frame is magic, version, command, sequence, length, payload of at most 1024 bytes and the checksum of all behind the magic |
| WireFormat.BuiltFormat | host/protocol.py:76-84 | The host builds that frame with version 1, or raises exactly for a payload over 1024 bytes or a number over 16 bits |
| WireFormat.LowestFirst | protocol/protocol.md:3 | Fields are written lowest byte first |
| WireFormat.NumbersOfVersion1 | host/protocol.py:29-62 | Commands, replies and errors have the numbers of the document, on both ends |
| WireFormat.BeginFormat | protocol/protocol.md:155-160 | BEGIN carries size and digest; it can be built exactly for sizes of 1 to 2^32 - 1 and 32 bytes |
| WireFormat.DataFormat | protocol/protocol.md:165-171 | DATA carries the chunk's number, its offset and 1 to 1016 bytes |
| WireFormat.StatusFormat | host/otalink.py:277-289 | A reply is a success exactly if it is an ACK without a status or with status 0 |
| WireFormat.NonceFunctions | protocol/protocol.md:77-91 | The session key is the HMAC of a prefix and both nonces, the two proofs the first 16 bytes of such HMACs |
| WireFormat.Prefixes | protocol/protocol.md:77-106 | The four prefixes are the document's texts |
| WireFormat.TagFunctions | protocol/protocol.md:93-106 | The two tags are the first 16 bytes of the HMAC over command, number and payload, a response naming both commands |
| WireFormat.ChallengeFormat | host/otalink.py:148-161 | The host goes on after a challenge exactly if the status is 0 and the proof is the device's for these nonces |
| WireFormat.HmacFormat | firmware/components/ota_link/src/auth.c:64-98 | The HMAC is that of section 2 of RFC 2104 for blocks of 64 bytes |
| WireFormat.XorByteIsXor | firmware/components/ota_link/src/auth.c:64-98 | The masks are applied with exclusive or |
| WireFormat.SlotsListed | firmware/components/ota_link/src/device_info.c:247-280 | INFO lists, in order, exactly the partitions of an OTA subtype |
| WireFormat.TooShortToRead | host/protocol.py:171-186 | Below 16 bytes the reader reports a protocol error, at exactly 16 it fails with an index error |
| WireFormat.InfoFormat | protocol/protocol.md:118-143 | The fixed fields of INFO stand at fixed places, the seven texts behind them in the document's order, then the number of slots |
| CrcTheory.RunFeeds | firmware/components/ota_link/src/protocol.c:46-57 | The byte-wise CRC loop is the bit-serial register |
| CrcTheory.RunInjective | firmware/components/ota_link/src/protocol.c:46-57 | For a fixed message the CRC state is an injective function of its start |
| CrcTheory.CheckedResidue | firmware/components/ota_link/src/protocol.c:46-57 | The trailer check is the constant-residue check of Appendix C.3 of RFC 1662 |
| CrcTheory.BurstDetected | firmware/components/ota_link/src/protocol.c:46-57 | A burst of at most 32 bits at any alignment turns a checked message into an unchecked one |
| CrcTheory.FourBytesAreABurst | firmware/components/ota_link/src/protocol.c:46-57 | A change within four consecutive bytes is such a burst |
| Crc.ComputeCrc32 | firmware/components/ota_link/src/protocol.c:46-57 | The nested loop computes the CRC |
| WireFormat.CheckValue | firmware/components/ota_link/src/protocol.c:46-57 | The checksum of "123456789" is 0xCBF43926, the value by which CRC-32 is known |
| InfoPayload.InfoRoundTrip | host/protocol.py:171-232 | For every set of fields, strings and slots that can be written, the host reads back exactly those, in order, without the legacy fallback |
| InfoReading.CurrentIsLaid | host/protocol.py:171-232 | What the host reads in the current layout is laid out as the device writes it, up to the byte that stands for true and what may follow the slots |
| InfoReading.LaidIsCurrent | host/protocol.py:171-232 | And every payload laid out so is read as just that |
| InfoPayload.BuildPayload | firmware/components/ota_link/src/device_info.c:196-283 | Writes the payload if it fits and returns 0 exactly when it does not; nothing is written past the capacity |
| InfoPayload.ParseInfoPayload | host/protocol.py:171-232 | The reader with its slot loop, fallback and errors |
| InfoPayload.Writer.PutStr8 | firmware/components/ota_link/src/device_info.c:88-98 | Writes the whole string behind its length, or nothing |
| InfoPayload.Writer.PutU32 | firmware/components/ota_link/src/device_info.c:80-86 | Writes the value little-endian |
| InfoPayload.Writer.PutSlots | firmware/components/ota_link/src/device_info.c:247-280 | Writes the OTA slots among the partitions, failing exactly when they do not fit or there are more than 255 |
| InfoPayload.Writer.PutSlotTable | firmware/components/ota_link/src/device_info.c:244-280 | The slots behind their number, which is patched in once they are written, or a failure exactly when they do not fit |
| InfoPayload.FirmwareReappears | firmware/components/ota_link/src/device_info.c:129-155 | A canonical version text reappears as the host's firmware string |
| VersionText.VersionRoundTrip | firmware/components/ota_link/src/device_info.c:129-155 | The version parser reads back every canonical text, with or without a leading v |
| VersionText.DecimalIsShortest | host/protocol.py:219 | A component is written in decimal without a zero in front |
| VersionText.DottedIsRead | firmware/components/ota_link/src/device_info.c:129-155 | Every text of three components of at most 255 between dots is read as its three numbers, with or without leading zeros, a leading v, and anything but a digit behind it |
| VersionText.ReadIsDotted | firmware/components/ota_link/src/device_info.c:129-155 | Whatever is read as anything but zeros is such a text |
| VersionText.ComponentExactly | firmware/components/ota_link/src/device_info.c:108-127 | A component is the number of all the digits that stand there, and there is none if there are no digits or it exceeds 255 |
| VersionText.ParseVersionComponent | firmware/components/ota_link/src/device_info.c:108-127 | The digit loop stops at the first non-digit and fails beyond 255 |
| VersionText.ParseVersion | firmware/components/ota_link/src/device_info.c:129-155 | Zeros for anything that does not start with three dotted components |
| Update.SendChunk | host/otalink.py:399-413 | True if and only if the chunk could be built and was acknowledged, and then what the transfer has written is extended by exactly that chunk; however the request ends, the device has received what was acknowledged, or that and the chunk |
| HostClient.OtaLinkClient.Attempt | host/otalink.py:118-124 | One pass: the command tagged under the session key, or as it is without a key, sent and answered |
| HostClient.OtaLinkClient.AuthenticatedPayload | host/otalink.py:206-218 | The payload of a protected command followed by its tag under the session key and the next number, any other as it is |
| HostClient.OtaLinkClient.RequestUnprotected | host/otalink.py:183-194 | Draws one number, sends the payload as it is and ends with its recorded answer or none |
| HostClient.OtaLinkClient.Send | host/otalink.py:120-124 | A payload beyond 1024 bytes is refused with the link untouched; otherwise the packet is issued and ends with its recorded answer or none |
| Transport.SerialTransport.Wander | host/otalink.py:70-73 | While the host waits the link loses and delivers as it may; nothing is issued or completed; in calm surroundings the oldest copy is handled |
| DeviceMachine.FindEntry | firmware/components/ota_link/src/auth.c:323-329 | The lowest ring index with the request's command and sequence, or -1 exactly when there is none |
| AuthSession.Session.StartChallenge | firmware/components/ota_link/src/auth.c:244-276 | New nonces, session key and empty cache, and one reply with nonce and device proof |
| AuthSession.Session.HmacNoncePair | firmware/components/ota_link/src/auth.c:109-131 | The HMAC of prefix and nonces; it never fails |
| AuthSession.Session.ComputePacketTag | firmware/components/ota_link/src/auth.c:154-174 | The request tag under the session key; it never fails |
| AuthSession.Session.ComputeResponseTag | firmware/components/ota_link/src/auth.c:176-203 | The response tag under the session key; it never fails |
| AuthSession.Session.ClearReplayCache | firmware/components/ota_link/src/auth.c:205-209 | Every place of the ring becomes empty |
| AuthSession.Session.SendStatus | firmware/components/ota_link/src/auth.c:435-445 | One status reply, signed and cached while a session is on |
| Dispatcher.Commands.OtaBegin | firmware/components/ota_link/src/commands.c:113-129 | Replay check, unwrap, begin and one signed status |
| Dispatcher.Commands.OtaEnd | firmware/components/ota_link/src/commands.c:171-191 | Replay check, unwrap, empty-payload check, end and one signed status |
| Dispatcher.Commands.OtaAbort | firmware/components/ota_link/src/commands.c:131-151 | Replay check, unwrap, empty-payload check, abort and one signed status |
| Dispatcher.Commands.RollbackIfIdle | firmware/components/ota_link/src/commands.c:99-110 | Busy, not available, or acknowledged and switched, in this order |
| CommandEffects.OpenToAll | firmware/components/ota_link/src/commands.c:33-53 | Packets of another version, PING, GET_INFO and unknown commands each have their one answer, and nothing changes |
| CommandEffects.InfoIsRead | firmware/components/ota_link/src/commands.c:45-53 | The host reads in the answer to GET_INFO exactly what the device wrote about itself |
| CommandEffects.Authenticating | firmware/components/ota_link/src/auth.c:238-309 | AUTH of 16 bytes starts a new challenge, the proof of the current nonces opens the session, everything else is refused with its own code and changes nothing; the transfer is never touched |
| CommandEffects.ConfiguredFor | firmware/components/ota_link/src/auth.c:211-221 | After start-up there is no session and no cached response; authentication is required exactly if asked for with a key of 1 to 64 bytes |
| CommandEffects.PayloadRefused | firmware/components/ota_link/src/commands.c:63-191 | END, ABORT, REBOOT and ROLLBACK with a payload are refused and change nothing |
| CommandEffects.AbortAnswered | firmware/components/ota_link/src/commands.c:131-151 | An ABORT that reaches a device with an open transfer leaves none, no handle, and slots and boot pointer as they were; it is acknowledged exactly if the platform succeeded |
| CommandEffects.BeginRefusedAsStarted | firmware/components/ota_link/src/commands.c:113-129 | A BEGIN that reaches the device is refused as already started exactly while a transfer is open, and acknowledged exactly if the offered slot holds it |
| CommandEffects.AcknowledgedAbortFrees | firmware/components/ota_link/src/commands.c:113-151 | After an acknowledged ABORT a BEGIN is not refused as already started |
| CommandEffects.RestartAnswered | firmware/components/ota_link/src/commands.c:63-111 | REBOOT and ROLLBACK are refused while a transfer is open, ROLLBACK also where there is nothing to go back to; else they restart the device without session or handle, with every slot as it was; only ROLLBACK moves the boot pointer |
| CommandLoop.Loop.FeedByte | firmware/components/ota_link/src/ota_link.c:89-94 | A byte that completes a packet has it handled and answered once; any other changes only the parser |
| OtaManager.Manager.Accept | firmware/components/ota_link/src/ota_manager.c:114-150 | Duplicate, offset, size and write checks in order, with the chunk remembered in place |
| Crc.UpdateCrc | firmware/components/ota_link/src/protocol.c:50-54 | The eight shifts are one byte step |
| HostParser.FindMagic | host/protocol.py:118-124 | The first place of the magic, or -1 exactly when there is none |
| InfoPayload.Writer.PutAll | firmware/components/ota_link/src/device_info.c:235-243 | Writes strings one behind the other exactly when all of them fit |
| InfoPayload.ReadSlots | host/protocol.py:197-204 | The slot loop reads exactly the announced number of slots or fails |

## Left out

- UART and pyserial set-up, task creation, delays, logging, NVS and the bootloader's own rollback: input and output.
- `constant_time_equal`: comparison of tags, nonces and digests is equality; its timing is not modelled.
- Bytes of a reply that arrive in pieces: the transport takes whole packets from the link; the parser that makes them
  is modelled and proved on its own.
- A restart that is not a REBOOT or ROLLBACK is `Recovery.PowerCycle`, not a step of the running link; replies on their
  way are taken to be lost with it, and theorems about one call start after it.
- HostClient.OtaLinkClient.Request: for a REBOOT or ROLLBACK without a key promises only the pass itself, because a copy
  left behind may restart the device again (`Recovery.IdleSettlesExactly`).
- LosslessUpdate.UpdateReturnsExactly: is stated for a link that loses nothing from the start; which losses an update
  survives is not, because it depends on when the host's waits end.
- Replies without authentication: they are repeated exactly for DATA (`CallTheory.PlainRepeatsReplyExactly`); for the
  other commands only "at most once" and "an ACK is true" are promised.
- A host configured with a key for a device without one, or the reverse: the theorems about calls assume both ends are
  configured alike.
- Device and host timeouts as durations: every wait is an arbitrary number of turns, so early time-outs are included.
- UTF-8 decoding, chip and state name tables, and any claim about payloads in the old INFO layout.
- Partition iteration and `esp_ota_*` internals: a list of partitions and an `Outcome` stand for them.
- Argument parsing, the shell, printing, the file system and configuration profiles: user interface.
