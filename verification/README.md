# A verified model of Relayly

Relayly is a relay server and a family of SDKs. Two devices connect to the relay, are linked by a
one-time code, run a Noise XX handshake through it and then exchange end-to-end encrypted envelopes
that the relay forwards without reading. This project models that system in Dafny and proves what
it promises. `dafny verify dfyconfig.toml` checks everything.

The model follows the source file by file. Value functions say what an operation does to a state;
classes with the source's fields are proved to do the same in place; theorems are about whole runs
of the value functions, for every sequence of steps.

| part | files | what is proved |
|---|---|---|
| Go peer and client | `GoNoise`, `GoPeer`, `GoNode`, `GoPairing`, `GoAccount`, `FirstContact`, `GoClient`, `GoObjects`, `Rekey` | make-before-break, authentication and throttling for every sequence of events; a whole client whose peers do not interfere and whose pairing channels get one result, and all of that for the objects; two clients that have never met pair, pin and are told so; two clients that rekey agree, and which packets arrive |
| Noise XX in C++ and TypeScript | `NoiseSuite`, `NoiseSpec`, `NoiseForms`, `XXKeys`, `XXAgreement`, `NoiseTransport`, `CppNoise`, `CppHandshake`, `TsNoise`, `NoiseEquivalence` | both follow the specification, agree on keys, are interchangeable, and carry plaintexts in order; the messages and keys of a handshake written out; exactly which messages are accepted |
| Relay server | `Frames`, `SendQueue`, `Devices`, `PairCodes`, `Relay`, `RelayServer`, `RelayDelivery`, `RelayRouting`, `RelayHistory`, `RelayEffects`, `RelayObjects` | the queue under every interleaving, the pairing table, code redemption, verbatim delivery, routing agreement, presence, links traced to codes, who gets in, who is told what, that envelopes arrive; delivery and routing agreement also for the objects |
| Rate limiter | `RateLimit` | at most twice the limit in any window; when the cleanup pass can be seen |
| Arithmetic | `Calendar`, `Base64` | the Gregorian calendar; the base64 round trip |

Cryptography appears in two ways. The Go SDK calls a Noise library, so its messages are terms: an
ephemeral is a fresh name, a transcript is what both sides hashed, and a packet opens only under
the transcript, direction and nonce that sealed it. The C++ and TypeScript code is the handshake
itself, so there the primitives are arbitrary functions with the laws they really have (Diffie-Hellman
commutes, opening undoes sealing and rejects everything else, keys are 32 bytes, tags 16), and the
specification is an interpreter of sections 5 and 7.5 of the Noise Protocol Framework, revision 34.
`XXAgreement.LawsAreSatisfiable` shows that the laws are consistent.

Clocks, random sources, generated codes, whether a pin file could be saved and which peer is the
sole one are parameters of the steps.

## Where the source does not meet a property

- Send seals a packet and queues it later, with no lock around the two. A Send that seals before a rekey
  and queues after the third message loses its payload although it reports success
  (`Rekey.StraddlingSendLoses`); of two overlapping Sends the one that overtakes is lost
  (`Rekey.OvertakingSendLoses`); a Send that is cancelled in between uses up a nonce, and the receiver
  then opens nothing more of that session (`Rekey.CancelledSendLoses`). `Rekey.CleanPayloadsArrive` says
  exactly which payloads arrive; with undivided Sends all do (`Rekey.EveryPayloadArrives`).
- Packets from the larger device to the smaller are also lost if the answer that completes a rekey is on
  its way when they are queued (`Rekey.RekeyLosesPacket`); `Rekey.RightPacketFate` says exactly which.
- A first session is ready before its key has been verified. A Send that falls in between seals a packet
  for a key that is then refused (`GoNode.RefusedKeyGetsPacket`). In every other case a Send in the middle
  of a handshake envelope is as if it came before or after it, and `GoNode.SendBetweenIsOrdered` says
  exactly that.
- A connect that is split by a pairing registers a connection whose peer is out of date
  (`RelayRouting.SplitConnectDisagrees`); routing agreement holds exactly when the row names the peer
  that it named when the handler read it (`RelayRouting.RegisterAgreesIff`).
- The limiter's cleanup pass can be seen if a request to a forgotten address reads the clock twice with
  different results (`RateLimit.CleanupCanShow`); `RateLimit.CleanupHiddenIff` says exactly when.
- The schema declares paired_with a reference that is set to NULL when its row is deleted, and the
  database is opened with `_foreign_keys=on`. Whether foreign keys are enforced depends on the driver
  honouring that parameter, and the driver is foreign code. With them the pairing table is symmetric in
  every run (`Devices.PairingIsSymmetric`). Without them, pairing a device in the middle of its deletion
  leaves the other device pointing nowhere (`Devices.DanglingIsReached`), and
  `Devices.SettlesIffUndisturbed` says exactly when that happens.
- A C++ session that is ready fails on a late handshake message, a TypeScript one throws and stays
  ready (`NoiseEquivalence.SameRuns`).
- docs/PROTOCOL.md section 6 says that a transport frame that fails to decrypt ends the session; the
  code drops the frame and keeps the session, and so does the model.
- Section 5.1 of the Noise specification reserves the last nonce; the C++ and TypeScript counters wrap,
  and the model follows the code.
- A comment in sdk/ts/src/noise/symmetricState.ts gives the protocol name as 34 bytes; it has 33.

## Model

| member | source | states |
|---|---|---|
| Rekey.RekeyAgreement | sdk/go/peer.go:72-155 | in every run from a shared ready session, with any number of overlapping rekeys, both sides stay ready, and they hold the same keys in opposite roles or the third message is in flight and the responder's pending session waits for exactly it |
| Rekey.NoLossLeftToRight | sdk/go/client.go:265-285 | in every run, with Sends that overlap, straddle rekeys or are cancelled, the payloads whose packets the initiating side queued in order of the session still active are what the other side decrypted, in order, followed by what will open of the frames in flight |
| Rekey.DrainDeliversClean | sdk/go/client.go:696-713 | reading all frames in flight leaves the channel empty and exactly those payloads decrypted, in order |
| Rekey.EveryPayloadArrives | sdk/go/client.go:271-279 | if every Send of the initiating side queues its packet as soon as it has sealed it, reading on delivers everything it sent, across any number of rekeys |
| Rekey.CleanPayloadsArrive | sdk/go/client.go:265-285 | from every reachable state, reading on delivers a payload of the initiating side if and only if its packet was, when it was queued, the next in order of the session still active |
| Rekey.CancelledSendLoses | sdk/go/client.go:271-284 | from any shared session with nonces left, a cancelled send loses the next payload, although that one is queued and read |
| Rekey.StraddlingSendLoses | sdk/go/client.go:616-671 | from any shared session whose responder has answered no unsolicited message yet, a Send that seals before the promotion and queues after the third message is lost, with nothing cancelled and both sides on the same keys in the end |
| Rekey.OvertakingSendLoses | sdk/go/client.go:271-279 | of two overlapping Sends whose packets are queued in the wrong order, the second payload is lost and the first arrives |
| Rekey.RightPacketFate | sdk/go/peer.go:136-178 | a packet that the responding side queues is certain to be delivered if and only if it is then the next in order of the session that both sides use and no answer that will complete the outstanding rekey is in flight; otherwise reading on drops it |
| Rekey.RekeyLosesPacket | sdk/go/peer.go:89-143 | from any shared session whose responder has answered no unsolicited message yet, a rekey reaches a state in which a packet that the responding side seals and queues is lost |
| Rekey.OpensIffNext | sdk/go/noise.go:218-225 | a packet that reaches the initiating side opens exactly if it is the next one of the session active there |
| Rekey.SafeIsNeverDropped | sdk/go/client.go:696-713 | a packet that is next in its flow and has no completing answer ahead of it is delivered or still in flight after any further moves |
| Rekey.DoomedIsDropped | sdk/go/client.go:637-671 | a packet that is out of sequence or behind an answer that completes a rekey is dropped when its turn comes |
| Rekey.RunKeeps | sdk/go/client.go:580-671 | the invariant of the two-party system holds in every reachable state |
| Rekey.RightAnswers | sdk/go/peer.go:89-132 | what the responding side does with a message that is not a third one: the active session stays, and the message is answered, throttled, or ends the attempt that it disturbs |
| Rekey.LeftPromotes | sdk/go/client.go:637-671 | promoting on the second message keeps the invariant, with the third message just sent |
| Rekey.RightReadsMsg3 | sdk/go/client.go:637-671 | reading that third message puts the responder on the initiator's keys at nonce 0 and keeps the invariant |
| GoNode.MakeBeforeBreak | sdk/go/peer.go:72-155 | over every sequence of envelopes, notices, sends and clock values a ready active session stays ready, and is replaced only by a completed session whose key matches the pin and the announced key; the pending session is absent or still handshaking |
| GoNode.NeverReadyUnauthenticated | sdk/go/client.go:637-694 | from the moment of linking, whenever no envelope is being handled, no session with an unpinned or mismatching key is usable |
| GoNode.StartsAreSpaced | sdk/go/peer.go:109-123 | responder sessions started by unsolicited messages are at least the minimum interval apart, for every clock |
| GoNode.StepMakeBeforeBreak | sdk/go/client.go:616-671 | one event keeps the active session ready and replaces its keys only by authenticated ones |
| GoNode.StepAuthenticates | sdk/go/client.go:675-694 | one event makes a session ready only after pinning and cross-checking its key |
| GoNode.HandshakeAuthenticates | sdk/go/client.go:616-671 | the same for a handshake envelope: after it, the session that it completed is usable only if its key passed |
| GoNode.SendBetweenIsOrdered | sdk/go/client.go:616-671 | a Send in the middle of a handshake envelope is as if it came before or after the envelope, if and only if the envelope does not complete a first session whose key is refused; in that case it seals a packet for the refused key and the session fails all the same |
| GoNode.RefusedKeyGetsPacket | sdk/go/noise.go:171-215 | an initiator whose peer answers with a key other than the pinned one, and a Send in between: the packet is sealed for that key |
| GoNode.StepKeepsPending | sdk/go/peer.go:134-155 | after every event the pending session is absent or handshaking |
| GoNode.StepFixed | sdk/go/peerstore.go:60-73 | no event changes identities or an existing pin: pins are write-once |
| GoNode.FirstStartIsLate | sdk/go/peer.go:109-123 | the next unsolicited start comes at least the interval after the last one recorded |
| GoPairing.AtMostOneResult | sdk/go/client.go:300-377 | in every run each pairing channel receives at most one result, so its one-place buffer never blocks the read loop |
| GoPairing.NoLateResult | sdk/go/client.go:736-750 | a channel that is neither waiting nor in a peer's slot is never written again |
| GoPairing.ForgottenHearsNothing | sdk/go/client.go:746-750 | a call that gives up and forgets its waiter hears nothing more, whatever follows |
| GoPairing.LinearKept | sdk/go/client.go:543-574 | in every run each channel is in at most one place and only unwritten channels are in any |
| GoPairing.ApplyKeepsLinear | sdk/go/client.go:604-671 | every operation on waiters and slots keeps that |
| GoPairing.AllTold | sdk/go/client.go:604-612 | telling all waiters in any order gives each exactly one error |
| GoPeer.PeerConn.ChooseSession | sdk/go/peer.go:89-124 | the object makes that choice and creates the session it needs |
| GoPeer.PeerConn.HandleHandshakeEnvelope | sdk/go/peer.go:89-132 | the object ends as the value function says, and reports the session that completed or failed |
| GoPeer.PeerConn.StartAsInitiator | sdk/go/peer.go:58-67 | installs an initiating session as active, or nothing if no ephemeral could be made |
| GoPeer.PeerConn.StartRekeyAsInitiator | sdk/go/peer.go:72-81 | installs it as pending and leaves the active one alone |
| GoPeer.PeerConn.PromoteSession | sdk/go/peer.go:136-143 | the pending session becomes active only if it is the one named |
| GoPeer.PeerConn.AbandonSession | sdk/go/peer.go:149-155 | the pending session is dropped only if it is the one named |
| GoPeer.PeerConn.Send | sdk/go/peer.go:159-167 | encrypts with the active session only |
| GoPeer.PeerConn.Recv | sdk/go/peer.go:170-178 | decrypts with the active session only; a failure changes nothing |
| GoPeer.PeerConn.SetFirstPairWaiter | sdk/go/peer.go:36-40 | fills the slot and changes nothing else |
| GoPeer.PeerConn.TakeFirstPairWaiter | sdk/go/peer.go:44-50 | empties the slot and returns what was in it |
| GoNoise.NoiseSession.HandleHandshakeMessage | sdk/go/noise.go:119-169 | the status machine over reads and writes of the three messages: replies, completion, failure, and the error for a settled session |
| GoNoise.NoiseSession.Initiator | sdk/go/noise.go:83-99 | a new initiator waits for the second message of its own ephemeral |
| GoNoise.NoiseSession.Responder | sdk/go/noise.go:102-114 | a new responder waits for the first message |
| GoNoise.NoiseSession.Finish | sdk/go/noise.go:171-177 | makes the session ready with the given ciphers |
| GoNoise.NoiseSession.Fail | sdk/go/noise.go:179-186 | makes it failed for good |
| GoNoise.NoiseSession.EncryptPayload | sdk/go/noise.go:208-215 | seals with the next nonce of its direction, only when ready |
| GoNoise.NoiseSession.DecryptPacket | sdk/go/noise.go:218-225 | opens only the next packet of the other direction; a failure does not advance the nonce |
| GoClient.PeerStore.PinOrVerify | sdk/go/peerstore.go:60-73 | pins a first key, accepts the same key and refuses another; a first pin is kept even if saving fails |
| GoClient.Client.HandleHandshakeEnvelope | sdk/go/client.go:616-630 | the whole step for one handshake frame: node, reply and pairing channels as the value functions say, the client valid again, the other peers as they were, and every session an old or a new one |
| GoClient.Client.FeedAndResolve | sdk/go/client.go:616-671 | the same for the picked peer alone |
| GoClient.Client.ResolveFed | sdk/go/client.go:622-630 | the reply, and the resolution of a session that finished |
| GoClient.Client.ResolveHandshake | sdk/go/client.go:637-671 | verdict, promotion or abandonment, and the first-pair result |
| GoClient.Client.SettleHandshake | sdk/go/client.go:657-671 | promotes on success, abandons a failed pending session, tells the waiter of a first session |
| GoClient.Client.VerifySession | sdk/go/client.go:675-694 | checks the pin and the announced key, and fails the session if either does not match |
| GoClient.Client.HandlePeerStatus | sdk/go/client.go:580-602 | the device with the smaller identifier starts a replacement handshake when its peer comes online, and nobody else does; the client stays valid and the other peers as they were |
| GoClient.Client.HandlePairComplete | sdk/go/client.go:552-574 | moves the waiter into the new peer's slot; the accepting side starts the handshake; a code without a waiter changes nothing |
| GoClient.Client.ApplyWelcomePeers | sdk/go/client.go:230-236 | registers the reported peers that are not known and leaves the known ones alone |
| GoClient.Client.Seal | sdk/go/client.go:265-274 | the first half of Send: the next packet of the active session, or nothing |
| GoClient.Client.Perform | sdk/go/client.go:401-541 | any call or incoming frame changes the client as the value function for a whole client says |
| GoClient.Client.PerformAll | sdk/go/client.go:401-541 | so does any sequence of them |
| GoClient.Client.StartFirst | sdk/go/client.go:566-574 | a start that fails is reported to the waiter once |
| GoClient.Client.HandlePairCode | sdk/go/client.go:543-548 | hands the code to the request in progress |
| GoClient.Client.HandleError | sdk/go/client.go:604-612 | every waiter gets exactly one error and none is left |
| GoClient.Client.HandleTransportEnvelope | sdk/go/client.go:696-713 | a packet that opens is delivered unless the buffer of 64 is full; any other is dropped silently |
| GoClient.Client.Send | sdk/go/client.go:265-285 | seals under the active session of a known peer and queues the packet; a send cancelled after sealing fails, queues nothing and has used up the nonce |
| GoClient.Client.BeginRequest | sdk/go/client.go:300-306 | registers a new channel for the request |
| GoClient.Client.EndRequest | sdk/go/client.go:318-332 | registers the channel of the code that was given |
| GoClient.Client.AcceptPair | sdk/go/client.go:347-352 | registers a new channel under the code, as acceptor |
| GoClient.Client.RemovePairWaiter | sdk/go/client.go:746-750 | forgets a waiter without writing to it |
| GoClient.PairingAfterKeepsLinear | sdk/go/client.go:637-671 | settling a handshake keeps the pairing channels linear |
| GoObjects.Operate | sdk/go/client.go:401-541 | a new client on which any sequence of calls and frames has been performed: no pin has changed, every ready session is with the pinned key and the announced one, and no result channel was written twice |
| GoObjects.Continue | sdk/go/peer.go:89-155 | from there, whatever happens next, a peer that is not linked anew goes through exactly its own events, and its ready session is replaced only by another ready one with the same pinned key |
| GoObjects.ContinuePairing | sdk/go/client.go:736-750 | the channels are what the pairing operations make of them, and a channel in no place keeps what it holds |
| GoAccount.RunSound | sdk/go/client.go:675-694 | in every run of a client with any number of peers: pins never change, no peer has an unauthenticated ready session, first-pair slots and channels agree, and the channels stay linear |
| GoAccount.ReadySurvives | sdk/go/client.go:552-671 | a ready session survives a call or frame if and only if that does not link its peer anew, and its keys change only with a handshake envelope for that peer |
| GoAccount.RunKeepsReady | sdk/go/peer.go:89-155 | make-before-break for the whole client: until its peer is linked anew a ready session gives way only to another one, authenticated under the same pin |
| GoAccount.RunProjects | sdk/go/client.go:238-261 | peers do not interfere: in every run a peer that is not linked anew goes through exactly its own events |
| GoAccount.RunPairs | sdk/go/client.go:543-671 | the channels after a run are what the pairing operations in it make of them |
| GoAccount.RunLeavesRetired | sdk/go/client.go:736-750 | whatever a client does, a channel that neither a waiter nor a slot holds is never written again |
| GoAccount.WelcomeAdds | sdk/go/client.go:230-236 | a welcome adds unknown peers without a session and changes no known one |
| GoAccount.WelcomeKnows | sdk/go/client.go:230-236 | every reported peer is known afterwards, a new one with the first key announced for it |
| FirstContact.AcceptedIff | sdk/go/peerstore.go:60-73 | a completed session is accepted if and only if its key is the pinned one, or none is pinned and the pin could be saved, and agrees with the announced one; a first key is pinned either way |
| FirstContact.FirstContactSucceeds | sdk/go/client.go:552-694 | two linked clients without a session exchange three messages, each the reply to the one before; both are then ready under one transcript in opposite roles, each with the other's key pinned |
| FirstContact.FirstSessionGood | sdk/go/client.go:637-671 | a first session that completes with an acceptable key stays and is reported as good with that key |
| FirstContact.AcceptorIsTold | sdk/go/client.go:347-377 | the accepting application is told the peer and the peer's key on its channel, the key is pinned and the session ready |
| FirstContact.RequesterIsTold | sdk/go/client.go:300-343 | the same for the requesting application |
| FirstContact.RequesterWaits | sdk/go/client.go:300-332 | it is given the code on one channel and waits under the code on another |
| FirstContact.CodeIsHandedOver | sdk/go/client.go:543-548 | the code goes to the channel of the request and to no other |
| FirstContact.BadIsReported | sdk/go/client.go:637-671 | a first session that ends badly is reported with its reason, a failed replacement is not reported |
| FirstContact.FailedStartIsReported | sdk/go/client.go:566-573 | an accepting side that cannot start says so and frees the slot |
| FirstContact.OneSideStarts | sdk/go/client.go:580-602 | of two linked devices told that the other is online exactly the smaller starts again; an offline notice starts nothing |
| FirstContact.SpacedStartIsAnswered | sdk/go/peer.go:109-123 | beside a healthy session an unsolicited first message is answered two seconds after the last one |
| XXAgreement.XXAgrees | sdk/cpp/src/noise/handshake_state.cpp:32-152 | for all static and ephemeral keys the three messages run through, and both sides end with equal chaining key and hash and each other's static key |
| XXAgreement.SessionsAgree | sdk/cpp/src/noise/session.cpp:21-67 | both sessions become ready; each sends with the cipher the other receives with; each peer key is the other's static key; the three messages and the two keys are the ones written out with the primitives alone |
| XXAgreement.ExchangeBytes | sdk/cpp/src/noise/symmetric_state.cpp:7-53 | every message, both transport keys and the final hash of an honest handshake, as nested calls of hash, HKDF, sealing and Diffie-Hellman on the protocol name and the keys |
| XXAgreement.SecondAcceptedIff | sdk/cpp/src/noise/handshake_state.cpp:100-121 | for every message, an initiator becomes ready if and only if it is an ephemeral, a sealed static key and a sealed payload of exactly that form, and then with that key; any other message fails the session |
| XXAgreement.ThirdAcceptedIff | sdk/cpp/src/noise/handshake_state.cpp:122-152 | the same for a responder and the third message |
| CppHandshake.Handshake | sdk/cpp/src/noise/session.cpp:21-74 | the same for two session objects that share nothing, created and driven through the three messages, with the same two keys |
| CppHandshake.DeliverTo | sdk/cpp/src/noise/session.cpp:43-74 | a message delivered to one session has the specification's effect on it and none on the other |
| XXAgreement.MessageMirrors | sdk/cpp/src/noise/handshake_state.cpp:32-152 | what one party writes the other reads, and they are mirror images again |
| XXAgreement.TokenMirrors | sdk/cpp/src/noise/handshake_state.cpp:36-63 | the same for each token, with any bytes following |
| XXAgreement.PatternFits | sdk/cpp/src/noise/handshake_state.cpp:36-63 | every message of the pattern combines only keys already sent |
| XXAgreement.LawsAreSatisfiable | sdk/cpp/src/noise/primitives.cpp:85-131 | the laws assumed of the primitives have a model |
| NoiseForms.Write2Form | sdk/cpp/src/noise/handshake_state.cpp:41-55 | the straight-line second message is the specification's |
| NoiseForms.Write3Form | sdk/cpp/src/noise/handshake_state.cpp:56-63 | the same for the third |
| NoiseForms.Read2Form | sdk/cpp/src/noise/handshake_state.cpp:100-121 | the straight-line read of the second message, with its offsets, is the specification's |
| NoiseForms.Read3Form | sdk/cpp/src/noise/handshake_state.cpp:122-132 | the same for the third |
| NoiseTransport.TransportRoundTrip | sdk/cpp/src/noise/session.cpp:76-88 | after any handshake, over any interleaving of sends in both directions, in-order delivery and refused foreign frames, both sessions stay ready, each has output a prefix of the other side's plaintexts, and the rest is in flight, plaintext i sealed with the key of its direction and nonce i |
| NoiseTransport.NotReadyIsSilent | sdk/cpp/src/noise/session.cpp:76-88 | a session that is not ready neither sends nor outputs anything |
| NoiseTransport.TalkIsWire | sdk/cpp/src/noise/cipher_state.cpp:10-28 | the two directions of two ready sessions are independent |
| NoiseTransport.DrainCompletes | sdk/ts/src/noise/cipherState.ts:17-29 | delivering what is in flight completes it |
| NoiseTransport.ActKeeps | sdk/cpp/src/noise/cipher_state.cpp:10-28 | one send, delivery or rejected frame keeps sender and receiver in step |
| CppNoise.CipherState.EncryptWithAd | sdk/cpp/src/noise/cipher_state.cpp:10-18 | seals and advances the nonce, or passes through without a key |
| CppNoise.CipherState.DecryptWithAd | sdk/cpp/src/noise/cipher_state.cpp:20-28 | opens and advances, and leaves the nonce on failure |
| CppNoise.CipherState.InitializeKey | sdk/cpp/src/noise/cipher_state.cpp:5-8 | sets the key and resets the nonce |
| CppNoise.SymmetricState.constructor | sdk/cpp/src/noise/symmetric_state.cpp:7-18 | pads or hashes the protocol name as the specification says |
| CppNoise.SymmetricState.MixKey | sdk/cpp/src/noise/symmetric_state.cpp:20-24 | the specification's MixKey |
| CppNoise.SymmetricState.MixHash | sdk/cpp/src/noise/symmetric_state.cpp:26-30 | the specification's MixHash |
| CppNoise.SymmetricState.EncryptAndHash | sdk/cpp/src/noise/symmetric_state.cpp:32-37 | the specification's EncryptAndHash |
| CppNoise.SymmetricState.DecryptAndHash | sdk/cpp/src/noise/symmetric_state.cpp:39-44 | the specification's DecryptAndHash, unchanged on failure |
| CppNoise.SymmetricState.Split | sdk/cpp/src/noise/symmetric_state.cpp:46-53 | two fresh cipher states with the two derived keys |
| CppNoise.HandshakeState.WriteMessage | sdk/cpp/src/noise/handshake_state.cpp:32-78 | at every index, for the party whose turn it is, the specification's message and state; Split with roles swapped at the third |
| CppNoise.HandshakeState.ReadMessage | sdk/cpp/src/noise/handshake_state.cpp:80-152 | at every index and for every message of every length, the specification's read: state, offsets, failures |
| CppNoise.NoiseSession.HandleHandshakeMessage | sdk/cpp/src/noise/session.cpp:43-74 | reply, readiness and failure as the specification's session |
| CppNoise.NoiseSession.AsInitiator | sdk/cpp/src/noise/session.cpp:21-27 | a new initiator and its first message |
| CppNoise.NoiseSession.AsResponder | sdk/cpp/src/noise/session.cpp:29-33 | a new responder |
| CppNoise.NoiseSession.Finish | sdk/cpp/src/noise/session.cpp:35-41 | takes over the two ciphers and the peer's key |
| CppNoise.NoiseSession.Encrypt | sdk/cpp/src/noise/session.cpp:76-81 | seals with the sending cipher only when ready |
| CppNoise.NoiseSession.Decrypt | sdk/cpp/src/noise/session.cpp:83-88 | opens with the receiving cipher only when ready |
| TsNoise.Concat | sdk/ts/src/noise/handshakeState.ts:7-16 | filling the buffer part by part gives the concatenation |
| TsNoise.CipherState.EncryptWithAd | sdk/ts/src/noise/cipherState.ts:17-22 | seals and advances the nonce |
| TsNoise.CipherState.DecryptWithAd | sdk/ts/src/noise/cipherState.ts:24-29 | opens and advances, and leaves the nonce on failure |
| TsNoise.SymmetricState.constructor | sdk/ts/src/noise/symmetricState.ts:23-30 | the specification's initial state for the protocol name |
| TsNoise.SymmetricState.MixKey | sdk/ts/src/noise/symmetricState.ts:32-36 | the specification's MixKey |
| TsNoise.SymmetricState.MixHash | sdk/ts/src/noise/symmetricState.ts:38-40 | the specification's MixHash |
| TsNoise.SymmetricState.EncryptAndHash | sdk/ts/src/noise/symmetricState.ts:42-46 | the specification's EncryptAndHash |
| TsNoise.SymmetricState.DecryptAndHash | sdk/ts/src/noise/symmetricState.ts:48-53 | the specification's DecryptAndHash |
| TsNoise.SymmetricState.Split | sdk/ts/src/noise/symmetricState.ts:55-62 | two fresh cipher states with the two derived keys |
| TsNoise.HandshakeState.WriteMessage | sdk/ts/src/noise/handshakeState.ts:61-94 | with separate read and write counts, the specification's message and state for the party whose turn it is |
| TsNoise.HandshakeState.ReadMessageFrom | sdk/ts/src/noise/handshakeState.ts:97-132 | the read without length checks, as its value function |
| TsNoise.NoiseSession.StartAsInitiator | sdk/ts/src/noise/session.ts:54-59 | a new initiator and its first message |
| TsNoise.NoiseSession.HandleHandshakeMessage | sdk/ts/src/noise/session.ts:87-120 | reply, readiness and failure as its value function; throws without change once ready |
| TsNoise.NoiseSession.Finish | sdk/ts/src/noise/session.ts:122-128 | takes over the two ciphers and the peer's key |
| TsNoise.NoiseSession.Encrypt | sdk/ts/src/noise/session.ts:136-141 | seals with the sending cipher only when ready |
| TsNoise.NoiseSession.Decrypt | sdk/ts/src/noise/session.ts:143-148 | opens with the receiving cipher only when ready |
| NoiseEquivalence.SameAdvance | sdk/ts/src/noise/session.ts:87-128 | from the same state, for every incoming message of every length, C++ and TypeScript give the same reply and the same new session |
| NoiseEquivalence.SameRuns | sdk/cpp/src/noise/session.cpp:43-74 | over a run they give equal replies and equal final sessions if and only if no handshake message arrives after readiness |
| NoiseEquivalence.NewSessionsAgree | sdk/ts/src/noise/session.ts:54-66 | the same for the sessions that both libraries create, in either role |
| NoiseEquivalence.SameRead2 | sdk/ts/src/noise/handshakeState.ts:107-118 | reading the second message without length checks accepts and computes the same as with them |
| NoiseEquivalence.SameRead3 | sdk/ts/src/noise/handshakeState.ts:120-129 | the same for the third |
| NoiseEquivalence.ShortKeyFails | sdk/cpp/src/noise/handshake_state.cpp:111-121 | an encrypted key that is too short never yields a key that Diffie-Hellman accepts |
| SendQueue.QueueSafety | internal/relay/client.go:97-112 | in every interleaving of any number of enqueue and close calls: no send on a closed channel, no second close, never overfull, what went in is what came out followed by what is queued |
| SendQueue.NothingAfterClose | internal/relay/client.go:196-206 | once the closed flag is set nothing more is accepted |
| SendQueue.CloseHasReturned | internal/relay/client.go:196-206 | when a call of close has returned, whichever goroutine did the closing, the queue is closed and accepts nothing more |
| SendQueue.InterleavingsLinearize | internal/relay/client.go:34-42 | every interleaving is a sequential run of an atomic queue with the same results and final state |
| SendQueue.CallsLinearize | internal/relay/client.go:97-112 | an enqueue that has returned is in that sequential run exactly once, with its frame and the result it returned |
| SendQueue.ActionsAreAtomic | internal/relay/client.go:100-112 | each atomic action is a step of that queue or invisible to it |
| SendQueue.RunKeeps | internal/relay/client.go:196-206 | the lock, once and channel invariant holds in every reachable state |
| Devices.PairingIsSymmetric | internal/database/db.go:29-37 | with foreign keys enforced, in every run of table operations from the empty table, paired_with is a symmetric partial map onto existing rows whenever no deletion is half done |
| Devices.SettlesIffUndisturbed | internal/database/pairing.go:100-204 | without foreign keys, from every state of a run every way of finishing the deletions under way leaves paired_with symmetric, if and only if no pairing of the run joins a device being deleted to one that is not |
| Devices.SettlesIffApart | internal/database/pairing.go:197-204 | finishing the deletions under way leaves paired_with symmetric if and only if the devices not being deleted are paired symmetrically among themselves |
| Devices.SymmetricIffUndisturbed | internal/database/pairing.go:100-204 | without foreign keys, every state of a run is symmetric for the devices not being deleted if and only if no pairing joins a device being deleted to one that is not |
| Devices.RunKeepsSymmetric | internal/database/pairing.go:197-204 | without foreign keys, in runs that never join a device being deleted to one that is not, the same holds also during deletions for the devices not being deleted |
| Devices.PairKeepsSymmetricIff | internal/database/pairing.go:100-133 | without foreign keys, a pairing keeps the table symmetric if and only if it does not join two unpaired devices of which one is in the middle of its deletion and the other is not |
| Devices.PairDuringDeleteDangles | internal/database/pairing.go:197-204 | without foreign keys, when the deletion finishes after such a pairing the other device points at a missing row |
| Devices.DanglingIsReached | internal/database/db.go:29-37 | the run that creates two devices and pairs them while one is deleted leaves a dangling reference without foreign keys and none with them |
| Devices.PairedDeviceIsAdmitted | internal/relay/handler.go:34-57 | a device that was ever paired is, until deleted, admitted with its token at any time: never rejected as expired |
| Devices.CreatedDeviceGetsIn | internal/database/pairing.go:48-58 | a device is created if and only if its identifier and token are free; it is then let in with that token until it expires, and nobody else is affected |
| Devices.DeletedDeviceIsGone | internal/database/pairing.go:197-204 | a deleted device is turned away and nobody is paired with it; other rows lose at most that pairing |
| Devices.ClearedStaysCleared | internal/database/pairing.go:122-130 | an expiry once cleared stays cleared |
| Devices.FirstKeyStays | internal/database/pairing.go:161-188 | over every run the first announced key of a device is its key until it is deleted: the same key is accepted again and every other is refused |
| Devices.DB.PairDevices | internal/database/pairing.go:100-133 | both rows are linked and their expiry cleared, or nothing changes and the first offending device decides the error; the order of the map iteration does not matter |
| Devices.DB.UnpairDevice | internal/database/pairing.go:143-149 | clears the device and whoever points at it |
| Devices.DB.SetStaticKeyIfUnset | internal/database/pairing.go:161-188 | the first key is locked; the same key again succeeds, another is refused |
| Devices.DB.DeleteDevice | internal/database/pairing.go:197-204 | references are cleared, then the row is removed, and with it any reference made in between if foreign keys are enforced |
| Devices.DB.CreateDevice | internal/database/pairing.go:48-58 | a new row, or no change if the identifier or token exists |
| PairCodes.RedeemsIffUses | internal/relay/paircodes.go:30-53 | over every history of calls, Take succeeds for r if and only if the latest Put of that code since its last Take was by r and has not expired |
| PairCodes.PutUsedOnce | internal/relay/paircodes.go:39-53 | no Put is redeemed twice |
| PairCodes.ReplayHoldsPending | internal/relay/paircodes.go:30-53 | the registry holds exactly the puts not yet taken or replaced |
| PairCodes.PairCodeRegistry.PutCode | internal/relay/paircodes.go:30-34 | records the requester and the expiry |
| PairCodes.PairCodeRegistry.TakeCode | internal/relay/paircodes.go:39-53 | removes the code whatever the outcome, and tells unknown from expired |
| RelayDelivery.VerbatimRelay | internal/relay/hub.go:113-132 | in every run of the server, the envelopes written to a connection are a prefix, byte for byte and in order, of those routed to it, and none is missing from its queue while it is neither closed nor stopped |
| RelayDelivery.OfferedKeeps | internal/relay/client.go:97-112 | one failed enqueue closes the connection, so no later envelope can follow a gap |
| RelayDelivery.WroteKeeps | internal/relay/client.go:165-194 | the write loop drains in order |
| RelayDelivery.NextKeeps | internal/relay/control.go:93-266 | every step of the server keeps every connection free of gaps |
| RelayRouting.RoutingAgreement | internal/relay/control.go:181-266 | in every in-band run each registered connection's peer is its row's paired_with, and the table stays symmetric |
| RelayRouting.RoutesToMutualPeer | internal/relay/client.go:153-158 | a binary frame is enqueued to nobody but the sender's mutually linked peer, on that device's registered connection, which routes back |
| RelayRouting.LinkedPeersReachEachOther | internal/relay/hub.go:113-132 | between mutually linked registered devices every frame is offered to the peer |
| RelayRouting.RegisterAgreesIffFresh | internal/relay/hub.go:56-70 | registering a connection from the Register channel keeps agreement if and only if its row names the peer that it named when the handler read it |
| RelayRouting.RegisterAgreesIff | internal/relay/handler.go:59-82 | the same condition, in every state that an in-band run reaches from a symmetric table |
| RelayRouting.AtomicConnectIsFresh | internal/relay/handler.go:39-82 | a connect with nothing in between is in order |
| RelayRouting.SplitConnectDisagrees | internal/relay/handler.go:59-82 | a pairing between the halves of a reconnect breaks agreement, in every such state |
| RelayRouting.ReconnectHappens | internal/relay/handler.go:39-82 | such states are reachable from any two unpaired devices |
| RelayRouting.LinkKeeps | internal/relay/control.go:201-240 | linking updates the table and both connections consistently |
| RelayRouting.UnpairKeeps | internal/relay/control.go:248-266 | unlinking does too, connected or not |
| RelayHistory.Presence | internal/relay/hub.go:53-109 | while p stays connected and the live connections of d (registered or waiting to be) have p as peer, the last notice about d issued to p says whether d is registered, and without a notice nothing changed, across reconnects, evictions and late or repeated unregistrations of dead connections with any peer |
| RelayHistory.RegisterTracks | internal/relay/hub.go:56-70 | registering issues the matching notice |
| RelayHistory.UnregisterTracks | internal/relay/hub.go:72-89 | unregistering issues it only for the current connection |
| RelayHistory.LinksTraceToCodes | internal/relay/control.go:162-212 | in every run each pairing not there at the start is a recorded link, and each link used up an unexpired code requested by the other device |
| RelayHistory.LinksUseDistinctCodes | internal/relay/control.go:187-199 | no two links used the same request |
| RelayHistory.LinkTellsBothSides | internal/relay/control.go:214-239 | a link between connected devices tells each side the other's identifier and locked key and points each at the other |
| RelayEffects.EnvelopeIsQueued | internal/relay/hub.go:113-132 | an envelope for a connected peer is appended to its queue if there is room and otherwise closes it; nothing else changes |
| RelayEffects.EnvelopeArrives | internal/relay/hub.go:113-132 | if the peer's connection has room, is being written and has no closing frame queued, writing what is queued writes the envelope verbatim and last |
| RelayEffects.LinkedDeviceIsReached | internal/relay/client.go:153-158 | the same between the registered connections of any two devices that the table links, in every state of an in-band run |
| RelayEffects.WritesDrain | internal/relay/client.go:165-194 | the write loop writes what is queued, oldest first |
| RelayEffects.ClosingFrameIsLast | internal/relay/client.go:171-185 | a closing frame is written last |
| RelayEffects.HaltStops | internal/relay/client.go:178-192 | a write loop that gives up loses the frame in hand and writes nothing more |
| RelayEffects.ConnectIffRightCaller | internal/relay/handler.go:30-82 | a connect opens a connection if and only if identifier and token are given, the row has that token and has not expired; it is the device's, routes to the row's paired device, and anyone else changes nothing |
| RelayEffects.RefusalNamesReason | internal/relay/handler.go:34-57 | who is told bad request, expired, or unauthorized |
| RelayEffects.EveryConnectionWasAdmitted | internal/relay/handler.go:39-82 | every connection of every run was opened with the token that its device's row held at that step |
| RelayEffects.RegisterTells | internal/relay/hub.go:68-70 | registering a device appends exactly one peer_status, online, to its connected peer's queue |
| RelayEffects.UnregisterTells | internal/relay/hub.go:72-89 | unregistering its current connection appends exactly one, offline |
| RelayEffects.PresenceIsSeen | internal/relay/hub.go:53-109 | over any run in which p stays connected and the live connections of d keep p as peer, the last peer_status about d that the hub queued for p says whether d is connected now |
| RelayEffects.OlderConnectionIsClosed | internal/relay/hub.go:56-66 | registering closes the older connection of the device and takes its place |
| RelayEffects.ClosedTakesNothing | internal/relay/client.go:100-112 | no step but its own write loop changes the queue of a closed connection |
| RelayEffects.DropCloses | internal/relay/client.go:129-163 | a connection that ends is closed; a ping is answered |
| RelayEffects.WelcomeIsQueued | internal/relay/control.go:95-116 | a new connection is told its peer, the peer's key and whether the peer is connected |
| RelayEffects.WelcomeIsOnce | internal/relay/handler.go:82-83 | and only once |
| RelayEffects.FirstKeyIsStored | internal/relay/control.go:144-158 | the first announced key is stored, and announcing it again changes nothing |
| RelayEffects.OtherKeyExpels | internal/relay/control.go:80-91 | any other key changes nothing in the table and expels the connection: what was queued is written, then the error, then nothing more |
| RelayEffects.OtherKeyCloses | internal/relay/control.go:144-158 | without room for the error the connection is closed at once |
| RelayEffects.ErrorsAreReported | internal/relay/control.go:144-176 | what is malformed or fails is reported and changes nothing else |
| RelayEffects.RequestedCodePairs | internal/relay/control.go:162-240 | a code that one device asks for and another accepts within five minutes pairs the two: rows, connections and what both are told |
| RelayEffects.RefusedAccept | internal/relay/control.go:181-212 | every other accept is answered with the error for its reason, pairs nothing, and uses up a code that exists |
| RelayEffects.UnpairSevers | internal/relay/control.go:248-266 | unpairing clears both rows and both connections, tells both, and no further envelope passes |
| RelayEffects.UnpairSparesOthers | internal/database/pairing.go:143-150 | nobody else's row changes |
| RelayServer.Client.Enqueue | internal/relay/client.go:97-112 | the atomic queue's enqueue |
| RelayServer.Client.CloseSocket | internal/relay/client.go:196-206 | closes once, and again without effect |
| RelayServer.Client.SendJson | internal/relay/control.go:60-69 | a control frame that does not fit is dropped |
| RelayServer.Client.SendErrorAndClose | internal/relay/control.go:80-91 | the last frame closes, or the connection is closed at once |
| RelayServer.Client.WriteNext | internal/relay/client.go:171-185 | writes the oldest frame, and stops after a closing one |
| RelayServer.Client.HaltWriting | internal/relay/client.go:178-192 | the write loop returns and loses the frame in hand |
| RelayServer.Hub.RegisterClient | internal/relay/hub.go:56-70 | evicts the older connection, registers, notifies the peer: the state machine's step |
| RelayServer.Hub.UnregisterClient | internal/relay/hub.go:72-89 | removes and notifies only if current |
| RelayServer.Hub.NotifyPeerStatus | internal/relay/hub.go:105-109 | tells the target if it is connected |
| RelayServer.Hub.Route | internal/relay/hub.go:113-132 | hands the payload unchanged to the registered connection, or closes that connection and names it for the Unregister channel |
| RelayServer.Hub.HandleBinary | internal/relay/client.go:153-158 | routes to the current peer, discards when unpaired |
| RelayServer.Hub.HandleAnnounceKey | internal/relay/control.go:144-158 | all outcomes of announcing a key |
| RelayServer.Hub.HandlePairRequest | internal/relay/control.go:162-176 | the code is recorded with its lifetime and handed back, or an error is sent when none could be generated |
| RelayServer.Hub.HandlePairAccept | internal/relay/control.go:181-240 | all outcomes of accepting a code |
| RelayServer.Hub.HandleUnpair | internal/relay/control.go:248-266 | clears the table and both connections |
| RelayServer.Hub.SendWelcome | internal/relay/control.go:95-116 | the welcome and the first peer_status |
| RelayServer.Hub.HandleConnect | internal/relay/handler.go:30-81 | the admission checks in order; a new connection with the peer read from the row |
| RelayServer.Hub.RunSteps | internal/relay/hub.go:53-132 | any sequence of steps performed on the objects ends in the state that the state machine reaches, so every result about server runs holds of the objects |
| RelayServer.Hub.Perform | internal/relay/client.go:129-194 | one step on the objects is one step of the state machine |
| RelayObjects.Serve | internal/relay/handler.go:28-98 | a new hub on an existing database, after any steps, is in the state of the corresponding run |
| RelayObjects.ServeDelivers | internal/relay/hub.go:113-132 | on the client objects, what has been written is a prefix of the envelopes routed, and none is missing from an open queue |
| RelayObjects.ServeAgrees | internal/relay/control.go:181-266 | after an in-band run every registered client object's peer is its row's paired_with, and linked registered clients point at each other |
| RelayObjects.ServeReaches | internal/relay/hub.go:113-132 | on the client objects, after an in-band run, an envelope between linked devices is written verbatim after what was queued |
| RateLimit.RateBound | internal/relay/ratelimit.go:25-43 | for nondecreasing times, with cleanup passes anywhere, any half-open interval of one window admits at most twice the limit per address |
| RateLimit.RateBoundIsReached | internal/relay/ratelimit.go:32-42 | twice the limit is reached, for every limit and every window longer than a tick |
| RateLimit.CleanupIsUnobservable | internal/relay/ratelimit.go:68-96 | if no request to a forgotten address reads the clock twice within less than a window, the answers are those of a limiter that never cleans up, whatever the other requests read |
| RateLimit.CleanupShowsIff | internal/relay/ratelimit.go:68-77 | a request to a forgotten address can reveal the cleanup if and only if there are tokens to give and its readings differ by less than a window |
| RateLimit.CleanupHiddenIff | internal/relay/ratelimit.go:68-96 | over a whole run: cleanup stays hidden, wherever the run is stopped and continued, if and only if there are no tokens to give or no request to a forgotten address reads the clock twice within less than a window |
| RateLimit.LateIsErased | internal/relay/ratelimit.go:32-36 | the difference made by such a request lasts at most until the next one a window later, which is why the condition is about every point of a run |
| RateLimit.CleanupCanShow | internal/relay/ratelimit.go:80-96 | for every limit such a run exists |
| RateLimit.SameAnswers | internal/relay/ratelimit.go:80-96 | the same from any two limiters that differ by forgotten stale buckets |
| RateLimit.TokenBucket.AllowAt | internal/relay/ratelimit.go:25-43 | refill, refusal and taking a token, as the value function |
| RateLimit.IPRateLimiter.AllowAt | internal/relay/ratelimit.go:68-77 | finds or creates the bucket of the address and asks it; other addresses are unaffected |
| RateLimit.IPRateLimiter.CleanupAt | internal/relay/ratelimit.go:80-96 | in any order of iteration exactly the stale entries are removed |
| Calendar.CivilIsGregorian | sdk/rust/src/peerstore.rs:124-135 | for every integer day count the date is valid and the next count gives the next date of the Gregorian calendar |
| Calendar.CivilCountsDays | sdk/rust/src/peerstore.rs:121-135 | the date of n is 1970-01-01 counted forward n days |
| Calendar.CivilIsMonotone | sdk/rust/src/peerstore.rs:124-135 | later days have later dates, so no date is given twice |
| Calendar.EpochIsDayZero | sdk/rust/src/peerstore.rs:121-135 | day 0 is 1970-01-01 |
| Calendar.EraIsFloor | sdk/rust/src/peerstore.rs:125-127 | the truncating division of the shifted count is a floor, also for days before the era |
| Calendar.YearContains | sdk/rust/src/peerstore.rs:128-130 | the year computed is the one that contains the day, leap years included |
| Calendar.DateOfSteps | sdk/rust/src/peerstore.rs:130-134 | stepping the day of the year steps the month and day |
| Calendar.StampsIncrease | sdk/rust/src/peerstore.rs:108-119 | timestamps are valid, and those of later seconds are later |
| Calendar.TimeOfDay | sdk/rust/src/peerstore.rs:113-115 | the date is valid, hour, minute and second are in range, and they add up to the seconds |
| Base64.RoundTrip | interop/clients/cpp/main.cpp:34-95 | decoding an encoding gives back the bytes, for every length |
| Base64.EncodedLength | interop/clients/cpp/main.cpp:34-61 | four characters for every three bytes or part of three |
| Base64.OtherCharactersAreIgnored | interop/clients/cpp/main.cpp:76-79 | characters outside the alphabet do not change what is decoded |
| Base64.Base64Encode | interop/clients/cpp/main.cpp:34-61 | the loop and its two remainders compute the encoding |
| Base64.Base64Decode | interop/clients/cpp/main.cpp:72-95 | the loop with its group of four and its remainders computes the decoding |
| Base64.CharsInvert | interop/clients/cpp/main.cpp:63-70 | the alphabet and the value of a character are inverse to each other |
| Base64.AlphabetIsStandard | interop/clients/cpp/main.cpp:32 | the alphabet is table 1 of RFC 4648 |
| Base64.TestVectors | interop/clients/cpp/main.cpp:34-61 | the encodings given in section 10 of RFC 4648 |
| Base64.GroupInverts | interop/clients/cpp/main.cpp:82-84 | the decoder puts the bits of three bytes back together |

## Left out

- The primitives X25519, ChaCha20-Poly1305, BLAKE2s and HKDF, and the Noise libraries of the Go, Python and Rust SDKs: used through their laws only.
- Secrecy and attackers: the theorems are about agreement, delivery and state.
- The peer and client ports in Python, Rust, TypeScript and C++: the same policy again, with small differences.
- The envelope header byte, JSON, base58 codes, WebSocket framing, HTTP, SQLite, files, configuration, logging and the admin and CLI paths.
- In the Go SDK a session can fail to start only for want of an ephemeral; other errors of the library's constructor are not modelled.
- Integers are unbounded: Go, C++ and Rust fixed-width arithmetic is modelled only where it matters, in the nonces.
- Locks other than the send queue's. The hub's methods run one at a time, as under its lock. The Go client's handlers run one at a time, as the read loop calls them; application calls fall between handlers, except that a Send is two steps in `Rekey` and falls inside an envelope in `GoNode.SendBetweenIsOrdered`. An Allow call is one step although cleanup could run between finding the bucket and asking it.
- GoNode.NeverReadyUnauthenticated: is about the states between handlers, and so is GoObjects.Operate; `GoNode.SendBetweenIsOrdered` is about the inside of one.
- The Unregister channel: a client may be unregistered at any time and repeatedly, which covers every order in which the channel is filled and drained.
- Frames that a closed Go client no longer queues, other than those of Send.
- RelayDelivery.VerbatimRelay: treats Route as one step; two connections of one device routing at the same time could let a frame in between another's failed enqueue and its close.
- RelayRouting.RoutingAgreement: control handlers that run on a connection before it is registered or after it is evicted are outside its runs, as are admin and CLI changes of the table.
- RelayHistory.Presence: covers the notices of the hub loop; the peer_status sent with the welcome races with registration.
- Calendar.StampsIncrease: is about the fields of the timestamp, not about its decimal text.
