# go-ipsec: a verified model

A Dafny model of the protocol core of go-ipsec, an IKEv2/ESP client, with proofs of what
it keeps over whole runs. It follows the code's branches, constants and error paths.

Cryptography is a record of functions (`Crypto.Primitives`) with the laws the proofs need:
opening undoes sealing, CBC decryption undoes encryption, Diffie-Hellman commutes, prf
yields 32 octets. `Crypto.LawsHaveAModel` shows the laws have a model. Clocks, random
draws, encoding and sending are inputs that may fail at any point.

- `Replay`, `Esp`, `EspChannel`: the anti-replay bitmap, the ESP packet and a hostile
  network between two ends.
- `Bytes`, `IkeMsg`, `SaCodec`, `BodyCodec`, `MessageCodec`: the IKE message codec.
  `WireFormat`: the octets it must produce, drawn independently of it.
- `KeySchedule`, `SkEnvelope`: IKE and Child keys, and the SK envelope sealed in place.
- `Suites`, `Rekey`: negotiation and the CREATE_CHILD_SA payload exchange.
  `RekeyContents`: what its messages carry and which keys come of them, in numbers.
- `Driver`: the post-handshake driver as a transition function with its history in the
  state. `DriverInv` says what every state keeps and `DriverSteps` proves it step by step;
  `DriverFrame`, `DriverTrace` and `DriverFresh` say where the entries of the history and
  the SPIs come from. `Session` is the object with its methods, proved to be that
  transition function.
- `DriverTicks`, `DriverEvents`: what each tick and each datagram does, said only of the
  session's fields, the clocks and what goes on the wire, in protocol numbers and
  nanoseconds.
- `DriverTheorems`, `DriverConduct`, `DriverResponder`: what holds over every run of one
  driver.
  `DriverWitness`: concrete runs, from a session as it is entered, in which a promise fails.
- `DriverPair`, `RekeyOctets`: one exchange between two drivers in any reachable states,
  as payloads and as octets. `DriverNetwork`: two drivers and a network that loses,
  duplicates, delays and reorders, over whole runs.
- `Backoff`: retransmission delays. `Registry`: the inbound SA map under timers and
  resets. `Lifecycle`: Dial, supervisor, workers and Close interleaved;
  `LifecycleProgress`: what a death leads to.

Where a promise turned out to hold only under a condition, the condition is proved exact:

- Every run transmits every request at most `RetransmitTries` times (two if it began as a
  fast probe) if and only if the tries are at least two (`WithinTriesIff`). With one try, an
  exchange a wake-up accelerates is sent twice. ipsec.go:346 always passes the default of
  five; a single try can only be set in the internal session configuration.
- A peer request installs at most one Child SA and causes at most one cutover, over the
  whole run and unconditionally (`EffectsAtMostOnce`). Re-establishments are different: each
  time a request is processed it triggers once for every Delete payload in it that names
  the live Child SA. When everything encodes that is all (`TriggersAreDeletes`), so at most
  once if and only if at most one payload names it; over a request and its repeat, at most
  once if and only if no payload names it, or one does and the repeat is not processed
  (`TriggersOverARepeat`). `TwoDeletesTriggerTwice` and `UnansweredDeleteTriggersTwice`
  reach both failing cases.
- A processed request counts as a duplicate from then on if and only if the encoding its
  answer needs succeeds (`ReprocessedIffUnencodable`).
- A rejected reply to a re-establishment, with none queued, ends the recovery
  (`RejectedReplyStrands` reaches it); nothing else does.
- The DELETE a session sends after its own Child rekey names the SPI that was replaced. The
  peer takes it for its new SA, and re-establishes that, if and only if the replaced SPI
  happens to equal the peer's new inbound one (`DeletionAtThePeer`).
- A message survives the codec exactly when it is well formed; an SK payload in front of
  another payload survives exactly when it names that payload's type.
- A superseded inbound SA is scheduled for removal exactly when its SPI is not 0, unless
  the new SA takes over that SPI (`ZeroSpiIsNeverRemoved` reaches the case of SPI 0).
- Message IDs are 32-bit and wrap, so they are distinct within any 2^32 consecutive
  requests of an SA. The theorem about two drivers (`CompletedRekeysMirrored`) therefore
  asks of an end that it has sent no more than 2^32 requests, and that the 64-bit SPIs it
  drew did not repeat.

The comment on isIKERekey (internal/session/rekey.go:776-778) also mentions a KE payload and
missing traffic selectors; the code looks only at the protocol of the first proposal, and
so does the model.

## Model

| member | source | states |
|---|---|---|
| Replay.ShiftUp | internal/esp/replay.go:81-104 | the word-by-word shift in place is the bit-level shift, low bits zero, for every length and distance |
| Replay.ShiftedWordsAreBitShift | internal/esp/replay.go:81-104 | copying words and carrying bits between neighbours is a shift of the whole bitmap |
| Replay.ReplayWindow.constructor | internal/esp/replay.go:29-39 | the window size is the requested one rounded up to words, within the bounds, and nothing is accepted yet |
| Replay.ReplayWindow.SetBit | internal/esp/replay.go:71-73 | exactly the bit at the offset changes |
| Replay.ReplayWindow.Advance | internal/esp/replay.go:50-56 | moving the window records the new highest number and keeps the set it stands for |
| Replay.ReplayWindow.Accept | internal/esp/replay.go:43-69 | bitmap and last together refine the plain set of accepted numbers, and the answer is whether the number is fresh for that set |
| Replay.AdvanceRepresents | internal/esp/replay.go:50-56 | a shifted bitmap with bit 0 set stands for the old set plus the new highest number |
| Replay.InsertRepresents | internal/esp/replay.go:58-68 | setting the bit at an offset adds exactly that number to the set |
| Replay.AcceptedExactlyWhen | internal/esp/replay.go:43-69 | over any sequence of calls a number is accepted exactly when it is nonzero, was never accepted before, and is above the highest or less than the window below it |
| Replay.AcceptedSet | internal/esp/replay.go:43-69 | the recorded set is exactly the numbers accepted so far |
| Esp.FillTrailer | internal/esp/esp.go:296-317 | writes payload, padding 1, 2, 3..., pad length and next header in place and nothing else; PacketOctets says which |
| Esp.LayOut | internal/esp/esp.go:234-291 | the output buffer holds header, initialization vector and padded plaintext before sealing |
| Esp.BuildPacket | internal/esp/esp.go:234-291 | filling and sealing in place produces the packet of the suite |
| Esp.TrailerRoundTrip | internal/esp/esp.go:388-412 | parsing the trailer gives the payload back for every payload and padding |
| Esp.InspectPacket | internal/esp/esp.go:326-386 | a packet authenticates with its own number and decrypts to its payload, for every suite |
| Esp.PacketOctets | internal/esp/esp.go:234-317 | every packet read with the keys alone: SPI, number, IV, and what opens or decrypts to the datagram with least padding 1, 2, 3, its length, and next header 41 exactly for IPv6, else 4; what the tag or MAC covers |
| Esp.AuthenticExactly | internal/esp/esp.go:326-386 | any octets are trusted exactly when long enough, under our SPI and authentic, and their number is the one they carry |
| Esp.TrailerExactly | internal/esp/esp.go:388-412 | a trailer is accepted exactly with counting padding, its length, and next header 4 or 41 |
| Esp.Sender.constructor | internal/esp/esp.go:126-181 | keys must have the suite's lengths and no number is used |
| Esp.Sender.Encrypt | internal/esp/esp.go:209-261 | the next number is used exactly once and the packet carries it; a failing random source burns the number and sends nothing; after 2^32-1 nothing is sent |
| Esp.Receiver.constructor | internal/esp/esp.go:126-181 | a receiver starts with an empty window |
| Esp.Receiver.Decrypt | internal/esp/esp.go:319-386 | the payload comes out, and the window moves, exactly for authentic packets whose number is fresh |
| EspChannel.StepsKeepExact | internal/esp/esp.go:209-227 | every load and compare-and-swap keeps issued numbers equal to 1..counter |
| EspChannel.IssuedExactlyOnce | internal/esp/esp.go:209-227 | with any number of interleaved callers the issued numbers are 1..counter, each once, none after 2^32-1 |
| EspChannel.NoncesNeverRepeat | internal/esp/esp.go:263-291 | no two issued numbers give the same AEAD nonce under one key |
| EspChannel.FailedSwapMeansProgress | internal/esp/esp.go:213-227 | a caller's swap fails only when another one succeeded since its load |
| EspChannel.ReceivedIsRecordAll | internal/esp/esp.go:326-386 | under loss, duplication, reordering and forgery the window is that of the authentic numbers alone |
| EspChannel.DeliveredExactly | internal/esp/esp.go:319-386 | an arrival delivers the sent payload exactly when it is a copy whose number is accepted, up to and including number 2^32-1; the window moves for that number, and not at all for a forgery |
| EspChannel.DeliveredAtMostOnce | internal/esp/replay.go:43-69 | each sent datagram comes out byte-equal at most once |
| EspChannel.FirstCopyDelivered | internal/esp/replay.go:43-69 | a first arrival comes out exactly when its number is in or above the window |
| Bytes.BigEndian | internal/ikemsg/message.go:68-97 | the numbers all layouts are stated with are read most significant octet first |
| SaCodec.TransformsRoundTrip | internal/ikemsg/payloads_sa.go:106-131 | any number of well-formed transforms parses back |
| SaCodec.ProposalsRoundTrip | internal/ikemsg/payloads_sa.go:51-98 | proposals that fit 16 bits parse back with all transforms and attributes |
| SaCodec.NestedLengthsExact | internal/ikemsg/payloads_sa.go:63-98 | a body within the 16-bit guard has no truncated proposal length inside |
| SaCodec.AttributeWalk | internal/ikemsg/payloads_sa.go:190-215 | a short Key Length attribute is taken, any other short one and any long one with its value is passed over |
| SaCodec.ParseProposalsYields | internal/ikemsg/payloads_sa.go:133-166 | what parsing accepts is well formed and encodes no longer than it was read |
| SaCodec.MarshalProposal | internal/ikemsg/payloads_sa.go:65-98 | the appending loop builds the proposal's encoding, with its error cases |
| SaCodec.MarshalSa | internal/ikemsg/payloads_sa.go:51-61 | the loop over proposals builds the body |
| SaCodec.UnmarshalAttrs | internal/ikemsg/payloads_sa.go:190-215 | the attribute walk surfaces the last TV key length and rejects short attributes |
| SaCodec.UnmarshalTransforms | internal/ikemsg/payloads_sa.go:172-220 | consuming the body step by step parses the transforms |
| SaCodec.UnmarshalSa | internal/ikemsg/payloads_sa.go:133-166 | consuming the body step by step parses the proposals |
| BodyCodec.DeleteRoundTrip | internal/ikemsg/payloads_notify.go:66-110 | Delete bodies with SPIs of one width parse back |
| BodyCodec.TsRoundTrip | internal/ikemsg/payloads_ts.go:36-110 | 1 to 255 selectors of either address family parse back |
| BodyCodec.BodyRoundTrip | internal/ikemsg/message.go:108-189 | every kind of payload body parses back to the payload when well formed |
| BodyCodec.ParseBodyYields | internal/ikemsg/message.go:108-147 | every payload parsing accepts is well formed, but for proposals with over 255 transforms, and encodes no longer than it was read |
| BodyCodec.MarshalDelete | internal/ikemsg/payloads_notify.go:66-83 | the loop writes protocol, width, count and SPIs, or rejects mixed widths |
| BodyCodec.UnmarshalDelete | internal/ikemsg/payloads_notify.go:85-110 | the offset loop reads exactly the counted SPIs or rejects |
| BodyCodec.MarshalTs | internal/ikemsg/payloads_ts.go:36-67 | the loop writes the selectors or rejects a bad count, family or address length |
| BodyCodec.UnmarshalTs | internal/ikemsg/payloads_ts.go:69-110 | the loop reads exactly the counted selectors or rejects |
| BodyCodec.MarshalConfig | internal/ikemsg/payloads_config.go:26-39 | the loop writes the attributes in order |
| BodyCodec.UnmarshalConfig | internal/ikemsg/payloads_config.go:41-67 | the loop reads attributes to the end of the body or rejects |
| MessageCodec.ChainRoundTrip | internal/ikemsg/payload.go:35-78 | a well-formed chain of any length parses back |
| MessageCodec.ParseChainYields | internal/ikemsg/message.go:108-147 | an accepted chain is well formed exactly when no proposal has over 255 transforms, and then encodes no longer than it was read |
| MessageCodec.SurvivorIsLinked | internal/ikemsg/payload.go:57-68 | a chain that survives the round trip has every inner SK naming its successor |
| MessageCodec.RoundTripExactly | internal/ikemsg/message.go:44-97 | parsing gives back what was marshalled exactly for well-formed messages |
| MessageCodec.AcceptedRoundTripsExactly | internal/ikemsg/message.go:68-147 | an accepted message survives re-marshalling exactly when it has at most 255 transforms per proposal and SK payloads name their successors |
| MessageCodec.SkLastIsLinked | internal/ikemsg/payload.go:57-68 | an SK payload in last place is always fine |
| MessageCodec.ParseBefore | internal/ikemsg/message.go:108-147 | whatever follows well-formed payloads is parsed as if it stood alone |
| MessageCodec.UnknownPayload | internal/ikemsg/message.go:126-140 | a payload of unknown type anywhere in a well-formed chain makes it invalid if its critical bit is set, and else is alone left out |
| MessageCodec.BadLengthRejected | internal/ikemsg/message.go:111-124 | behind well-formed payloads, a cut-off header or a length below 4 or beyond the end makes the chain invalid |
| MessageCodec.ParseReads | internal/ikemsg/message.go:68-97 | a message is accepted exactly when its header's length is its own and its chain is valid, with the fields read from their octets |
| MessageCodec.SkippedPayloadBreaksLink | internal/ikemsg/message.go:126-140 | an accepted message need not survive: a skipped unknown payload behind SK breaks the link |
| MessageCodec.MarshalChain | internal/ikemsg/payload.go:35-78 | the loop threads the next-payload octets and guards the 16-bit lengths |
| MessageCodec.UnmarshalChain | internal/ikemsg/message.go:108-147 | the loop terminates on every input, skips unknown payloads and rejects critical ones |
| MessageCodec.MarshalMessage | internal/ikemsg/message.go:44-66 | header and chain with the total length |
| MessageCodec.ParseMessage | internal/ikemsg/message.go:68-97 | every octet string is parsed or rejected without an out-of-range access |
| WireFormat.MarshalDraws | internal/ikemsg/message.go:44-66 | marshalling a well-formed message gives the octets section 3 of RFC 7296 draws, field by field in numbers |
| WireFormat.ChainDrawn | internal/ikemsg/payload.go:35-78 | each generic header names the type after it, 0 at the end or the first inner type of SK, and its true length |
| WireFormat.BodyDrawn | internal/ikemsg/payloads_sa.go:51-131 | every payload body has its fields where the standard puts them, nested lists with their own lengths and counts |
| KeySchedule.ExpandKey | internal/ikesa/crypto.go:79-98 | the loop computes prf+: octets 32n to 32n+31, or as far as asked, are prf(key, the 32 octets before, seed, octet n+1) |
| KeySchedule.StreamContinues | internal/ikesa/crypto.go:79-98 | the same of the stream all keys are cut from, for every length and block |
| KeySchedule.DeriveKeys | internal/ikesa/keys.go:176-208 | taking keys off the stream one after the other gives the specified IKE keys |
| KeySchedule.KeysInOrder | internal/ikesa/keys.go:188-208 | the seven IKE keys are consecutive parts of prf+ in the order of section 2.14 of RFC 7296, of these lengths, with nothing left over |
| KeySchedule.DeriveChildKeys | internal/ikesa/child.go:45-69 | slicing KEYMAT with a moving offset gives the specified Child keys |
| KeySchedule.ChildKeysInOrder | internal/ikesa/child.go:48-67 | KEYMAT is exactly the initiator's keys followed by the responder's |
| KeySchedule.MirroredDirections | internal/ikesa/keys.go:231-257 | for two ends of one SA the outbound keys of one are the inbound keys of the other, and the initiator sends with SK_ei and SK_ai |
| SkEnvelope.EnvelopeRoundTrip | internal/session/protected.go:33-58 | for mirrored SAs of any suite decoding gives back header fields and inner chain, also the empty one; encoding fails exactly when the body is too long |
| SkEnvelope.EnvelopeOctets | internal/ikesa/keys.go:271-320 | every sealed message read with the sender's keys alone: header, SK header naming the first inner payload, counter or IV, what is sealed or encrypted and what the tag or MAC covers |
| SkEnvelope.OpensExactly | internal/ikesa/keys.go:329-400 | any message is authenticated under an SA exactly when the tag or MAC is right by the peer's keys |
| SkEnvelope.AcceptedIsAuthentic | internal/session/protected.go:90-118 | whatever is decoded is a valid message whose first SK payload authenticates and opens to a valid chain of the type it names |
| SkEnvelope.GraceDecodes | internal/session/protected.go:70-82 | a message of the peer's current or superseded SA decodes under the right one, the latter exactly within the grace period |
| SkEnvelope.PadOut | internal/ikesa/keys.go:279-287 | plaintext is padded to whole blocks with a pad length octet |
| SkEnvelope.Sealer.constructor | internal/ikesa/keys.go:81-113 | a new SA has used no counter value |
| SkEnvelope.Sealer.EncryptToSk | internal/ikesa/keys.go:271-294 | every AEAD body burns the next counter value; a CBC body needs the random source and fails without it |
| SkEnvelope.Sealer.FinalizeSk | internal/ikesa/keys.go:304-320 | the tail of the marshalled message is sealed in place, or the message is left as it was |
| SkEnvelope.Sealer.Encode | internal/session/protected.go:33-58 | marshal, then seal inside the marshalled message; at most one counter value per call, one per success; fails as the envelope says or with the random source |
| SkEnvelope.SkNoncesNeverRepeat | internal/ikesa/keys.go:271-294 | no two of 2^64 consecutive bodies share a nonce |
| Suites.EnabledSuites | internal/session/suite.go:124-135 | the configured suites in order, or the whole table |
| Suites.MakeProposals | internal/session/suite.go:203-209 | one proposal per suite, numbered from 1 |
| Suites.AtMostOneSelection | internal/session/suite.go:283-306 | at most one table suite passes the strict selection test for a proposal |
| Suites.SelectedSuiteIff | internal/session/suite.go:308-316 | the selected suite is the enabled one that passes, whatever the order |
| Suites.SelectProposalSpec | internal/session/suite.go:323-343 | the chooser's most preferred acceptable pair is picked, and nothing exactly when nothing is acceptable |
| Suites.FindSelectedSuite | internal/session/suite.go:308-316 | the search with early return finds it |
| Suites.FindProposal | internal/session/suite.go:323-343 | the nested search with early return finds it |
| Suites.MatchesOwnProposalOnly | internal/session/suite.go:248-277 | a suite matches the proposal built for a suite exactly when they are the same |
| Suites.BuiltAs | internal/session/suite.go:171-201 | the transforms offered for each suite and layer, in the numbers of the registry |
| Suites.MatchesMeans | internal/session/suite.go:248-277 | a proposal offers a suite exactly when its transforms list the suite's numbers, said without the filtering |
| Suites.SelectionMeans | internal/session/suite.go:283-306 | and selects it exactly when besides no type occurs twice |
| Suites.AcceptableMeans | internal/session/suite.go:323-357 | and can be chosen exactly with an SPI of the right length and the group asked for |
| Suites.NegotiationMeets | internal/session/suite.go:171-336 | choosing from an offer picks the most preferred shared suite, fails exactly when none is shared, and the narrowed answer selects that suite on the other end |
| Rekey.ReadParts | internal/session/rekey.go:485-514 | the payload loop keeps the last payload of each kind and notices error notifies |
| Rekey.ChildRekeyMirrors | internal/session/rekey.go:194-397 | for any enabled suites, with or without PFS, when the responder accepts, the initiator completes and the two SAs are mirror images |
| Rekey.ChildRekeyCompletes | internal/session/rekey.go:266-336 | the responder accepts exactly when a suite is shared, its random source works and the group is supported and yields a secret |
| Rekey.IkeRekeyMirrors | internal/session/rekey.go:562-702 | when the responder accepts an IKE rekey both ends have equal keys and SPIs and opposite roles |
| Rekey.IkeRekeyCompletes | internal/session/rekey.go:605-677 | the responder accepts exactly when a suite is shared, its random source works, the group is supported and yields a secret, and the nonces are long enough |
| Rekey.ChildRefusals | internal/session/rekey.go:273-330 | every Child rekey request gets exactly one of five answers, each under its condition: notify 14, 17 with group 31, 7, 43, or acceptance |
| Rekey.IkeRefusals | internal/session/rekey.go:607-660 | likewise every IKE rekey request |
| Rekey.DecideChild | internal/session/rekey.go:273-397 | the handler's steps up to its effects compute the specified answer |
| Rekey.DecideIke | internal/session/rekey.go:607-677 | likewise for an IKE rekey |
| Rekey.ConcludeChild | internal/session/rekey.go:194-239 | reading the response and choosing the key derivation, with every rejection |
| Rekey.ConcludeIke | internal/session/rekey.go:562-590 | likewise for an IKE rekey |
| Rekey.RekeysIke | internal/session/rekey.go:779-788 | the scan tells an IKE rekey by the protocol of the first proposal |
| Rekey.UpdatesFit | internal/ikesa/child.go:45-69 | derived Child keys have the lengths the ESP layer insists on |
| Rekey.ChildAnswerAnnounces | internal/session/rekey.go:338-397 | an accepting answer announces exactly the SA it installs, replacing the live one |
| Rekey.IkeAnswerAnnounces | internal/session/rekey.go:660-693 | an accepting answer announces exactly the IKE SA it cuts over to |
| Rekey.CompletedReplaces | internal/session/rekey.go:194-240 | a completed rekey replaces the SA named when it was initiated by the one offered then |
| RekeyContents.ExtractReads | internal/session/rekey.go:485-514 | of each kind of payload the last one counts, in whatever order they come |
| RekeyContents.ExtractMisses | internal/session/rekey.go:485-514 | a missing kind reads as nothing |
| RekeyContents.ExtractFails | internal/session/rekey.go:449-480 | any error notify, numbered below 16384, anywhere marks a failure |
| RekeyContents.ChildRequestAsks | internal/session/rekey.go:114-153 | a Child request carries REKEY_SA 16393 with the rekeyed SPI unless it re-establishes, one numbered proposal per enabled suite, the nonce, KE exactly for forward secrecy, and selectors for everything |
| RekeyContents.IkeRequestAsks | internal/session/rekey.go:519-545 | an IKE request carries the offers under the new SPI, the nonce and KE |
| RekeyContents.KindsToldApart | internal/session/rekey.go:779-788 | the two kinds of request are told apart by whoever receives them |
| RekeyContents.ChildAnswerCarries | internal/session/rekey.go:338-397 | whatever the request, an accepting answer carries the suite and SPI installed, KE exactly when asked, and the request's own TSi and TSr in their places |
| RekeyContents.ChildCompletesExactly | internal/session/rekey.go:194-236 | a response completes our Child rekey exactly when it reports no error, strictly selects an enabled suite, and agrees on forward secrecy |
| RekeyContents.IkeCompletesExactly | internal/session/rekey.go:562-590 | likewise our IKE rekey |
| RekeyContents.AnsweredChildKeys | internal/session/rekey.go:364-389 | the responder receives with the first half of prf+(SK_d, secret, Ni, Nr) and sends with the second |
| RekeyContents.CompletedChildKeys | internal/session/rekey.go:194-239 | the initiator the other way round, sending to the SPI of the response |
| RekeyContents.AnsweredIkeKeys | internal/session/rekey.go:643-677 | all keys of the new IKE SA are prf+(prf(old SK_d, secret, Ni, Nr), Ni, Nr, SPIi, SPIr) |
| RekeyContents.CompletedIkeKeys | internal/session/rekey.go:562-590 | likewise for the initiator |
| DriverSteps.OriginateKeeps | internal/session/informational.go:534-550 | taking the window keeps every invariant |
| DriverSteps.RecordThenSwap | internal/session/rekey.go:684-701 | caching the answer before the cutover leaves it in the superseded SA's slot |
| DriverSteps.SwapKeeps | internal/session/rekey.go:726-744 | a cutover keeps every invariant |
| DriverSteps.StepKeeps | internal/session/informational.go:103-497 | every datagram and every tick keeps every invariant, and a re-establishment is lost only by a rejected reply |
| DriverSteps.RunKeeps | internal/session/informational.go:68-99 | so does every run |
| DriverTheorems.WindowOfOne | internal/session/informational.go:365-550 | a pending exchange is sealed under the current SA with the last Message ID; IDs under one SA are consecutive modulo 2^32; no request starts while another under its SA is outstanding |
| DriverFrame.HandleDeletesTrigger | internal/session/informational.go:286-361 | the Delete payloads of a request trigger once each exactly when they name the live Child SA, and change no SA and no answer |
| DriverFrame.HearsEntry | internal/session/informational.go:130-209 | one processed request installs and cuts over at most once, triggers as often as its payloads name the live Child SA, and is answered exactly when the encoding it needs succeeds, by what its payloads yield |
| DriverFrame.StepTale | internal/session/informational.go:103-497 | what each kind of event can add to the history, and that only an IKE rekey or the end of the grace period changes the SAs |
| DriverTrace.TraceStep | internal/session/informational.go:103-497 | every event keeps the history truthful: each answer follows from its request under its SA, each completed rekey from a request of ours and its response |
| DriverTrace.RunTrace | internal/session/informational.go:68-99 | so does every run |
| DriverFresh.OwnedStep | internal/session/rekey.go:519-702 | while the drawn SPIs do not repeat, no two IKE SAs of a session share the SPI this end drew, and the one in flight is new |
| DriverResponder.EffectsAtMostOnce | internal/session/informational.go:130-209 | under any duplication and reordering a peer request installs at most one Child SA and causes at most one cutover, counted over the whole run |
| DriverResponder.AnsweredIsFinal | internal/session/informational.go:185-209 | an answered request is never processed again |
| DriverResponder.ProcessedAtMostOnce | internal/session/informational.go:130-209 | when everything encodes every peer request is processed at most once |
| DriverResponder.TriggersAreDeletes | internal/session/informational.go:284-361 | when everything encodes a request triggers, over the whole run, exactly as often as its payloads name the live Child SA |
| DriverResponder.TriggersOverARepeat | internal/session/informational.go:284-361 | a request and its repeat trigger once per naming payload and processing, so at most once if and only if none names it, or one does and the repeat is not processed |
| DriverResponder.ReprocessedIffUnencodable | internal/session/informational.go:185-234 | a processed request counts as duplicate from then on if and only if the encoding its answer needs succeeds |
| DriverResponder.RepeatResends | internal/session/informational.go:185-197 | a repeat of the last answered request re-sends the identical octets and does nothing else |
| DriverResponder.StaleIsSilent | internal/session/informational.go:185-197 | an older request is ignored |
| DriverResponder.RepeatAfterCutover | internal/session/rekey.go:684-701 | a request that itself cut over is answered again with the identical octets under the old SA throughout the grace period, whatever run lies between, short of a newer request under that SA or another cutover |
| DriverWitness.TwoDeletesTriggerTwice | internal/session/informational.go:286-310 | a run in which one answered request with two Delete payloads triggers twice |
| DriverWitness.UnansweredDeleteTriggersTwice | internal/session/informational.go:302-310 | a run in which a DELETE whose acknowledgement does not encode triggers again |
| DriverWitness.RejectedReplyStrands | internal/session/informational.go:247-279 | a run in which a refused re-establishment leaves nothing queued or in flight |
| DriverWitness.WithinTriesIff | internal/session/informational.go:391-529 | every run in every world keeps within the tries if and only if at least two are configured |
| DriverTheorems.AnnouncedInUse | internal/session/rekey.go:364-409 | every granting rekey response on the wire, first or resent, announces an SA already installed or cut over to |
| DriverTheorems.ChildChain | internal/session/rekey.go:163-169 | installs form a chain to the live SA, each can be built, and a pending Child rekey names the live inbound SPI |
| DriverTheorems.NothingLost | internal/session/informational.go:261-278 | without a rejected reply no re-establishment is lost |
| DriverTheorems.Recovery | internal/session/informational.go:337-443 | from a DELETE of the live Child SA until a fresh one, a re-establishment is queued or in flight in every state |
| DriverTheorems.RejectionStrands | internal/session/informational.go:261-278 | a rejected reply with none queued does end the recovery |
| DriverTheorems.TransmissionsBounded | internal/session/informational.go:391-417 | transmissions stay within the tries, two for a fast probe, at least two for an accelerated exchange |
| DriverTheorems.OverdueTick | internal/session/informational.go:391-417 | an overdue exchange is repeated or given up; giving up a probe reports the peer dead |
| DriverTheorems.UnansweredEnds | internal/session/informational.go:391-417 | an unanswered exchange is out for no more overdue ticks than tries are left |
| DriverTheorems.ReportedOnce | internal/session/informational.go:68-99 | the peer is reported dead at most once, exactly when the driver stops |
| DriverTicks.TickStarts | internal/session/informational.go:419-496 | a tick with a free window starts exactly what is most urgent of fast probe, re-establishment, volume rekey, IKE rekey, Child rekey and probe, each under its own deadline, with that request on the wire and that timer re-armed; nothing exactly when nothing is due |
| DriverTicks.PendingTick | internal/session/informational.go:391-417 | an outstanding request is left alone until overdue, then sent again after base times a power of two up to the cap, or given up after its tries, with what follows for each kind |
| DriverTicks.WokenTick | internal/session/informational.go:505-529 | a jump of the wall clock over five seconds makes the outstanding request due at once with two tries, or starts a fast probe |
| DriverTicks.GraceTick | internal/session/informational.go:369-389 | the superseded SA goes after its 30 seconds; until then its DELETE is repeated like a request |
| DriverEvents.StopsExactly | internal/session/informational.go:284-312 | an event stops the driver exactly when it is a processed request under the current SA with a Delete of protocol 1, or the tick that gives up a probe; under the superseded SA never |
| DriverEvents.SignOfLife | internal/session/informational.go:103-128 | a datagram under no SA changes nothing, any other sets the time of last contact |
| DriverEvents.Acknowledged | internal/session/informational.go:575-580 | an INFORMATIONAL response frees exactly the probe or deletion it answers, under the superseded SA exactly the tracked DELETE, and does nothing else |
| DriverEvents.Unawaited | internal/session/informational.go:247-260 | a response that answers no rekey of ours does nothing |
| DriverEvents.ChildConcluded | internal/session/rekey.go:194-261 | the response to our Child rekey: rejected it only frees the window; accepted the SA is live and the replaced SPI is deleted in the next request, unless it is gone or shared |
| DriverEvents.IkeConcluded | internal/session/rekey.go:562-598 | the response to our IKE rekey: the old SA is deleted under itself, then the new one is current with Message ID 0 and the old one in grace |
| DriverEvents.RekeyDeclined | internal/session/informational.go:140-165 | a simultaneous rekey, or an IKE rekey under the superseded SA, is answered 43; a Child rekey without a Child SA 44; nothing moves |
| DriverEvents.ChildRekeyAnswered | internal/session/rekey.go:266-413 | any other Child rekey request is answered by what it yields; accepted and encoded the SA is live and the peer's group learned |
| DriverEvents.IkeRekeyAnswered | internal/session/rekey.go:605-702 | an IKE rekey request likewise, with the cutover; 43 when the acceptance cannot be encoded |
| DriverEvents.InformationalAnswered | internal/session/informational.go:284-329 | a processed INFORMATIONAL request gets an empty answer and triggers exactly when a payload deletes the live Child SA, in either direction's SPI |
| DriverEvents.DeletionHeeded | internal/session/informational.go:337-361 | a deletion of the live Child SA asks for its replacement at once, or queues it behind what is out |
| DriverConduct.EndedExactly | internal/session/informational.go:68-99 | a run has stopped, with one death reported, exactly when one of its events was such a DELETE or the end of a probe |
| DriverConduct.ReplacedIsDeleted | internal/session/rekey.go:240-261 | in any run, after a completed Child rekey the pending request deletes exactly the SPI that was live before and is not live now |
| DriverConduct.RequestsProper | internal/session/informational.go:365-550 | every request of every run is a probe, a well-formed rekey request, a DELETE of its own IKE SA, or the DELETE of the SPI a completed rekey replaced |
| DriverPair.ChildRekeyEndToEnd | internal/session/rekey.go:114-413 | two drivers in any reachable states: once the peer installed on the pending request, under its current SA or the superseded one in grace, its answer makes this end install the mirror image |
| DriverPair.DeletionAtThePeer | internal/session/rekey.go:240-261 | the deletion that follows names no SA of the peer exactly when the replaced SPI is neither SPI of the peer's new SA |
| DriverPair.ChildRekeyAsOctets | internal/session/rekey.go:114-413 | and the sealed request and the sealed answer open at the other end to exactly those payloads |
| DriverPair.IkeRekeyEndToEnd | internal/session/rekey.go:519-744 | and an IKE rekey leaves both ends on the two sides of one new IKE SA |
| RekeyOctets.ChildRequestWellFormed | internal/session/rekey.go:114-169 | Child rekey requests are well formed, so they survive the codec |
| RekeyOctets.IkeRequestWellFormed | internal/session/rekey.go:519-558 | so are IKE rekey requests |
| RekeyOctets.ChildAnswerWellFormed | internal/session/rekey.go:266-397 | so are both kinds of answer to a well-formed Child rekey request |
| RekeyOctets.IkeAnswerWellFormed | internal/session/rekey.go:605-677 | and to an IKE rekey request |
| RekeyOctets.DeletesWellFormed | internal/session/rekey.go:427-440 | and probes, acknowledgements and deletions |
| DriverNetwork.TiedStep | internal/session/informational.go:103-279 | on anything the other end ever sent, in any order and any number of copies, a step processes only what the other end asked and completes only on what it answered, under mirrored SAs |
| DriverNetwork.CompletedRekeysMirrored | internal/session/rekey.go:114-744 | two drivers and a network that loses, duplicates, delays and reorders: in every state every Child rekey and every IKE rekey one end completed has its mirror image among what the other end installed or cut over to |
| Session.Session.constructor | internal/session/informational.go:68-79 | exactly the state the handshake hands to the driver, field by field |
| Session.Session.StartExchange | internal/session/rekey.go:154-173 | encode, advance the Message ID, take the window, send |
| Session.Session.InitiateDPD | internal/session/informational.go:534-550 | an empty request takes the window, with the short first delay for a fast probe |
| Session.Session.ChildRekeyGroup | internal/session/rekey.go:179-187 | learned group, else the IKE SA's, else the preferred one |
| Session.Session.InitiateChildRekey | internal/session/rekey.go:114-173 | the request payloads built step by step are the specified ones |
| Session.Session.InitiateIKERekey | internal/session/rekey.go:519-558 | likewise for the IKE SA |
| Session.Session.RecordPeerResponse | internal/session/informational.go:201-209 | the answer goes into the slot of the SA that carried the request |
| Session.Session.DedupPeerRequest | internal/session/informational.go:185-197 | tells duplicates and answers the last one again |
| Session.Session.SendResponse | internal/session/informational.go:222-234 | an answer is cached before it is sent |
| Session.Session.SwapIKE | internal/session/rekey.go:726-744 | slots, caches, counters and deadlines of a cutover |
| Session.Session.CompleteChildRekey | internal/session/rekey.go:194-261 | install, clear the queued re-establishment, delete the replaced SA unless it is gone or shares the SPI; ChildConcluded says which SPI |
| Session.Session.SendIKEDeleteUnderCurrent | internal/session/rekey.go:707-722 | the DELETE is numbered and sealed under the SA being superseded |
| Session.Session.CompleteIKERekey | internal/session/rekey.go:562-598 | DELETE under the old SA, then cut over |
| Session.Session.CompleteMatchingRekey | internal/session/informational.go:247-279 | only a matching rekey response under the current SA completes |
| Session.Session.HandleChildRekeyRequest | internal/session/rekey.go:266-413 | refuse, or encode, install, cache, send in that order |
| Session.Session.HandleIKERekeyRequest | internal/session/rekey.go:605-702 | refuse, or encode, cache, cut over, send in that order |
| Session.Session.DeleteRefsChild | internal/session/informational.go:318-329 | the scan finds a 4-octet SPI of the live Child SA |
| Session.Session.HandleInboundChildDelete | internal/session/informational.go:337-361 | start or queue a re-establishment |
| Session.Session.HandleInformationalRequest | internal/session/informational.go:284-312 | every Delete is handled in order, then the acknowledgement; StopsExactly says when it tears down |
| Session.Session.ClearPendingExchange | internal/session/informational.go:575-580 | an acknowledgement never clears a rekey |
| Session.Session.ClearOldIKEDelete | internal/session/informational.go:212-216 | clears the tracked DELETE by its Message ID |
| Session.Session.HandlePeerRequest | internal/session/informational.go:130-174 | dedup, simultaneous rekey and grace-period rules before dispatch |
| Session.Session.HandleDatagram | internal/session/informational.go:103-179 | dispatch by SA, exchange and direction |
| Session.Session.DetectSuspendWake | internal/session/informational.go:505-529 | probe, or accelerate what is in flight |
| Session.Session.RetransmitOldDelete | internal/session/informational.go:374-389 | the old SA's DELETE in its own slot |
| Session.Session.RetransmitPending | internal/session/informational.go:391-417 | retransmit, abandon, requeue or report dead |
| Session.Session.StartNext | internal/session/informational.go:419-496 | what a free window starts, in order of priority; TickStarts says what |
| Session.Session.HandleTick | internal/session/informational.go:365-497 | one housekeeping tick |
| Session.Session.Drive | internal/session/informational.go:68-99 | the loop computes the run and keeps all its invariants |
| Backoff.RetransBackoff | internal/session/informational.go:637-646 | for every attempt the delay of the iterative doubling, at most the larger of base and cap |
| Backoff.Exchange | internal/session/ikeauth.go:408-426 | waits are the doubling delays, at most the tries are sent, and it stops at the first answer, failed send or cancelled context |
| Backoff.DelayBounds | internal/session/ikeauth.go:424-424 | every delay is positive and within the larger of base and cap |
| Backoff.DelayIs | internal/session/informational.go:637-646 | the nth delay is base times 2^(n-1), or the cap from where that exceeds it |
| Registry.LatestNeverEvicted | dataplane.go:252-267 | under all interleavings the most recently installed SA stays registered, even when SPIs are reused |
| Registry.SupersededScheduled | dataplane.go:274-324 | within a generation every other registered SA has a removal pending for exactly it |
| Registry.AddCovers | dataplane.go:300-305 | an install keeps that exactly when the old SPI is not 0 or the new SA takes it over |
| Registry.ZeroSpiIsNeverRemoved | dataplane.go:300-305 | a run in which an SA registered under SPI 0 stays with no removal pending |
| Registry.GraceKept | dataplane.go:245-306 | and until its own removal fires, or its SPI is reused, or a reset, a superseded SA stays registered |
| Registry.DriverKeepsRegistryCovered | dataplane.go:274-306 | the driver's chain of installs provides what the registry relies on |
| Registry.StopStopsAll | dataplane.go:138-145 | stopping leaves no armed timer |
| Registry.Inbound.ResetInbound | dataplane.go:130-134 | the registry holds the one fresh SA |
| Registry.Inbound.RemoveInbound | dataplane.go:252-267 | the copy drops the entry only if it is still the very SA |
| Registry.Inbound.AddInbound | dataplane.go:280-305 | the new SA is added and the superseded one captured for removal |
| Registry.Inbound.ScheduleInboundRemoval | dataplane.go:311-324 | the timer is started, then listed |
| Registry.Inbound.PruneTimer | dataplane.go:315-319 | a fired timer leaves the list |
| Registry.Inbound.StopGraceTimers | dataplane.go:138-145 | every listed timer is stopped and the list cleared |
| Lifecycle.FinalKeeps | reconnect.go:22-120 | every interleaving of starter, supervisor, workers and Close keeps generations and sessions in order |
| Lifecycle.CloseEndsEverything | ipsec.go:272-320 | when Close returns no worker of any generation runs and every dialled session is closed |
| Lifecycle.NothingAfterClose | internal/workers/workers.go:80-125 | and nothing can start or be dialled afterwards |
| Lifecycle.FailedDialLeavesNothing | ipsec.go:117-137 | a failed Dial leaves no session, worker or supervisor |
| LifecycleProgress.DeathLeadsOn | reconnect.go:22-72 | whatever is interleaved, short of Close, a death takes the supervisor in two moves it can always make to stopping the old generation, and the third shuts it |
| LifecycleProgress.GenerationsAnswerDeaths | reconnect.go:22-72 | in every interleaving there are never more new generations than deaths the workers reported |
| LifecycleProgress.Reconnects | reconnect.go:59-120 | from every reachable state with a death reported and Close not called, a new published generation of any size on a new session can be reached, with all earlier sessions closed |

## Left out

- IKE_SA_INIT, IKE_AUTH, EAP and certificate checks: straight-line message assembly; only the retry loop of exchange is modelled.
- RekeyOctets.ChildRequestWellFormed: stated for up to 255 suites, which is how far proposal numbers go, and public values of up to 1024 octets, longer than any group's.
- Sockets, NAT traversal framing, DNS, the proxy command and the network stack.
- The cryptographic algorithms themselves, and erasing of secrets from memory.
- The shutdown DELETE of the driver, which ignores the window: runs end before it.
- Session.Session.HandleDatagram: a datagram comes with the SA it authenticates under; that octets decode this way is proved separately in SkEnvelope, and the AEAD counter of the sending SA is modelled there.
- Session.Session.EncodeSK: datagrams are values carrying a serial number instead of octets; encoding may fail for any reason at any time.
- Session.Session.constructor: the class groups the session's fields in four records of values; aliasing of the pending exchange is not modelled.
- The driver reads the clock once per event; the code may read it several times while handling one.
- Jitter of deadlines: any deadline is allowed. Durations are unbounded integers.
- Registry.Inbound.AddInbound: an update whose ESP SA cannot be built changes nothing; ChildChain proves the driver never hands one over, so the move is modelled for buildable updates only.
- Lifecycle: a state machine of the goroutines' steps, not a class; that workers obey cancellation and dials end is not shown, so progress is possibility and not certainty.
- Logging, callbacks, statistics, configuration defaults and validation.
