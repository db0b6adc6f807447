# rust-pipeline, modelled and proved in Dafny

rust-pipeline is a self-feeding message pipeline. Raw bytes are parsed, validated, routed and
dispatched to handlers; what handlers answer is written back to bytes and goes in again from the
start. This project models

- the dispatch fan-out (one dispatcher, one serial worker per thread id, a shared worker map) and
  the ring of bounded channels around it, as transition systems (`Dispatch*.dfy`, `Ring*.dfy`);
- the thread registry that makes calls and returns a stack (`Chains.dfy`, `Threads.dfy`);
- the envelope codec, as a recursive writer and a mutually recursive pull parser over XML events
  (`Text.dfy`, `Hex.dfy`, `Codec*.dfy`, `EnvelopeTheorems.dfy`), with the wire format in concrete
  terms and documents of other writers (`WireFormat.dfy`);
- the address grammar and its two parsers, provenance label sets, and the federation link
  (`Wire.dfy`, `Addresses.dfy`, `Callees.dfy`, `PyAddresses.dfy`, `ParserAgreement.dfy`,
  `Federation*.dfy`);
- payload validation, routing and peer checks, message processing, and whole runs of the pipeline
  with arbitrary handlers, middleware and outsiders (`Validation*.dfy`, `Routing.dfy`,
  `Pipeline*.dfy`), with concrete runs from boot in `PipelineExamples.dfy`.

Objects that the program updates in place are classes, its loops are loops, and each such method
is proved against a function of its inputs and old state. The theorems are about those functions.
`dafny verify dfyconfig.toml` checks everything.

## How to read the main results

*Dispatch.* A step is one atomic action of one task: taking or dropping the map lock, one map
access, one channel operation, or the end of a handler call. The idle timer may fire whenever a
worker waits. A handler may panic. `Inv` says who holds the lock, that the map points at the one
live worker of each key, and that for every key the settled messages, the one in progress, the
worker's queue, the dispatcher's hand and the channel are, in this order, the arrivals of that key.

*Ring.* What a stage decides about a message is part of its step, so functions of the steps alone
(`ParserMade`, `Verdicts`, `Decisions`, `Entered`) say which messages have to be where. `Ordered`
compares them with the channels and the stages' hands.

*Registry.* `Inverse` says that the two maps are inverse to each other; `Deep` that a chain has
two or more segments. A random uuid is an input that the registry does not know yet (`FreshOp`).

*Codec.* `Transportable` collects what a sender can check: canonical, trimmed addresses, a trimmed
and non-empty thread, a tag and field names without markup characters, trimmed texts. An envelope
survives the trip if and only if it is transportable. `Received` is what arrives of any envelope, or
why it is refused. Hexadecimal texts are sliced at byte offsets: a slice that ends inside a character
is a panic, `Crash`, which takes down the task that decodes.

*Pipeline runs.* Every message remembers, for the proofs only, the injected message it descends
from, the listener whose answer it is, and the envelope this answer was turned into. `WellNamed`
says that listener names are parsed back as they are and differ by more than case. `Reentry` is what
becomes of an envelope that goes back in, as a function of the envelope alone; `FateInRuns` and
`RefusedInRuns` say that runs do just that with it.

## Where the code and its documentation differ

The model follows the code.

- `src/routing.rs:114-117` says that replies to the caller are not gated. The route stage checks
  replies and the acknowledgements that stand for them like all other messages
  (`src/pipeline.rs:407-411`): a reply that stays on the node needs the callee's peers
  (`ReplyNeedsPeer`; the run `PeerlessAgentCannotAnswer`). It tests for a remote node first
  (`src/pipeline.rs:366-386`), so an answer to whoever is named like a remote node leaves without
  any peer check, even that of an agent without peers (`LonelyAgent`, `FederationAndPeers`; the run
  `PeerlessAgentAnswersNode`).
- `src/handler.rs:82-84` and `src/pipeline.rs:751` say that a spawner is acknowledged at once,
  whatever becomes of its work. The acknowledgement names the callee as its sender, so it reaches
  the spawner only if the callee may message it (`SpawnAckFate`; the run `SpawnerIsNotTold`).
- `src/handler.rs:70-71` and `src/routing.rs:3-5` say that no handler escapes its peers by forging a
  target. The peer check reads the organism of the typed address (`src/pipeline.rs:775-776`), but
  what leaves is the parse of its printed text, and the way to federation asks nobody again. A
  target whose text names another organism reaches a callee outside the peers
  (the run `ForgedCalleeLeaves`). `SameCalleeArrives` says exactly for which addresses the callee
  that arrives is the one that was checked; for these, and so for canonical ones, peers hold
  (`FederationAndPeers`). On the node itself the route stage checks again, and peers always hold
  (`PeerContainment`).
- `src/federation.rs:131-132` promises an authorization call for every crossing. An envelope without
  a destination is delivered without one (`src/federation.rs:405`; `DeliveredExactly`,
  `UnaddressedIsNotAuthorized`).
- `src/handler.rs:90-93` says that a spawn that cannot be delivered is acknowledged with
  `accepted: false`. The flag is the result of the peer check on the name in the address; work that
  the parser or the schema then refuses, or that has no route, is lost although it was acknowledged
  as accepted (`SpawnAckTruthful`; the run `AcceptedWorkIsLost`).
- `src/thread.rs:105-109` says that an offered id is registered. If its chain already has another
  id, it is not, and the route stage does not look at the result: a reply on that thread is
  dropped (`OfferedThreadIsAnswered`; the run `SecondConversationIsForgotten`), and so are replies
  to calls from it (`CallReturnInRuns`).
- The codec's attributes are escaped when written and not unescaped when read
  (`src/codec.rs:375-380`), so tags and field names with markup characters do not survive
  (`RoundTrip`).
- Hexadecimal texts from outside can make the decoder panic (`src/codec.rs:390`,
  `src/codec.rs:409`), which ends the parse task: `FromHexPanics` and `WordsPanic` say when,
  `CutDocumentPanics` and `OneMessagePanics` give a message that does it, and
  `OnlyOutsidersPanic` says that no handler's answer does.
- The Rust and the Python address parser are meant to read one grammar. `ParsersAgree` says on
  which texts they read the same address, `PythonAcceptsMore` on which texts only Python does, and
  `TwoBrackets` gives texts that both accept and read differently.

## Model

| member | source | states |
|---|---|---|
| `DispatchInvariant.ReapRemovesOwnEntry` | src/pipeline.rs:506-516 | a worker that removes the entry of its key removes its own and no other |
| `DispatchInvariant.InvKept` | src/pipeline.rs:456-525 | every atomic step of dispatcher and workers, panics included, keeps lock, map, queues and the account of every key in order |
| `DispatchTheorems.RunKeepsInv` | src/pipeline.rs:456-525 | so does every run, and its history is its arrivals |
| `DispatchTheorems.PerThreadFifo` | src/pipeline.rs:440-455 | in every run and for every thread: settled, in progress, queued, in hand and not yet taken, in this order, are exactly the arrivals, across any spawns, reaps and panics |
| `DispatchTheorems.SingleLiveWorker` | src/pipeline.rs:98-103 | no key has two workers that may still run a handler |
| `DispatchTheorems.HandlersNeverOverlap` | src/pipeline.rs:445-448 | two handler calls in progress never belong to one thread |
| `DispatchTheorems.NeverDisconnected` | src/pipeline.rs:505 | a waiting worker never sees its channel without senders; it leaves through the reap branch only |
| `DispatchTheorems.LossOnlyAtPanic` | src/pipeline.rs:501-504 | a step loses nothing unless a handler panics, and then exactly the message in progress and those queued behind it |
| `DispatchTheorems.PanicFreeUnharmed` | src/pipeline.rs:453-455 | runs without panics lose nothing |
| `DispatchTheorems.RetryOnce` | src/pipeline.rs:463-485 | only a panicked worker refuses a message, and the second attempt succeeds |
| `DispatchTheorems.MeasureDecreases` | src/pipeline.rs:456-525 | every step but an arrival brings the system closer to rest |
| `DispatchTheorems.RunsAreBounded` | src/pipeline.rs:456-525 | a run without arrivals has at most as many steps as its measure |
| `DispatchTheorems.LockHolderMoves` | src/pipeline.rs:466-485 | whoever holds the map lock can take its next step without waiting |
| `DispatchTheorems.StuckIsDrained` | src/pipeline.rs:486-525 | where nothing can move, input is closed and drained, queues are empty, and only panicked workers are still mapped |
| `DispatchTheorems.PanicFreeQuiescence` | src/pipeline.rs:486-525 | a panic-free run that cannot go on ends with an empty map, empty queues and every arrival processed exactly once, in order per thread |
| `DispatchTheorems.RunsToTheEnd` | src/pipeline.rs:486-525 | from every reachable state with closed input there is a panic-free run to such an end |
| `Ring.InvKept` | src/pipeline.rs:194-250 | every step of stages, dispatcher and workers respects the channel bounds and the dispatch invariant |
| `Ring.DrainDecreasesRank` | src/pipeline.rs:298-437 | every step that puts nothing into the ring lowers the rank |
| `Ring.DrainingIsBounded` | src/pipeline.rs:298-437 | at most rank many such steps can follow each other |
| `Ring.NoDeadlock` | src/pipeline.rs:199-245 | with a message in a stage channel or a worker blocked on reinjection, some stage step other than a panic is possible, whatever the workers do |
| `Ring.RoomComes` | src/pipeline.rs:660-663 | a run of stage steps, panics of the parser included, is bounded, and when it ends every channel is empty and nobody is blocked |
| `Ring.StagesMakeRoom` | src/pipeline.rs:215 | from every reachable state stage steps without a panic lead to an ingress channel with room, or still closed if the parser is down |
| `Ring.RestMeansEmpty` | src/pipeline.rs:199-245 | nothing can move only if the ring is empty and all workers have ended |
| `RingOrder.StagesKeepOrder` | src/pipeline.rs:293-437 | in every run every stage passes on what it received, in order, and nothing else: entered and not taken is the first channel; made and not judged the second and the parser's hand; valid and not decided the third and the validator's hand; what stays is with the dispatcher or in the route stage's hand; what leaves was drained, first in first out, or is in the egress channel and that hand |
| `RingOrder.FromParserToHandler` | src/pipeline.rs:293-525 | for every thread the valid messages that stay are, in order: settled, in progress, queued, in the dispatcher's hand, in its channel, in the route stage's hand |
| `RingOrder.AtRestAllIsHandled` | src/pipeline.rs:293-525 | where nothing but an arrival can happen, everything was taken, judged, decided and drained, and what stays is settled, in order per thread |
| `RingOrder.WorkersSendTheirAnswers` | src/pipeline.rs:660-663 | unless its handler panics, a worker sends exactly its handlers' answers, in order |
| `Chains.JoinSplit` | src/thread.rs:178-188 | joining the parts of a chain gives the chain |
| `Chains.SplitJoin` | src/thread.rs:178-188 | splitting joined dot-free parts gives the parts |
| `Chains.SplitConcat` | src/thread.rs:150-154 | the parts of an extended chain are the chain's, then the hop's |
| `Threads.ThreadRegistry.InitializeRoot` | src/thread.rs:62-75 | the new registry and id as a function of the old one; the root is set once |
| `Threads.ThreadRegistry.Lookup` | src/thread.rs:83-85 | the chain of an id, if it is bound |
| `Threads.ThreadRegistry.GetOrCreate` | src/thread.rs:88-97 | the id of a chain, bound to the new one only if it has none |
| `Threads.ThreadRegistry.StartChain` | src/thread.rs:100-103 | the same for initiator and target |
| `Threads.ThreadRegistry.RegisterThread` | src/thread.rs:109-138 | two outcomes: the id is bound from now on, or the registry is unchanged, the id stays unknown and its chain's id is returned |
| `Threads.ThreadRegistry.ExtendChain` | src/thread.rs:143-165 | the id of the chain with one more hop; an unknown caller counts as the empty chain |
| `Threads.ThreadRegistry.PruneForResponse` | src/thread.rs:175-205 | the caller's name and thread, or nothing and the thread forgotten |
| `Threads.ThreadRegistry.Cleanup` | src/thread.rs:208-212 | the id and its chain are removed |
| `Threads.ThreadRegistry.Clear` | src/thread.rs:220-225 | the registry is as it was when created |
| `Threads.BootKeepsInverse` | src/thread.rs:58-75 | initialising the root keeps the maps inverse exactly if the root chain has no id yet, which nobody checks |
| `Threads.BootBindsRoot` | src/thread.rs:67-74 | from every inverse registry without a root, whose root chain is free: the id returned is bound to "system." and the organism |
| `Threads.BootedOnce` | src/thread.rs:62-75 | booting again, after any operations, returns that id, still bound, and changes nothing |
| `Threads.OpKeeps` | src/thread.rs:109-212 | every operation of the pipeline keeps the maps inverse, keeps every deep chain's id, and rebinds nothing |
| `Threads.OpsKeep` | src/thread.rs:109-212 | so does every sequence of them |
| `Threads.HopIsBound` | src/thread.rs:143-165 | the thread of a call is bound to the caller's chain and the hop, and every earlier binding stays |
| `Threads.BootedRegistryStaysInverse` | src/thread.rs:58-75 | after boot the maps are inverse and the root is bound forever |
| `Threads.ExtendTwice` | src/thread.rs:156-159 | two calls from one thread to one callee share their id |
| `Threads.PruneReturns` | src/thread.rs:175-205 | pruning a bound extension goes back to the extended thread exactly for a dot-free hop |
| `Threads.CallReturn` | src/thread.rs:143-205 | after any interleaving the response on an extended thread goes to the last segment of the caller's chain, on the caller's thread, exactly if the hop is dot-free |
| `Threads.ShallowCallerIsForgotten` | src/thread.rs:178-183 | why two segments are needed: a caller on a one-segment chain may be cleaned up meanwhile, and the answer then gets a new thread |
| `Threads.ShallowCallReturn` | src/thread.rs:143-205 | after any interleaving such a caller is still told, on whatever thread its chain has then |
| `Threads.ChainlessCallIsDropped` | src/thread.rs:143-165 | a caller without a chain is not: the answer of a dot-free callee is dropped, unless the called thread's id is handed out again |
| `Threads.DottedCallGoesAstray` | src/thread.rs:178-187 | for every caller: the answer of a callee with a dot in its name goes to the last but one segment of that name |
| `Threads.OfferedThreadIsAnswered` | src/thread.rs:105-138 | an offered id can be answered exactly if its chain had no id, and then the initiator is told |
| `Threads.OfferedUnderRoot` | src/thread.rs:117-137 | after boot, and after anything, an unknown id is bound to root chain, initiator and target, or, if that chain has an id, not at all |
| `Threads.PruneStep` | src/thread.rs:185-204 | one response takes one segment off |
| `Threads.UnwindExact` | src/thread.rs:175-205 | answering again and again on a thread of k segments tells the k-1 earlier ones in reverse order and then ends, under any interference |
| `Wire.ParseAddress` | src/wire.rs:83-115 | the loop computes the scanner's result, errors included |
| `Wire.PrintAddress` | src/wire.rs:217-230 | the loop prints segments with dots in between |
| `Wire.UnionIsUnion` | src/wire.rs:289-301 | uniting provenance is set union on the 128 labels |
| `Addresses.ParsePrints` | src/wire.rs:83-115 | every accepted text is printed back exactly, and what it parses to is canonical |
| `Addresses.ParseInjective` | src/wire.rs:83-115 | no two texts parse to one address |
| `Addresses.PrintParseIffCanonical` | src/wire.rs:192-230 | an address is recovered from its print exactly if it is canonical: non-empty, plain non-empty names, keys balanced from depth 1 without leaving it |
| `PyAddresses.PyParseAddress` | python/rust_pipeline_federation.py:66-97 | the loop computes the flag-based scanner's result |
| `PyAddresses.PyAgrees` | python/rust_pipeline_federation.py:65-104 | for names in the interface's alphabet the Python parser recovers a printed address exactly if keys are bracket-free, and then so does the Rust parser |
| `PyAddresses.PyForgivesTrailingDot` | python/rust_pipeline_federation.py:81-94 | an instance: with a trailing dot Python accepts and Rust refuses |
| `PyAddresses.PyStrips` | python/rust_pipeline_federation.py:67 | white space around a text makes no difference |
| `ParserAgreement.ParsersAgree` | python/rust_pipeline_federation.py:65-104 | for every text: both parsers accept it with the same address exactly if Rust accepts it, its keys are bracket-free and Python has nothing to strip |
| `ParserAgreement.PythonAccepts` | python/rust_pipeline_federation.py:66-97 | for every text: Python accepts it exactly if, stripped, its brackets open and close in turn and its pieces are named, the last one only if it is alone |
| `ParserAgreement.RustAccepts` | src/wire.rs:83-115 | for every text: Rust accepts it exactly if its brackets balance and every piece between dots at depth 0 is a name with nothing or brackets up to its end behind it |
| `ParserAgreement.PythonAcceptsMore` | python/rust_pipeline_federation.py:66-97 | for every text: only Python accepts it exactly if Python does and some piece is empty, starts with a bracket or goes on after its last one |
| `ParserAgreement.TextAfterBracket` | src/wire.rs:201-203 | text behind a bracket: Python takes it into the name, Rust refuses it |
| `ParserAgreement.TwoBrackets` | src/wire.rs:204-208 | two brackets: both accept and read different keys |
| `ParserAgreement.Disagreements` | python/rust_pipeline_federation.py:72-90 | both at concrete texts |
| `Text.TrimFixpoint` | src/codec.rs:123 | trimming yields trimmed text, and leaves exactly that alone; what it cuts off is said by the next two |
| `Text.TrimSlice` | src/codec.rs:123 | trimming yields a slice with nothing but blanks in front of it and behind it |
| `Text.TrimCore` | src/codec.rs:188 | a trimmed core with blanks around it is what trimming leaves |
| `Text.EscapeFixpoint` | src/codec.rs:375-380 | an attribute read without unescaping is the written one exactly if it holds no markup |
| `Text.UnsignedRoundTrip` | src/codec.rs:280-285 | 64-bit numbers survive decimal notation |
| `Text.SignedRoundTrip` | src/codec.rs:286-291 | so do signed ones |
| `Hex.WriteHex` | src/codec.rs:395-401 | the loop writes two digits a byte |
| `Hex.BlobRoundTrip` | src/codec.rs:395-411 | so do bytes in hexadecimal |
| `Hex.CharsInExact` | src/codec.rs:402-410 | a slice of n bytes exists exactly if a character ends there |
| `Hex.FromHexPanics` | src/codec.rs:402-411 | reading a blob panics exactly if the trimmed text has an even number of bytes and, after some good pairs, the next two bytes end inside a character |
| `Hex.WordsPanic` | src/codec.rs:385-393 | reading a provenance panics exactly on 32 bytes whose middle is inside a character |
| `CodecPrograms.Writer.WriteValue` | src/codec.rs:68-101 | the writer appends exactly the events of the value |
| `CodecPrograms.EncodeEnvelope` | src/codec.rs:38-66 | the writer's events for an envelope |
| `CodecPrograms.Reader.ReadScalar` | src/codec.rs:324-336 | result and position as the parsing function says |
| `CodecPrograms.Reader.ExpectEnd` | src/codec.rs:338-359 | the same for a closing tag |
| `CodecPrograms.Reader.ExpectValue` | src/codec.rs:212-232 | the same for a value |
| `CodecPrograms.Reader.ParseValue` | src/codec.rs:235-310 | the same for the body of a value |
| `CodecPrograms.Reader.ReadMeta` | src/codec.rs:174-209 | the same for the meta part |
| `CodecPrograms.DecodeEnvelope` | src/codec.rs:121-172 | the same for a document, with the missing-part errors in order and panics as `Crash` |
| `Codec.ValueFrom` | src/codec.rs:212-232 | on every stream the parser ends, with a value, a refusal or a panic, and a value consumes at least one event and no more than there are |
| `Codec.BodyFrom` | src/codec.rs:235-310 | the same for the body of a value |
| `CodecTheorems.ValueHere` | src/codec.rs:68-101 | on a written value with anything behind it the parser returns the value, texts trimmed and names as written, and stops exactly behind it |
| `CodecTheorems.ValueLocal` | src/codec.rs:212-310 | a parsed value depends on nothing behind the place where the parser stops, for every stream |
| `CodecTheorems.CarriedFixpoint` | src/codec.rs:38-101 | a value is carried unchanged exactly if its texts are trimmed and its names hold no markup |
| `CodecTheorems.ProvenanceRoundTrip` | src/codec.rs:382-393 | all 128 labels survive their hexadecimal form |
| `CodecTheorems.SelfClosingValue` | src/codec.rs:313-321 | a self-closing value is what the parser reads for the element with nothing in it, for records, sequences, texts, blobs and nil, and nil for every other kind |
| `EnvelopeTheorems.DecodeEncoded` | src/codec.rs:38-172 | what decoding makes of an encoded envelope, for all envelopes and with the error if it is refused |
| `EnvelopeTheorems.RoundTrip` | src/codec.rs:38-172 | an envelope comes back as it was exactly if it is transportable |
| `EnvelopeTheorems.CoreArrives` | src/codec.rs:188 | a meta text with blanks around it arrives as what stands between them |
| `EnvelopeTheorems.TextArrivesAsCore` | src/codec.rs:123 | so does a payload text, for white space of XML |
| `EnvelopeTheorems.ProvenanceSurvives` | src/codec.rs:52-54 | an envelope that arrives at all has its provenance |
| `EnvelopeTheorems.SecondTripIsFixpoint` | src/codec.rs:121-172 | what arrived once arrives unchanged the next time |
| `EnvelopeTheorems.FlatSenderSurvives` | src/codec.rs:47 | a flat sender with a plain name is recognised after the trip |
| `EnvelopeTheorems.OwnDocumentsDoNotPanic` | src/codec.rs:38-66 | what the program has written never makes its decoder panic |
| `EnvelopeTheorems.CutDocumentPanics` | src/codec.rs:302 | a document with three characters in a blob does |
| `WireFormat.ForeignMeta` | src/codec.rs:174-209 | the meta part of any writer, elements in any order, repeated, and with others between them: read exactly if each is readable, and then the last of each name counts |
| `WireFormat.ForeignDocument` | src/codec.rs:121-172 | a document around it is an envelope exactly if an origin and a thread are among them; otherwise the error names the first that is missing; the payload is as written |
| `WireFormat.MetaAlone` | src/codec.rs:160-171 | without a payload: the error, in order |
| `WireFormat.MissingParts` | src/codec.rs:121-172 | no document, an empty one, and one with an unknown element |
| `WireFormat.AttributeByName` | src/codec.rs:375-380 | attributes are found by name, the first of a name, and a missing one is the empty text |
| `WireFormat.RecordPassesOver` | src/codec.rs:237-256 | inside a record comments, text and other elements are passed over |
| `WireFormat.SequencePassesOver` | src/codec.rs:257-278 | inside a sequence as well |
| `WireFormat.NothingBesideFieldValues` | src/codec.rs:212-232 | but before a value only text may stand, and behind a field's value too |
| `WireFormat.TextThroughElements` | src/codec.rs:324-336 | the text of a scalar is all text up to its end |
| `WireFormat.GarbledText` | src/codec.rs:185-190 | text with a bad entity is refused where it is read, and passed over elsewhere |
| `WireFormat.BrokenOff` | src/codec.rs:174-359 | every loop of the parser refuses a stream that fails or ends |
| `WireFormat.WrittenKinds` | src/codec.rs:68-101 | what is written for one value of every scalar kind |
| `WireFormat.WrittenSample` | src/codec.rs:38-66 | what is written for an envelope with address key, destination and provenance, the high word first |
| `WireFormat.Decimal` | src/codec.rs:89-90 | decimal notation digit by digit |
| `WireFormat.NumberLimits` | src/codec.rs:280-291 | the first and last numbers of 64 bits are read, the next ones are not |
| `WireFormat.HexPair` | src/codec.rs:402-411 | two digits, of either case and with blanks around them, make a byte; so does a plus sign with a digit; nothing else |
| `WireFormat.AddressErrors` | src/wire.rs:83-115 | each error of the address parser at a text of its own |
| `Federation.EncodeHeader` | src/federation.rs:148-156 | the header's bytes, with the length cut to 16 bits |
| `Federation.Seal` | src/federation.rs:184-208 | the sealed frame, or the nonce error |
| `Federation.PeerDirectory.Register` | src/federation.rs:267-269 | a peer is added, or replaced under its namespace |
| `Federation.RerootOrigin` | src/federation.rs:113-124 | the re-rooted address |
| `Federation.FederationServer.Send` | src/federation.rs:359-382 | exactly one frame is transmitted to the endpoint of the leading segment's peer, or none, with the error |
| `Federation.FederationServer.Receive` | src/federation.rs:386-424 | exactly one envelope is delivered, or none, with the error |
| `FederationTheorems.HeaderExact` | src/federation.rs:160-179 | a sender is parsed exactly where its header was written and its name is shorter than 65536 bytes |
| `FederationTheorems.HeaderRoundTrip` | src/federation.rs:148-179 | a header is read back in front of any body exactly if the name fits |
| `FederationTheorems.UniquelyDecodable` | src/federation.rs:148-179 | no header is a prefix of another one's frame |
| `WireFormat.HeaderBytes` | src/federation.rs:148-156 | version 1, authentication 0, the length with the high byte first, the name |
| `WireFormat.FrameBytes` | src/federation.rs:184-208 | behind it 24 bytes of nonce and the sealed document, with the header as associated data |
| `WireFormat.HeaderErrors` | src/federation.rs:160-179 | too short, another version, another authentication, a name that is cut off |
| `FederationTheorems.OpenRefuses` | src/federation.rs:215-226 | an unknown sender, and a body too short for a nonce |
| `FederationTheorems.OpenSeal` | src/federation.rs:184-238 | opening gives back envelope and sender exactly if the receiver registered the sender with the key, the name fits and the envelope is transportable |
| `FederationTheorems.OpensIffMade` | src/federation.rs:210-238 | a frame opens as coming from a sender exactly if a holder of the registered key made it |
| `FederationTheorems.RelabelledFails` | src/federation.rs:230-234 | a sealed body under another sender's header or another nonce does not open |
| `FederationTheorems.RerootTwice` | src/federation.rs:113-124 | the last re-rooting wins exactly on addresses that have a segment |
| `FederationTheorems.OriginUnforgeable` | src/federation.rs:386-409 | whatever is let in was made with a registered peer's key, starts with that peer's namespace, has its edge labels, and, if it has a destination, was authorised under this origin |
| `FederationTheorems.DeliveredExactly` | src/federation.rs:386-424 | a frame is delivered exactly if it was made with a registered peer's key and has no destination or is authorised under the peer's origin |
| `FederationTheorems.UnaddressedIsNotAuthorized` | src/federation.rs:405-409 | an envelope for nobody is delivered even if nothing is authorised |
| `FederationTheorems.LocalAddress` | src/federation.rs:411-417 | a delivered envelope loses the leading segment of its address exactly if that names this node and is not all; any other address is delivered as sent |
| `FederationTheorems.TransmitsExactly` | src/federation.rs:359-382 | a frame is transmitted exactly if the address leads to a registered peer and there is a nonce; otherwise which error |
| `FederationTheorems.SendThenReceive` | src/federation.rs:359-424 | between linked nodes payload and thread arrive unchanged, the origin rooted at the sender, labels united with the edge's, the address without its leading segment, keyed or not; or nothing, exactly if not authorised |
| `Validation.SchemaRegistry.Register` | src/validation.rs:223-225 | a schema is added under its root tag |
| `Validation.ValidatePayload` | src/validation.rs:69-161 | the loops compute the streaming verdict |
| `ValidationTheorems.InsideSkipped` | src/validation.rs:103 | what stands inside a child changes nothing, unless it nests deeper than 32 bits count |
| `ValidationTheorems.StreamAcceptsForest` | src/validation.rs:69-161 | a well-nested document is accepted exactly if it has elements, all top ones have the root's name, nesting fits, every child is declared where the schema is strict, and every required name is there; without elements there is no root; the depth never underflows |
| `ValidationTheorems.StreamRefinesTreeCheck` | src/validation.rs:69-198 | on one root element, self-closing or not, the verdict is that of the name check and the value check on its direct children, errors included |
| `ValidationTheorems.InsideIsIrrelevant` | src/validation.rs:93-103 | emptying all children leaves the verdict as it is |
| `ValidationTheorems.ValueVerdict` | src/validation.rs:170-198 | the verdict on a value in terms of its fields: an undeclared field of a strict schema, then a required one that is missing, then accepted |
| `ValidationTheorems.RequiredFieldsSuffice` | src/validation.rs:187-194 | a record with exactly the required fields is accepted |
| `ValidationTheorems.OptionalMayBeLeftOut` | src/validation.rs:187-194 | an accepted record stays accepted without a field that is not required |
| `ValidationTheorems.RequiredMayNotBeLeftOut` | src/validation.rs:187-194 | without all occurrences of a required one it lacks a required field |
| `ValidationTheorems.StrictForbidsMore` | src/validation.rs:176-185 | with an undeclared field more it is refused by strict schemas only |
| `ValidationTheorems.TagSelectsSchema` | src/validation.rs:223-257 | the schema registered last under a tag decides, and a tag without one accepts anything |
| `ValidationTheorems.LocalNameExact` | src/validation.rs:261-268 | a prefix up to the last colon does not count |
| `ValidationTheorems.DocumentVerdict` | src/validation.rs:69-161 | the streaming verdict on a root with children of given names |
| `ValidationTheorems.GreetingVerdicts` | src/validation.rs:274-345 | the verdicts that the program's own tests expect |
| `Routing.RoutingTable.Register` | src/routing.rs:46-69 | both maps after a registration |
| `Routing.ResolvesByNameAndTag` | src/routing.rs:80-97 | a message resolves to exactly the listeners registered under its name and tag up to case, in order |
| `Routing.NobodyHasNoRoute` | src/routing.rs:85-96 | without a destination, a dot-free tag has no route |
| `Routing.DottedTagNamesListener` | src/routing.rs:85-96 | a tag with a name and a dot in front is resolved like a message for that name |
| `Routing.LastRegistrationCounts` | src/routing.rs:54-68 | of several registrations of a name the last one says whether it is an agent and who its peers are |
| `Routing.UnregisteredMayMessage` | src/routing.rs:103-112 | a name that was never registered may message anyone |
| `Routing.BuiltConsistent` | src/routing.rs:54-68 | in every built table routed listeners are known by name |
| `Routing.ResolvesToItself` | src/routing.rs:80-97 | with names distinct up to case a registered name resolves to its own listener only |
| `Pipeline.RouteMessage` | src/pipeline.rs:360-437 | verdict and registry as functions of configuration, envelope and old registry |
| `Pipeline.ProcessMessage` | src/pipeline.rs:629-809 | registry and re-injected envelopes, in order, as a function of the outcome and the old registry |
| `PipelineTheorems.OutputsMarked` | src/pipeline.rs:624-807 | whatever goes back in has the provenance of the message handled and the handler's name on it |
| `PipelineTheorems.WholeRunProvenance` | src/pipeline.rs:624-807 | in every run everything dispatched or escalated has exactly the provenance of the injected message it descends from |
| `PipelineTheorems.EveryDispatchIsGated` | src/pipeline.rs:329-437 | in every run what a handler gets was validated, is for no remote node, was resolved to it and allowed by the sender's peers; only valid messages for remote nodes leave through federation |
| `PipelineTheorems.PeerContainment` | src/pipeline.rs:407-411 | in every run a dispatch caused by an agent's answer goes to the agent itself or to one of its peers |
| `PipelineTheorems.ReachedThroughPeers` | src/pipeline.rs:388-420 | if all listeners are agents, every listener reached from an injected message lies on a walk along the peer graph from a target of that message itself |
| `PipelineTheorems.FirstTargetIsUnique` | src/pipeline.rs:404-405 | in every run an injected message is itself dispatched at most once, so there is one first target |
| `PipelineCalls.RunActs` | src/pipeline.rs:413-420 | a run acts on the registry as a sequence of its operations |
| `PipelineCalls.RegistryStaysInverse` | src/pipeline.rs:413-420 | so the registry stays inverse in every run after boot |
| `PipelineCalls.CallIsBound` | src/pipeline.rs:772-797 | from every registry, a send or spawn within the peers goes out to the given address with the given payload, on a thread that is bound to the caller's chain and the callee |
| `PipelineCalls.CallsShareTheirThread` | src/thread.rs:157-159 | two calls from one thread to one callee go out on one thread |
| `PipelineCalls.NothingIsAnsweredFor` | src/pipeline.rs:634-665 | a handler with nothing to say is answered for exactly when its reply would go out, to the same listener on the same thread, by a payload that says success |
| `PipelineCalls.NothingHappens` | src/pipeline.rs:703-808 | a failed handler and a call outside the peers change nothing; only a spawner is told |
| `PipelineCalls.CallReturnInRuns` | src/pipeline.rs:676-701 | in every run, for every caller, for replies and the acknowledgements that stand for them: with a chain of two or more segments the reply goes back on the caller's thread exactly if the callee's name is dot-free; with one segment a dot-free callee's goes back, on that segment's thread; without a chain, as for threads that stayed unregistered, it is dropped; a dotted callee's always goes to the last but one segment of its own name |
| `PipelineCalls.CallReturnFromBoot` | src/pipeline.rs:629-797 | so in every run from boot, when the callee's message descends from that very call: nothing else is assumed about the thread it is on |
| `PipelineTheorems.ReplyNeedsPeer` | src/pipeline.rs:366-411 | what becomes of every reply, synthesized or not: refused on the way, handed to a remote node of the caller's name without a peer check, without a route, or dispatched exactly if the callee may message the resolved listener, which is a registered caller itself |
| `PipelineTheorems.SpawnAckFate` | src/pipeline.rs:751-770 | what becomes of every spawn's acknowledgement to a registered spawner: lost, handed to a remote node of its name, without a route, or delivered to it exactly if the callee may message it |
| `PipelineTheorems.LonelyAgent` | src/pipeline.rs:366-411 | every answer of an agent without peers: it reaches no listener but the agent itself, and leaves through federation exactly if it is received, valid, and its first segment names a remote node |
| `PipelineTheorems.FederationAndPeers` | src/pipeline.rs:366-386 | in every run what a listener's answer hands to federation goes to a single segment, and no peers were asked, or the callee of the address as sent is within the peers; with an address whose text names its callee, so is the callee that arrives; an agent without peers hands over only the former |
| `Callees.OrganismOfText` | src/wire.rs:126-139 | the organism of an accepted text: the name before its first bracket and after the last dot before that, or, without brackets, before the first dot |
| `Callees.SameCalleeArrives` | src/pipeline.rs:775-776 | for every address that arrives: the callee that arrives is the one that was checked exactly if the printed, trimmed text names it |
| `Callees.CanonicalNamesCallee` | src/pipeline.rs:775-776 | canonical addresses name their callee |
| `Callees.CanonicalCalleeArrives` | src/wire.rs:192-230 | and arrive as they were sent |
| `PipelineTheorems.ReentryExact` | src/pipeline.rs:299-420 | what becomes of any envelope that goes back in |
| `PipelineTheorems.ArrivesExactly` | src/pipeline.rs:299-420 | it arrives exactly if it is received, valid, and remote or routed within the sender's peers |
| `PipelineTheorems.FateInRuns` | src/pipeline.rs:293-437 | in every state of every run, an envelope that went back in can take its steps, and they do with it what was foretold, and nothing else |
| `PipelineTheorems.RefusedInRuns` | src/pipeline.rs:293-357 | or it is gone after one or two of them |
| `PipelineTheorems.SpawnAckTruthful` | src/pipeline.rs:703-771 | for all work: the acknowledgement says accepted if and only if the work arrives, exactly if work within the peers is deliverable; it never denies work that arrives; what it says is the result of the peer check |
| `PipelineTheorems.OnlyOutsidersPanic` | src/pipeline.rs:299-319 | in every run the parse task goes down only by an injected message that makes the decoder panic |
| `PipelineTheorems.OneMessagePanics` | src/pipeline.rs:299-319 | at any time one message does it |
| `PipelineExamples.PeerlessAgentAnswersNode` | src/pipeline.rs:366-386 | a run from boot: an agent without peers replies to a sender at a remote node, and the reply is handed over |
| `PipelineExamples.PeerlessAgentCannotAnswer` | src/pipeline.rs:407-411 | a run from boot: an agent calls its peer, whose reply dies at the route stage |
| `PipelineExamples.ForgedCalleeLeaves` | src/pipeline.rs:772-797 | a run from boot: an agent sends to an address with a peer as its organism, and what is handed over is for somebody it may not message |
| `PipelineExamples.SpawnerIsNotTold` | src/pipeline.rs:751-770 | a run from boot: an agent spawns work for its peer, which gets it, and the acknowledgement dies at the route stage |
| `PipelineExamples.AcceptedWorkIsLost` | src/pipeline.rs:712-770 | a run from boot: spawned work without a route is acknowledged as accepted and lost |
| `PipelineExamples.SecondConversationIsForgotten` | src/pipeline.rs:413-420 | a run from boot: of two ids, one sender, one target the second is dispatched and not registered, and every reply on it is dropped |
| `PipelineExamples.ConfigIsWellNamed` | src/routing.rs:46-69 | the configuration of these runs meets what the theorems ask of names |

## Left out

- Pipeline.ProcessMessage: what handler and middleware make of a message is one input, so the order of middleware calls and the payload they transform are not modelled; observer events are not either, because edges share thread ids and an open event can trail its close.
- Pipeline.ProcessMessage: a target without a handler and an encoding error are not modelled; registration keeps handlers and routes together, and writing into memory does not fail.
- Pipeline.RouteMessage: dispatching to the first listener only is modelled, as in the code; there is no broadcast.
- Validation.ValidatePayload: which of several offending names is reported follows the order of a hash table; the model keeps the kind of error only. A depth outside 32 bits is an error of its own, where the program panics or wraps around depending on the build.
- Wire.ParseAddress: the depth counter is unbounded; the program's overflows on two billion open brackets.
- CodecPrograms.Reader.ParseValue: recursion is unbounded; in the program a document, or a value, that nests deep enough overflows the stack and aborts the process.
- CodecPrograms.DecodeEnvelope: error texts are not modelled.
- Ring.RestMeansEmpty: when the parser has panicked the stages behind it drain and stay; that they then end one after the other, as their channels close, is not modelled.
- EnvelopeTheorems.RoundTrip: a real number is carried as its printed text; how numbers are printed and read is an input with the law that a printed number reads back as printed.
- FederationTheorems.OpenSeal: the cipher is ideal and the nonce an input.
- Routing.ResolvesByNameAndTag: lower-casing is an input with the law that it introduces no dot.
- The XML tokenizer, its escaping of texts and its namespace handling: events are the boundary, with attribute values escaped, texts trimmed and empty texts dropped.
- YAML configuration, logging, the task runtime and real time; shutdown is "input closed".
- Concrete transports, the egress loop, the switchboard, the materializer, checkpoints.
- Python's codec, sealing and server, which repeat the Rust logic; only its address parser is modelled.
- Tests of single labels or masks of a provenance set, and address accessors other than the organism.
