# FANOS: a verified model of its protocol cores

FANOS is a Rust overlay network. This project models its most intricate logic in Dafny 4.11 and proves what that
logic keeps over every input, every run and every reachable state. `dafny verify dfyconfig.toml` checks all of it.

The cores, and the files that hold them:

* **The ratchets** (`Chain`, `Ratchet`, `RatchetRuns`, `RatchetEviction`, `RatchetNetwork`): the key chain that skips
  ahead and banks what it passed, the KEM double ratchet built on it, and the runs of two honest parties over a
  network that loses, reorders, duplicates, replays and reflects messages, puts any header around any body it has
  seen, and injects forgeries.
* **The call** (`Media`, `MediaRuns`): the 64-bit replay window as a refinement of a receiver that forgets nothing, and
  whole calls of two parties that seal, open and rekey.
* **The threshold router** (`PeelSearch`, `Budget`, `Router`, `GatherRuns`, `ReplayRuns`, `EmissionRuns`, `CargoRuns`,
  `DutyRuns`, `MemoryRuns`): the budgeted search for shares that peel a hop, the engine that gathers them, and its
  whole runs: conservation of gathers and of every cell, the replay filter, forged replies, what each peeled hop leads
  to, constant-rate cover, timers, and bounded memory.
* **The two onions** (`Octets`, `Primitives`, `PathTag`, `ThresholdOnion`, `ThresholdCircuit`, `ThresholdInverse`,
  `SealedOnion`, `SealedInverse`): the fixed-slot threshold onion and the nested KEM onion, as bytes, from sealing to
  the last hop and back.
* **The peeling decoders** (`Peeling`, `Fano`, `Erasure`, `Golay`, `GolayCovering`, `Federation`, `FederationBlame`,
  `FederationReports`, `FederationOrder`): peeling over any incidence structure, the `[7,3,4]` erasure codec, Golay
  fault location and the diagnosis that peels over line federations.
* **Balancing and admission** (`Balance`, `Pow`): weighted rendezvous hashing and the closed-loop difficulty controller.

`Symbolic` holds the symbolic cryptography of the messaging cores; `Least` finds the least number of a set.

## How the model is built

Code that updates state is a class (`Chain.RecvChain`, `Ratchet.DoubleRatchet`, `Media.MediaSession`,
`Router.ThresholdRouter`, `ThresholdOnion.Packet`, `Pow.AdaptiveDifficulty`) or a method with the source's loops. Each
such method is proved equal to a specification function on values, and the theorems are about those functions over
whole runs. Integers are unbounded where the source cannot reach its width, and the widths that matter (the `u16` and
`u32` length fields, the 64-bit window, the skip and store bounds) are written out.

In the ratchets and the call a hash is a free constructor, an AEAD body opens under exactly the key and nonce that
sealed it, and a KEM ciphertext yields its secret to its own key only. In the onions the primitives are functions that
satisfy `Primitives.Laws` (widths, and that opening undoes sealing, decapsulating undoes encapsulating, and enough
distinct shares give the secret back); `Primitives.LawsAreConsistent` exhibits an instance. No law says that a hash is
injective, which would contradict its width: binding theorems hand back a collision instead. In the router, peeling
with a set of shares, the geometry and the PRF draws are functions of the configuration, and the runs that depend on
their widths take `EmissionRuns.ValidConfig`, which `EmissionRuns.ValidConfigsExist` shows to be
consistent (that a peeled packet keeps its width is `ThresholdCircuit.ForwardingKeepsTheWidth`).

Masks and reports of the decoders are sets of bit positions.

## Where the code and its documentation differ

The model follows the code.

* `ratchet.rs` says a tampered header fails to open. No header field is authenticated by itself; a body opens only where
  its key is. `RatchetRuns.AnyHeader` gives, for an honest body under any header whatever, exactly when it opens and
  what state it leaves. A header that still names the body's number and key, and for an epoch not entered yet its
  ciphertext, opens it as the honest message does, whatever else was changed (`pn`, the kind of message, the
  ciphertext of an old epoch). Every other header is refused with the state unchanged, but for one: on the first
  message of a new epoch the ratchet key may be replaced by any key the receiver does not know, and the message opens
  and the wrong key is kept. From then on the receiver refuses that epoch's messages, whatever it seals or is sent
  meanwhile, and its next answer is refused (`RatchetRuns.SwappedPartyIsDeaf`, `RatchetRuns.SwappedPartyIsMute`, and
  at the greeting `RatchetRuns.ASwappedGreetingLosesTheSession`). The two-party invariant survives a delivery if and
  only if its header is no such swap (`RatchetRuns.DeliveryIsExact`); right after a swap the roots still agree, and
  they part at the receiver's next message (`RatchetRuns.SwappedRootsPart`). With no condition on headers at all, it
  still holds that no body opens twice, no party opens its own, and whatever opens was sealed by the peer
  (`RatchetNetwork`). What late delivery needs of the header's `pn` is `RatchetRuns.OwedKeysAreBanked`.
* `ratchet.rs` speaks of dropping the oldest retired epoch. The code drops the one whose key identifier is least, which
  may be the newest: `RatchetEviction.TheNewestMayBeDropped` is a run of two honest parties at whose end a message
  that could be opened until then is refused. The oldest is the one dropped if and only if its identifier is the least
  of the five (`Ratchet.OldestIsDroppedIff`).
* `media.rs` promises that no number is accepted twice. At an advance of exactly 64 the bit of the old highest is
  cleared while it is still consulted: `Media.OpensAgainIffHole` says exactly when a number opens again,
  `Media.OpensAtMostTwice` that this is the end of it, and `Media.AnAdvanceOf64ReadmitsTheOldHighest` shows it.
* `slots.rs` gives depths 3, 3, 2 and 1 for planes of growing order. The bucket is derived from the slot, so every
  plane has depth 3 (`Budget.EveryPlaneReachesTheTarget`).
* `federation.rs` presents its loop as ending for every input. It does not: a line that decodes to positions it does not
  hold is decoded forever (`Federation.AStuckRoundRepeats`, `Federation.FiveOrSixAreStuck`), and five faults on the
  first line to be decoded always are such a line (`Federation.FiveFaultsNeverEnd`). For every input, measured or
  self-reported, it ends if and only if no codeword ever surrounds the faults that remain on a line it decodes, that
  is, holds all of them and at most three positions more (`Federation.DiagnosisEndsIff`). With no line above six, and
  so for all self-reports, that means at most three faults on every line it decodes (`Federation.EndsIffLight`). With
  one faulty child it ends if and only if that child reports at most four (`Federation.OneFaultyChildEndsIff`).
* `federation.rs` says that a verdict names reported faults and that what exceeds the grammar is left as partial. From
  seven measured faults on a line that fails: `FederationBlame.SevenFaultsBlameTheHealthy` is an input whose diagnosis
  ends as fully localized and names axis 5 of two children that are healthy there. For every input, a diagnosis that
  ends is exact if and only if, for every line it decodes, a codeword within that line's reports differs in at most
  three positions from the faults that remain there (`Federation.DiagnosisIsExactIff`; with ending,
  `Federation.EndsExactlyIff`). A line names only faults that remain on it if and only if a codeword makes up all of
  them but three or fewer, which up to eight faults means at most three of them or a whole codeword of eight
  (`Federation.NamesOnlyFaultsIff`). Self-reports never blame the healthy (`Federation.SelfReportsBlameNobody`), and
  no reported fault is ever lost (`Federation.NoFaultIsLost`).
* `federation.rs` calls its greedy rule optimal: no order of the lines could localize more. That holds wherever the
  diagnosis is exact (`FederationOrder.ExactIsOptimal`) and fails otherwise:
  `FederationOrder.TheGreedyRuleIsNotOptimal` is a cell that resolving the second line and then the first solves, and
  whose diagnosis never ends. With no line above six, everything is localized if and only if some order solves the
  cell and every line the rule decodes holds at most three (`FederationOrder.FullyLocalizedIff`).
* `threshold_router.rs` bounds its tables by counts that a memory share buys. Where the share buys none the first entry
  is kept all the same, in the gather table and in the outbox, so their counts and their byte budgets hold if and only
  if lines have at most 14351 and 8913 points (`MemoryRuns.GathersHoldIff`, `MemoryRuns.OutboxHoldsIff`). The mixing queue
  refuses instead and keeps its budget on every plane (`MemoryRuns.QueuesFitTheirShare`).

## Model

| member | source | states |
|---|---|---|
| `Chain.SendChain.SealWith` | rust/crates/fanos-angelos/src/chain.rs:94-103 | message `n` is built under the `n`-th key of the chain, and the chain moves exactly when building succeeds |
| `Chain.RecvChain.OpenMessage` | rust/crates/fanos-angelos/src/chain.rs:135-166 | refines `Open`: in order, skip ahead within the bound, or a banked key; nothing is committed unless the body opens |
| `Chain.RecvChain.OpenBanked` | rust/crates/fanos-angelos/src/chain.rs:192-197 | refines `OpenSkipped`: a banked key opens its own message and is then gone |
| `Chain.RecvChain.Bank` | rust/crates/fanos-angelos/src/chain.rs:172-187 | banks every key up to a number, or refuses a gap past the bound |
| `Chain.RecvChain.EvictOverCapacity` | rust/crates/fanos-angelos/src/chain.rs:206-211 | keeps exactly the highest 2048 banked numbers |
| `Chain.Derive` | rust/crates/fanos-angelos/src/chain.rs:147-156 | the loop over a gap lands on `next^k` of the live key and banks each key passed |
| `Chain.KeysAreDistinct` | rust/crates/fanos-angelos/src/chain.rs:45-47 | no two numbers of a chain share a message key |
| `Chain.OpenIsSound` | rust/crates/fanos-angelos/src/chain.rs:135-166 | the invariant (live key = `next^n` of the root, banked keys belong to unopened numbers below `n`) survives any delivery; success means the body the peer sealed under that number, never opened before; failure changes nothing |
| `Chain.OpenHolds` | rust/crates/fanos-angelos/src/chain.rs:135-211 | what is banked, exactly: the unopened numbers from a low-water mark up to `n`; a success removes its own number, and the mark moves up only when keys are evicted |
| `Chain.BankHolds` | rust/crates/fanos-angelos/src/chain.rs:172-211 | the same when a ratchet banks what an epoch owes |
| `Chain.BankMovesWithinTheBound` | rust/crates/fanos-angelos/src/chain.rs:172-187 | banking moves a chain by at most 1024 numbers, and a gap past that leaves it exactly as it was |
| `Chain.BankedIff` | rust/crates/fanos-angelos/src/chain.rs:172-187 | with room in the store, a number is banked afterwards if and only if it was before or lies in a gap within the bound |
| `Chain.RunHolds` | rust/crates/fanos-angelos/src/chain.rs:135-211 | after any run of arbitrary deliveries the banked numbers are exactly the unopened ones from some mark on |
| `Chain.HonestOpensIff` | rust/crates/fanos-angelos/src/chain.rs:135-166 | an honest message opens if and only if it is ahead within 1024 or its key is banked |
| `Chain.OpensAtMostOnce` | rust/crates/fanos-angelos/src/chain.rs:135-211 | over any run of arbitrary deliveries a success is the sealed body, and no number succeeds twice |
| `Chain.ScheduleIsCanonical` | rust/crates/fanos-angelos/src/chain.rs:135-187 | any schedule within the skip and store bounds opens each first delivery to its own plaintext, and leaves exactly the missing numbers banked |
| `Chain.ReceiveOrderIsIrrelevant` | rust/crates/fanos-angelos/src/chain.rs:135-211 | two such schedules of the same numbers leave the same chain |
| `Ratchet.DoubleRatchet.SealMessage` | rust/crates/fanos-angelos/src/ratchet.rs:141-200 | refines `Seal`: a KEM ratchet when one is owed, otherwise the next key of the sending chain |
| `Ratchet.DoubleRatchet.OpenMessage` | rust/crates/fanos-angelos/src/ratchet.rs:207-290 | refines `Open`: current chain, retired epochs, or a new ratchet, committed only if the body opens |
| `Ratchet.DoubleRatchet.PrunePast` | rust/crates/fanos-angelos/src/ratchet.rs:293-298 | refines `Prune`: drops least identifiers until four retired epochs are left |
| `Ratchet.RefusalChangesNothing` | rust/crates/fanos-angelos/src/ratchet.rs:207-290 | any message that does not open leaves the whole session state as it was |
| `Ratchet.PastStaysBounded` | rust/crates/fanos-angelos/src/ratchet.rs:283-298 | no delivery leaves more than four retired epochs |
| `Ratchet.NoMessageMovesAChainFar` | rust/crates/fanos-angelos/src/ratchet.rs:207-298 | whatever its header says, no message moves the live chain by more than 1025 numbers, or the chain it leaves behind by more than 1024; retired chains stay where they were |
| `Ratchet.OldestIsDroppedIff` | rust/crates/fanos-angelos/src/ratchet.rs:251-298 | when a fifth epoch is retired, all but the oldest are kept if and only if the oldest has the least identifier of the five |
| `Ratchet.NewestIsDroppedIff` | rust/crates/fanos-angelos/src/ratchet.rs:251-298 | the epoch just left is dropped at once if and only if its identifier is the least |
| `RatchetEviction.TheNewestMayBeDropped` | rust/crates/fanos-angelos/src/ratchet.rs:223-298 | a run from the handshake, with nothing lost or changed, after which opening the next epoch's first message as sealed drops the newest retired epoch: its late message opened before and is refused after |
| `RatchetRuns.DeliveryIsExact` | rust/crates/fanos-angelos/src/ratchet.rs:207-290 | in every reachable state, an honest body under any header opens exactly when the header still says where it belongs and its key is live, banked or next, or the header swaps a new epoch's key, and to exactly what was sealed; the invariant survives if and only if it is no swap |
| `RatchetRuns.AnyHeader` | rust/crates/fanos-angelos/src/ratchet.rs:207-290 | the result and the state an honest body leaves under any header whatever: as the honest message, as it but for the kept key, or refused with nothing changed |
| `RatchetRuns.SwappedOpen` | rust/crates/fanos-angelos/src/ratchet.rs:223-270 | a swapped new-epoch message opens to its plaintext and leaves the honest state with the wrong peer key |
| `RatchetRuns.SwapIsUnsound` | rust/crates/fanos-angelos/src/ratchet.rs:223-270 | that state is off the invariant: the party waits to encapsulate to a key its peer does not hold |
| `RatchetRuns.SwappedPartyIsDeaf` | rust/crates/fanos-angelos/src/ratchet.rs:223-290 | after a swap every message of that epoch, sealed before or later, is refused under its own header, whatever the party seals meanwhile and whatever honest or forged bodies it is sent under any headers |
| `RatchetRuns.SwappedRootsPart` | rust/crates/fanos-angelos/src/ratchet.rs:151-270 | the roots agree right after a swap and differ once the party sealed its next message |
| `RatchetRuns.SwappedPartyIsMute` | rust/crates/fanos-angelos/src/ratchet.rs:151-270 | and the party's next message is refused by its peer |
| `RatchetRuns.ASwappedGreetingLosesTheSession` | rust/crates/fanos-angelos/src/ratchet.rs:96-270 | the swap on the first message after the handshake, for every other key |
| `RatchetRuns.StepIsSound` | rust/crates/fanos-angelos/src/ratchet.rs:141-298 | every seal, forgery, and delivery, replay or reflection of a body under any header but a swap keeps the two-party invariant |
| `RatchetRuns.RunIsSound` | rust/crates/fanos-angelos/src/ratchet.rs:96-310 | the invariant holds after every run of such events |
| `RatchetRuns.RootsDiffer` | rust/crates/fanos-angelos/src/ratchet.rs:303-310 | no root of the shared sequence ever repeats |
| `RatchetRuns.RootsAgree` | rust/crates/fanos-angelos/src/ratchet.rs:96-182 | both roots lie on one root sequence at most one step apart, and a party owes a ratchet exactly when the roots are equal and it is its turn |
| `RatchetRuns.StepsAlternate` | rust/crates/fanos-angelos/src/ratchet.rs:151-270 | an epoch is made only by the party whose turn it is, on equal roots; every other event leaves the sequence alone |
| `RatchetRuns.OpensAtMostOnce` | rust/crates/fanos-angelos/src/ratchet.rs:207-298 | over every run from the handshake, each party opens each (epoch, number) at most once and to exactly its peer's plaintext |
| `RatchetRuns.OwedKeysAreBanked` | rust/crates/fanos-angelos/src/ratchet.rs:223-290 | for every `pn` and with room in the stores: after the ratchet a message of the epoch left behind opens, to its own plaintext, if and only if its key was banked already or it lies in a gap the header declares within 1024 |
| `RatchetNetwork.RunKeeps` | rust/crates/fanos-angelos/src/ratchet.rs:96-310 | one party under arbitrary messages and seals, with no condition: every chain it holds is tied to its own root, and chains entered and made stay apart |
| `RatchetNetwork.NoBodyOpensTwice` | rust/crates/fanos-angelos/src/ratchet.rs:207-298 | over every such run no body opens twice, under whatever headers |
| `RatchetNetwork.OwnBodiesNeverOpen` | rust/crates/fanos-angelos/src/ratchet.rs:207-298 | no body the party sealed opens to it, under whatever header |
| `RatchetNetwork.OnlyThePeersBodiesOnce` | rust/crates/fanos-angelos/src/ratchet.rs:96-310 | two new sessions and a network that puts any header around any body they sealed: what a party opens its peer sealed, each at most once |
| `Media.MediaSession.Open` | rust/crates/fanos-angelos/src/media.rs:236-257 | refines `OpenFrame`: classify, authenticate, and only then record |
| `Media.MediaSession.RecordSeen` | rust/crates/fanos-angelos/src/media.rs:290-312 | the shift-and-set on 64 bits is `Record` |
| `Media.MediaSession.RekeySession` | rust/crates/fanos-angelos/src/media.rs:193-202 | both keys step to the next epoch and the window starts empty |
| `Media.VerdictsAgree` | rust/crates/fanos-angelos/src/media.rs:264-287 | the bitmap's verdict on any number is that of a receiver that remembers every number but the one lapsed |
| `Media.RunRefines` | rust/crates/fanos-angelos/src/media.rs:264-312 | the bitmap refines that receiver over every run |
| `Media.UnseenOpens` | rust/crates/fanos-angelos/src/media.rs:264-287 | every number not offered before and within the window opens, in any order |
| `Media.OpensAgainIffHole` | rust/crates/fanos-angelos/src/media.rs:275-303 | a number opens a second time if and only if it is the old highest of an advance of exactly 64 |
| `Media.OpensAtMostTwice` | rust/crates/fanos-angelos/src/media.rs:264-312 | no number opens more than twice in any run |
| `Media.AnAdvanceOf64ReadmitsTheOldHighest` | rust/crates/fanos-angelos/src/media.rs:275-303 | numbers 0, 64, 0 all open |
| `Media.OnlyAuthenticFramesMatter` | rust/crates/fanos-angelos/src/media.rs:236-257 | over any frames, forged ones included, the window moves as over the authentic numbers alone, and a frame opens exactly when it is authentic and its number opens there |
| `Media.FramesAreForThePeer` | rust/crates/fanos-angelos/src/media.rs:211-257 | a sealed frame is authentic to a session of the call if and only if that is the peer's in the same epoch, and then says what was sealed |
| `Media.FrameRoundTrip` | rust/crates/fanos-angelos/src/media.rs:211-257 | it opens there to its own number, kind and payload exactly when the window takes its number |
| `Media.SessionsStayInTheCall` | rust/crates/fanos-angelos/src/media.rs:164-224 | sealing and opening keep a session's keys and rekeying steps both |
| `Media.KeysNeverCollide` | rust/crates/fanos-angelos/src/media.rs:164-202 | no two (direction, epoch) pairs of a call share a key |
| `MediaRuns.SealsFollowTheScript` | rust/crates/fanos-angelos/src/media.rs:193-224 | over any run of seals, opens and rekeys, a party's frames are what it says, line by line, each under its direction's key of that epoch |
| `MediaRuns.ScriptIsNumbered` | rust/crates/fanos-angelos/src/media.rs:193-224 | and numbered 0, 1, 2, ... in every epoch |
| `MediaRuns.NoKeyAndNumberTwice` | rust/crates/fanos-angelos/src/media.rs:164-224 | no two frames of a call share a key and a number, whoever sealed them |
| `MediaRuns.EveryFrameOpens` | rust/crates/fanos-angelos/src/media.rs:211-312 | a frame opens at the peer to its own number, kind and payload, whatever the peer did and was offered before, if its number is new there and within the window |
| `MediaRuns.AnyOrderWithinTheWindowOpens` | rust/crates/fanos-angelos/src/media.rs:211-312 | so does every frame of any schedule within the window, from the first of an epoch on |
| `MediaRuns.TheFirstFrameAfterARekeyOpens` | rust/crates/fanos-angelos/src/media.rs:193-257 | the first frame after a rekey opens, whatever was opened before it |
| `MediaRuns.WhatOpensWasSealed` | rust/crates/fanos-angelos/src/media.rs:236-257 | whatever opens was sealed under the receive key in this epoch, with that number, kind and payload |
| `MediaRuns.LateFramesAreCounted` | rust/crates/fanos-angelos/src/media.rs:236-287 | the session counts exactly the frames of its epoch that came more than 64 behind the newest |
| `Budget.EveryPlaneReachesTheTarget` | rust/crates/fanos-aphantos/src/slots.rs:147-226 | every plane affords three slots and a payload of at least a slot and of at least 9662 bytes |
| `Budget.CountsAreDerived` | rust/crates/fanos-aphantos/src/threshold_router.rs:76-94 | the table and queue counts are the largest their shares buy, on every plane |
| `PeelSearch.PeelSearch` | rust/crates/fanos-aphantos/src/threshold_router.rs:1336-1373 | the recursive loop refines `Search` and leaves `chosen` as it was when nothing peels |
| `PeelSearch.PeelBestSubset` | rust/crates/fanos-aphantos/src/threshold_router.rs:1325-1332 | refines `BestSubset` |
| `PeelSearch.CandidatesOfAll` | rust/crates/fanos-aphantos/src/threshold_router.rs:1336-1373 | the candidates searched are exactly the threshold-sized subsets with distinct indices |
| `PeelSearch.SearchIsExact` | rust/crates/fanos-aphantos/src/threshold_router.rs:1325-1373 | at most 256 attempts; a result is a candidate's own outcome; failure below the cap, or with no more than 256 candidates, means no candidate peels |
| `PeelSearch.GenuineIsFound` | rust/crates/fanos-aphantos/src/threshold_router.rs:1325-1373 | among at most 256 candidates a genuine quorum is found, whatever else is there and in whatever order |
| `PeelSearch.TheFirstThatPeels` | rust/crates/fanos-aphantos/src/threshold_router.rs:1321-1373 | a result is that of the first choice, in the order of positions, that peels |
| `Router.ThresholdRouter.Handle` | rust/crates/fanos-aphantos/src/threshold_router.rs:1376-1468 | the engine's dispatch refines `Step` for every input, in state and in effects |
| `Router.ThresholdRouter.ReceiveOnion` | rust/crates/fanos-aphantos/src/threshold_router.rs:894-961 | refines `OnOnion`: admission, eviction of the oldest, own share, requests, first attempt |
| `Router.ThresholdRouter.ReceiveReply` | rust/crates/fanos-aphantos/src/threshold_router.rs:1101-1159 | refines `OnReply`: a further candidate if new, in range and below 64, then an attempt |
| `Router.ThresholdRouter.PeelNow` | rust/crates/fanos-aphantos/src/threshold_router.rs:1177-1236 | refines `TryPeel`: resolve and act on the outcome, or leave the gather as it was |
| `Router.ThresholdRouter.AdmitOnion` | rust/crates/fanos-aphantos/src/threshold_router.rs:728-743 | refines `Admit` |
| `Router.ThresholdRouter.Slot` | rust/crates/fanos-aphantos/src/threshold_router.rs:637-672 | refines `EmitCover`: a drawn queued cell in the slot, or cover |
| `Router.ThresholdRouter.Send` | rust/crates/fanos-aphantos/src/threshold_router.rs:679-711 | refines `ForwardSend`: outbox, direct, or mixing queue |
| `Router.ThresholdRouter.BeginCover` | rust/crates/fanos-aphantos/src/threshold_router.rs:604-630 | refines `StartCover` |
| `Router.ThresholdRouter.Multicast` | rust/crates/fanos-aphantos/src/threshold_router.rs:1281-1304 | refines `DeadDrop`: one forward for each other member, our copy kept |
| `Router.ThresholdRouter.Answer` | rust/crates/fanos-aphantos/src/threshold_router.rs:1012-1097 | refines `OnRequest`: the share, or a decoy in its place |
| `GatherRuns.GathersAreConserved` | rust/crates/fanos-aphantos/src/threshold_router.rs:894-961 | after any run every issued id is pending or has ended exactly once, and ids issued = pending + completed + expired + unpeelable + evicted |
| `GatherRuns.AnEndIsFinal` | rust/crates/fanos-aphantos/src/threshold_router.rs:1165-1190 | an ended gather stays ended the same way under any further run: never pending, never ended again, its late shares and stale timers without effect |
| `GatherRuns.StepIsSound` | rust/crates/fanos-aphantos/src/threshold_router.rs:1376-1468 | every input keeps the ledger, and keeps that no pending gather could already be peeled |
| `GatherRuns.StepFollows` | rust/crates/fanos-aphantos/src/threshold_router.rs:1417-1441 | an input leaves a pending gather with its candidates plus the share it took, or ends it by peeling, by its own deadline, or by eviction as the oldest of a full table |
| `GatherRuns.NothingIsTakenAway` | rust/crates/fanos-aphantos/src/threshold_router.rs:1101-1187 | over any run a pending gather keeps its hop and every candidate until it ends, and ends only in those ways |
| `GatherRuns.NotEvictedSoon` | rust/crates/fanos-aphantos/src/threshold_router.rs:931-950 | a gather is not evicted while no more gathers than the table holds can have been opened from it on |
| `GatherRuns.RunHoldsOnce` | rust/crates/fanos-aphantos/src/threshold_router.rs:1101-1159 | after any run no pending gather holds a share twice |
| `GatherRuns.OffersAreCollected` | rust/crates/fanos-aphantos/src/threshold_router.rs:1128-1159 | with at most 64 different shares held or offered, every one of them is a candidate, whatever the order and the repeats |
| `GatherRuns.GenuineCandidatesPeel` | rust/crates/fanos-aphantos/src/threshold_router.rs:1177-1190 | a gather that holds a genuine quorum and at most 256 candidates peels to the genuine outcome, whatever else it holds |
| `GatherRuns.ForgedRepliesCannotDestroyAHop` | rust/crates/fanos-aphantos/src/threshold_router.rs:1101-1187 | in any run and arrival order, once a genuine quorum has been offered among at most 64 different shares, however often repeated, that make at most 256 choices, the hop was completed with the genuine outcome, if its deadline did not fire and no more onions arrived from it on than the table holds |
| `ReplayRuns.FilterIsTheLastTags` | rust/crates/fanos-aphantos/src/threshold_router.rs:728-743 | after any run the filter is exactly the last 16384 admitted tags, each once, and one gather was opened for each admission |
| `ReplayRuns.OnionOpensIffNew` | rust/crates/fanos-aphantos/src/threshold_router.rs:894-961 | a well-sized onion opens a gather if and only if its tag is not among those, and otherwise changes and emits nothing |
| `ReplayRuns.ReplaysAreFarApart` | rust/crates/fanos-aphantos/src/threshold_router.rs:728-743 | two admissions of one tag are more than 16384 admissions apart |
| `EmissionRuns.OffTheSchedule` | rust/crates/fanos-aphantos/src/threshold_router.rs:1376-1468 | with cover on, an input that is no tick puts on the wire exactly a launched frame, the requests for a new onion, or one reply to a request |
| `EmissionRuns.ATickSendsOneCell` | rust/crates/fanos-aphantos/src/threshold_router.rs:637-672 | a tick sends exactly one cell of the full width, cargo or not, and re-arms a running schedule once |
| `EmissionRuns.QueuesAreConserved` | rust/crates/fanos-aphantos/src/threshold_router.rs:637-711 | after any run, covered, mixed or direct: forwarded = emitted + queued + shed or refused, right-sized cells, queues within their counts, only one queue in use |
| `EmissionRuns.TheWireFollowsTheSchedule` | rust/crates/fanos-aphantos/src/threshold_router.rs:1376-1468 | every frame each input of a run puts on the wire, by number and width, decided by the input and the replay filter alone |
| `EmissionRuns.CargoDoesNotShow` | rust/crates/fanos-aphantos/src/threshold_router.rs:624-692 | two runs that agree on ticks, launched widths, onion arrivals, requests and on which onions repeat one another put the same frames on the wire at every input, whatever tags, replies, drops, deadlines and commands they carry |
| `EmissionRuns.AdmissionShows` | rust/crates/fanos-aphantos/src/threshold_router.rs:894-961 | of an onion only its line's size and whether the replay filter admits it show on the wire |
| `EmissionRuns.EveryCellGoesToItsLine` | rust/crates/fanos-aphantos/src/threshold_router.rs:637-711 | every cell a run ever sends, cover or cargo, mixed or direct, goes to a member of the line it is for, at the one width |
| `EmissionRuns.EveryOtherMemberIsAsked` | rust/crates/fanos-aphantos/src/threshold_router.rs:923-930 | a gather asks exactly the other members of its line |
| `EmissionRuns.EveryRequestIsAnsweredAlike` | rust/crates/fanos-aphantos/src/threshold_router.rs:1002-1097 | a member answers every request with one reply of one width to the combiner, share or decoy; anyone else with none |
| `EmissionRuns.OneTimerIsOutstanding` | rust/crates/fanos-aphantos/src/threshold_router.rs:604-672 | once the schedule runs exactly one cover timer is outstanding, over every run whose ticks were armed |
| `CargoRuns.GathersAreForTheirArrivals` | rust/crates/fanos-aphantos/src/threshold_router.rs:894-961 | after any run gather `id` is for the `id`-th admitted onion: its bytes, its line, its member count, and our own share of that epoch first |
| `CargoRuns.EveryHopIsServed` | rust/crates/fanos-aphantos/src/threshold_router.rs:1177-1304 | what the log says an input completed is handed to the queues and told to the application, cell by cell, and nothing else is |
| `CargoRuns.TheApplicationIsTold` | rust/crates/fanos-aphantos/src/threshold_router.rs:1177-1318 | a delivery whose path check fails is told to nobody, one that passes is told as it is or as its dead drop's body, a forward tells nothing, and beyond that only a dead-drop frame for a line of ours is told |
| `CargoRuns.AForwardLeavesAsOneCell` | rust/crates/fanos-aphantos/src/threshold_router.rs:1217-1235 | a forward hands exactly one cell to the queues, for the next line, to a member of it, beginning with the peeled onion |
| `CargoRuns.ForwardIsOneCell` | rust/crates/fanos-aphantos/src/threshold_router.rs:1217-1235 | that cell is the onion and its padding |
| `CargoRuns.DropIsForEveryOther` | rust/crates/fanos-aphantos/src/threshold_router.rs:1281-1304 | a dead drop is one cell for each other place on the line, with its body |
| `CargoRuns.ATickSendsWhatItTakes` | rust/crates/fanos-aphantos/src/threshold_router.rs:637-672 | a tick with cargo waiting sends the very cell it takes out, and leaves the others in order |
| `CargoRuns.AMixTimerSendsItsCell` | rust/crates/fanos-aphantos/src/threshold_router.rs:1403-1408 | a mixing timer sends the cell it was armed for and takes it out; a stale one does nothing |
| `CargoRuns.CellsAreConserved` | rust/crates/fanos-aphantos/src/threshold_router.rs:637-711 | in any run the cells asked for, with their destinations and as often as asked, are those sent, those queued and those given up: the oldest of a full outbox, or those a full mixing queue refuses |
| `CargoRuns.EveryMixedCellIsTimed` | rust/crates/fanos-aphantos/src/threshold_router.rs:679-711 | a cell waits in the mixing queue if and only if its timer is armed and has not fired |
| `DutyRuns.RequestsGetTheShare` | rust/crates/fanos-aphantos/src/threshold_router.rs:1002-1097 | a member answers a request with exactly its share of that onion in the epoch the run has reached, or with its decoy |
| `DutyRuns.ItsLineIsAsked` | rust/crates/fanos-aphantos/src/threshold_router.rs:894-930 | an admitted onion is sent to every other member of its line under its own gather's number, and nothing else asks anybody |
| `DutyRuns.LaunchesLeaveVerbatim` | rust/crates/fanos-aphantos/src/threshold_router.rs:1442-1451 | a launched frame leaves as it is, and alone |
| `DutyRuns.EveryGatherHasADeadline` | rust/crates/fanos-aphantos/src/threshold_router.rs:951-961 | every pending gather has its deadline armed and not yet fired |
| `DutyRuns.TheScheduleRuns` | rust/crates/fanos-aphantos/src/threshold_router.rs:604-692 | with cover on, the schedule runs for good from the first heartbeat or the first cell to forward |
| `DutyRuns.CoverCellsAreFresh` | rust/crates/fanos-aphantos/src/threshold_router.rs:637-657 | no two cover cells of a run come from one counter of the keystream |
| `DutyRuns.TheDrawDecides` | rust/crates/fanos-aphantos/src/threshold_router.rs:637-666 | the draw decides which waiting cell leaves, and which line a cover cell is for |
| `DutyRuns.TheRingIsTheLog` | rust/crates/fanos-aphantos/src/threshold_router.rs:1165-1170 | after any run the ring holds the newest gathers that ended by a peel or a deadline, and which |
| `MemoryRuns.TableIsBounded` | rust/crates/fanos-aphantos/src/threshold_router.rs:931-961 | after any run every pending entry has its exact widths and at most 64 shares, and the table and the attribution ring are within their count |
| `MemoryRuns.GathersFitTheirShare` | rust/crates/fanos-aphantos/src/threshold_router.rs:76-106 | after any run the bytes of pending gathers and ring are within the gather share, where it buys one gather |
| `MemoryRuns.QueuesFitTheirShare` | rust/crates/fanos-aphantos/src/threshold_router.rs:333-431 | after any run the bytes of queues and replay tags are within the router share: always with cover off, and with cover on while the share buys a cell |
| `MemoryRuns.WhenTheSharesBuyOne` | rust/crates/fanos-aphantos/src/threshold_router.rs:92-106 | the shares buy a gather and a cell if and only if lines have at most 14351 and 8913 points |
| `MemoryRuns.AZeroCapIsExceeded` | rust/crates/fanos-aphantos/src/threshold_router.rs:931-961 | past that, one admitted onion that does not peel at once is over the cap, and its bytes over the share |
| `MemoryRuns.GathersHoldIff` | rust/crates/fanos-aphantos/src/threshold_router.rs:76-106 | every run on a plane keeps the gather count, and the gather share, if and only if lines have at most 14351 points |
| `MemoryRuns.FloodFills` | rust/crates/fanos-aphantos/src/threshold_router.rs:679-743 | 16384 distinct onions that peel at once leave a full replay filter and a queued cell |
| `MemoryRuns.OutboxHoldsIff` | rust/crates/fanos-aphantos/src/threshold_router.rs:333-431 | every covered run on a plane keeps the outbox count, and the router share, if and only if lines have at most 8913 points |
| `PathTag.TripleRoundTrip` | rust/crates/fanos-geometry/src/element.rs:28-47 | decoding an encoded coordinate gives it back |
| `PathTag.TagBinds` | rust/crates/fanos-nyx/src/ratchet.rs:77-106 | equal path tags mean equal connection sequences, or yield a collision of the hash |
| `ThresholdOnion.CircuitLineHolonomy` | rust/crates/fanos-aphantos/src/threshold_onion.rs:44-52 | the loop computes the cascade over the lines closed by their number |
| `ThresholdOnion.DeliveryBindsThePath` | rust/crates/fanos-aphantos/src/threshold_onion.rs:65-79 | the check accepts the circuit's own tag, and another circuit's only with a collision in hand |
| `ThresholdOnion.LayerRoundTrip` | rust/crates/fanos-threshold/src/lib.rs:304-340 | parsing a serialized layer gives it back |
| `ThresholdOnion.SealOnion` | rust/crates/fanos-aphantos/src/threshold_onion.rs:116-196 | the block built in reverse and the header built slot by slot are `Seal` |
| `ThresholdOnion.Packet.ShiftIn` | rust/crates/fanos-aphantos/src/slots.rs:308-317 | in place, the header moves one slot left with the filler behind it, at the same width |
| `ThresholdOnion.Packet.Process` | rust/crates/fanos-aphantos/src/threshold_onion.rs:253-286 | the in-place hop refines `Obey` |
| `ThresholdOnion.PeelWithShares` | rust/crates/fanos-aphantos/src/threshold_onion.rs:225-286 | refines `Peel`, errors included |
| `Octets.XorInPlace` | rust/crates/fanos-aphantos/src/slots.rs:331-336 | XORs a keystream into a block in place |
| `Octets.XorTwice` | rust/crates/fanos-aphantos/src/slots.rs:331-336 | a payload layer is its own inverse |
| `ThresholdCircuit.SealVerdict` | rust/crates/fanos-aphantos/src/threshold_onion.rs:116-196 | sealing gives the first hop's packet exactly when nothing refuses the circuit, and otherwise the refusal in closed form |
| `ThresholdCircuit.EveryPacketIsOneWidth` | rust/crates/fanos-aphantos/src/slots.rs:288-317 | after `j` hops the packet is exactly the plane's width: remaining slots, padding and `j` fillers, then the block under the remaining keystreams |
| `ThresholdCircuit.ForwardingKeepsTheWidth` | rust/crates/fanos-aphantos/src/threshold_onion.rs:253-286 | any packet whatever, peeled with any shares, is handed on at exactly its own width |
| `ThresholdCircuit.EverySlotLooksReal` | rust/crates/fanos-aphantos/src/slots.rs:350-358 | every slot of every packet of a circuit parses with the same framing, real or filler |
| `ThresholdCircuit.MemberOpens` | rust/crates/fanos-threshold/src/lib.rs:242-290 | each member of a hop line recovers exactly its own share of the layer key |
| `ThresholdCircuit.QuorumOpens` | rust/crates/fanos-threshold/src/lib.rs:283-299 | any threshold of members opens the layer to its command |
| `ThresholdCircuit.HopPeels` | rust/crates/fanos-aphantos/src/threshold_onion.rs:210-286 | hop `j`, with any threshold of its members, sees the next line and the next packet, or the payload and the tag |
| `ThresholdCircuit.GatheredSharesPeel` | rust/crates/fanos-aphantos/src/threshold_onion.rs:225-231 | a combiner with a quorum of gathered shares gets the same outcome |
| `ThresholdCircuit.TheCircuitDelivers` | rust/crates/fanos-aphantos/src/threshold_onion.rs:116-286 | sealed and then peeled hop by hop by any quorums, an onion visits lines 2 to h in order and delivers exactly the payload and the sealed tag, which verifies |
| `ThresholdInverse.ParsedIsSerialized` | rust/crates/fanos-threshold/src/lib.rs:304-340 | what parses is the serialization of what it parses to, and whatever follows |
| `ThresholdInverse.WhatPeelsIsALayer` | rust/crates/fanos-aphantos/src/threshold_onion.rs:225-286 | any packet that peels with any shares has the plane's width and member count and a layer those shares open, and peels to exactly what its command says |
| `ThresholdInverse.EveryLayerPeels` | rust/crates/fanos-aphantos/src/threshold_onion.rs:225-286 | and every such packet does |
| `ThresholdInverse.HopsHaveKeysOfTheirOwn` | rust/crates/fanos-aphantos/src/threshold_onion.rs:116-196 | two hops share a layer key or a payload key only by a collision of the hash |
| `ThresholdInverse.EveryShareIsForItsMember` | rust/crates/fanos-threshold/src/lib.rs:242-290 | each member's sealed share is encapsulated to it, from coins of its own place and hop |
| `ThresholdInverse.CoinsDiffer` | rust/crates/fanos-threshold/src/lib.rs:242-290 | no two members of a circuit share those coins |
| `ThresholdInverse.EveryPadHasItsPlace` | rust/crates/fanos-aphantos/src/threshold_onion.rs:116-196 | every padding slot is a filler under a key of its own place |
| `SealedOnion.BuildOnion` | rust/crates/fanos-aphantos/src/sealed.rs:251-311 | the reverse loop is `Build` |
| `SealedOnion.BuildVerdict` | rust/crates/fanos-aphantos/src/sealed.rs:251-311 | the verdict of every build in closed form; with usable keys it is `TooLong` exactly when `payload + 1200 + 1180(h - 1)` exceeds the bucket, and otherwise a packet of exactly the bucket |
| `SealedOnion.HopPeels` | rust/crates/fanos-aphantos/src/sealed.rs:362-420 | hop `k` sees the next relay and packet, or the payload and tag, and the filler behind its layer never matters |
| `SealedOnion.ForwardingFillsTheBucket` | rust/crates/fanos-aphantos/src/sealed.rs:404-416 | any packet whatever, peeled with any key, is handed on at exactly the bucket's width |
| `SealedOnion.TheCircuitDelivers` | rust/crates/fanos-aphantos/src/sealed.rs:251-420 | peeling with the relays' keys in order keeps every packet at the bucket, visits every next hop in order and delivers payload and tag |
| `SealedInverse.WhatPeelsIsALayer` | rust/crates/fanos-aphantos/src/sealed.rs:362-420 | any packet that peels under a key is a layer for its holder, and peels to exactly what its command says |
| `SealedInverse.EveryLayerPeels` | rust/crates/fanos-aphantos/src/sealed.rs:362-420 | and every such layer does, whatever follows it |
| `SealedInverse.EveryHopIsEncapsulatedToItsKey` | rust/crates/fanos-aphantos/src/sealed.rs:251-311 | each hop's layer begins with the ciphertext drawn for its own key from its own seed |
| `SealedInverse.HopsDrawApart` | rust/crates/fanos-aphantos/src/sealed.rs:251-311 | no two hops of a circuit draw from one seed |
| `SealedOnion.DeliveryBindsTheCircuit` | rust/crates/fanos-aphantos/src/sealed.rs:329-340 | the check accepts the circuit's own tag, and another circuit's only with a collision in hand |
| `Peeling.Peel` | rust/crates/fanos-code/src/lrc.rs:38-57 | over any lines, the sweeps end in the largest subset of the losses that no line meets in exactly one point |
| `Peeling.CoreIsUnique` | rust/crates/fanos-code/src/lrc.rs:38-57 | that subset is unique |
| `Peeling.OrderIsIrrelevant` | rust/crates/fanos-code/src/lrc.rs:38-57 | it does not depend on the order of the lines |
| `Peeling.PeelSymbols` | rust/crates/fanos-code/src/erasure.rs:172-205 | the byte-carrying peel, in place, leaves exactly that subset erased, and every word of the code that agreed with the symbols still does |
| `Fano.TheLines` | rust/crates/fanos-geometry/src/fano.rs:22-96 | the incidence table of the plane, from its coordinates |
| `Fano.PeelFano` | rust/crates/fanos-code/src/lrc.rs:38-57 | peeling on the Fano plane, bits past the seven points ignored |
| `Fano.IsHyperovalFano` | rust/crates/fanos-code/src/lrc.rs:71-85 | decides whether a mask is four points with no line among them |
| `Fano.RecoverableIff` | rust/crates/fanos-code/src/lrc.rs:38-64 | losses are recoverable if and only if the survivors lie on no line |
| `Fano.FailsFirstOnHyperovals` | rust/crates/fanos-code/src/lrc.rs:62-85 | any three losses recover, and four do unless they are a hyperoval |
| `Erasure.LinesAreChecks` | rust/crates/fanos-code/src/erasure.rs:122-139 | every Fano line is a parity check of every coded group |
| `Erasure.EncodeGroup` | rust/crates/fanos-code/src/erasure.rs:122-139 | each point carries the XOR its coordinates select |
| `Erasure.Systematic` | rust/crates/fanos-code/src/erasure.rs:143-151 | reading the basis points undoes coding |
| `Erasure.PaddingRoundTrip` | rust/crates/fanos-code/src/erasure.rs:210-238 | unpadding undoes padding for every length |
| `Erasure.UnpadsOnlyPadding` | rust/crates/fanos-code/src/erasure.rs:224-238 | unpadding accepts exactly what ends in one to three bytes that give their own number, and takes just those off |
| `Erasure.Encode` | rust/crates/fanos-code/src/erasure.rs:243-257 | shard `p` holds point `p`'s symbol of every stripe of the padded payload |
| `Erasure.DecodeStripe` | rust/crates/fanos-code/src/erasure.rs:279-295 | a stripe is read exactly when its losses are recoverable, and then to its own data |
| `Erasure.Reconstruct` | rust/crates/fanos-code/src/erasure.rs:265-298 | for the shards of any stripes with any points erased: what unpadding the stripes gives if the losses are recoverable, and so the payload, and nothing otherwise; a result always comes from shards of one length |
| `Erasure.RoundTrip` | rust/crates/fanos-code/src/erasure.rs:243-298 | encode, erase any points, reconstruct |
| `Golay.SyndromeXor` | rust/crates/fanos-code/src/golay.rs:263-284 | the syndrome is linear |
| `Golay.MinimumWeight` | rust/crates/fanos-code/src/golay.rs:271-284 | a nonzero codeword has even weight of at least eight, by the Turyn blocks |
| `Golay.DoublyEven` | rust/crates/fanos-code/src/golay.rs:271-284 | the weight of every codeword is divisible by four |
| `Golay.LeaderIsUnique` | rust/crates/fanos-code/src/golay.rs:347-378 | at most one pattern of three faults or fewer explains a word |
| `Golay.DecodingByWeight` | rust/crates/fanos-code/src/golay.rs:347-378 | weight up to three decodes to itself, four to nothing, five and six only to positions the word lacks, seven and eight to at most one it has |
| `Golay.LeaderInsideIff` | rust/crates/fanos-code/src/golay.rs:347-378 | a word decodes to positions it has if and only if a codeword makes up all of it but three or fewer |
| `Golay.LeaderMissesIff` | rust/crates/fanos-code/src/golay.rs:347-378 | it decodes to positions none of which it has if and only if a codeword holds all of it and three positions more or fewer |
| `Golay.LeaderWithinIff` | rust/crates/fanos-code/src/golay.rs:347-378 | a part of a word decodes to positions of that word if and only if a codeword within the word is within three positions of the part |
| `GolayCovering.OddWordsHaveLeaders` | rust/crates/fanos-code/src/golay.rs:347-378 | every word of odd weight is explained by one or three faults: the 2048 such patterns exhaust the odd syndromes |
| `Golay.Locate` | rust/crates/fanos-code/src/golay.rs:347-378 | the search finds that pattern, ascending, or reports rightly that there is none |
| `Federation.DiagnoseCell` | rust/crates/fanos-code/src/federation.rs:122-180 | the loop computes `Diagnosis`, with `None` for a loop that would not end |
| `Federation.FederationsAreLines` | rust/crates/fanos-code/src/federation.rs:70-72 | the federations are the lines of the plane |
| `Federation.AStuckRoundRepeats` | rust/crates/fanos-code/src/federation.rs:139-179 | a round that leaves what remains unchanged is followed by such rounds forever |
| `Federation.ExactRound` | rust/crates/fanos-code/src/federation.rs:139-169 | a round names exactly observed faults, keeps the partition and strictly lowers what remains whenever the one line it decodes holds at most four, whatever the others hold |
| `Federation.LightRound` | rust/crates/fanos-code/src/federation.rs:139-169 | the case of that round in which no line holds more than four |
| `Federation.DiagnosisIsExact` | rust/crates/fanos-code/src/federation.rs:122-180 | under that condition the diagnosis ends, localized and unexplained faults partition the reports, and what is unexplained sits on saturated lines |
| `Federation.LightlyDecodedIsExact` | rust/crates/fanos-code/src/federation.rs:122-180 | while every decoded line holds at most three faults the run ends and is exact, whatever the other lines hold |
| `Federation.RoundIsStuckIff` | rust/crates/fanos-code/src/federation.rs:139-169 | a round leaves everything as it was if and only if a codeword surrounds the faults on the line it decodes |
| `Federation.DiagnosisEndsIff` | rust/crates/fanos-code/src/federation.rs:122-180 | for every input of either provenance, the diagnosis ends if and only if no codeword ever surrounds the faults that remain on a line it decodes |
| `Federation.EndsIffLight` | rust/crates/fanos-code/src/federation.rs:122-180 | the case with no line above six, and so of all self-reports: the diagnosis ends if and only if every line it decodes holds at most three, and is then exact |
| `Federation.SelfReportsBlameNobody` | rust/crates/fanos-code/src/federation.rs:142-147 | a self-reported diagnosis that ends names no healthy coordinate, for every input |
| `Federation.DiagnosisIsExactIff` | rust/crates/fanos-code/src/federation.rs:122-180 | for every input, a diagnosis that ends is exact if and only if, for every line it decodes, a codeword within its reports is within three positions of the faults that remain |
| `Federation.NamesOnlyReportedIff` | rust/crates/fanos-code/src/federation.rs:147-169 | when a decoded line names only reported faults, in terms of the code |
| `Federation.EndsExactlyIff` | rust/crates/fanos-code/src/federation.rs:122-180 | for every input, the diagnosis ends and is exact if and only if both conditions hold of every line it decodes |
| `Federation.NamesOnlyFaultsIff` | rust/crates/fanos-code/src/federation.rs:147-169 | when a decoded line names only faults that remain on it, in terms of the code |
| `Federation.EndsNamingWhatRemainsIff` | rust/crates/fanos-code/src/federation.rs:122-180 | for every input, a run ends and names only what remains if and only if the faults on every line it decodes are a codeword, perhaps the empty one, and one to three positions more |
| `Federation.FilledIffLight` | rust/crates/fanos-code/src/federation.rs:122-180 | up to eight faults on a line, that means at most three on every line it decodes |
| `Federation.NoFaultIsLost` | rust/crates/fanos-code/src/federation.rs:122-180 | for every input, a diagnosis that ends loses no reported fault |
| `FederationBlame.SevenFaultsBlameTheHealthy` | rust/crates/fanos-code/src/federation.rs:122-180 | seven faults on one line whose diagnosis is fully localized and names two healthy coordinates |
| `Federation.ThreeFaultsAreLocalized` | rust/crates/fanos-code/src/federation.rs:122-180 | up to three measured faults anywhere, buses included, are all localized |
| `Federation.OneFaultPerChildIsLocalized` | rust/crates/fanos-code/src/federation.rs:122-180 | up to one fault in each child is always localized, measured or self-reported |
| `Federation.FiveOrSixAreStuck` | rust/crates/fanos-code/src/federation.rs:150-169 | whenever the first line decoded holds five or six faults the loop never ends |
| `Federation.FiveFaultsNeverEnd` | rust/crates/fanos-code/src/federation.rs:139-179 | a trusted line with five faults is always decoded, so with no line decoded before it the loop never ends |
| `Federation.OneFaultyChildEndsIff` | rust/crates/fanos-code/src/federation.rs:122-180 | when one child alone reports faults the diagnosis ends if and only if it reports at most four |
| `Federation.AHeavyChildNeverEnds` | rust/crates/fanos-code/src/federation.rs:139-179 | past four, every round decodes a line, forever |
| `FederationReports.HealthyIff` | rust/crates/fanos-code/src/federation.rs:122-131 | the verdict is healthy if and only if no child reports an axis below seven or a bus |
| `FederationReports.VerdictIsExactIff` | rust/crates/fanos-code/src/federation.rs:122-180 | for every input, the verdict names exactly the reported axes and buses, localized or left over and never both, if and only if the two conditions on decoded lines hold |
| `FederationReports.SelfReportsAreExact` | rust/crates/fanos-code/src/federation.rs:142-147 | for self-reports every verdict does |
| `FederationReports.EveryReportIsAccountedFor` | rust/crates/fanos-code/src/federation.rs:122-180 | whatever the verdict, every reported axis and bus is localized or left unexplained |
| `FederationReports.ThreeFaultsAreNamed` | rust/crates/fanos-code/src/federation.rs:122-180 | up to three reported axes and buses in all, measured, are localized to exactly themselves |
| `FederationReports.OneFaultPerChildIsNamed` | rust/crates/fanos-code/src/federation.rs:122-180 | so is up to one in each child, measured or self-reported |
| `FederationOrder.ExactIsOptimal` | rust/crates/fanos-code/src/federation.rs:22-33 | where the diagnosis is exact, it localizes everything if any order of the lines would |
| `FederationOrder.FullyLocalizedIff` | rust/crates/fanos-code/src/federation.rs:22-33 | with no line above six, everything is localized if and only if some order solves the cell and every decoded line holds at most three |
| `FederationOrder.TheGreedyRuleIsNotOptimal` | rust/crates/fanos-code/src/federation.rs:22-33 | a cell another order solves, whose diagnosis never ends |
| `Balance.Rank` | rust/crates/fanos-calypso/src/balance.rs:268-275 | the ranking is strictly descending by score then position and holds exactly the eligible backends |
| `Balance.SelectInstanceWhere` | rust/crates/fanos-calypso/src/balance.rs:258-279 | an attempt selects that rank of the unique ranking, or nothing past its end |
| `Balance.SelectInstance` | rust/crates/fanos-calypso/src/balance.rs:247-249 | the same with every backend healthy |
| `Balance.RankingIsUnique` | rust/crates/fanos-calypso/src/balance.rs:274-275 | the order, ties included, determines the ranking |
| `Balance.AttemptsEnumerate` | rust/crates/fanos-calypso/src/balance.rs:258-279 | successive attempts name each eligible backend exactly once, nothing else, and then nothing |
| `Balance.MarkingDownDeletesOne` | rust/crates/fanos-calypso/src/balance.rs:258-279 | marking a backend down deletes it from the ranking and changes nothing else |
| `Balance.RemovingDeletesOne` | rust/crates/fanos-calypso/src/balance.rs:258-279 | removing it from the fleet does the same, at the new positions |
| `Balance.MoreWeightOnlyMovesItUp` | rust/crates/fanos-calypso/src/balance.rs:292-304 | more weight for a backend changes nothing among the others and only moves it up |
| `Balance.OthersKeepTheirPrimary` | rust/crates/fanos-calypso/src/balance.rs:251-257 | requests it was not primary for keep their primary; the others move to their next |
| `Balance.SelectedIff` | rust/crates/fanos-calypso/src/balance.rs:258-279 | a backend is selected by some attempt if and only if it has weight left and is healthy |
| `Balance.LaterScoresNoHigher` | rust/crates/fanos-calypso/src/balance.rs:268-304 | a later attempt's backend never scores more, by weight times hash, and of equals the later place comes first |
| `Balance.SelectorAndKeyDecide` | rust/crates/fanos-calypso/src/balance.rs:289-304 | any two selectors of one length can go to any two eligible backends with keys of their own, under some hash |
| `Pow.AdaptiveDifficulty.constructor` | rust/crates/fanos-calypso/src/pow.rs:76-84 | starts at the floor with a clamped ceiling and target |
| `Pow.AdaptiveDifficulty.ObserveWindow` | rust/crates/fanos-calypso/src/pow.rs:112-124 | refines `Next` and stays within floor and ceiling, wherever the step does not overflow |
| `Pow.NoReversal` | rust/crates/fanos-calypso/src/pow.rs:97-111 | against the halving plant a raise is never followed by an ease, nor an ease by a raise |
| `Pow.ClosedLoopIsStable` | rust/crates/fanos-calypso/src/pow.rs:97-124 | for every load, target, floor, ceiling below the integer maximum and start, the difficulty never reverses and is at a fixed point for good after at most ceiling minus floor windows |
| `Pow.SettlesInTheBand` | rust/crates/fanos-calypso/src/pow.rs:97-124 | from any start the loop settles where it is if the admissions are between half the target and the target, and otherwise at the first difficulty on its way where they are, or at the limit that way |
| `Pow.SettlesAtTheLeast` | rust/crates/fanos-calypso/src/pow.rs:97-124 | from the floor it settles at the least difficulty that keeps the load within target, or at the ceiling |

## Left out

- Cryptographic internals (BLAKE3, ChaCha20-Poly1305, the hybrid KEM, Shamir over GF(256)): symbolic or functions with laws.
- Secrecy, unlinkability, timing equalisation, zeroization, redacted debug output and anonymity probabilities: not functional properties.
- `Router.ThresholdRouter.Handle`: frames arrive with their fields already decoded, and gather deadlines, delays and station counters beyond the log of ended gathers are not modelled.
- `Router.ThresholdRouter.Slot`: the floating-point draw is an arbitrary index in range, and delays are left out.
- `GatherRuns.ForgedRepliesCannotDestroyAHop`: takes as given that genuine shares peel and that nothing else does, which is Shamir with the AEAD.
- `Federation.DiagnosisIsExact`: requires at most four faults on every line; `Federation.EndsExactlyIff` holds without that.
- `SealedOnion.HopPeels`: a KEM ciphertext that fails to parse is not told apart from one that fails to decapsulate.
- `Golay.Locate`: the closure and the greedy selection that derive the check bases are replaced by the four lines they yield.
- `Balance.Rank`: the library's unstable sort is an insertion; the order it must produce is the same.
- `Pow.AdaptiveDifficulty.ObserveWindow`: excludes the one step at difficulty `u32` maximum that overflows before it is clamped.
- `RatchetRuns.RootsAgree`: holds over runs without a swapped new-epoch key; after one, the roots part at the receiver's next message.
- Saturation of `u64` counters and message numbers: unbounded naturals.
- Messages, calls, attachments, bots, groups and sessions of the messenger: fixed layouts or thin wrappers over the chain.
- `hamming.rs`, `syndrome.rs`, `tower.rs`, `da.rs`, the Golay weight enumerator and `correct`: finite statements.
- Hosting, descriptors, rendezvous, membership, admission and hierarchy: compositions of primitives that are not modelled.
- `node.rs`: its replay cache and slot queue repeat the router's.
- Proof-of-work hashing and solving, and signature verification of balanced descriptors.
