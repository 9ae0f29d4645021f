# Vidaio reward-log protocols

This project models how Vidaio's authority produces, anchors and serves its per-epoch reward logs
and how auditors check them, and proves what those protocols promise. `dafny verify dfyconfig.toml`
checks all of it.

| file | what it models |
|---|---|
| `EpochIndex.dfy` | the durable index: pointers, tombstones, the journal of signed anchor submissions |
| `WriterLane.dfy` | the writer lane: one lock, one fence file |
| `AnchorProtocol.dfy`, `AnchorSafety.dfy` | the anchor submission protocol as a state machine, and what every interleaving with crashes keeps |
| `AnchorRecovery.dfy`, `AnchorCalls.dfy` | what one undisturbed call achieves after a crash; the entry points as sequential code, each proved to be a run of the machine |
| `AnchorResume.dfy` | a resumed submission gets there: what an undisturbed call achieves that is told of the inclusion |
| `AnchorReceipt.dfy` | waiting for a finalized receipt |
| `Hex.dfy` | the hex digits of hashes and digests |
| `Ordering.dfy`, `Merkle.dfy` | stable sorting by key; the merkle tree over score packets |
| `FoldCursors.dfy` | cumulative replay cursors derived by builder, service and finalizer |
| `RoundMembership.dfy` | commit windows and the round cursor |
| `SetStore.dfy`, `PointerBinding.dfy`, `PointerRefinement.dfy` | `_FINALIZED` sets under races; indexed pointers and stored bytes; finalizers as callers of the set store |
| `RangedDownload.dfy` | the concurrent ranged download |
| `SingleFlightMemo.dfy` | the bounded single-flight memo of one audit |
| `Hysteresis.dfy` | tolerances and excused gate flips |
| `VerdictStore.dfy` | the append-only verdict store and its aggregate |
| `VersionOrder.dfy`, `Autoupdater.dfy` | version ordering and the update state machine |

Protocols with several callers are state machines: each durable write, each read that others can
overtake and each request to a chain or an object store is one step, so an interleaving is a sequence
of actions and a theorem about `Run` holds of every interleaving. A crash is an action that makes a
caller forget everything and gives its lock back. Code that updates an object in place is a class
whose methods are proved against the functions that the machines are made of.

What enters as a parameter: what the chain, the wallet, the object store, the version source, the CI
gate, the update command and the disk answer; clocks; and the logs that a finalizer's arguments build.
SHA-256 is a free constructor (`Merkle.Hash`) or an opaque digest that goes with its bytes. The chain
assumptions are stated in `AnchorProtocol.Apply`: a transaction lands only after it was sent, above the
finalized head and inside its mortal era, and a complete finalized search finds what landed.

Where code and documentation disagree, the model follows the code:

- The comment at `vidaio/autoupdater/service.py:22-23` calls every change to or from a version without
  digits lateral. The code pads the empty spine with zeros, so such a version behaves as version 0
  (`VersionOrder.EmptySpineIsZero`, `VersionOrder.EmptySpineIsNotLateral`).
- The half-write guard promises that a finalized set cannot be rewritten. A put that probed before the
  marker was written still creates its member afterwards (`SetStore.LateMemberAppears`); on the
  overwriting local store the same race replaces bytes (`SetStore.TwoWritersOverwrite`). On either store
  and with any callers a finalized set never changes again if and only if no caller past its probe is
  about to create something else in it (`SetStore.FrozenExactlyWhen`).
- The aggregate verdict DISPUTED does not depend on the order of arrival, CLEAN and INCONCLUSIVE may
  (`VerdictStore.FirstKeptDecides` is the smallest case). No order matters for an epoch if and only if a
  fault was posted, or nothing CLEAN was, or some auditor posted nothing but CLEAN in some mode
  (`VerdictStore.OrderNeverMattersExactlyWhen`).
- The ranged download ignores how many bytes `pwrite` took (`vidaio/audit/store.py:1621-1622`), so a
  short write leaves zeros behind a successful download, for every object with a byte that is not zero
  (`RangedDownload.ShortWriteCorrupts`, `RangedDownload.SuccessMeansObjectExactlyWhen`). A run that
  succeeds leaves the pinned object if and only if only zero bytes were lost that way
  (`RangedDownload.DownloadIsAllOrNothing`).
- `COMPRESSION_RATE_TOO_HIGH` is listed as a boundary that may be excused, but its metric has no shipped
  tolerance, so it never is (`Hysteresis.CompressionRateNeverExcused`).

## Model

| member | source | states |
|---|---|---|
| `EpochIndex.Index.RecordFinalized` | vidaio/authority/index.py:231-278 | an epoch is indexed once; the same pointer is idempotent, another one or a tombstoned epoch is a conflict and changes nothing |
| `EpochIndex.Index.SetAnchor` | vidaio/authority/index.py:280-307 | an indexed epoch gets one anchor; repeating the hash is idempotent, another hash is a conflict |
| `EpochIndex.Index.MarkGapTombstone` | vidaio/authority/index.py:309-331 | only an indexed, unanchored epoch becomes a gap, for ever |
| `EpochIndex.Index.RecordAnchorSubmission` | vidaio/authority/index.py:138-163 | a signed hash is journaled before it may be sent, exactly as `NewHashIsRecorded` and `OldHashIsKept` describe; a refusal changes nothing |
| `EpochIndex.Index.FinishAnchorSubmission` | vidaio/authority/index.py:165-208 | a terminal outcome is stored once and only with its evidence; a different one is a conflict |
| `EpochIndex.StatementKeepsIndex` | vidaio/authority/migrations/0003_anchor_submissions.sql:19-56 | every statement keeps hashes unique, all rows of an epoch but the newest expired, confirmed rows equal to their epoch's anchor, and rewrites nothing |
| `EpochIndex.HistoryIsAppendOnly` | vidaio/authority/index.py:108-114 | over any sequence of statements, refused ones included, pointers, anchors, tombstones, evidence and outcomes are never rewritten and never disappear |
| `EpochIndex.NewHashIsRecorded` | vidaio/authority/migrations/0003_anchor_submissions.sql:19-36 | a hash that has no row is recorded if and only if it is 0x and 64 lower-case hex digits, the epoch is served and unanchored with that digest, and every row of the epoch is proven expired; then exactly one open row is appended |
| `EpochIndex.OldHashIsKept` | vidaio/authority/index.py:146-151 | a hash that has a row is accepted exactly with the same epoch, netuid, digest and evidence, and nothing changes |
| `EpochIndex.PointerIsTaken` | vidaio/authority/index.py:231-278 | a pointer is taken exactly for an epoch that is no gap and is new or was indexed with it; every other row stays |
| `EpochIndex.AnchorIsTaken` | vidaio/authority/index.py:280-307 | an anchor is taken exactly by a served epoch that has none or has this one, whose first block stays |
| `EpochIndex.GapIsMarked` | vidaio/authority/index.py:309-331 | a gap is marked exactly for an epoch that is one or is indexed without an anchor |
| `EpochIndex.OutcomeIsTaken` | vidaio/authority/index.py:165-208 | an open row takes an outcome exactly with its evidence (the served anchor at that block, the finalized search of era and depth, the operator's hash), a closed row only its own again |
| `WriterLane.Lane.Acquire` | vidaio/chain/anchor_writer.py:169-241 | polling until the deadline: the lane is entered exactly when it is free, or is given back in time, and the fence is absent or names the caller's hash; a refusal gives the lock back, and only a lock held until the deadline is a timeout |
| `WriterLane.Lane.Mark` | vidaio/chain/anchor_writer.py:95-119 | the fence is only raised by the holder and never replaced by another hash |
| `WriterLane.Lane.Clear` | vidaio/chain/anchor_writer.py:122-134 | only the matching hash lowers the fence, only the holder does |
| `AnchorSafety.RunKeepsInv` | vidaio/authority/anchoring.py:133-232 | every interleaving of the entry points, unrelated writers, crashes, finalizations, tombstones and chain events keeps the protocol invariant |
| `AnchorSafety.WriteAheadFence` | vidaio/authority/anchoring.py:167-190 | in every reachable state a dispatched hash has its journal row with the same signed bytes, was dispatched once, and without an outcome is the hash in the fence; so at most one dispatched hash is unresolved |
| `AnchorSafety.EvidencePrecedesDispatch` | vidaio/authority/anchoring.py:153-182 | whoever is about to dispatch holds the lane, has journal row and fence durable, and the hash was never sent |
| `AnchorSafety.NoOtherWriterMeanwhile` | vidaio/chain/anchor_writer.py:222-233 | while a dispatched hash is unresolved no unrelated writer is inside, and whoever enters came for that hash |
| `AnchorSafety.AtMostOneInclusion` | vidaio/authority/index.py:152-154 | all journal rows of an epoch but the newest are proven expired and not on chain |
| `AnchorSafety.OneHashPerEpochOnChain` | vidaio/authority/anchoring.py:147-172 | across all crashes and resumes at most one hash per epoch is ever on chain, and it has its journal row |
| `AnchorSafety.ExpiredNeverLands` | vidaio/authority/index.py:184-200 | once recorded, an expiry stays true in every continuation |
| `AnchorSafety.JournalSurvives` | vidaio/authority/index.py:127-136 | no action ever takes back or rewrites what the tables hold |
| `AnchorSafety.ConfirmedIsOnChain` | vidaio/authority/index.py:179-183 | a confirmed row is the anchor of its served epoch with digest and block, and that block is finalized on chain |
| `AnchorRecovery.ClearRecovers` | vidaio/authority/anchoring.py:70-101 | from every reachable crash state an undisturbed clear of the right subnet removes the fence exactly when the row is terminal or the epoch carries the hash, leaves the row terminal, and otherwise changes nothing |
| `AnchorRecovery.AnchorIsIdempotent` | vidaio/authority/anchoring.py:279-304 | an undisturbed anchor call on an anchored epoch confirms its row, leaves no fence and no chain write; a foreign fence keeps it out unchanged, an acknowledged row stays acknowledged |
| `AnchorCalls.RestoreMarkerSubmission` | vidaio/authority/anchoring.py:52-67 | the fence's row is found or inserted from the fence; a contradiction is a hold that changes nothing |
| `AnchorCalls.RestoreBringsBack` | vidaio/authority/anchoring.py:52-67 | a fence whose row the journal lost brings back exactly one open row, under the conditions of a new submission; a row that is there is only compared |
| `AnchorCalls.FinishAndLower` | vidaio/authority/anchoring.py:228-231 | the outcome is stored before the fence is lowered, both as steps of the machine; a refused outcome keeps the fence |
| `AnchorCalls.ClearConfirmedAnchorWriter` | vidaio/authority/anchoring.py:70-101 | the call is a run of the machine, with a free lane exactly the undisturbed run; it returns true exactly when it lowered a fence |
| `AnchorCalls.AcknowledgeAnchorSubmission` | vidaio/authority/anchoring.py:104-130 | the call is a run of the machine without a transaction; with a free lane that admits the hash exactly a pending hash, from the journal or restored from the fence, is acknowledged: its one row is closed and the fence goes; otherwise only a lost row may have come back |
| `AnchorCalls.PrepareOrReuse` | vidaio/authority/anchoring.py:141-170 | fresh evidence is signed exactly when the epoch has no unexpired row, is recorded before use and is inside the deadline; otherwise the recorded evidence is reused. It succeeds exactly when the fresh evidence can be recorded in time, or the recorded row is open and was signed for this job |
| `AnchorCalls.RaiseAndSend` | vidaio/authority/anchoring.py:171-198 | exactly a fence of another hash makes it fail, and then nothing changes; otherwise the fence is up and a new hash, and only a new one, was sent once |
| `AnchorCalls.ConfirmDispatched` | vidaio/authority/anchoring.py:199-232 | a found inclusion anchors the epoch exactly when the index takes it, and then anchor and outcome are durable and the fence is down; a proven absence is stored and lowers the fence; anything else changes nothing |
| `AnchorCalls.InclusionIsSeen` | vidaio/authority/anchoring.py:199-232 | an inclusion counts exactly at the finalized block where the chain has the hash |
| `AnchorCalls.AbsenceIsSeen` | vidaio/authority/anchoring.py:199-232 | the absence of a dispatched hash is proven exactly when it never landed and era and confirmation depth are behind the finalized head |
| `AnchorCalls.RaiseAndConfirm` | vidaio/authority/anchoring.py:171-232 | with a lane that admits the hash a new one is sent once, and the fenced hash is waited for: an inclusion anchors the epoch exactly when the index takes it, a proven absence expires the row, anything else leaves the fence up; a fence of another hash changes nothing |
| `AnchorCalls.AnchorWithDurableSubmission` | vidaio/authority/anchoring.py:133-232 | at most one dispatch; without an open row, with evidence that can be recorded in time and no other fence that evidence is recorded, fenced, sent once and waited for; an open row of this job that is found included anchors the epoch without a dispatch; a returned row is the durable anchor |
| `AnchorCalls.AnchorEpoch` | vidaio/authority/anchoring.py:249-317 | the call is a run of the machine. With a free lane: an anchored epoch keeps its anchor, which is returned exactly when no foreign fence stands and the row is not acknowledged away; an open row of this job that is found included becomes the anchor, proven absent it is closed and the lane freed, otherwise it stays open behind its fence; a served unanchored epoch all of whose rows expired gets exactly the new evidence sent, its row appended and open and the fence naming it, unless its absence is proven at once |
| `AnchorCalls.FreshIsNew` | vidaio/authority/anchoring.py:147-170 | evidence that can be recorded when no row is open has a hash that was never sent and is not on chain |
| `AnchorResume.ResumedCallAnchors` | vidaio/authority/anchoring.py:133-317 | from every reachable state with a free lane, no foreign fence and an open newest row of this job for a served, unanchored epoch, an undisturbed call that is told truthfully of the finalized inclusion anchors the epoch with that hash at that block, confirms the row, leaves no fence and sends nothing |
| `AnchorResume.RecordedHashOnChainAnchors` | vidaio/authority/anchoring.py:133-317 | the same in terms of what can be looked up: when the recorded hash of an open row of this job is on chain at a finalized block, the call anchors the epoch with it, confirms the row, leaves no fence and sends nothing |
| `AnchorReceipt.ReadReceipt` | vidaio/chain/anchor_receipt.py:197-260 | one turn: head, block hash and archive are read in this order; it proves the block exactly when all of them do, fails exactly on malformed data or on a readable wrong archive, and retries otherwise |
| `AnchorReceipt.WaitForFinalizedAnchorReceipt` | vidaio/chain/anchor_receipt.py:64-260 | a receipt's block was latched once, at or below an observed finalized head, with the expected archive digest, and no earlier turn could prove it; a timeout is returned only when the time is over; the retries are exactly the turns before the last one, or all turns of a timeout, and at most ceil(timeout/poll) + 1 however long reads and sleeps take |
| `AnchorReceipt.ProvableTurnYields` | vidaio/chain/anchor_receipt.py:64-260 | the first turn that proves the block, with every turn before it in time and without a fault, yields the receipt |
| `AnchorReceipt.ReceiptExactlyWhen` | vidaio/chain/anchor_receipt.py:197-260 | a turn proves a receipt if and only if its block is the caller's or that of the first turn whose slot shows the digest, a finalized head at or above it was read, the archive there holds the digest, and a required hash is 64 hex digits |
| `AnchorReceipt.FaultsExactlyWhen` | vidaio/chain/anchor_receipt.py:204-256 | which answers end the wait at once, in terms of the answers |
| `AnchorReceipt.SleepsFit` | vidaio/chain/anchor_receipt.py:64-196 | a sleep takes one poll or what is left before the deadline, whichever is less |
| `Ordering.SortIgnoresArrival` | vidaio/audit/commitments.py:213-217 | sorting forgets the order of arrival when equal keys mean equal elements |
| `Ordering.SortIsStable` | vidaio/auditor/report.py:451-458 | elements with one key keep their order |
| `Merkle.Levels` | vidaio/audit/commitments.py:220-228 | the loop builds exactly the chain of levels with odd promotion |
| `Merkle.MerkleRoot` | vidaio/audit/commitments.py:231-233 | the root that `LeavesAscendBelowRoot` and `RootSplits` describe; no leaves is an error |
| `Merkle.LeavesAscendBelowRoot` | vidaio/audit/commitments.py:213-233 | the digests below the root, read from left to right, are non-decreasing and are the multiset of the input |
| `Merkle.RootSplits` | vidaio/audit/commitments.py:220-228 | level-by-level promotion gives the tree of section 2.1 of RFC 6962: over more than one digest the root is the node of the roots of the first 2^j and of the rest, 2^j the largest power of two below their number |
| `Merkle.MerkleProof` | vidaio/audit/commitments.py:236-255 | for every leaf a proof that the verifier accepts against the root, no longer than ceil(log2 n); otherwise the right error |
| `Merkle.VerifyMerkleProof` | vidaio/audit/commitments.py:258-271 | the loop accepts exactly when the climbed hash is the root; an unknown side is refused |
| `Merkle.UnknownSideRefused` | vidaio/audit/commitments.py:258-271 | a proof with a side that is neither left nor right is refused |
| `Merkle.RootIgnoresOrder` | vidaio/audit/commitments.py:231-233 | any permutation of the digests has the same root |
| `Merkle.PathIsAccepted` | vidaio/audit/commitments.py:236-255 | the path of any position climbs to the top of any level |
| `Merkle.PathIsShort` | vidaio/audit/commitments.py:247-254 | a level of at most 2^d hashes has paths of length at most d |
| `Merkle.RootOpensToLeaves` | vidaio/audit/commitments.py:205-228 | the root determines the sorted leaf list, duplicates included, despite odd promotion |
| `Merkle.EqualRootsBindLeaves` | vidaio/audit/commitments.py:205-233 | equal roots have equal sorted leaf lists |
| `Merkle.AcceptedIsMember` | vidaio/audit/commitments.py:258-271 | a proof of any length and content is only accepted for a digest of the tree |
| `FoldCursors.BuildAuditManifest` | vidaio/authority/finalizer.py:424-567 | groups and sorts the cycles by committed key, refuses unordered keys and replays, and advances the carried map exactly |
| `FoldCursors.BuildsExactlyWhen` | vidaio/authority/finalizer.py:424-567 | built if and only if the keys of every uid ascend strictly and none is at or below its carried cursor |
| `FoldCursors.EarningIsGrouped` | vidaio/authority/finalizer.py:541-553 | a uid has inputs exactly with a cycle or a carried score, and they are its own cycles in ascending order |
| `FoldCursors.TotalIs` | vidaio/authority/finalizer.py:798-815 | exactly the uids of the predecessor, of the census and of the folds have a cursor: the highest key folded now, else the old cursor, else None |
| `FoldCursors.ReplaysExactlyWhen` | vidaio/authority/service.py:384-433 | a replay is a key at or below the uid's cursor, and nothing else is |
| `FoldCursors.BindFoldCursors` | vidaio/authority/service.py:384-433 | accepts exactly the current-only, predecessor-plus-current or total map without a replay, and returns the total map |
| `FoldCursors.BindCompleteFoldCursors` | vidaio/authority/finalizer.py:778-831 | with a predecessor accepts exactly the total map without a replay; without one only completes the census |
| `FoldCursors.FirstEpochCompletes` | vidaio/authority/finalizer.py:778-831 | without a predecessor the claimed cursors stay and the rest of the census gets None |
| `FoldCursors.DerivationsAgree` | vidaio/authority/service.py:384-433 | whatever the builder was told, the service binds its manifest exactly when no uid replays, to the map the finalizer derives and accepts unchanged |
| `FoldCursors.ArrivalOrderIgnored` | vidaio/authority/finalizer.py:541-553 | the manifest does not depend on the order in which the cycles arrive |
| `FoldCursors.NoCrossEpochReplay` | vidaio/authority/finalizer.py:778-831 | along any accepted chain every key a uid folds is above all keys it folded in earlier epochs |
| `FoldCursors.CursorIsTheMaximum` | vidaio/authority/finalizer.py:798-815 | a cursor is the maximum of all keys the uid ever folded, None if it never folded |
| `FoldCursors.NoUidLeaves` | vidaio/authority/finalizer.py:798-815 | a uid that was in a census or folded once has a cursor for ever |
| `RoundMembership.CheckIndex` | vidaio/auditor/round_membership.py:107-132 | the index passes exactly when rows are valid, challenges and keys unique, rounds atomic, heights ordered and the admitted challenges covered |
| `RoundMembership.AuditRoundMembership` | vidaio/auditor/round_membership.py:98-160 | passes exactly when index, predecessor, window and cursor hold; an unavailable predecessor is a skip, a v16 log is exempt |
| `RoundMembership.AcceptedExactlyWhen` | vidaio/auditor/round_membership.py:98-160 | what passes, row by row: genesis, or a log behind its predecessor; valid rows inside the window, no challenge or key twice, one height a round, exactly the admitted challenges, keys above the predecessor's cursor, and the cursor the highest so far |
| `RoundMembership.CursorStandsFor` | vidaio/auditor/round_membership.py:139-150 | a v16 predecessor stands for the highest of its fold cursors, any other for its own cursor |
| `RoundMembership.BuildRoundCursor` | vidaio/authority/finalizer.py:410-420 | the builder writes the cursor the auditor expects and refuses exactly the keys the auditor would refuse |
| `RoundMembership.KeysGrow` | vidaio/auditor/round_membership.py:151-155 | along any passing chain dispatch keys increase from epoch to epoch |
| `RoundMembership.KeysDifferInEpoch` | vidaio/auditor/round_membership.py:113-116 | within an epoch no dispatch key repeats |
| `RoundMembership.OneWindow` | vidaio/auditor/round_membership.py:134-152 | each round's commit height lies in the window of its own epoch and in no other |
| `RoundMembership.CursorIsHighestEver` | vidaio/auditor/round_membership.py:153-157 | the cursor is the maximum of all keys so far and of the cursor the chain began with |
| `SetStore.MembersNeverChange` | vidaio/audit/store.py:958-967 | with conditional creates a member's bytes never change, whoever races |
| `SetStore.SuccessfulCallsAgree` | vidaio/audit/store.py:398-420 | a successful put means exactly those bytes are stored; all successful puts and reads of a member agree |
| `SetStore.ReaderFindsWhatWasPut` | vidaio/audit/store.py:428-470 | a reader that saw the marker gets every member that was put before |
| `SetStore.FrozenExactlyWhen` | vidaio/audit/store.py:398-426 | on the conditional and on the overwriting store, with any callers and any continuation, a finalized set keeps its members and their bytes if and only if no caller past its probe is about to create a missing member or other bytes |
| `SetStore.FinalizedSetIsFrozen` | vidaio/audit/store.py:411-416 | an instance: a finalized set without a put underway never gains a member and keeps its bytes |
| `SetStore.LateMemberAppears` | vidaio/audit/store.py:411-417 | a put that probed before the marker creates its member after it |
| `SetStore.ProbedOpenKeepsFinalizedSets` | vidaio/audit/store.py:617-620 | on the overwriting local store a finalized set never changes, whoever comes later, once no caller is past a probe into a finalized set |
| `SetStore.SingleWriterKeepsFinalizedSets` | vidaio/audit/store.py:617-620 | a set finalized by a single writer on the local store never changes, even when any number of writers come later |
| `SetStore.TwoWritersOverwrite` | vidaio/audit/store.py:617-620 | with a second writer bytes that a reader already got are replaced |
| `SetStore.Store.RawPut` | vidaio/audit/store.py:958-967 | repeating the same bytes succeeds, other bytes are a conflict that changes nothing |
| `SetStore.Store.PutSetMember` | vidaio/audit/store.py:398-420 | the call is the machine's undisturbed put; it succeeds exactly before the marker, under another name, and, on a conditional store, over nothing or the same bytes |
| `SetStore.Store.FinalizeSet` | vidaio/audit/store.py:422-426 | the call is the machine's undisturbed finalize, which writes the empty marker unless it is there |
| `SetStore.Store.GetSetMember` | vidaio/audit/store.py:428-470 | a member is read exactly behind the marker, when it is there with the expected bytes; the call is the machine's undisturbed read |
| `PointerBinding.PointerBindsStoredBytes` | vidaio/authority/finalizer.py:1061-1124 | over every run the indexed pointer is that of the stored, finalized bytes, and neither ever changes |
| `PointerBinding.FinalizerReturnsStoredBytes` | vidaio/authority/finalizer.py:1071-1091 | whatever pointer a finalizer is about to record is that of the bytes under its key |
| `PointerBinding.RetryOutcome` | vidaio/authority/finalizer.py:1064-1115 | a retry recovers a finalized set from its own bytes, completes a half-written one exactly with the same bytes, and otherwise changes nothing |
| `PointerBinding.RecordIndexes` | vidaio/authority/finalizer.py:1078-1115 | recording indexes a new epoch that is no gap with close block, key, log digest and weight digest of its log, and changes nothing else |
| `PointerBinding.UndisturbedFinalizes` | vidaio/authority/finalizer.py:1061-1124 | an undisturbed finalizer stores, finalizes and indexes an untouched epoch, and indexes a finalized set that never was from its own bytes |
| `PointerRefinement.SetsDiffer` | vidaio/authority/finalizer.py:90-92 | no two epochs share a set prefix, negative numbers included |
| `PointerRefinement.RefinesSetStore` | vidaio/authority/finalizer.py:1061-1124 | every reachable state of the finalizers, with crashes and retries, is a reachable state of the set convention with each finalizer inside the call it makes |
| `PointerRefinement.ReadersGetTheIndexedLog` | vidaio/authority/finalizer.py:1071-1091 | the pointer of an indexed epoch is that of the bytes stored under its key, and they stay there finalized whoever else uses the store |
| `RangedDownload.PartsTile` | vidaio/audit/store.py:1591-1594 | every byte lies in exactly one part |
| `RangedDownload.PartBounds` | vidaio/audit/store.py:1591-1594 | part i starts at i * 16 MiB and ends before (i + 1) * 16 MiB or at the end of the object |
| `RangedDownload.BrokenAttempts` | vidaio/audit/store.py:1596-1641 | a broken attempt resumes at the same offset twice and fails the worker the third time |
| `RangedDownload.WritesStayInPart` | vidaio/audit/store.py:1596-1641 | a worker writes only inside its part from its own offset on, resumes there, and has three attempts |
| `RangedDownload.DownloadIsAllOrNothing` | vidaio/audit/store.py:1584-1667 | for every interleaving, chunking, short write and failure pattern success means the pinned object but for zeros where bytes were lost, so the object itself exactly when only zero bytes were lost; failure means no file, and an existing destination is untouched |
| `RangedDownload.WholeWritesGiveTheObject` | vidaio/audit/store.py:1615-1641 | when every write takes its whole chunk, success means the pinned object |
| `RangedDownload.ShortWriteCorrupts` | vidaio/audit/store.py:1621-1622 | for every object with a byte that is not zero there is a run without any failure that succeeds with a file of zeros |
| `RangedDownload.SuccessMeansObjectExactlyWhen` | vidaio/audit/store.py:1621-1622 | every successful run leaves the pinned object, whatever `pwrite` takes, if and only if the object is all zeros |
| `RangedDownload.CanStillSucceed` | vidaio/audit/store.py:1596-1667 | from every state without an interruption and a failed worker, however many attempts were broken, the download succeeds when each part gets its remaining bytes |
| `RangedDownload.FreshDownloadSucceeds` | vidaio/audit/store.py:1584-1667 | for every object there is a run that succeeds with exactly that object |
| `RangedDownload.FailureIsNoticed` | vidaio/audit/store.py:1642-1667 | a failed worker stops the others and cancels queued ones |
| `RangedDownload.DrainedFails` | vidaio/audit/store.py:1642-1667 | a download that was given up fails and leaves no file once all workers are over |
| `SingleFlightMemo.OnlyComputedValues` | vidaio/auditor/content_cache.py:66-110 | returned values and memo entries were computed by the inner recomputer for their key; the bound is kept |
| `SingleFlightMemo.MemoRefinesRecompute` | vidaio/auditor/content_cache.py:66-110 | for any interleaving, eviction and failure a returned value is the inner recompute of its key |
| `SingleFlightMemo.SingleFlight` | vidaio/auditor/content_cache.py:74-88 | at most one call per key is inside the inner recomputer or on the way to remove its entry |
| `SingleFlightMemo.CompletedAndRemovedOnce` | vidaio/auditor/content_cache.py:93-110 | completing finds the future pending and removing finds the entry with a completed future, also after a failure |
| `SingleFlightMemo.WaitersHaveAnOwner` | vidaio/auditor/content_cache.py:88-89 | whoever waits on a pending future waits for another call that is still on the way to complete it |
| `SingleFlightMemo.EpochRecomputer.Recompute` | vidaio/auditor/content_cache.py:66-110 | one call: a hit is answered without an inner call and becomes the youngest entry, the others in order; a key in flight is waited for and changes nothing; any other miss asks the inner recomputer once, and an answer becomes the youngest entry, with the oldest one going only when there is no room; a failure leaves the memo alone |
| `SingleFlightMemo.PutLearns` | vidaio/auditor/content_cache.py:96-99 | a new entry is the youngest, all others keep their order, and only beyond the bound the oldest one goes |
| `SingleFlightMemo.RepeatedCallIsAnswered` | vidaio/auditor/content_cache.py:74-99 | a call after an answered call of the same key gets that value without a second inner call |
| `SingleFlightMemo.WaiterGetsTheOutcome` | vidaio/auditor/content_cache.py:88-89 | a waiter gets the owner's value, or its failure, and changes nothing |
| `Hysteresis.ResolveTolerances` | vidaio/audit/recompute.py:129-153 | overrides are accepted exactly when all narrow, and the resolved policy is nowhere wider than the release |
| `Hysteresis.NarrowsExactlyWhen` | vidaio/audit/recompute.py:129-153 | an override set narrows exactly when each is named and a finite number from zero to the shipped tolerance, to zero where nothing is shipped |
| `Hysteresis.Compare` | vidaio/audit/recompute.py:1930-2009 | all checks pass exactly when the comparison is accepted, which `AcceptedExactlyWhen` gives in numbers |
| `Hysteresis.AcceptedIsSound` | vidaio/audit/recompute.py:892-982 | an accepted comparison agrees within tolerance on gate and score, or every excused fact has a limit that its two metric values straddle within tolerance; only a flipped formula's final score may differ |
| `Hysteresis.AcceptedExactlyWhen` | vidaio/audit/recompute.py:892-1008 | accepted if and only if the metric sets agree, all metrics are within tolerance (the final score may differ where only the formula flips), the gates agree or the flip is excusable, and the scores agree or the flip is excusable and each score follows its own gate; excusable means that every violation of the side whose gate failed (for a formula flip the fact of the zeroed side, where both gates failed the recorded one) has a finite limit strictly on its failing side, all within the tolerance of its metric |
| `Hysteresis.FloorCrossingIsAccepted` | vidaio/audit/recompute.py:944-948 | for instance a VMAF of 84.98 against 85.01 around a floor of 85.0 |
| `Hysteresis.ExactMetricsNeverExcuse` | vidaio/audit/recompute.py:849-889 | a fact on a metric without tolerance is never excused |
| `Hysteresis.CompressionRateNeverExcused` | vidaio/audit/recompute.py:786-798 | no accepted gate flip rests on the compression rate |
| `Hysteresis.AcceptanceMonotone` | vidaio/audit/recompute.py:129-153 | whatever is accepted under narrower tolerances is accepted under wider ones |
| `VerdictStore.OverallStatus` | vidaio/auditor/report.py:489-532 | DISPUTED exactly with a FAIL in the weight verdict, a media verdict or an earning verdict, CLEAN exactly without FAIL and SKIP in any of them, else INCONCLUSIVE |
| `VerdictStore.AuditResultsStore.Record` | vidaio/audit_api/store.py:131-194 | a report whose canonical form is kept already is a duplicate and changes nothing, a divergent one is a conflict that keeps the first, everything else is appended |
| `VerdictStore.ResortedIsSame` | vidaio/auditor/report.py:442-477 | posting a report with its verdicts in another order is posting the same report, as long as no two different verdicts have one sort key |
| `VerdictStore.CanonicalTells` | vidaio/auditor/report.py:442-477 | reports with one canonical form differ at most in the order of their verdicts |
| `VerdictStore.EpochStatus` | vidaio/audit_api/aggregate.py:101-133 | the counted verdict: a dispute outweighs everything, then a clean report |
| `VerdictStore.AuditResultsStore.DisputedEpochCount` | vidaio/audit_api/store.py:293-307 | the gauge is the number of epochs the aggregate marks DISPUTED |
| `VerdictStore.NothingIsLost` | vidaio/audit_api/store.py:131-194 | the canonical form of every posted report is kept or in the conflict ledger and nothing else is, and both tables only grow at their end |
| `VerdictStore.DisputesCannotBeBuried` | vidaio/audit_api/aggregate.py:121-133 | after any reports in any order an epoch is DISPUTED exactly when some posted report for it has a fault |
| `VerdictStore.DisputeIsFinal` | vidaio/audit_api/store.py:256-274 | once DISPUTED an epoch stays DISPUTED |
| `VerdictStore.KeptIffFirst` | vidaio/audit_api/store.py:131-194 | after any posts exactly the first report of every auditor, epoch and mode is kept |
| `VerdictStore.OrderNeverMattersExactlyWhen` | vidaio/audit_api/aggregate.py:101-133 | every order of the same posts gives an epoch the same verdict if and only if a fault was posted for it, or nothing CLEAN was, or some auditor posted nothing but CLEAN in some mode |
| `VerdictStore.VerdictOfTheSet` | vidaio/audit_api/aggregate.py:101-133 | when the order does not matter, the verdict is read off the set of posted reports |
| `VerdictStore.FirstKeptDecides` | vidaio/audit_api/store.py:144-169 | the smallest instance: of one auditor's clean and inconclusive report for an epoch in one mode the first decides |
| `VersionOrder.CompareVersions` | vidaio/autoupdater/service.py:95-110 | pads and compares as the lexicographic order of zero-extended spines |
| `VersionOrder.CompareIsTotal` | vidaio/autoupdater/service.py:95-110 | the two directions are opposite and a version is lateral to itself |
| `VersionOrder.CompareIsTransitive` | vidaio/autoupdater/service.py:95-110 | transitive although each comparison pads to its own width |
| `VersionOrder.LateralIsEqualPadded` | vidaio/autoupdater/service.py:95-110 | lateral exactly when the spines agree up to trailing zeros |
| `VersionOrder.FirstDifferenceDecides` | vidaio/autoupdater/service.py:95-110 | newer exactly when the first differing component is larger, with zeros for missing ones |
| `VersionOrder.EmptySpineIsZero` | vidaio/autoupdater/service.py:95-110 | a version without digits is lateral exactly to versions whose components are all zero |
| `VersionOrder.EmptySpineIsNotLateral` | vidaio/autoupdater/service.py:22-23 | from a version without digits to 1.0 is an upgrade |
| `VersionOrder.ReadsBack` | vidaio/autoupdater/service.py:83-92 | every spine reads back from its decimal form, with or without v and with any suffix |
| `VersionOrder.SpacesAreSkipped` | vidaio/autoupdater/service.py:76 | white space in front does not count |
| `VersionOrder.NoSpine` | vidaio/autoupdater/service.py:83-92 | a string that does not start with a digit has the empty spine, with or without v |
| `Autoupdater.Updater.PollOnce` | vidaio/autoupdater/service.py:272-350 | one poll is exactly the transition function, early returns included |
| `Autoupdater.Updater.ApplyUpdate` | vidaio/autoupdater/service.py:374-434 | the retry loop: CI again before each attempt, success persists, a shutdown leaves it pending, the spent budget marks it failed |
| `Autoupdater.PersistedNeverGoesDown` | vidaio/autoupdater/service.py:272-350 | with downgrades off the persisted version never goes down over any run of polls, failures, failed writes and restarts |
| `Autoupdater.NeverDownBetweenAnyTwoMoments` | vidaio/autoupdater/service.py:141-222 | from any state and version file on, what is persisted later is never below what was persisted earlier |
| `Autoupdater.FirstSightAdopts` | vidaio/autoupdater/service.py:284-291 | without a baseline the first observation is adopted and persisted and no command has run |
| `Autoupdater.CommandsOfAPoll` | vidaio/autoupdater/service.py:293-350 | commands run only for a new version that is no refused downgrade and not failed for good, each after a CI pass, within the budget |
| `Autoupdater.CommandRunsExactlyWhen` | vidaio/autoupdater/service.py:293-350 | a poll runs a command if and only if the observed version differs from the running one, is no refused downgrade, a command is configured, it has not failed for good, the budget is not zero, and gate and first CI check pass where required |
| `Autoupdater.ReachedSuccessUpdates` | vidaio/autoupdater/service.py:374-434 | once a successful attempt is reached the version runs, is persisted when the write succeeds, nothing is pending, failed or refused, and the command ran exactly that often |
| `Autoupdater.NoSuccessLeavesPending` | vidaio/autoupdater/service.py:374-434 | without a reached success the version stays pending, what runs and is persisted stays, and it is marked failed exactly when the budget was spent |
| `Autoupdater.OtherPolls` | vidaio/autoupdater/service.py:272-330 | every field after a poll whose version is not eligible |
| `Autoupdater.RestartReads` | vidaio/autoupdater/service.py:141-222 | a new process knows the state file, else the deployed version, and nothing else |
| `Autoupdater.FailedMeansBudgetSpent` | vidaio/autoupdater/service.py:427-434 | a version is marked failed exactly when every attempt failed and none was cut short |

## Left out

- The `anchor_commitment` path of `anchor_epoch` for report and test adapters, an unset lane path, nested entry of the same task into the lane, and the commitment-capacity check before preparing.
- A power loss that takes back a write the operating system had reported; total loss of the database; an unreadable or malformed fence file.
- Timestamps, process ids, phases, metrics, warnings and log lines of every component.
- `EpochIndex.latest` and `pending_anchor_submissions`: queries over the same tables.
- `wait_for_finalized_commitment_receipt`: the same loop over a raw payload; missing adapter methods are argument checks.
- `CommitmentLedger`, payload builders and competition manifests: forward-only status rows and formats.
- Merkle leaves that are not 32-byte digests; sibling hashes of another length are `Opaque`.
- The rest of an audit manifest (file references, content rounds, competition bundles, availability signatures) and `_require_complete_earning`.
- The evidence-binding half of the round-membership audit and its report-only lateness finding.
- Prefixes with a trailing slash and member names with a slash, so that keys of different sets never coincide; bounded reads of set members; sealing and release of artifacts.
- `PointerBinding.RetryOutcome`: does not model parsing the stored log, because the stored bytes are always a log the finalizer wrote.
- The single-stream download; retries inside the SDK.
- Exceptions that strike the memo between two of its own statements; how it derives its key, and calls for which it derives none (they go straight to the inner recomputer).
- Rounding of floats in the tolerance comparison; finite floats are reals.
- The manifest, identity, commitment, duplicate and content checks of `verify_bundle`.
- Reason counts, per-mode counts and feeds of the audit API.
- Unicode digits and white space in version strings; a state file with corrupt content.
