# LRC-20 / YUV: a verified model

This project models the parts of the YUV token node and wallet whose correctness is not visible from
reading one function, and proves what they promise:

- **Range proofs** (`Scalars`, `Vectors`, `WeightedInnerProduct`, `WipFolding`, `ScalarTable`,
  `WipVerifier`, `RangeProofs`, `ProofBytes`, `ProverTotal`, `RangeVerdict`): the Bulletproofs+ prover
  that folds vectors and generators, the verifier that never folds but keeps a table of scalars,
  completeness of the whole, and when the verifier accepts.
- **Attaching transactions** (`AttachGraph`, `AttachResults`, `AttachAnswer`, `AttachCleanup`,
  `AttachRuns`, `GraphBuilder`): the dependency graph that waits for parents, wakes children and cleans
  up.
- **Confirmation and reorganizations** (`Confirmator`, `ConfirmatorRuns`): the window of latest blocks,
  what is reported over sequences of blocks, and the indexer that goes back after a reorganization.
- **Token rules** (`TokenRules`, `TxChecker`, `TokenVerdicts`, `IsolatedChecks`): what is accepted and
  what it changes; supply, announcements, freezes, ownership and per-chroma conservation.
- **The node pipeline** (`Controller`, `ControllerLaws`, `Pipeline`, `Progress`): all services exchanging
  messages, with restarts and storage failures; nothing is stored unchecked, and what passes its checks
  gets through.
- **Supporting algorithms** (`Pages`, `CoinSelection`, `Codec`, `PixelBytes`, `Layouts`, `WalletSync`,
  `WalletHeights`, `KeyOrder`, `Selections`): pages and inventory, coin selection, codecs and wallet
  synchronization.

How the source is represented:

- Points are their discrete logarithms with respect to one base, so a point is a scalar modulo `Q` and
  `Q` is any modulus above 1. `Invert` is the extended Euclidean algorithm; `None` stands for the panic
  of an `expect` on a scalar without inverse.
- A transcript is the log of what was absorbed and squeezed, and a challenge is any function of it.
  Randomness is a tape of scalars.
- `Vec::shrink_to` does not shorten a vector; as in the source the truncation is done by the zips.
- 128-bit sums wrap around, as in release builds. Where a property fails because of that, a lemma gives
  an input and the property is stated with its condition.
- The "no tx found" branch of the graph builder can be reached (a child attached in the round in which
  it is also queued for the next one); it continues, as in release builds.
- Hash sets are walked in any order. Sorted maps are walked in key order.
- Answers of the Bitcoin node, storage snapshots, clock readings, signature checks and proof checks are
  parameters.
- In the pipeline, messages are delivered in any order, and the confirmator and the graph builder may
  report any transactions they were handed since the last restart. Their own models report no others
  (`Confirmator.TxConfirmator.HandleNewBlock`, `AttachResults.AttachesWithin`). A handler may stop after
  any round of its loop because storage failed.

Where the code and its documentation differ, the code is followed. The diagram in `docs/README.md` lets
the graph builder save attached transactions; the controller does that. The comment on `Luma` gives the
amount 64 bits and the blinding factor 192; the code uses 128 and 128.

`dafny verify dfyconfig.toml` checks everything.

## Model

| member | source | states |
|---|---|---|
| `Scalars.Invert` | crates/bulletproof/src/wip.rs:233-233 | a returned inverse multiplied with its argument gives 1 |
| `Scalars.InvertExactlyUnits` | crates/bulletproof/src/wip.rs:268-268 | inversion fails on exactly the scalars that have no inverse |
| `Vectors.NewPower` | crates/bulletproof/src/vec_ops.rs:43-53 | the pushed vector is 1, v, v^2, ... of the requested length, at least two entries |
| `Vectors.Split` | crates/bulletproof/src/vec_ops.rs:89-97 | the two halves, the second padded with zeros to the length of the first |
| `Vectors.PowAdd` | crates/bulletproof/src/vec_ops.rs:43-53 | powers multiply by adding exponents |
| `WeightedInnerProduct.NewStmt` | crates/bulletproof/src/wip.rs:119-128 | the statement holds the weights y, y^2, ..., y^n |
| `WeightedInnerProduct.FoldPoints` | crates/bulletproof/src/wip.rs:132-166 | the loop over the halves of the generators gives the combined generators |
| `WeightedInnerProduct.NextGens` | crates/bulletproof/src/wip.rs:132-166 | both generator vectors are folded with the crosswise challenge scalars |
| `WeightedInnerProduct.HalvingRound` | crates/bulletproof/src/wip.rs:216-275 | one pass of the prover's loop, or the panic on a scalar without inverse |
| `WeightedInnerProduct.Generate` | crates/bulletproof/src/wip.rs:196-308 | the loop and the final answers give the proof that the completeness theorems are about |
| `WipFolding.FoldKeepsCommitment` | crates/bulletproof/src/wip.rs:216-275 | folding all four vectors turns the commitment P into P + p^2 L + p^-2 R |
| `WipFolding.RoundKeepsCommitment` | crates/bulletproof/src/wip.rs:216-275 | every halving round of the prover does so with the challenge drawn for its two points |
| `ScalarTable.IndexedScalars.WithCapacity` | crates/bulletproof/src/wip.rs:30-35 | the new table has scalar 1 everywhere and every index in a list of its own |
| `ScalarTable.IndexedScalars.Next` | crates/bulletproof/src/wip.rs:37-43 | exactly the scalars listed in a section are multiplied |
| `ScalarTable.IndexedScalars.Merge` | crates/bulletproof/src/wip.rs:45-55 | the second half of the position lists is appended to the first |
| `ScalarTable.IndexedScalars.Halve` | crates/bulletproof/src/wip.rs:169-193 | one round of scaling and merging is the table step the refinement theorem is about |
| `ScalarTable.NextPairPartition` | crates/bulletproof/src/wip.rs:29-56 | the positions stay a partition of the original indices |
| `ScalarTable.NextPairRefinesFold` | crates/bulletproof/src/wip.rs:169-193 | a table that represents generators represents the folded generators after a round |
| `ScalarTable.TableRefinesFolds` | crates/bulletproof/src/wip.rs:132-193 | after any number of rounds, the sum over positions[i] of inner[k] gen[k] is the i-th generator the prover's folding gives |
| `ScalarTable.InitialTableRefinesFolds` | crates/bulletproof/src/wip.rs:132-193 | so from the fresh table, for every power-of-two size |
| `ScalarTable.LastTable` | crates/bulletproof/src/wip.rs:311-358 | after the last round the table is one list with all indices, and its sum is the single folded generator |
| `WipVerifier.NextPairs` | crates/bulletproof/src/wip.rs:169-193 | both tables are advanced with the scalars of the round |
| `WipVerifier.Verify` | crates/bulletproof/src/wip.rs:311-358 | the terms queued by the verifier's loops are the terms the completeness theorem is about |
| `WipVerifier.RoundRelated` | crates/bulletproof/src/wip.rs:311-358 | a verifier round on the prover's points keeps the verifier's tables and transcript in step with the prover |
| `WipVerifier.RoundsRelated` | crates/bulletproof/src/wip.rs:311-358 | so do all rounds, and the terms collected account for the commitments |
| `WipVerifier.FinishAccepted` | crates/bulletproof/src/wip.rs:277-308 | the final answers of the prover make the verifier's sum zero |
| `WipVerifier.WipCompleteness` | crates/bulletproof/src/wip.rs:196-358 | for every power-of-two size, witness, blinding and randomness, the multi-exponentiation queued for a generated proof is the identity |
| `RangeProofs.CalculateAL` | crates/bulletproof/src/range_proof.rs:125-132 | the pushed vector holds the bits of the value, lowest first |
| `RangeProofs.CalculateATerms` | crates/bulletproof/src/range_proof.rs:135-151 | the terms commit to the bits and the bits minus one |
| `RangeProofs.CalculateAHat` | crates/bulletproof/src/range_proof.rs:154-198 | the pushed terms and their sum are the shifted commitment of the range proof |
| `RangeProofs.BitsRecompose` | crates/bulletproof/src/range_proof.rs:125-132 | the bits weighted with powers of two add up to the value |
| `RangeProofs.WeightedBits` | crates/bulletproof/src/range_proof.rs:67-105 | the weighted inner product of the shifted bit vectors is the value times y^(n+1) plus a public constant |
| `RangeProofs.AHatCommits` | crates/bulletproof/src/range_proof.rs:154-198 | the shifted commitment is the weighted-inner-product commitment to (bits - z, bits - 1 + z + 2^i y^(n-i)) with blinding alpha + r y^(n+1) |
| `RangeProofs.RangeCompleteness` | crates/bulletproof/src/range_proof.rs:67-122 | every proof of a value below 2^n is accepted for the commitment to the value |
| `RangeProofs.GenerateProof` | crates/bulletproof/src/range_proof.rs:67-105 | the code of the prover gives the proof of the theorem and the commitment |
| `RangeProofs.VerifyProof` | crates/bulletproof/src/range_proof.rs:108-122 | the code of the verifier decides acceptance as in the theorem |
| `RangeVerdict.RangeVerdict` | crates/bulletproof/src/range_proof.rs:108-122 | whatever the proof, as long as it has a round per halving: `verify` decides as the textbook verifier that folds generators and statement and checks one last equation |
| `RangeVerdict.WipVerdict` | crates/bulletproof/src/wip.rs:311-368 | the same of the inner verifier, and it panics exactly when that one meets a scalar without inverse |
| `RangeVerdict.AcceptedForOne` | crates/bulletproof/src/range_proof.rs:108-122 | with invertible challenges a proof accepted for one commitment is rejected for every other point |
| `RangeVerdict.ProofBinds` | crates/bulletproof/src/range_proof.rs:64-122 | so the proof of a value is accepted for the commitment to it and for no other point |
| `RangeVerdict.VerifierSays` | crates/bulletproof/src/wip.rs:372-384 | the last challenge is drawn from every point of the proof, in the order sent |
| `RangeVerdict.LastChallengeBinds` | crates/bulletproof/src/wip.rs:372-384 | proofs with the same last transcript agree in all those points |
| `ProverTotal.ProvedSucceeds` | crates/bulletproof/src/range_proof.rs:67-105 | with invertible challenges the prover does not panic, for every value, blinding and randomness |
| `ProverTotal.MasksFresh` | crates/bulletproof/src/wip.rs:277-308 | the last answers are masked with four draws, none of them used before or twice |
| `ProverTotal.SentProofAccepted` | crates/bulletproof/src/range_proof.rs:28-122 | every value in range has a proof that comes back from its bytes and is accepted for the commitment |
| `ProofBytes.WipToBytes` | crates/bulletproof/src/wip.rs:71-86 | the bytes are the fixed part followed by the zipped pairs of points |
| `ProofBytes.PairsFromBytes` | crates/bulletproof/src/wip.rs:96-104 | the loop over the offset parses pairs, panics on a cut pair and fails on an invalid point |
| `ProofBytes.WipFromBytes` | crates/bulletproof/src/wip.rs:88-115 | which bytes parse, panic or fail, and to what |
| `ProofBytes.WipParsed` | crates/bulletproof/src/wip.rs:71-115 | parsing the bytes of any proof gives it back with both lists cut to the shorter one |
| `ProofBytes.WipRoundTrip` | crates/bulletproof/src/wip.rs:71-115 | the proof itself comes back exactly when it has as many left as right points |
| `ProofBytes.RangeRoundTrip` | crates/bulletproof/src/range_proof.rs:28-43 | the same for range proofs |
| `Layouts.RangeLayout` | crates/bulletproof/src/range_proof.rs:28-43 | where each point and scalar is |
| `Layouts.PairLayout` | crates/bulletproof/src/wip.rs:71-86 | left and right points alternate |
| `AttachGraph.DeliverSound` | crates/tx-attach/src/lib.rs:204-281 | delivering any transaction keeps: listed transfers come after their parents, and parents of waiting ones are awaited or attached |
| `AttachGraph.WakeSound` | crates/tx-attach/src/lib.rs:239-276 | so does looking at a queued transaction |
| `AttachGraph.AttachesSound` | crates/tx-attach/src/lib.rs:204-281 | every call, whatever is delivered, lists each transaction after all its parents outside storage and what was attached before |
| `AttachGraph.DeliverHeld` | crates/tx-attach/src/lib.rs:204-236 | delivery of anything but another transfer under a waiting id loses nothing; what was not listed before is listed or waiting, not both and not twice |
| `AttachGraph.WakeHeld` | crates/tx-attach/src/lib.rs:239-276 | neither does waking lose or double anything |
| `AttachGraph.DeliverTracked` | crates/tx-attach/src/lib.rs:333-389 | delivery of anything but another transfer under a waiting id keeps the account of who waits for whom, up to parents attached in the call whose children are queued |
| `AttachGraph.WakeTracked` | crates/tx-attach/src/lib.rs:239-276 | so does waking, early-stored parents included |
| `AttachResults.AttachesWithin` | crates/tx-attach/src/lib.rs:204-281 | a call lists only delivered and waiting transactions, and only those wait after it |
| `AttachResults.AttachesHeld` | crates/tx-attach/src/lib.rs:204-281 | with one transfer per id a call loses nothing; with distinct ids delivered it lists no transaction twice and none that still waits |
| `AttachResults.AttachesTracked` | crates/tx-attach/src/lib.rs:204-281 | with one transfer per id, after a call every awaited id is an unattached parent that wakes its child, and only early-stored parents wake others |
| `AttachResults.PendingMisses` | crates/tx-attach/src/lib.rs:239-276 | in a tracked graph every waiting transaction misses a parent |
| `AttachResults.AttachesLeast` | crates/tx-attach/src/lib.rs:204-281 | from a graph in step with storage, one call attaches exactly the least set that holds storage and issuances and is closed under "all parents attached" |
| `AttachResults.ListedOnce` | crates/tx-attach/src/lib.rs:204-281 | whatever storage holds: distinct ids delivered, none of them issued while a transfer waits under it, no id is listed twice |
| `AttachResults.UniqueOnce` | crates/tx-attach/src/lib.rs:204-281 | so when equal ids mean equal transactions, no id is listed twice that was not delivered twice |
| `AttachResults.ListedTwice` | crates/tx-attach/src/lib.rs:204-281 | an input on which that happens |
| `AttachResults.TrackedExact` | crates/tx-attach/src/lib.rs:128-195 | without early ids, being tracked and sound is being exact: `deps` and `inverse_deps` are inverses without empty sets, over the keys of `stored_txs`, listing exactly the unattached parents |
| `AttachResults.LeastUnique` | crates/tx-attach/src/lib.rs:204-281 | there is only one least closed set, so batch order, split and walking order do not matter |
| `AttachAnswer.AttachesAnswer` | crates/tx-attach/src/lib.rs:204-281 | whatever is stored without being attached, a call lists exactly the least set that holds what the batch attaches at once and every waiting transaction it wakes with nothing left to wait for |
| `AttachAnswer.AnswerUnique` | crates/tx-attach/src/lib.rs:204-281 | there is one such set, so the order of the batch and of waking does not matter |
| `AttachAnswer.RepeatsIff` | crates/tx-attach/src/lib.rs:204-281 | distinct ids delivered, an id is listed twice exactly when an issuance of the batch has the id of a waiting transfer that is woken with nothing left to wait for |
| `AttachRuns.RunAttach` | crates/tx-attach/src/lib.rs:204-281 | one more call in a run, redelivery and early storage included, lists parents first and no id twice, stays within every closed set, keeps track and loses nothing |
| `AttachRuns.RunLeast` | crates/tx-attach/src/lib.rs:204-281 | with all delivered and no clean-up the attached set is closed; it is the least closed set if what was stored early are issuances of the run |
| `AttachRuns.RunSettledIff` | crates/tx-attach/src/lib.rs:204-281 | counting what was stored early as attached, it is the least closed set exactly when no unattached transaction awaits early ids only |
| `AttachRuns.StoredUnattached` | crates/tx-attach/src/lib.rs:333-389 | an input with such a transaction: its parent comes into storage as announcements do, and nothing wakes it; with the parent stored first it is attached |
| `AttachRuns.OnceAttach` | crates/tx-attach/src/lib.rs:204-281 | while nothing is delivered twice, nothing is listed twice in the whole run |
| `AttachRuns.RunExact` | crates/tx-attach/src/lib.rs:204-281 | when storage changes only through attach results the graph is exact between any two steps |
| `GraphBuilder.GraphBuilder.constructor` | crates/tx-attach/src/lib.rs:55-71 | an empty graph |
| `GraphBuilder.GraphBuilder.LinkParents` | crates/tx-attach/src/lib.rs:341-362 | both maps gain exactly the parents not in storage and not attached |
| `GraphBuilder.GraphBuilder.HandleTransfer` | crates/tx-attach/src/lib.rs:333-389 | a transfer is attached and its children queued if nothing is missing, else stored as waiting |
| `GraphBuilder.GraphBuilder.RemoveAttachedParents` | crates/tx-attach/src/lib.rs:299-326 | exactly the parents in storage or attached are dropped, and whether any is left |
| `GraphBuilder.GraphBuilder.Wake` | crates/tx-attach/src/lib.rs:243-273 | the inner loop's effect on one queued transaction |
| `GraphBuilder.GraphBuilder.DeliverBatch` | crates/tx-attach/src/lib.rs:210-237 | the loop over the batch is the delivery the theorems are about |
| `GraphBuilder.GraphBuilder.WakeRound` | crates/tx-attach/src/lib.rs:239-276 | a round looks at every queued transaction once, in any order, and queues again only if it attached something |
| `GraphBuilder.GraphBuilder.AttachTxs` | crates/tx-attach/src/lib.rs:204-281 | it ends; it delivers the batch and wakes round by round until nothing is queued, so every result about complete calls applies; it lists only delivered and waiting transactions, each after its parents, and from distinct ids no id twice |
| `GraphBuilder.RunSteps` | crates/tx-attach/src/lib.rs:128-281 | over any interleaving of calls and clean-ups, with redelivery and any ids stored without being attached: parents are listed first, nothing twice that was not delivered twice, nothing outside the sets closed over storage and early ids; without clean-up the result is closed, least exactly when nothing is stuck; when storage changes only through attach results the graph stays exact |
| `GraphBuilder.GraphBuilder.RemoveTxFromDeps` | crates/tx-attach/src/lib.rs:180-195 | the transaction leaves `deps` and the child sets of its parents, and emptied sets go |
| `GraphBuilder.GraphBuilder.RemoveOutdatedTx` | crates/tx-attach/src/lib.rs:152-177 | on any graph it ends, cycles included, and removes exactly the transaction and its descendants |
| `GraphBuilder.GraphBuilder.HandleCleanup` | crates/tx-attach/src/lib.rs:128-149 | removes exactly the outdated transactions with all their descendants, or fails unchanged when a clock went back; exact graphs stay exact and sound ones sound |
| `AttachCleanup.RemovedExact` | crates/tx-attach/src/lib.rs:128-195 | removing a set with its descendants keeps the graph exact |
| `AttachCleanup.RemovedSound` | crates/tx-attach/src/lib.rs:128-195 | and sound |
| `AttachCleanup.RemovedTracked` | crates/tx-attach/src/lib.rs:128-195 | and tracked, early-stored parents included |
| `AttachCleanup.DescendantsAwait` | crates/tx-attach/src/lib.rs:152-177 | descendants by `inverse_deps` are exactly what waits for the roots, directly or not, as long as early ids are not waiting themselves |
| `AttachCleanup.DescendantsGrow` | crates/tx-attach/src/lib.rs:128-149 | descendants of one more root can be found in the graph left after a removal |
| `AttachCleanup.OutdatedExactly` | crates/tx-attach/src/lib.rs:128-149 | a waiting transaction is kept through the whole duration and outdated right after it |
| `Confirmator.TxConfirmator.constructor` | crates/tx-confirm/src/lib.rs:55-75 | empty queue and window |
| `Confirmator.TxConfirmator.HandleNewBlock` | crates/tx-confirm/src/lib.rs:120-170 | what is mined, confirmed, dequeued and reported, and when it is a reorg; the window stays shorter than the required depth, and linked exactly unless a block without parent is fed to a window that is not empty; only transactions handed over are reported |
| `Confirmator.TxConfirmator.HandleTxToConfirm` | crates/tx-confirm/src/lib.rs:174-200 | what is queued and reported for each answer of the node, and that only transactions handed over are reported |
| `Confirmator.TxConfirmator.WalkBack` | crates/tx-confirm/src/lib.rs:208-234 | the walk succeeds exactly when it meets the window, and stops at the last meeting point |
| `Confirmator.TxConfirmator.HandleReorg` | crates/tx-confirm/src/lib.rs:202-248 | the window left is a non-empty prefix ending in an ancestor of the new block; dropped waiting transactions are dequeued and reported with the ancestor's height |
| `Confirmator.TxConfirmator.ExtractWaitingTxs` | crates/tx-confirm/src/lib.rs:260-267 | the queued transactions of a block, in block order |
| `Confirmator.TxConfirmator.NewConfirmedTxs` | crates/tx-confirm/src/lib.rs:292-301 | they leave the queue and are reported |
| `Confirmator.ReportedExactly` | crates/tx-confirm/src/lib.rs:202-248 | a reorg reports a transaction exactly when it waits and is in a dropped block |
| `ConfirmatorRuns.QueuedAfter` | crates/tx-confirm/src/lib.rs:120-170 | over any blocks extending the window a transaction leaves the queue exactly when a block with it has the required depth |
| `ConfirmatorRuns.ConfirmedAfter` | crates/tx-confirm/src/lib.rs:120-170 | and is reported as confirmed exactly then |
| `ConfirmatorRuns.ConfirmedOnce` | crates/tx-confirm/src/lib.rs:292-301 | and once |
| `ConfirmatorRuns.MinedAfter` | crates/tx-confirm/src/lib.rs:120-170 | it is reported as mined exactly when a block has it while it waits |
| `ConfirmatorRuns.ReorgLeaves` | crates/tx-confirm/src/lib.rs:202-248 | a reorg takes exactly the waiting transactions of the dropped blocks out of the queue |
| `ConfirmatorRuns.NewestFirst` | crates/tx-confirm/src/lib.rs:208-234 | and reports those of newer blocks first |
| `ConfirmatorRuns.WaitingPicks` | crates/tx-confirm/src/lib.rs:260-267 | those of one block in the order of the block |
| `Confirmator.ConfirmedDepth` | crates/tx-confirm/src/lib.rs:152-167 | the confirmed block is followed by N-1 linked successors, one height apart each |
| `Confirmator.AncestorHeight` | crates/tx-confirm/src/lib.rs:208-234 | the reported height is that of the ancestor reached |
| `Confirmator.MeetsIffForkPoint` | crates/tx-confirm/src/lib.rs:202-248 | with aligned heights a reorg is handled exactly when the fork point is still in the window |
| `Confirmator.Indexer.HandleReorganization` | crates/indexers/src/indexer.rs:282-294 | the indexer goes back to the height, and fails when the node has no such block |
| `Confirmator.Indexer.HandleNewBlocks` | crates/indexers/src/indexer.rs:386-418 | which block is indexed next, and when none or an error |
| `Confirmator.NextBlockExtends` | crates/tx-confirm/src/lib.rs:202-248 | the block above the reported height links to the window that was kept |
| `Confirmator.ReorgRoundTrip` | crates/indexers/src/indexer.rs:282-418 | from detecting a reorg to the next fetched block: that block extends the window |
| `TokenRules.TransferKeeps` | crates/tx-check/src/service.rs:249-318 | checking a transfer changes neither chroma information nor freezes, and removes only freeze transactions from storage |
| `TokenRules.RunKeepsInfo` | crates/tx-check/src/service.rs:356-396 | in every run a stored announcement never changes and a total supply within its announced maximum stays within it |
| `TokenRules.RunKeepsFrozen` | crates/tx-check/src/announcements.rs:57-86 | in every run a freeze entry stays as first recorded |
| `TokenRules.FoundIffSigned` | crates/tx-check/src/isolated_checks.rs:295-326 | the owner is found exactly when some input is signed by it and no input before is unreadable |
| `TokenRules.ChangesNeedOwner` | crates/tx-check/src/service.rs:356-551 | announcement, supply and owner of a chroma, and freezes under it, change only by a transaction signed by whoever owned the chroma before |
| `TokenRules.FreezePermanence` | crates/tx-check/src/service.rs:249-318 | once an output is frozen under a freezable chroma, no later state accepts a transfer spending it with a proof of that chroma |
| `TokenRules.SupplyStep` | crates/tx-check/src/announcements.rs:88-109 | an event changes a supply by the amount it newly issues, wrapping around |
| `TokenRules.SupplyFallsOnOverflow` | crates/tx-check/src/announcements.rs:88-109 | a step lowers a supply exactly when the addition overflows |
| `TokenRules.SupplyIsCredits` | crates/tx-check/src/service.rs:456-520 | in every run the supply is the initial one plus all credits, modulo 2^128 |
| `TokenRules.SupplyNeverFalls` | crates/tx-check/src/service.rs:456-520 | without overflow the supply never falls along a run |
| `TokenRules.TransferTakesOut` | crates/tx-check/src/service.rs:287-318 | a transfer takes an id out of storage exactly when it gets to an output the id froze under another chroma |
| `TokenRules.RunStorage` | crates/tx-check/src/service.rs:235-318 | along a run an id is in storage exactly when an event put it there and none since took it out |
| `TokenRules.CreditedIff` | crates/tx-check/src/service.rs:456-520 | an issuance is credited exactly when its id is not in storage, the owner signs it and the new supply is within the cap |
| `TokenRules.CreditedAgainIff` | crates/tx-check/src/service.rs:456-520 | an issuance of either kind credited once is credited again by a later check, with its amount, exactly when the owner signs it and the cap allows it then, and its id was not put into storage and kept since |
| `TokenRules.CreditedOnce` | crates/tx-check/src/service.rs:235-247 | so a checked issuance, which is stored, adds nothing to any supply again while no transfer takes its id out |
| `TokenRules.AnnouncedCreditsTwice` | crates/tx-check/src/service.rs:341-343 | an announced issuance is not stored by its check: checked twice in a row it is credited twice |
| `TokenRules.FreezeIdCreditsTwice` | crates/tx-check/src/service.rs:287-318 | a run in which the id belongs to a freeze and the issuance is credited twice |
| `TokenVerdicts.VerdictIff` | crates/tx-check/src/service.rs:212-551 | for every kind of transaction, exactly when it is accepted and exactly when its check fails, by signatures, cap, freezes and inputs |
| `TokenVerdicts.TransferVerdict` | crates/tx-check/src/service.rs:249-318 | a transfer is accepted exactly when every proof names an existing input whose output is not frozen for its chroma, and fails exactly when the first that does not names no input |
| `TokenVerdicts.AnnouncementAfter` | crates/tx-check/src/announcements.rs:15-54 | the first accepted announcement of a chroma is stored as given, and nothing else changes one |
| `TokenVerdicts.OwnerAfter` | crates/tx-check/src/announcements.rs:111-133 | an accepted transfer of ownership takes effect, and nothing else changes an owner |
| `TokenVerdicts.FrozenAfter` | crates/tx-check/src/announcements.rs:57-86 | an accepted freeze of an output not frozen is entered as given, and nothing else changes freezes |
| `TokenVerdicts.StoredAfter` | crates/tx-check/src/service.rs:235-318 | what is stored under an id is the transaction just put there, or what was |
| `TokenVerdicts.AnnouncedCap` | crates/tx-check/src/service.rs:356-520 | from its first accepted announcement on, the supply of a chroma stays within the maximum announced |
| `TokenVerdicts.OwnerKept` | crates/tx-check/src/service.rs:526-551 | until handed over again, a chroma belongs to whom it was handed |
| `TokenVerdicts.NewOwnerSigns` | crates/tx-check/src/service.rs:356-551 | and only what that owner signs changes anything about it |
| `TokenVerdicts.FreezeTakesEffect` | crates/tx-check/src/service.rs:249-454 | from an accepted freeze on, a transfer spending the output with that chroma is accepted only when a stored announcement forbids freezing |
| `TxChecker.TxChecker.FindOwner` | crates/tx-check/src/isolated_checks.rs:295-326 | the loop finds a signature of the owner in the first input that has one, or fails on the first unreadable input |
| `TxChecker.TxChecker.AddChromaAnnouncement` | crates/tx-check/src/announcements.rs:15-54 | an announcement is stored once, with the supply and owner known before |
| `TxChecker.TxChecker.PutFreeze` | crates/tx-check/src/announcements.rs:57-86 | a freeze entry is stored once |
| `TxChecker.TxChecker.AddSupply` | crates/tx-check/src/announcements.rs:88-109 | the amount is added to the supply and nothing else changes |
| `TxChecker.TxChecker.PutOwner` | crates/tx-check/src/announcements.rs:111-133 | the owner is replaced and nothing else changes |
| `TxChecker.TxChecker.CheckIssueAnnouncement` | crates/tx-check/src/service.rs:456-520 | known ids pass, then owner and maximum supply decide, then the supply grows |
| `TxChecker.TxChecker.IsOutputFrozen` | crates/tx-check/src/service.rs:287-318 | frozen only under the same freezable chroma; a freeze under another chroma is deleted from storage |
| `TxChecker.TxChecker.CheckTransfer` | crates/tx-check/src/service.rs:249-284 | the loop over the proofs accepts, rejects at a frozen output, or fails at a missing input, and collects the parents neither stored nor checked |
| `TxChecker.TxChecker.CheckTransaction` | crates/tx-check/src/service.rs:212-233 | every kind of transaction gets the verdict and the state change that the run theorems are about |
| `TxChecker.TxChecker.CheckTxsFull` | crates/tx-check/src/service.rs:108-160 | which transactions of a batch are reported as checked and invalid, which parents are asked of which peer, and the state after an error |
| `TxChecker.BatchIsRun` | crates/tx-check/src/service.rs:108-160 | a batch is a run of its checks, so it keeps what runs keep |
| `TxChecker.BatchReportsAll` | crates/tx-check/src/service.rs:108-160 | every transaction of a finished batch is reported according to its verdict in the state reached before it |
| `TokenVerdicts.BatchReportsOnly` | crates/tx-check/src/service.rs:108-160 | and nothing else is reported |
| `TokenVerdicts.BatchFailsIff` | crates/tx-check/src/service.rs:108-160 | a batch fails exactly when the check of one of its transactions does |
| `TokenVerdicts.BatchFailedState` | crates/tx-check/src/service.rs:108-160 | and leaves the state after that check |
| `TxChecker.ParentsKnownOrAsked` | crates/tx-check/src/service.rs:249-284 | every parent of an accepted transfer is stored, checked in the same batch or asked for |
| `TokenVerdicts.MissingIff` | crates/tx-check/src/service.rs:249-284 | exactly which parents of a transfer are missing |
| `TokenVerdicts.RequestsIff` | crates/tx-check/src/service.rs:108-160 | a peer is asked for exactly the missing parents of the transfers it sent |
| `IsolatedChecks.SumAmountByChroma` | crates/tx-check/src/isolated_checks.rs:248-263 | a chroma has an entry exactly when some non-empty proof has a nonzero amount of it, and the entry is their sum modulo 2^128 |
| `IsolatedChecks.SumsAgree` | crates/tx-check/src/isolated_checks.rs:234-246 | the two maps are equal exactly when the same chromas are listed with congruent sums |
| `IsolatedChecks.ConservationIff` | crates/tx-check/src/isolated_checks.rs:234-263 | without overflow that is conservation: the sums of every chroma agree |
| `IsolatedChecks.ConservedIff` | crates/tx-check/src/isolated_checks.rs:234-263 | whatever overflows: sums are conserved exactly when they compare as equal and overflow equally often |
| `IsolatedChecks.OverflowNotConserved` | crates/tx-check/src/isolated_checks.rs:248-263 | with overflow it is not: sums of 2^128 and 2^129 compare as equal |
| `IsolatedChecks.Extract` | crates/tx-check/src/isolated_checks.rs:213-230 | each proof with the item it is mapped to, or an error exactly when one is mapped beyond the items |
| `IsolatedChecks.CheckNumberOfProofs` | crates/tx-check/src/isolated_checks.rs:174-190 | as many proofs as outputs other than OP_RETURN |
| `IsolatedChecks.CheckTransferIsolated` | crates/tx-check/src/isolated_checks.rs:119-172 | no error exactly for a transfer with the right number of proofs, all in range and valid, none burnt, and matching sums |
| `IsolatedChecks.OutputsCovered` | crates/tx-check/src/isolated_checks.rs:119-190 | if no check accepts an OP_RETURN output, the output proofs of a valid transfer sit on exactly the other outputs |
| `IsolatedChecks.TransferMeans` | crates/tx-check/src/isolated_checks.rs:119-172 | a valid transfer proves every input and output it names, spends nothing burnt, and conserves every chroma exactly when sums overflow equally often |
| `IsolatedChecks.CheckIssueAnnouncement` | crates/tx-check/src/isolated_checks.rs:102-117 | no error exactly when the first announcement in the outputs is the provided one |
| `IsolatedChecks.FirstAnnouncedIff` | crates/tx-check/src/isolated_checks.rs:102-117 | the announcement found is the first one in the outputs |
| `IsolatedChecks.CheckSameChroma` | crates/tx-check/src/isolated_checks.rs:266-292 | no error exactly when all non-empty proofs have the announced chroma |
| `IsolatedChecks.CheckIssueIsolated` | crates/tx-check/src/isolated_checks.rs:45-100 | no error exactly for a valid issuance with proofs |
| `IsolatedChecks.IssueBacked` | crates/tx-check/src/isolated_checks.rs:45-100 | the outputs of a valid issuance hold no other chroma, and the announced amount exactly when their sum does not overflow |
| `IsolatedChecks.IssueMeans` | crates/tx-check/src/isolated_checks.rs:45-100 | a valid issuance announces what it issues, in that chroma only, and proves every output it names but OP_RETURN ones |
| `IsolatedChecks.OverflowIssued` | crates/tx-check/src/isolated_checks.rs:87-97 | outputs of 2^128 + 5 pass for an announcement of 5 |
| `Controller.Controller.HandleNewTxs` | crates/controller/src/handler.rs:398-465 | new ids enter the mempool and its list, known announcements are entered again, the rest is skipped, and those entered are sent to the isolated check |
| `Controller.Controller.MarkAll` | crates/controller/src/handler.rs:472-488 | entries get the status in order, up to a missing entry or a failure |
| `Controller.Controller.HandlePartiallyChecked` | crates/controller/src/handler.rs:469-493 | they wait to be mined and go to the confirmator only if all were found |
| `Controller.Controller.HandleReorganization` | crates/controller/src/handler.rs:536-564 | the indexer is sent back, and reorganized transactions wait again and go back to the confirmator |
| `Controller.Controller.HandleMined` | crates/controller/src/handler.rs:603-628 | the entries are marked as mined and the others than announcements enter the inventory |
| `Controller.Controller.HandleConfirmed` | crates/controller/src/handler.rs:568-598 | confirmed transactions go to the full check, announcements first, or none if an entry is missing |
| `Controller.Controller.HandleCheckedAnnouncements` | crates/controller/src/handler.rs:702-735 | announcements are recorded in pages, then leave the mempool and enter storage one after the other |
| `Controller.Controller.HandleFullyChecked` | crates/controller/src/handler.rs:497-533 | announcements are stored, others are marked and go to the graph builder |
| `Controller.Controller.HandleAttached` | crates/controller/src/handler.rs:631-657 | attached entries move from the mempool to storage, up to a missing one, and are then recorded in pages |
| `Controller.Controller.HandleInvalid` | crates/controller/src/handler.rs:263-288 | invalid ids leave the list and the entries |
| `Controller.Controller.HandleMempool` | crates/controller/src/handler.rs:220-258 | after a restart every listed entry is sent to the service its status calls for, and ids without entry leave the list |
| `ControllerLaws.NewTxsSent` | crates/controller/src/handler.rs:398-465 | exactly the unknown transactions are listed, those and known announcements are entered as initialized and sent to the isolated check in order, copies only of announcements |
| `ControllerLaws.MarkedUpTo` | crates/controller/src/handler.rs:472-488 | statuses are set up to the first id without entry, and nothing else changes |
| `ControllerLaws.WaitingSent` | crates/controller/src/handler.rs:469-493 | all entries there, they wait to be mined and are sent to the confirmator; else nothing is sent |
| `ControllerLaws.ReorganizedSent` | crates/controller/src/handler.rs:536-564 | the same after the indexer is sent back |
| `ControllerLaws.MinedShared` | crates/controller/src/handler.rs:603-628 | mined transactions other than announcements are the newest of the inventory |
| `ControllerLaws.ConfirmedSent` | crates/controller/src/handler.rs:568-598 | all entries there, their transactions go to the full check, announcements first, in order; else nothing is sent |
| `ControllerLaws.FullyCheckedMoves` | crates/controller/src/handler.rs:497-533 | announcements leave mempool and list and are stored and paged, the others are marked and go to the graph builder |
| `ControllerLaws.AttachedUpTo` | crates/controller/src/handler.rs:631-643 | up to the first id without entry, exactly the attached transactions go from the mempool to storage |
| `ControllerLaws.AttachedStored` | crates/controller/src/handler.rs:631-657 | handled in full, they are also paged in order and leave the list |
| `ControllerLaws.InvalidForgotten` | crates/controller/src/handler.rs:263-288 | exactly the invalid ids leave list and mempool |
| `ControllerLaws.RestartContinues` | crates/controller/src/handler.rs:220-258 | after a restart each listed entry continues where its status says, in order, and other ids leave the list |
| `ControllerLaws.WithoutPicks` | crates/controller/src/handler.rs:798-802 | clearing the list keeps the others in their order |
| `Pipeline.ControllerSafe` | crates/controller/src/handler.rs:142-196 | every controller handler, complete or cut short, keeps what statuses and messages tell about the checks passed |
| `Pipeline.ControllerRecords` | crates/controller/src/handler.rs:142-196 | every message handler keeps pages full but the last, with ids that passed all checks only, and the inventory within its size, with ids that passed the isolated check only |
| `Pipeline.CheckIsolatedSafe` | crates/tx-check/src/service.rs:165-194 | so does the isolated check |
| `Pipeline.CheckFullSafe` | crates/tx-check/src/service.rs:108-160 | so does the full check, which stores accepted issuances itself |
| `Pipeline.NextSafe` | docs/README.md:69-99 | so does every step of the node, restarts included |
| `Pipeline.RunSafe` | docs/README.md:69-99 | so every run: stored and paged ids passed the full check, those were reported confirmed, those passed the isolated check; pages and inventory keep their form |
| `Pipeline.StoredOnlyAfterChecks` | docs/README.md:69-99 | in every run a stored id has three earlier steps, in this order: it passes the isolated check, is reported confirmed, passes the full check |
| `Pipeline.StoredItself` | docs/README.md:69-99 | when submissions with equal ids are equal, the stored transaction itself passed these checks |
| `Progress.AttachedDelivered` | crates/controller/src/handler.rs:631-657 | in every safe state an attached delivery handled in full stores every id it names with the transaction the mempool had |
| `Progress.GetsThrough` | docs/README.md:69-99 | from every reachable state without pending messages, an unknown transaction that passes the isolated check and that the token rules allow is stored by some continuation |
| `Progress.InvalidRejected` | docs/README.md:69-99 | one that fails the isolated check is forgotten |
| `Progress.RuleBreakerRejected` | docs/README.md:69-99 | and so is one the token rules reject |
| `Pages.PageStorage.constructor` | crates/controller/src/handler.rs:660-671 | no ids recorded |
| `Pages.PageStorage.PutIds` | crates/controller/src/handler.rs:660-699 | the ids are recorded after all before them; all pages but the last stay exactly full and none overfull, exactly when they fit on two pages |
| `Pages.ChunkedPaged` | crates/controller/src/handler.rs:644-650 | recording in chunks of a page keeps pages well formed and records all ids in order |
| `Pages.PageStorage.PutBatch` | crates/controller/src/handler.rs:644-650 | so is a batch of any length, chunk by chunk |
| `Pages.PageStorage.PutBatches` | crates/controller/src/handler.rs:644-714 | over any run of batches the pages read in order are all ids recorded |
| `Pages.PagesUnique` | crates/controller/src/handler.rs:660-699 | the pages depend on the recorded ids only, not on how they came in batches |
| `Pages.TailIsSuffix` | crates/controller/src/handler.rs:777-796 | what the inventory keeps are the newest ids, as many as fit |
| `Pages.Inventory.Update` | crates/controller/src/handler.rs:777-796 | the inventory becomes the last `max_inv_size` of its ids and the new ones |
| `Pages.Inventory.UpdateAll` | crates/controller/src/handler.rs:777-796 | over any run it is the last `max_inv_size` of all ids ever appended |
| `CoinSelection.Retain` | crates/dev-kit/src/yuv_coin_selection.rs:87-90 | the coins of the target chroma off OP_RETURN outputs, in order |
| `CoinSelection.RetainedExactly` | crates/dev-kit/src/yuv_coin_selection.rs:87-90 | each eligible coin is kept as often as it was offered, and no other |
| `CoinSelection.SortByAmount` | crates/dev-kit/src/yuv_coin_selection.rs:95-95 | the same coins, sorted by amount |
| `CoinSelection.SelectSorted` | crates/dev-kit/src/yuv_coin_selection.rs:138-159 | the scan takes required coins and others until the target is reached |
| `CoinSelection.SelectionShape` | crates/dev-kit/src/yuv_coin_selection.rs:138-159 | what the scan takes is all required coins and a prefix of the optional ones, and the amount is their sum modulo 2^128 |
| `CoinSelection.NeededLeast` | crates/dev-kit/src/yuv_coin_selection.rs:144-153 | of the coins needed every shorter prefix misses the target, and they miss it only if they are all |
| `CoinSelection.TakenNeeded` | crates/dev-kit/src/yuv_coin_selection.rs:138-159 | the scan takes exactly the coins needed if either sum stays below 2^128 |
| `CoinSelection.LargestFirst` | crates/dev-kit/src/yuv_coin_selection.rs:94-100 | no choice of as many coins is worth more than the largest ones |
| `CoinSelection.CoinSelect` | crates/dev-kit/src/yuv_coin_selection.rs:76-103 | all required coins and the largest eligible ones; exact sum, target reached whenever it can be and fewest optional coins of any choice, all exactly when the required coins with those needed stay below 2^128 |
| `CoinSelection.AmountExact` | crates/dev-kit/src/yuv_coin_selection.rs:144-158 | the amount is the sum of the selected coins exactly when the required coins with those needed stay below 2^128, and then exactly these are taken |
| `CoinSelection.BestIff` | crates/dev-kit/src/yuv_coin_selection.rs:76-159 | the selection is best exactly then |
| `CoinSelection.OverflowTakesMore` | crates/dev-kit/src/yuv_coin_selection.rs:144-153 | an input whose required coins overflow, so that a coin is taken that was not needed and the amount is wrong |
| `Codec.U32RoundTrip` | crates/types/src/consensus.rs:33-33 | a length is read back modulo 2^32, with the bytes after it |
| `Codec.ListRoundTrip` | crates/types/src/consensus.rs:209-235 | a list comes back, with the bytes after it, exactly when it has fewer than 2^32 elements |
| `Codec.MapRoundTrip` | crates/types/src/consensus.rs:25-62 | a sorted proof map comes back exactly when it has fewer than 2^32 entries |
| `Codec.OptionInner` | crates/types/src/consensus.rs:66-99 | an option comes back as its inner value does |
| `Codec.ProofRoundTrip` | crates/pixels/src/consensus.rs:39-116 | every tagged proof comes back, with the bytes after it |
| `Codec.TxTypeRoundTrip` | crates/types/src/consensus.rs:121-184 | every kind of transaction comes back exactly when its maps fit |
| `Codec.TxRoundTrip` | crates/types/src/consensus.rs:186-207 | so does a transaction |
| `Codec.TxsRoundTrip` | crates/types/src/consensus.rs:209-235 | so does a list of them, exactly when it has fewer than 2^32 |
| `Codec.TxPrefixFree` | crates/types/src/consensus.rs:186-207 | no transaction's bytes start with those of another |
| `Codec.InventoryRoundTrip` | crates/types/src/consensus.rs:238-294 | inventories come back exactly when there are fewer than 2^32 |
| `Layouts.LengthLayout` | crates/types/src/consensus.rs:25-62 | lengths are little-endian |
| `Layouts.MapLayout` | crates/types/src/consensus.rs:25-62 | maps are written in key order |
| `Layouts.ProofLayout` | crates/pixels/src/consensus.rs:39-116 | the flag of each kind of proof |
| `Layouts.TransactionLayout` | crates/types/src/consensus.rs:186-207 | Bitcoin transaction, kind, parts |
| `Layouts.FlagLayout` | crates/types/src/consensus.rs:66-99 | the flags of options and inventories |
| `Layouts.UnknownFlags` | crates/types/src/consensus.rs:153-184 | flags of no kind are refused, whatever follows |
| `Codec.Writer.PutMap` | crates/types/src/consensus.rs:30-40 | the loop writes the entries in key order and returns the number of bytes written |
| `Codec.Writer.PutTxType` | crates/types/src/consensus.rs:121-151 | the bytes of each kind and their number |
| `Codec.Writer.PutTx` | crates/types/src/consensus.rs:186-195 | the bytes of a transaction and their number |
| `Codec.Writer.PutTxs` | crates/types/src/consensus.rs:211-223 | the bytes of a list and their number |
| `Codec.Reader.TakeMap` | crates/types/src/consensus.rs:48-61 | the loop inserts the entries read and leaves the reader after them |
| `Codec.Reader.TakeTxType` | crates/types/src/consensus.rs:153-184 | what each kind decodes to, and errors on unknown kinds and short input |
| `Codec.Reader.TakeTx` | crates/types/src/consensus.rs:197-207 | the same for a transaction |
| `Codec.Reader.TakeTxs` | crates/types/src/consensus.rs:225-235 | the same for a list |
| `PixelBytes.LumaToBytes` | crates/pixels/src/pixel.rs:104-112 | the filled buffer is the big-endian amount and the blinding factor |
| `PixelBytes.PixelToBytes` | crates/pixels/src/pixel.rs:256-263 | the filled buffer is the luma followed by the chroma |
| `PixelBytes.LumaRoundTrip` | crates/pixels/src/pixel.rs:86-112 | a luma comes back from its bytes, and any 32 bytes from their luma |
| `PixelBytes.PixelRoundTrip` | crates/pixels/src/pixel.rs:256-274 | a pixel comes back from its 64 bytes, whatever follows, exactly when its chroma is a key |
| `PixelBytes.PixelUnique` | crates/pixels/src/pixel.rs:256-274 | whatever parses is the layout of what it parses to |
| `Layouts.PixelLayout` | crates/pixels/src/pixel.rs:256-274 | amount, blinding factor, chroma |
| `Layouts.BigEndianLayout` | crates/pixels/src/pixel.rs:104-112 | the first byte of an amount weighs most |
| `WalletSync.Session.constructor` | crates/bdk/src/blockchain/script_sync.rs:29-50 | the first request asks for the scripts of either keychain |
| `WalletSync.Session.NoteAnswer` | crates/bdk/src/blockchain/script_sync.rs:86-114 | every reported transaction is needed, misses its time, or is finished, by what the database knows of it |
| `WalletSync.Session.TakeAnswers` | crates/bdk/src/blockchain/script_sync.rs:73-117 | the loop notes all answers and remembers the last active script |
| `WalletSync.Session.Conclude` | crates/bdk/src/blockchain/script_sync.rs:121-184 | asks for the remaining scripts, gives up when too few followed the last active one, or leaves the keychain |
| `WalletSync.Session.SatisfyScripts` | crates/bdk/src/blockchain/script_sync.rs:68-184 | panics exactly on too many answers; otherwise the session holds what its exchanges amount to, and every keychain left was left properly by the answers for it |
| `WalletSync.Session.SatisfyTxs` | crates/bdk/src/blockchain/script_sync.rs:197-279 | answered ids move from needed to missing a time, a wrong transaction panics, and the phase ends when none is needed |
| `WalletSync.Session.SatisfyTimes` | crates/bdk/src/blockchain/script_sync.rs:291-314 | answered ids become finished, and the sync finishes when none is missing |
| `WalletSync.TimedExactly` | crates/bdk/src/blockchain/script_sync.rs:291-307 | each transaction is finished with the time given for it |
| `WalletHeights.NoteExactly` | crates/bdk/src/blockchain/script_sync.rs:86-114 | a listed transaction is finished with the listed height exactly when the database knows it and a listed height is the one it has; otherwise it waits for details or its time |
| `WalletHeights.SyncedHeights` | crates/bdk/src/blockchain/script_sync.rs:68-314 | of every sync: finished are exactly the listed transactions the database agrees with, at the height listed, and those given a time, with that time; once nothing waits all others were given one |
| `WalletSync.Advance` | crates/bdk/src/blockchain/script_sync.rs:68-314 | each request and answer is recorded as the server gave it and leaves less to ask |
| `WalletSync.Synchronize` | crates/bdk/src/blockchain/script_sync.rs:29-314 | for any orderly server the sync ends finished or with missing cached scripts; its requests ask for what is left, its answers are the server's and what it found is what they amount to; when finished, exactly the ids ever listed are finished, and each derivable keychain was asked in full with none active or at least `stop_gap` inactive at its end |
| `KeyOrder.EntriesRebuild` | crates/types/src/consensus.rs:25-62 | inserting the entries of a map in key order rebuilds it |

## Left out

- RangeProofs.RangeCompleteness: stated for sizes 2^k with k at least 1, because the powers vector of the source never has fewer than two entries; the source uses 128.
- Soundness and zero knowledge of the range proof, the random weight of batch verification, hashing, Merlin and curve encodings.
- Folding of sizes that are not powers of two, and proofs with a wrong number of rounds.
- The checks of single proofs by kind, signatures and script parsing; they are parameters.
- Conservation checks on hidden amounts (the bulletproof feature of the checker).
- Peer banning, and sharing the inventory with peers.
- Storage failures between two writes of the same round of a handler or between the pages of one batch, and handlers of different services interleaving inside a round.
- Indexer and confirmator racing on a block fed before the reorganization message arrives; their composition is synchronous.
- Dropping transactions that wait too long for confirmation.
- Initial indexing of old blocks.
- The clock is read once per call of the graph builder, and storage does not change during a call.
- Codecs of announcements, proof bodies and Bitcoin transactions; they are parameters. Errors of the writer.
- Amounts, fees and consistency of the transactions a wallet sync finishes, and its database update.
- The oldest-first coin selection, which takes coins in the order given.
- RPC, P2P, command-line and storage crates, which are I/O and thin wrappers.
