# NAOME Memory core: a verified model

This project models the deterministic core of NAOME Memory and proves what its documentation and
tests promise of it, for all inputs. Time, seed and policy are explicit inputs of every operation;
nothing here performs I/O.

The parts, from the bottom up:

- **Canonical encoding** (`Canonical`, `CanonicalWriter`, `CanonicalSize`, `ModelValues`, `Digests`,
  `BodyIdentity`). Records become value trees; a tree is written as tagged, length-framed bytes with
  object entries in key order. The encoding is injective, independent of visiting order, and its
  length is an additive size model. The bytes of an atom determine every field of its body.
- **Episode chaining** (`Episodes`, `EpisodeSizes`, `RouteChoices`, `EpisodePlan`, `EpisodeSeal`,
  `EpisodeChains`, `EpisodeRecords`). An event stream is cut into the fewest atoms under a byte target
  by a dynamic program over a bottom-up segment tree. The plan is the unique best one, the run-time
  size checks cannot fail, and sealing loses nothing.
- **Lottery** (`Lottery`, `Fairness`). Rejection sampling and a partial Fisher-Yates shuffle over an
  arbitrary stream of 64-bit draws: exact counting, an exact bijection, and the link from a stream to
  the accepted draws that are counted.
- **Retirement planning** (`Cohort`, `Similarity`, `Clustering`, `Consensus`, `Consolidation`,
  `SemanticSelection`, `EpisodicDraw`, `Retirement`, with the proofs in `AdmittedCohorts`,
  `AtomIdentity`, `GreedyBudgets`, `SemanticSizes`, `PlanOutcomes` and `PlanConservation`). A cohort
  is admitted, clustered, consolidated under budgets, drawn from and projected. The failure set is
  exact and the order of the snapshot never matters.
- **Plan checking and receipts** (`PlanStructure`, `PlanAcceptance`, `PlanSoundness`, `Receipts`).
  The independent structural check accepts every plan the planner returns and guarantees the
  budgets of any plan it accepts; exactly one receipt is accepted per planned retirement.
- **Retrieval and metrics** (`Retrieval`, `RankingGuarantees`, `Metrics`, `Bootstrap`). Exact top-k
  with a disjoint flashback channel, NDCG that cannot exceed one, and a bootstrap bound that is an
  order statistic inside the observed range.

How the model reads:

- A loop of the source is a method, proved equal to a specification function; the promised
  properties are lemmas about that function. In-place structures are classes over arrays or
  buffers (`RouteTree`, `ByteBuffer`, `Generator`, `Repository`).
- Strings are byte sequences in byte order. Ordered sets and maps are strictly sorted sequences.
  Machine integers are bounded integers with saturation and checked addition written out; `usize`
  is 64 bits wide. Library sorts and binary searches are functions; a sort is unique wherever its
  keys do not repeat, which is proved at each use that needs it.
- SHA-256 is an arbitrary function from a prefix and a payload to a digest. Where distinct bytes
  have to give distinct addresses, the absence of a collision is a hypothesis on the finite set of
  byte strings hashed (`NoCollisions`). Random streams are arbitrary; `Live` and `LiveBelow` say
  that some later draw is accepted, without which the rejection loops would not end.

Two places where the code and its description differ, modelled as the code is:

- A consolidated body above the hard limit makes the whole plan fail, because the complete
  validation of the body comes first. The disposition `SkippedAtomHardLimit`, which
  docs/specs/policy-v1.md:47 lists, therefore never appears in a plan
  (`PlanOutcomes.DispositionsOfPlans`). A plan exists exactly when every qualifying body fits and
  the drawn packages fit (`PlanOutcomes.PlanOrderedOutcome`), and the failing branch is real: each
  source costs exactly 468 bytes of a body (`SemanticSizes.SemanticSizeIsAdditive`), so a qualifying
  cluster of 560 members or more never gets a plan (`SemanticSizes.LargeClustersFail`). On the
  snapshot alone: neither do 560 or more admitted atoms that are pairwise similar, vivid, open to
  consolidation and not all from one session (`SemanticSizes.UniformCohortsFail`).
- With so many observations that their sum saturates 64 bits, the bootstrap bound leaves the
  observed range. It stays inside exactly when neither end of the range, taken that many times,
  forces a sum out of 64 bits (`Bootstrap.BootstrapIsBetween`); fewer than 9.2 * 10^12 observations
  always satisfy this (`Bootstrap.ShortInputsFit`).

## Model

| member | source | states |
|---|---|---|
| CanonicalWriter.ByteBuffer.WriteFrame | crates/naome-memory-core/src/canonical.rs:31-37 | a frame is the 64-bit big-endian length and then the payload; on failure nothing is written |
| CanonicalWriter.WriteValue | crates/naome-memory-core/src/canonical.rs:39-90 | the recursive writer appends exactly the encoding of the value, and fails exactly when there is none |
| CanonicalWriter.WriteArray | crates/naome-memory-core/src/canonical.rs:61-72 | arrays: tag, count, then every item framed in order |
| CanonicalWriter.WriteObject | crates/naome-memory-core/src/canonical.rs:73-88 | objects: tag, count, then framed key and framed value of each entry in key order |
| CanonicalWriter.CanonicalBinary | crates/naome-memory-core/src/canonical.rs:23-29 | the finished bytes, or an encoding error |
| Canonical.EncodingIsInjective | crates/naome-memory-core/src/canonical.rs:39-90 | equal bytes imply equal values, for all trees without floats or oversize integers |
| Canonical.EncodingForgetsOrder | crates/naome-memory-core/src/canonical.rs:73-88 | the order in which object entries are visited does not change the bytes |
| Canonical.SameBytesIffSameTree | crates/naome-memory-core/src/canonical.rs:23-90 | bytes are equal if and only if the values are, with visiting order forgotten |
| CanonicalSize.SizeIsExact | crates/naome-memory-core/src/canonical.rs:31-90 | an encoding has exactly the modelled additive size |
| CanonicalSize.EncodedSizeIsModel | crates/naome-memory-core/src/model.rs:293-297 | the reported size is the modelled one, and reporting fails exactly when it does not fit 64 bits |
| Digests.HexInjective | crates/naome-memory-core/src/canonical.rs:110-118 | distinct digests print differently, always with 64 characters |
| Digests.HexRoundTrip | crates/naome-memory-core/src/canonical.rs:110-159 | parsing the printed form gives the digest bytes back |
| Digests.HexIsStrict | crates/naome-memory-core/src/canonical.rs:139-159 | text that parses is the printed form of what it parses to |
| Digests.SortDedup | crates/naome-memory-core/src/model.rs:299-309 | sorting and deduplicating gives the strictly increasing list of the same digests |
| Fixed.Ratio | crates/naome-memory-core/src/fixed.rs:41-50 | the ratio is the floor in millionths, one from equality on |
| Fixed.ProductIsFloor | crates/naome-memory-core/src/fixed.rs:52-62 | a fixed-point product is the floor of the exact product in millionths, and the only number that is |
| Fixed.Mean | crates/naome-memory-core/src/fixed.rs:68-83 | the one-pass loop computes the rounded mean |
| Fixed.MeanWithinBounds | crates/naome-memory-core/src/fixed.rs:68-83 | a rounded mean lies within any bounds on its values |
| Fixed.CeilCount | crates/naome-memory-core/src/fixed.rs:85-90 | the least count whose share reaches the rate, at most the population |
| Validation.CheckArtifacts | crates/naome-memory-core/src/validation.rs:277-314 | the loop over a growing digest set accepts exactly the artifacts the specification does |
| Validation.ArtifactsPassIff | crates/naome-memory-core/src/validation.rs:277-314 | artifacts pass if and only if their digests are distinct and each passes by itself |
| Validation.ValidBodyIsAddressed | crates/naome-memory-core/src/validation.rs:10-113 | a valid body has an address and its modelled size, within the hard limit |
| Validation.ValidSourcesIncrease | crates/naome-memory-core/src/validation.rs:167-256 | a valid semantic body has enough sources in strictly increasing order |
| RouteChoices.RouteTree.constructor | crates/naome-memory-core/src/seal.rs:293-299 | a fresh tree stores nothing |
| RouteChoices.RouteTree.Insert | crates/naome-memory-core/src/seal.rs:301-311 | writing a leaf and recomputing its ancestors keeps the tree valid and adds exactly that entry |
| RouteChoices.RouteTree.BestIn | crates/naome-memory-core/src/seal.rs:313-330 | the two-cursor query returns the best stored choice of any half-open range: fewest segments, then greatest end |
| EpisodePlan.WindowIsExact | crates/naome-memory-core/src/seal.rs:357-384 | the window found by the two binary searches holds exactly the possible ends of a segment |
| EpisodePlan.FillTable | crates/naome-memory-core/src/seal.rs:350-394 | the reverse loop solves every row: fewest segments from each boundary, next boundary as far as possible |
| EpisodePlan.PlanEpisodeRanges | crates/naome-memory-core/src/seal.rs:341-414 | planning succeeds if and only if a feasible partition exists, and returns the best one |
| EpisodePlan.TableRouteIsBest | crates/naome-memory-core/src/seal.rs:396-413 | following the table covers every event in feasible segments, no partition is shorter, and among the shortest the ends are lexicographically greatest |
| EpisodePlan.BestRouteIsUnique | crates/naome-memory-core/src/seal.rs:99-102 | there is at most one best partition |
| EpisodePlan.BestRouteExists | crates/naome-memory-core/src/seal.rs:99-102 | whenever any partition is feasible a best one exists |
| Episodes.Prepare | crates/naome-memory-core/src/seal.rs:175-251 | the loop computes the digests and the two prefix sums, or the first error |
| EpisodeSizes.PreparedSums | crates/naome-memory-core/src/seal.rs:175-251 | every prefix sum is the size of that prefix of events, and every count its number of substantive events |
| EpisodeSizes.PreparedDigests | crates/naome-memory-core/src/seal.rs:182-183 | each prepared digest is the digest of its event |
| EpisodeSizes.RangeBytes | crates/naome-memory-core/src/seal.rs:253-271 | the prefix-sum difference of a range is the size of its events, and never underflows |
| EpisodeSizes.BodySizeIsAdditive | crates/naome-memory-core/src/seal.rs:503-593 | the canonical size of a body over any events is a base plus the size of the events; the base depends only on the request and on whether a predecessor is named |
| EpisodeChains.BaseBytes | crates/naome-memory-core/src/seal.rs:425-447 | the base measured from a one-event probe is the base every body of the chain has |
| EpisodeChains.ChecksNeverFire | crates/naome-memory-core/src/seal.rs:132-153 | for every planned range the drift check and the target check in the chain loop cannot fail |
| EpisodeSeal.SealInOrder | crates/naome-memory-core/src/seal.rs:129-156 | the chain loop equals its specification, each atom continuing the one before |
| EpisodeSeal.CheckChainClosure | crates/naome-memory-core/src/seal.rs:604-667 | the closure loop accepts exactly the chains the specification does |
| EpisodeSeal.SealEpisodeChain | crates/naome-memory-core/src/seal.rs:103-165 | the whole operation, with every early return, equals its specification |
| EpisodeChains.RouteSeals | crates/naome-memory-core/src/seal.rs:129-156 | sealing a planned route gives an error exactly when the validator refuses with it the first segment it cannot seal, under the predecessor that segment gets; otherwise one closing atom per segment |
| EpisodeChains.ClosureIsLossless | crates/naome-memory-core/src/seal.rs:604-667 | a closed chain concatenates to the source digests in order, each atom is its own address, fits the target and names its predecessor |
| EpisodeChains.ChainSealing | crates/naome-memory-core/src/seal.rs:99-165 | a chain fails with an error exactly when no partition is feasible, or the validator refuses with it a segment of the best route under its predecessor; a sealed chain is lossless, linked, and no feasible chain is shorter |
| EpisodeRecords.ChainKeepsRecords | crates/naome-memory-core/src/seal.rs:503-593 | concatenated over a sealed chain, observations, interpretations, beliefs, decisions and actions are exactly the stream's in order, and every atom carries the shared metadata |
| EpisodeChains.OneAtomIffChainOfOne | crates/naome-memory-core/src/seal.rs:73-165 | sealing one episode succeeds exactly when the chain has one, with the same atom |
| Lottery.Generator.UniformBelow | crates/naome-memory-core/src/retirement.rs:1138-1150 | draws until one is accepted and reduces it; bounds 0 and 1 draw nothing; the result is below the bound |
| Lottery.RunPartialFisherYates | crates/naome-memory-core/src/retirement.rs:1119-1136 | the in-place swaps produce the selection that the drawn offsets determine |
| Lottery.SelectionIsOrdered | crates/naome-memory-core/src/retirement.rs:1119-1136 | the first slots hold distinct positions below the population |
| Lottery.OffsetsProduceSelection | crates/naome-memory-core/src/retirement.rs:1123-1133 | every ordered selection of distinct positions arises from some offsets |
| Lottery.SelectionDeterminesOffsets | crates/naome-memory-core/src/retirement.rs:1123-1133 | the offsets can be recovered from the selection they produce |
| Lottery.SelectionIsBijective | crates/naome-memory-core/src/retirement.rs:1119-1136 | valid offsets and ordered selections correspond one to one |
| Fairness.UniformBelowIsBalanced | crates/naome-memory-core/src/retirement.rs:1138-1150 | the accepted draws hit every residue exactly (2^64 - threshold) / bound times, with threshold 2^64 mod bound |
| Fairness.BoundedIndexIsBalanced | crates/naome-memory-lab/src/metrics.rs:149-158 | the same exact balance for the acceptance limit of the index sampler |
| Fairness.LotteryIsFair | crates/naome-memory-core/src/retirement.rs:1117-1150 | every ordered selection comes from exactly the same number of accepted draw vectors |
| Fairness.StreamGivesAcceptedVector | crates/naome-memory-core/src/retirement.rs:1119-1150 | the draws that the shuffle accepts from a stream form an accepted vector, and reduce to the offsets it swaps by |
| Fairness.StreamLeadsToSelection | crates/naome-memory-core/src/retirement.rs:1119-1150 | the selection on a stream is the one that its own accepted vector leads to |
| Cohort.ValidateCandidates | crates/naome-memory-core/src/retirement.rs:618-722 | the loop with its remembered predecessor equals the specification, error by error |
| Cohort.AdmittedAreOrdered | crates/naome-memory-core/src/retirement.rs:244-246 | admitted candidates have strictly increasing addresses and each passes by itself |
| Cohort.PermittedAreExact | crates/naome-memory-core/src/retirement.rs:251-258 | filtering by permission yields exactly the permitted indices, increasing |
| AdmittedCohorts.CandidateIsSound | crates/naome-memory-core/src/retirement.rs:618-722 | an admitted episode is valid, addressed by its id, recorded before the cohort closed, and within the package limit if it may be kept |
| Similarity.JaccardIsFloor | crates/naome-memory-core/src/retirement.rs:789-798 | the overlap of two key sets is the floor of shared over all keys in millionths, and zero when there are no keys |
| Similarity.SimilaritySymmetric | crates/naome-memory-core/src/retirement.rs:765-787 | similarity does not depend on which body comes first |
| Similarity.EachWeightCounts | crates/naome-memory-core/src/retirement.rs:765-787 | shared topics, shared entities and a shared non-empty outcome each bring exactly their own weight |
| Similarity.SimilarityNeverCaps | crates/naome-memory-core/src/retirement.rs:765-787 | the weights add up to one, so for any two bodies the similarity is the plain sum of the weighted overlaps and the weighted agreement of known outcomes |
| Similarity.MeasureCohesion | crates/naome-memory-core/src/retirement.rs:830-837 | the nested loops over the shrinking tail compute the least similarity of any pair |
| Similarity.CohesionAtLeast | crates/naome-memory-core/src/retirement.rs:830-837 | cohesion reaches a bound if and only if every pair does |
| Clustering.CompleteLinkClusters | crates/naome-memory-core/src/retirement.rs:731-763 | the search-and-push loops equal first-fit placement |
| Clustering.CompleteLinkIsClustering | crates/naome-memory-core/src/retirement.rs:731-763 | the clusters partition the indices, are pairwise linked, and every member was kept out of each earlier cluster by an earlier member |
| Clustering.NothingToMerge | crates/naome-memory-core/src/retirement.rs:731-763 | no two clusters could be merged |
| Clustering.ClusteringIsUnique | crates/naome-memory-core/src/retirement.rs:731-763 | those conditions hold of the computed clustering and of no other |
| AdmittedCohorts.ClustersCohere | crates/naome-memory-core/src/retirement.rs:731-837 | the cohesion that scores a planned cluster is at least the clustering threshold |
| Consensus.CountBySource | crates/naome-memory-core/src/retirement.rs:1054-1075 | the nested counting loops build the count map of all values |
| Consensus.CountValues | crates/naome-memory-core/src/retirement.rs:1033-1036 | the counting loop bumps an ordered map once per value |
| Consensus.TallyIsExact | crates/naome-memory-core/src/retirement.rs:1029-1052 | the count map says exactly how often each value occurs, in key order |
| Consensus.RequiredIsMajority | crates/naome-memory-core/src/retirement.rs:1023-1027 | two thirds rounded up is more than half, and at most all |
| Consensus.OptionalIsUnique | crates/naome-memory-core/src/retirement.rs:1029-1040 | the result is a value if and only if enough sources state it, so map order never decides |
| Consensus.BodyStringsAreExact | crates/naome-memory-core/src/retirement.rs:1054-1075 | a string is kept if and only if enough distinct sources contain it, however often each does |
| Consensus.SetIsExact | crates/naome-memory-core/src/retirement.rs:1077-1082 | a key is kept if and only if enough sources carry it |
| Consensus.MapIsExact | crates/naome-memory-core/src/retirement.rs:1084-1105 | a pair is kept if and only if enough sources hold it, and no key is kept with two values |
| Consolidation.ScoreCluster | crates/naome-memory-core/src/retirement.rs:800-877 | the scoring loops equal the score's specification |
| Consolidation.TotalNeverCaps | crates/naome-memory-core/src/retirement.rs:838-866 | the positive weights add up to one, so the cap never fires and the total is the weighted sum less weighted uncertainty |
| Consolidation.EachWeightBinds | crates/naome-memory-core/src/retirement.rs:838-866 | whatever the other components are, each one adds exactly the floor of its own weighted value |
| Consolidation.UncertaintyCounts | crates/naome-memory-core/src/retirement.rs:855-866 | the total takes away exactly the floor of the weighted uncertainty, down to zero and up to one |
| Consolidation.ConsolidatedBodyIsStructured | crates/naome-memory-core/src/retirement.rs:879-1021 | a consolidated body passes every validation rule except possibly the size limit |
| Consolidation.OptionalFieldsAgree | crates/naome-memory-core/src/retirement.rs:908-937 | each optional field of a consolidated body is the value two thirds of its sources state, and absent when there is none |
| Consolidation.CollectionsAgree | crates/naome-memory-core/src/retirement.rs:938-950 | plan, keys and internal states of a consolidated body hold exactly what two thirds of its sources hold |
| AdmittedCohorts.BuildIsClusterBody | crates/naome-memory-core/src/retirement.rs:879-1021 | building never fails on admitted candidates, and lists the cluster's ids as sources in order |
| AdmittedCohorts.ConsiderOutcome | crates/naome-memory-core/src/retirement.rs:259-296 | a cluster fails planning exactly when it qualifies and its body exceeds the hard limit; otherwise it yields its body under its own address and size |
| AtomIdentity.BytesDetermineSources | crates/naome-memory-core/src/model.rs:282-284 | semantic bodies with the same canonical bytes consolidate the same sources |
| BodyIdentity.BytesDetermineBody | crates/naome-memory-core/src/model.rs:282-297 | bodies with the same canonical bytes are the same body, in every field |
| BodyIdentity.AddressDeterminesBody | crates/naome-memory-core/src/model.rs:282-284 | where the hash separates two encodings, atoms at one address have one body |
| SemanticSelection.CollectSemanticCandidates | crates/naome-memory-core/src/retirement.rs:259-296 | the loop over clusters with its skips and early returns equals its specification |
| SemanticSelection.SelectGreedily | crates/naome-memory-core/src/retirement.rs:311-340 | the selection loop with its byte counter equals its specification |
| GreedyBudgets.SelectionExplained | crates/naome-memory-core/src/retirement.rs:311-340 | selection never fails; its dispositions follow one prefix rule, both budgets hold, and its byte total is the sum of the selected sizes |
| GreedyBudgets.RuleDeterminesDispositions | crates/naome-memory-core/src/retirement.rs:464-493 | the rule leaves no freedom: the same candidates get the same dispositions |
| GreedyBudgets.NothingSkippedFits | crates/naome-memory-core/src/retirement.rs:464-493 | no skipped candidate would fit on top of the final selection |
| GreedyBudgets.SmallCohortsFit | crates/naome-memory-core/src/policy.rs:81-83 | up to 1,600 atoms the byte budget excludes nothing |
| GreedyBudgets.LargerCohortsMayNotFit | crates/naome-memory-core/src/policy.rs:81-83 | the bound is sharp: for every larger cohort, when the first 33 candidates have the greatest size, the selection skips the 33rd for its bytes |
| EpisodicDraw.RunDraw | crates/naome-memory-core/src/retirement.rs:341-384 | the draw with its checked byte sum and pin budget equals its specification |
| Retirement.IndexSources | crates/naome-memory-core/src/retirement.rs:387-401 | the map from source to semantic addresses answers for every id |
| Retirement.MakeDecisions | crates/naome-memory-core/src/retirement.rs:403-430 | one decision per candidate, each taking its entry out of the map |
| Retirement.RunPlanRetirement | crates/naome-memory-core/src/retirement.rs:212-462 | the whole planner, with every early return, equals its specification |
| PlanOutcomes.PlanForgetsOrder | crates/naome-memory-core/src/retirement.rs:159-462 | permuting an admitted snapshot gives the identical result |
| PlanOutcomes.DrawOutcome | crates/naome-memory-core/src/retirement.rs:365-384 | the draw fails exactly when the drawn packages exceed the pin budget, which takes more than 800 eligible atoms |
| PlanOutcomes.PlanOrderedOutcome | crates/naome-memory-core/src/retirement.rs:247-462 | after admission a plan exists if and only if every qualifying body fits the hard limit and the drawn packages fit the pin budget |
| PlanOutcomes.PlanningFailsOnlyOn | crates/naome-memory-core/src/retirement.rs:212-462 | the same failure set in terms of the snapshot, with the exact error of each case |
| PlanOutcomes.DispositionsOfPlans | crates/naome-memory-core/src/retirement.rs:274-340 | a plan never holds a body over the hard limit, and small cohorts never run out of bytes |
| SemanticSizes.SemanticSizeIsAdditive | crates/naome-memory-core/src/retirement.rs:951-1021 | the size of a body that consolidates sources is that of the body without them, plus 468 bytes for each |
| SemanticSizes.ClusterSizeIsAdditive | crates/naome-memory-core/src/retirement.rs:879-1021 | the size of the consolidated body of a cluster grows by 468 bytes with each member |
| SemanticSizes.LargeClustersAreOversize | crates/naome-memory-core/src/retirement.rs:259-296 | the body of 560 members or more is over the hard limit, whatever they agree on |
| SemanticSizes.LargeClustersFail | crates/naome-memory-core/src/retirement.rs:259-296 | an admitted snapshot with a qualifying cluster of 560 members or more gets no plan |
| SemanticSizes.UniformCohortsFail | crates/naome-memory-core/src/retirement.rs:212-296 | 560 or more admitted atoms that are pairwise similar, vivid, open to consolidation and not all from one session get no plan, a condition on the snapshot alone |
| PlanConservation.PlansConserve | crates/naome-memory-core/src/retirement.rs:387-616 | every candidate is decided and projected exactly once: kept exactly if and only if it won, linked to exactly the semantic atoms made from it, with scope, time, permission and counters unchanged |
| PlanStructure.EnsureSemanticAtoms | crates/naome-memory-core/src/receipt.rs:495-518 | the loop over a growing id set equals its specification |
| PlanStructure.EnsureSemanticEvidence | crates/naome-memory-core/src/receipt.rs:520-606 | the replay with its three counters equals its specification, and count and position never part |
| PlanAcceptance.AddressesDiffer | crates/naome-memory-core/src/receipt.rs:527-533 | different clusters yield different addresses, unless their bytes collide |
| PlanAcceptance.ReplayAccepts | crates/naome-memory-core/src/receipt.rs:555-631 | adding before testing agrees with testing before adding on everything the planner decides |
| PlanAcceptance.EvidenceAccepted | crates/naome-memory-core/src/receipt.rs:520-606 | the semantic evidence of every planned selection is accepted |
| PlanAcceptance.DrawIsSound | crates/naome-memory-core/src/receipt.rs:353-397 | winners are strictly ordered, as many as the budget, and may all be kept exactly |
| PlanAcceptance.PostStateAccepted | crates/naome-memory-core/src/receipt.rs:402-482 | the projected state of every plan closes, field by field |
| PlanAcceptance.PlansAreAccepted | crates/naome-memory-core/src/receipt.rs:327-400 | the independent check accepts every plan the planner returns |
| PlanSoundness.ReplayIsRule | crates/naome-memory-core/src/receipt.rs:555-631 | the replay accepts exactly the decisions that follow the budget rule and pair with the atoms |
| PlanSoundness.AcceptedPlansAreSound | crates/naome-memory-core/src/receipt.rs:327-400 | any accepted plan follows the budget rule, respects its budgets and totals, has distinct content addresses, skips nothing that would fit, and keeps exactly its ordered winners, as many as the population share allows |
| Receipts.NormalizeArtifacts | crates/naome-memory-core/src/receipt.rs:644-652 | every list is sorted and deduplicated in place |
| Receipts.ApplyRetirement | crates/naome-memory-core/src/receipt.rs:183-243 | the repository sees the plan exactly when its structure is accepted, and the receipt is issued exactly on a closing outcome |
| Receipts.OneReceipt | crates/naome-memory-core/src/receipt.rs:262-325 | for an accepted plan exactly one receipt passes the field checks |
| Receipts.AcceptedIff | crates/naome-memory-core/src/receipt.rs:262-325 | a receipt is accepted if and only if planning again succeeds, the observations close, and it is the issued one in every field |
| Receipts.ReceiptsAreUnique | crates/naome-memory-core/src/receipt.rs:262-325 | any two accepted receipts for the same inputs are equal in every field |
| Receipts.IssuedReceiptsVerify | crates/naome-memory-core/src/receipt.rs:183-325 | a receipt issued for a planned retirement is accepted by a verifier who observes the same outcome |
| Receipts.HonestOutcomeCloses | crates/naome-memory-core/src/receipt.rs:189-210 | the outcome that does exactly what the plan says passes every closure check |
| Receipts.VerificationForgetsOrder | crates/naome-memory-core/src/receipt.rs:262-325 | verification does not depend on the order of the snapshot |
| Retrieval.ValidateUnique | crates/naome-memory-core/src/retrieval.rs:265-275 | the loop over a growing id set equals its specification |
| Retrieval.ScoreRanked | crates/naome-memory-core/src/retrieval.rs:138-175 | the loop validates every candidate before looking at scope, and scores the visible ones in order |
| Retrieval.RunRankRetrieval | crates/naome-memory-core/src/retrieval.rs:102-254 | the whole operation, with every early return, equals its specification |
| RankingGuarantees.UniqueIff | crates/naome-memory-core/src/retrieval.rs:265-275 | uniqueness passes if and only if all ids differ |
| RankingGuarantees.HitsAreTopK | crates/naome-memory-core/src/retrieval.rs:176-192 | hits are exactly the k best eligible candidates in strict order of score and id |
| RankingGuarantees.RecallIsSound | crates/naome-memory-core/src/retrieval.rs:195-244 | recalled hits are distinct pool members, as many as budget and pool allow, none excluded |
| RankingGuarantees.RetrievalIsExact | crates/naome-memory-core/src/retrieval.rs:102-254 | on success both channels are exact and disjoint |
| RankingGuarantees.RetrievalForgetsOrder | crates/naome-memory-core/src/retrieval.rs:102-254 | candidate order does not change the result |
| RankingGuarantees.HiddenCandidatesDoNotMatter | crates/naome-memory-core/src/retrieval.rs:141-145 | deleting every out-of-scope or incomplete candidate leaves the whole result unchanged |
| RankingGuarantees.RankTotalNeverCaps | crates/naome-memory-core/src/retrieval.rs:154-161 | the ranking weights add up to one, so the cap never fires |
| Metrics.ActualAtMostIdeal | crates/naome-memory-lab/src/metrics.rs:80-108 | discounted gain of judged grades never exceeds the ideal gain |
| Metrics.NdcgIsExact | crates/naome-memory-lab/src/metrics.rs:80-112 | the clamp never fires, and the full score is reached if and only if actual equals ideal |
| Metrics.UnjudgedGradesClamp | crates/naome-memory-lab/src/metrics.rs:67-74 | without complete judgments the clamp does fire |
| Bootstrap.BoundedIndex | crates/naome-memory-lab/src/metrics.rs:149-158 | draws until one is below the acceptance limit; the index is below its bound |
| Bootstrap.RunBootstrap | crates/naome-memory-lab/src/metrics.rs:119-147 | the nested sampling loops and the final order statistic equal their specification |
| Bootstrap.BoundInRange | crates/naome-memory-lab/src/metrics.rs:32-47 | the bound always passes the range check of its type, even when sums saturate |
| Bootstrap.BootstrapIsBetween | crates/naome-memory-lab/src/metrics.rs:119-147 | the bound lies between given bounds on the observations if and only if neither, taken once per observation, forces the sum out of 64 bits |
| Bootstrap.ShortInputsFit | crates/naome-memory-lab/src/metrics.rs:126-132 | below 9.2 * 10^12 observations no bounds within the type's range force a sum out of 64 bits |
| Bootstrap.SaturationBreaksBound | crates/naome-memory-lab/src/metrics.rs:126-132 | for every length whose sums can saturate, some observations push the bound outside |
| Bootstrap.PercentileNeverCaps | crates/naome-memory-lab/src/metrics.rs:142-146 | the rank is that of the lower 2.5th percentile and needs no cap |
| Bootstrap.BootstrapIsOrderStatistic | crates/naome-memory-lab/src/metrics.rs:141-146 | the bound sits at that rank among the sorted replicate means |

## Left out

- EpisodePlan.PlanEpisodeRanges: the source's defensive returns inside the table walk (an unset next boundary, an invalid boundary, an overflowing segment count) are shown unreachable rather than modelled as errors.
- PlanAcceptance.PlansAreAccepted: assumes that the consolidated bodies of the snapshot do not collide under the atom hash.
- PlanOutcomes.PlanForgetsOrder: digests of inputs, populations, states, plans, decisions, runs and receipts are arbitrary functions of typed records, not hashes of encoded bytes; only atom and event addresses go through the canonical encoding.
- Receipts.ApplyRetirement: the repository is a recorded history and an arbitrary response; transactions and storage are not part of this model.
- Retrieval.RunRankRetrieval: which strings are blank after Unicode trimming is a parameter.
- BodyIdentity.BytesDetermineBody: assumes that the source digests of a semantic body are listed in key order, as the source's ordered map always has them.
- Fixed.Mean: its count and sum are unbounded, where the source saturates them at 64 bits, which takes more than 10^13 values.
- Error messages and their payload beyond the error class, except where two returns of one class have to be told apart.
- SHA-256 and ChaCha20 themselves, and the mapping of a seed to its stream.
- Serialization of records by a framework: each record's value tree is written out by hand, and encodings longer than 2^64 bytes fail with an encoding error.
- JSON and TOML decoding, schemas, the command line, and the storage crate, which are plumbing around the modelled operations.
- Crash harness, manifest checks, synthetic worlds and comparison baselines of the lab, which are fixed data and process control.
- Tool and scale status classifiers, which settle by reading one branch.
