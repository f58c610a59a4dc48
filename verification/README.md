# Saksi: a machine-checked model

Saksi runs verifiable elections. A Rust generator and auditor do threshold
ElGamal over ristretto255; a Go console drives a Fabric ledger through the
ballot window, the trustee ceremony and the audit. This project models the
parts of both whose correctness spans several functions or a whole run, and
proves what the design promises of them. `dafny verify dfyconfig.toml` checks
everything; nothing here executes the original.

How to read it:

- **Algebra.** The prime-order group (ristretto255, section 4 of RFC 9496) is
  written by discrete logarithms modulo a prime `q`: a `Point` holds its
  logarithm to the base `G`. `ModArith`, `Interpolation`, `Group`, `ElGamal`,
  `Dkg`, `Transcript`, `ChaumPedersen`, `Decryption`, `Decode`, `Threshold`,
  `Tally` and `Election` go from congruences to one statement about a whole
  election: key generation, encryption, aggregation, partial decryption,
  recombination and decoding publish exactly the number of voters who chose
  each candidate.
- **Proofs as relations.** A Chaum-Pedersen proof accepts exactly its own
  context and a share that is the key's secret times the pad; `ChaumPedersen`
  shows why (completeness and special soundness of the two verification
  equations). A one-of-two proof accepts exactly a plaintext 0 or 1. The
  selection proof is the Chaum-Pedersen relation on the summed ciphertexts,
  and that it means "the plaintexts sum to 1" is proved. A signature or a
  credential presentation accepts exactly what it was made for.
- **Population.** `Apportionment`, `PositionShapes`, `Population`, `GroundTruth`
  and `PopulationGate` cover the deterministic generator, including its second
  implementation in Python, and the gate in front of the network. `Counting`
  holds the counting lemmas they share.
- **Canvass and ballots.** `BallotCheck` is the eligibility of one record and
  the aggregate of a stream, `PositionVotes` says where a stream's votes land;
  `Canvass` is the seven national checks, and `NationalVotes` joins them to the
  records of the precinct streams.
- **Protocols.** `BallotProtocol` (with `CloseRetry` and `ResumeEstimate`),
  `JournalQueue`, `Ceremony`, `StagePause` and `Exclusion` are transition systems. A `State` holds the ledger, the files and
  a program counter per thread of control; a `Step` names one atomic action
  together with the outcome the environment picks (an answer lost after a
  commit, a failed write, a crash). A step that is not enabled changes nothing,
  so a run is any sequence of steps, and the theorems hold for every sequence.
  The sequential code around them (reading the journal, the resumed window's
  accounting, the ledger dump, the ballot reader) is in loops and classes:
  `Resume`, `ResumeWindow`, `LedgerDump`, `BallotReader`.

Where the code and its own comments disagree, or a promise of theirs has a
limit, the model follows the code:

- `lagrange_coefficient_at_zero` is documented to return nothing on a duplicate
  index. No duplicate is ever noticed: the result is missing only for a
  different index that coincides modulo q (`DuplicatesUnnoticed`), which never
  happens below q - 1 (`SmallIndicesSeparate`).
- The comment on the realistic profile says no two positions share a multiset
  of totals. `PositionShapes` says when two positions do: completely for
  positions that reserve the same share (`SameReserve`), which includes every
  electorate of at most `C(C+1)` voters, and for all positions of a large
  electorate (`PositionsAlike`); in between others collide too
  (`ReservesCollide`).
- The comment on `resumeAndClose` promises that a resume whose ballots all
  landed but whose close failed is planned again as close-only, and it is, as
  long as its own stamps reached the journal (`CloseIsRetried`). The promise is
  for resumes: the close of a first window that landed everything is retried by
  nobody (`FirstCloseIsFinal`, `FirstCloseIsNotRetried`).
- The comment on `resumePlan` calls its estimate an upper bound. After a stamped
  interruption it is one, if any window's start was recorded
  (`EstimateAfterInterruption`). After a kill it is one only while the last
  checkpoint counts no more ballots than landed (`EstimateAfterKill`):
  checkpoints count dispatched ballots (`CheckpointAheadOfChain`) and
  `planResume` keeps one of an earlier window (`StaleCheckpoint`).
- `readCeremony` reads an unreadable record as a fresh one. Recorded progress
  survives every run without such a read (`ProgressIsKept`); a write after one
  keeps only what it adds itself (`UnreadableRecordForgets`). A trustee that
  submits again then remains alone on record (`ResubmissionForgets`,
  `ProgressToLose`), and a publish leaves nobody on it (`PublishForgets`).
- A contest whose candidate part holds a slash can be voted on by a record that
  names a longer position than the one the vote counts in
  (`VotersWhenQualified`).

## Model

| member | source | states |
|---|---|---|
| Interpolation.InterpolateAtZero | packages/saksi-auditor/src/decryption.rs:310-334 | For a prime q, any polynomial with at most as many coefficients as there are points, and points pairwise distinct modulo q, the Lagrange-weighted sum of its values is its value at 0 |
| Interpolation.WeightsSumToOne | packages/saksi-auditor/src/decryption.rs:310-334 | The coefficients at 0 of distinct points sum to 1 |
| Threshold.LagrangeCoefficientAtZero | packages/saksi-auditor/src/decryption.rs:314-334 | The loop returns the Lagrange weight modulo q, and nothing exactly when a different index of the subset coincides with the target modulo q |
| Threshold.WeightIsQuotient | packages/saksi-auditor/src/decryption.rs:319-333 | The weight times the accumulated denominator is the accumulated numerator, and the denominator is invertible |
| Threshold.DuplicatesUnnoticed | packages/saksi-auditor/src/decryption.rs:313-325 | For every target and subset, whether the coefficient is missing depends only on which indices occur: no duplicate, of the target or of another index, is ever noticed, contrary to the comment |
| Threshold.SmallIndicesSeparate | packages/saksi-auditor/src/decryption.rs:318-330 | For trustee indices below q - 1 the coefficient always exists |
| Threshold.CombineShares | packages/saksi-auditor/src/fixtures.rs:1302-1312 | The recombination loop never meets a missing coefficient and yields the weighted sum of the shares |
| Threshold.JointInterpolate | packages/saksi-auditor/src/fixtures.rs:1301-1312 | Interpolating the sum of all dealers' polynomials gives the joint secret |
| Threshold.SubsetRecoversSecret | packages/saksi-auditor/src/fixtures.rs:1301-1315 | Any set of distinct verified shares at least as large as the polynomials recombines to joint secret times pad, so every qualifying subset recovers the same point |
| ChaumPedersen.Completeness | packages/saksi-crypto/src/nizk/chaum_pedersen.rs:48-74 | The honest prover's answer satisfies both verification equations for every challenge |
| ChaumPedersen.SpecialSoundness | packages/saksi-crypto/src/nizk/chaum_pedersen.rs:95-101 | Accepted answers to two different challenges under one commitment force the relation between share, pad and key |
| Dkg.VerifyShare | packages/saksi-crypto/src/dkg.rs:279-288 | A recipient accepts a share exactly when it is the dealer's committed polynomial at the recipient's index |
| Dkg.CollectComplaints | packages/saksi-crypto/src/dkg.rs:216-231 | Complaints name exactly the bad shares, and the accused are their dealers |
| Dkg.RunInMemory | packages/saksi-crypto/src/dkg.rs:190-277 | Whatever was tampered with in transit, the key and every trustee's share come from exactly the dealers all of whose shares verified; every error case is the source's |
| Dkg.HornerInGroup | packages/saksi-auditor/src/dkg.rs:206-211 | Horner's rule over committed coefficients gives the polynomial's value times G |
| Dkg.TrusteeVerificationKey | packages/saksi-auditor/src/dkg.rs:199-214 | A trustee's key is the sum of all dealers' polynomials at its 1-based position, times G |
| Dkg.JointPublicKey | packages/saksi-auditor/src/dkg.rs:103-109 | The joint key is the value at 0 of the same sum |
| Transcript.VerifyDkgTranscript | packages/saksi-auditor/src/dkg.rs:35-136 | A transcript verifies exactly when its shape matches the parameters and every commitment decodes; joint key and trustee keys are then values of one secret polynomial |
| Transcript.TrusteeKeysAreKeys | packages/saksi-auditor/src/dkg.rs:159-198 | The derived keys are those of the shares the dealers' polynomials give |
| Transcript.VerifyTallySignatures | packages/saksi-auditor/src/tally.rs:80-153 | Accepts exactly when there are at least threshold signatures, all by different known trustees over these totals |
| ElGamal.EncryptEncrypts | packages/saksi-crypto/src/elgamal.rs:144-149 | An encryption decrypts to its message under the key's secret |
| ElGamal.SumEncrypts | packages/saksi-crypto/src/elgamal.rs:115-132 | The sum of two ciphertexts encrypts the sum of their plaintexts |
| Decryption.VerifyPartialDecryptions | packages/saksi-auditor/src/decryption.rs:70-276 | The loop keeps, per contest and in input order, exactly the shares that pass routing, duplicate, decoding and proof checks; the threshold flag says every contest has enough trustees, and no failure is reported exactly when there is none |
| Decryption.VerifiedSharesAreGood | packages/saksi-auditor/src/decryption.rs:97-248 | Verified trustees are in range and pairwise distinct per contest, and each share is the pad times the secret behind the trustee's key |
| Decryption.EnoughMeansSlice | packages/saksi-auditor/src/decryption.rs:250-275 | Counting distinct trustees is counting shares, so the slice of the first t shares is in bounds exactly when the threshold holds |
| Decryption.NoFailuresIffClean | packages/saksi-auditor/src/decryption.rs:94-248 | No failure is reported exactly for lists whose entries are each sound and each claim their own slot, which does not depend on order |
| Decryption.CleanTrustees | packages/saksi-auditor/src/decryption.rs:94-248 | On a clean list the verified trustees of a contest are those who submitted for it |
| Decryption.CleanPermuted | packages/saksi-auditor/src/decryption.rs:94-248 | Cleanliness and the submitters survive any reordering |
| Decode.LinearDecode | packages/saksi-auditor/src/tally.rs:395-405 | The walk finds the one T in range with the point T*G, and nothing otherwise |
| Decode.BsgsDecode | packages/saksi-auditor/src/tally.rs:411-436 | Baby-step giant-step refines the walk: it returns the same answer on every point |
| Decode.DecodeTally | packages/saksi-auditor/src/tally.rs:386-392 | Both paths together decode exactly the points of counts in range |
| Tally.DecryptTotalsBound | packages/saksi-auditor/src/fixtures.rs:1267-1322 | Succeeds exactly when every partial verifies and every contest decodes in range, with those totals |
| Tally.PlainMeaning | packages/saksi-auditor/src/fixtures.rs:1300-1313 | The decoded value is the aggregate minus joint secret times pad, whichever verified shares came first |
| Tally.TotalsAreTheDecryption | packages/saksi-auditor/src/fixtures.rs:1267-1322 | Each published total is the unique T in [0, max] with data = T*G + secret*pad |
| Tally.TotalsPermuted | packages/saksi-auditor/src/fixtures.rs:1267-1322 | Any reordering of the partial decryptions gives the same result, failure included |
| Labels.BuildContestIds | packages/saksi-auditor/src/fixtures.rs:804-809 | Contest ids are position-major and pairwise different |
| Labels.BuildTrusteeIds | packages/saksi-auditor/src/fixtures.rs:801-803 | Trustee ids are pairwise different |
| Labels.PrefixIsPosition | packages/saksi-auditor/src/lib.rs:470-484 | For slash-free positions the prefix test is membership in the position |
| Labels.ContestIndicesForPosition | packages/saksi-auditor/src/lib.rs:470-484 | The filter loop returns the indices of exactly the position's contests, in order |
| Election.BuildRecord | packages/saksi-auditor/src/fixtures.rs:922-965 | A record encrypts 1 in the selected slot and 0 in the others |
| Election.BuildVoterRecords | packages/saksi-auditor/src/fixtures.rs:879-916 | A voter's vector encrypts the voter's mark in every contest, and the recorded selections are the voter's |
| Election.CastAll | packages/saksi-auditor/src/fixtures.rs:1341-1348 | The running aggregate encrypts, in each contest, the number of voters who chose it |
| Election.TallySelections | packages/saksi-auditor/src/fixtures.rs:495-505 | The independent tally counts the selections of each contest |
| Election.HitsAreVotes | packages/saksi-auditor/src/fixtures.rs:483-505 | Counting recorded selections and counting voters agree on every contest |
| Election.BuildPartialDecryptions | packages/saksi-auditor/src/fixtures.rs:1102-1144 | The list is contest-major and each entry is its trustee's share of its contest's pad |
| Election.HonestIsClean | packages/saksi-auditor/src/fixtures.rs:1102-1144 | Honest answers pass every check, and every trustee answered every contest |
| Election.BuildTally | packages/saksi-auditor/src/fixtures.rs:1185-1228 | Publishes exactly when decryption succeeds with the ground truth, and reports a difference otherwise |
| Election.HonestTotals | packages/saksi-auditor/src/fixtures.rs:1267-1322 | Complete honest answers to an aggregate that encrypts the votes decrypt to the votes |
| Election.MultiPositionFixture | packages/saksi-auditor/src/fixtures.rs:1331-1382 | With voters times positions below q an honest run never fails, and every total is the number of voters who chose that contest |
| Apportionment.RoundRobinClosed | packages/saksi-auditor/src/fixtures.rs:694-701 | The round robin's count in closed form, for any start and length |
| Apportionment.SkewedSplit | packages/saksi-auditor/src/fixtures.rs:694-701 | Under the skewed rule candidate 0 gets half the voters, rounded up, and the others share the rest by round robin |
| Apportionment.LeftOver | packages/saksi-auditor/src/fixtures.rs:548-555 | Rounding the shares down leaves fewer than one vote per candidate, so the leftover loop touches each rank at most once |
| Apportionment.RealisticQuotas | packages/saksi-auditor/src/fixtures.rs:526-571 | The loops compute the quotas: base round, weighted slice, leftovers, correction |
| Apportionment.QuotasSum | packages/saksi-auditor/src/fixtures.rs:526-571 | For every V, C >= 1 and position the quotas sum to exactly V |
| Apportionment.QuotasWinner | packages/saksi-auditor/src/fixtures.rs:560-570 | For V >= 1 and C >= 2 candidate 0 is the strict and only maximum |
| Apportionment.QuotasStrictlyFall | packages/saksi-auditor/src/fixtures.rs:532-557 | With V >= C(C+1) every rank is strictly ahead of the next |
| Apportionment.SmallElectoratesLookAlike | packages/saksi-auditor/src/fixtures.rs:532-540 | With V <= C(C+1) nobody is outside the reserved slice and all positions get the same quotas |
| PositionShapes.SameReserve | packages/saksi-auditor/src/fixtures.rs:412-415 | Positions that reserve the same share carry the same totals, as sequences and as multisets, exactly when half the base divides evenly among the losers or both start dealing at the same loser; for every V and C >= 2 |
| PositionShapes.ReservesApart | packages/saksi-auditor/src/fixtures.rs:518-520 | Positions whose reserves are far enough apart differ: the last rank gets strictly less from the larger reserve |
| PositionShapes.PositionsAlike | packages/saksi-auditor/src/fixtures.rs:412-415 | From the explicit electorate `DistinctFrom(C)` on, two positions carry the same multiset of totals exactly when they reserve the same percentage and the deal comes out even or starts at the same loser |
| PositionShapes.ReservesCollide | packages/saksi-auditor/src/fixtures.rs:412-415 | Below that bound races of different percentages collide too: with 65 voters and 3 candidates the first and third end with the same totals from different reserves |
| Population.InterleaveStride | packages/saksi-auditor/src/fixtures.rs:585-607 | The search ends with a stride coprime to the number of voters, within its bound on tries |
| Population.GatherScatter | packages/saksi-auditor/src/fixtures.rs:667-668 | Scattering by a coprime stride is injective: it can be undone |
| Population.ScatterGather | packages/saksi-auditor/src/fixtures.rs:667-668 | It is onto: every residue is hit |
| Population.Bisect | docs/reference_generator.py:172-180 | The hand-written bisection cuts where the library's partition point does |
| Population.SelectByBisection | docs/reference_generator.py:164-181 | For every profile, electorate, voter and position the second implementation selects what the first does |
| Population.NewPlan | packages/saksi-auditor/src/fixtures.rs:626-654 | The plan holds the running totals of every position's quotas and a coprime stride |
| Population.SelectInBracket | packages/saksi-auditor/src/fixtures.rs:665-670 | A voter picks a candidate exactly when its scattered number lies in that candidate's bracket; the clamp never acts |
| Population.QuotaFilled | packages/saksi-auditor/src/fixtures.rs:657-672 | For every V >= 1, C >= 2 and position, exactly quota-many voters pick each candidate |
| Population.NoWrap | packages/saksi-auditor/src/fixtures.rs:668 | Up to 2^32 voters the 64-bit product does not wrap, so it is the unbounded product of the Python generator |
| GroundTruth.WriteGroundTruthRange | packages/saksi-auditor/src/ground_truth.rs:78-139 | A range's rows are the plan's, its counts are the counts of those rows, and it is refused exactly for empty dimensions or a bad range |
| GroundTruth.PrecinctsAddUp | packages/saksi-auditor/src/ground_truth.rs:73-77 | Counts reported over consecutive ranges add up to the count over their union |
| GroundTruth.PrecinctsReportQuotas | packages/saksi-auditor/src/ground_truth.rs:107-139 | However the electorate is cut into precincts, the reported counts add up to the quotas |
| GroundTruth.RealisticElection | packages/saksi-auditor/src/fixtures.rs:1331-1382 | An election generated under the realistic profile publishes exactly the quotas |
| PopulationGate.ValidatePopulation | packages/saksi-auditor/src/demo.rs:349-467 | Accepts exactly the populations with the stated counts, shapes, distinct nullifiers, voter repetitions and per-position truths |
| PopulationGate.PassingIsAGrid | packages/saksi-auditor/src/demo.rs:349-467 | In an accepted population every one of its voters has exactly one ballot in every position |
| BallotCheck.VerifyBallot | packages/saksi-auditor/src/ballot.rs:132-398 | Returns the decoded slots exactly for eligible records, and reports a failing check exactly for the others |
| BallotCheck.SelectionMeansOne | packages/saksi-crypto/src/nizk/selection.rs:74-82 | The selection proof's relation on the summed ciphertexts holds exactly when the plaintexts sum to 1 modulo q |
| BallotCheck.EligibleSelectsOne | packages/saksi-auditor/src/ballot.rs:218-348 | An eligible record of an issuer-bound election holds exactly one 1 |
| PositionVotes.EligibleNamesPosition | packages/saksi-auditor/src/ballot.rs:170-193 | With per-position contests an eligible record names a nonempty prefix of a contest, and the slash-free position itself when that position's candidates hold no slash |
| BallotCheck.VerifiedSums | packages/saksi-auditor/src/ledger.rs:140-181 | The folded sums encrypt, per contest, the plaintexts of the eligible records and nothing else |
| BallotCheck.TotalAtMostRecords | packages/saksi-auditor/src/ledger.rs:140-181 | No contest totals more votes than there are records |
| PositionVotes.OneVotePerEligibleRecord | packages/saksi-auditor/src/ballot.rs:153-404 | For every stream over contests that each hold a slash, a position's contests hold exactly one vote per eligible record whose id leads with it; no other record contributes |
| PositionVotes.VotersExactly | packages/saksi-auditor/src/ballot.rs:153-404 | So they hold one vote per eligible record naming the position exactly when no eligible record names a longer id inside it |
| PositionVotes.VotersWhenQualified | packages/saksi-auditor/src/lib.rs:470-484 | For a contest list: every stream does so exactly when no candidate of the position holds a slash; otherwise an eligible record that breaks it is built |
| Canvass.ReadReturns | packages/saksi-auditor/src/canvass.rs:287-346 | The first readable return naming a precinct counts for it; the registry check passes exactly when every file is such a first return with the right election id |
| Canvass.AcceptReturns | packages/saksi-auditor/src/canvass.rs:348-400 | Signature and completeness verdicts, and the accepted flags, each hold exactly when stated |
| Canvass.CheckRecompute | packages/saksi-auditor/src/canvass.rs:405-459 | Passes exactly when every received return equals its ledger recompute and close reference |
| Canvass.CheckNationalSum | packages/saksi-auditor/src/canvass.rs:462-519 | Passes exactly when the accepted aggregates are points of the right number and multiply to the national aggregate |
| Canvass.CheckNullifiers | packages/saksi-auditor/src/canvass.rs:244-277 | Passes exactly when no nullifier is in two precincts' ledgers |
| Canvass.DecryptNational | packages/saksi-auditor/src/canvass.rs:676-730 | Succeeds exactly when transcript, partials, published totals and signatures all agree on the product |
| Canvass.CheckNationalAccuracy | packages/saksi-auditor/src/canvass.rs:605-671 | Passes exactly when every ledger is readable and the product decrypts to the ground truth |
| Canvass.RunCanvass | packages/saksi-auditor/src/canvass.rs:229-599 | All seven checks are run and each verdict is its own statement |
| Canvass.RegistryDistinct | packages/saksi-auditor/src/canvass.rs:299-303 | A complete canvass implies that no precinct is registered twice, although nothing checks it directly |
| Canvass.AggregateIsTheProduct | packages/saksi-auditor/src/canvass.rs:348-512 | When all seven pass, the recorded national aggregate is the product of every precinct's returned aggregate and of every ledger's |
| Canvass.PublishedTotalsAreTheDecryption | packages/saksi-auditor/src/canvass.rs:605-730 | When all seven pass, each published total is the one count in range the recorded aggregate decrypts to, equals the ground truth, and is signed by a threshold of trustees |
| Canvass.PublishedTotalIsTheSumOfVotes | packages/saksi-auditor/src/canvass.rs:229-730 | It is then the sum of the votes in the precinct ledgers |
| NationalVotes.RecomputeLedger | packages/saksi-auditor/src/ledger.rs:110-181 | The ledger sums the canvass recomputes encrypt, per contest, the votes of the precinct's eligible records |
| NationalVotes.PublishedPositionIsTheRecords | packages/saksi-auditor/src/canvass.rs:229-730 | When all seven pass, the published totals of a position sum to the eligible records of all precinct streams whose id leads with it |
| Resume.PlanResume | packages/saksi-campaign/executor.go:1779-1838 | The fold over the journal accepts a run exactly when its last checkpoint leaves the window open, or a resume landed everything and no close is recorded; with the source's segment, estimate and history |
| Resume.OpenMeans | packages/saksi-campaign/executor.go:1774-1778 | Open says: an event opened the window and no end came after it |
| ResumeEstimate.EstimateAfterInterruption | packages/saksi-campaign/executor.go:1755-1768 | In every run whose journal holds an interruption of the last recorded window, the estimate is at least the ballots missing from the chain exactly when some window's start was recorded or nothing is missing |
| ResumeEstimate.EstimateAfterKill | packages/saksi-campaign/executor.go:1822-1828 | In every run killed inside a window whose start is recorded, with whatever lands later, it is at least the missing ballots exactly when the last checkpoint counts no more than landed from that window, or nothing is missing |
| ResumeEstimate.CheckpointAheadOfChain | packages/saksi-campaign/executor.go:1793-1798 | Every election with a ballot has a killed run whose own checkpoint, written once every answer is in, is ahead of the chain, so that the estimate is too low |
| ResumeEstimate.StaleCheckpoint | packages/saksi-campaign/executor.go:1793-1798 | A killed run in which an earlier window's checkpoint leaves an estimate of 0 with a ballot still to send |
| ResumeWindow.NullifierIndex | packages/saksi-campaign/executor.go:1681-1712 | Succeeds exactly on the expected number of 32-byte nullifiers, mapping each to its last ballot |
| ResumeWindow.ChainCommitted | packages/saksi-campaign/executor.go:1652-1675 | The paged walk marks exactly the ballots whose nullifier was listed, whatever the page sizes |
| ResumeWindow.CommittedMeansListed | packages/saksi-campaign/executor.go:1652-1712 | With distinct nullifiers a ballot is marked exactly when its own nullifier was listed |
| ResumeWindow.Tabulate | packages/saksi-bulletin/client-sdk/bench/driver.go:157-174 | The bench's counts: submitted is committed plus dropped is the last index plus one |
| ResumeWindow.PendingCovers | packages/saksi-campaign/executor.go:1479-1484 | Every index is either on the snapshot or pending |
| ResumeWindow.ReplayedIndices | packages/saksi-campaign/executor.go:1609-1632 | Replays are exactly the failed slots a second reading shows on chain, and no more than the drops |
| ResumeWindow.FinishResume | packages/saksi-campaign/executor.go:1541-1593 | Submitted stays committed plus dropped and the clamp at zero never acts; with everything dispatched and both readings successful, committed is the number of ballots on chain and dropped the number missing |
| BallotProtocol.CloseIsSafe | packages/saksi-campaign/executor.go:904-1110 | In every run of cancels, crashes, lost answers, lost stamps and resumes, with or without a paused first window, CloseElection goes out only with all ballots on the chain, or after the first window ended at its own bound without a drop |
| BallotProtocol.StepKeeps | packages/saksi-campaign/executor.go:1401-1603 | Every single step keeps the invariant behind it, the close-only retry decided from the journal included |
| BallotProtocol.NothingDropped | packages/saksi-campaign/executor.go:1541-1559 | A window that dispatched everything and dropped nothing left every ballot on the chain |
| BallotProtocol.NeverResubmitsSeen | packages/saksi-campaign/executor.go:1479-1501 | In every run the ballots a window's snapshot held stay on the chain throughout that window, and it sends the others, each index at most once |
| BallotProtocol.FirstHalfFirst | packages/saksi-campaign/timeline.go:369-415 | In every run of a security election the first half of the paused window is answered before the second half goes out |
| BallotProtocol.SegmentsAscend | packages/saksi-campaign/executor.go:1485-1485 | Segment numbers strictly rise along the journal, however many stamps it lost |
| CloseRetry.CloseIsRetried | packages/saksi-campaign/executor.go:1394-1396 | In every run, after a resume that landed every ballot and stamped its end, whatever becomes of this and later closes: an idle console accepts another resume straight to the close exactly while no close is recorded and a resume's start is in the journal, and every ballot stays on the chain |
| CloseRetry.FirstCloseIsFinal | packages/saksi-campaign/executor.go:1810-1817 | In every run, once the first window ended without a drop and stamped its end, every later resume is refused, whatever became of the close |
| CloseRetry.FirstCloseIsNotRetried | packages/saksi-campaign/executor.go:1810-1817 | Such a run exists: every ballot landed, the election open, and every resume refused |
| JournalQueue.ProgressIsConserved | packages/saksi-campaign/journal.go:214-289 | At every moment of every interleaving: stamped is written plus queued plus in hand plus coalesced, the queue is bounded, the counter lags one pop at most, and written lines are in stamping order |
| JournalQueue.NewestIsKept | packages/saksi-campaign/journal.go:226-247 | With one dispatcher the line just stamped is never the one coalesced, and the give-up branch is never reached |
| JournalQueue.StampFollowsItsProgress | packages/saksi-campaign/journal.go:167-192 | In the file a synchronous stamp comes after every progress line handed over before it began, unless that line was coalesced |
| JournalQueue.StepStampers | packages/saksi-campaign/journal.go:250-317 | Every step keeps the barrier promise: a released barrier means everything handed over before it is settled |
| Ceremony.RecordedMeansOnChain | packages/saksi-campaign/ceremony.go:357-421 | In every run a trustee recorded as submitted has every one of its bundle shares on the chain, byte for byte |
| Ceremony.ChainOnlyGrows | packages/saksi-bulletin/chaincode/contract.go:865-879 | A share on the chain is never replaced |
| Ceremony.TallyToPublish | packages/saksi-campaign/ceremony.go:529-561 | Keeps exactly the signatures of submitted trustees, in order, and passes an unsigned tally through |
| Ceremony.PublicationsAreBacked | packages/saksi-campaign/ceremony.go:426-491 | A tally goes out only with at least threshold contributors whose shares are all on the chain, carrying exactly their signatures |
| Ceremony.ProgressIsKept | packages/saksi-campaign/ceremony.go:668-684 | However writers interleave under the mutex, recorded progress only grows while no read of the record fails |
| Ceremony.UnreadableRecordForgets | packages/saksi-campaign/ceremony.go:772-785 | A submit, poll or publish that failed to read the existing record writes exactly what it adds itself, so it keeps the recorded progress exactly when it adds all of it |
| Ceremony.ResubmissionForgets | packages/saksi-campaign/ceremony.go:357-421 | From every reachable moment with a trustee recorded, a free lock and an idle action: if it submits again and the record cannot be read as it is marked, it alone stays recorded; progress is lost exactly when anyone else was |
| Ceremony.PublishForgets | packages/saksi-campaign/ceremony.go:874-884 | From every reachable moment about to publish with a record and a free lock, a publish whose mark cannot read the record empties it |
| Ceremony.ProgressToLose | packages/saksi-campaign/ceremony.go:357-421 | Such a run exists: two trustees submit, the first submits again over an unreadable record, and the second is no longer recorded though its share is on the chain |
| StagePause.AcceptedMeansApplied | packages/saksi-campaign/timeline.go:214-311 | Unless cancelled, every accepted decision is applied in order before the stage continues, and run-all or timeout has mounted every attack |
| StagePause.NothingAcceptedAfterwards | packages/saksi-campaign/timeline.go:160-193 | Once the stage is left, no decision is accepted |
| StagePause.StepKeeps | packages/saksi-campaign/timeline.go:96-123 | Every step keeps: accepted is applied followed by queued, and only the last accepted decision can have closed the stage |
| StagePause.PauseIndex | packages/saksi-campaign/timeline.go:70-79 | The pause point leaves at least one ballot on each side, or the window does not pause |
| StagePause.JoinWindows | packages/saksi-campaign/timeline.go:422-444 | The stitched window satisfies the bench's own counting promise, with every per-index record in place |
| LedgerDump.RunFolder.DumpLedger | packages/saksi-campaign/ledger_dump.go:86-103 | A failed dump leaves nothing; a successful one holds the listed ballots in order and reports the batched path exactly when every batched call it needed worked; with a complete listing, no failing call and at most one Unknown it succeeds |
| LedgerDump.RunFolder.DumpBallots | packages/saksi-campaign/ledger_dump.go:126-200 | For every page size, batch size and fallback point the lines are the per-nullifier ballots in listing order; it falls back exactly when a needed batched call is answered Unknown first, and every error has its cause: a failed listing, an absent ballot, a failing call or a second Unknown |
| LedgerDump.NullifierSetDigest | packages/saksi-campaign/ledger_dump.go:352-381 | Digests exactly the decodable streams, to their count and their summed hashes in 256 bits |
| LedgerDump.DigestPermuted | packages/saksi-campaign/ledger_dump.go:337-351 | The digest is the same for every order of the ballots |
| BallotReader.ValidateBallots | packages/saksi-campaign/ballots.go:84-94 | Accepts exactly the all-hex files that read to the end, and names the first bad line otherwise |
| BallotReader.Reader.At | packages/saksi-campaign/ballots.go:124-155 | On a validated file, in any order, each wanted index asked for once gets its line; a second request is refused |
| BallotReader.Reader.AheadWithinFlight | packages/saksi-campaign/ballots.go:96-111 | Dispatched in order, no more lines are parked than there are dispatched indices still waiting |
| Exclusion.ResetIsAlone | packages/saksi-campaign/reset.go:185-211 | While a reset holds the job slot no phase runs, no fault is active and no peer is counted down |
| Exclusion.FaultIsSettled | packages/saksi-campaign/fault.go:309-426 | A fault is decided at most once and closes done at most once; once its wait returned, a fired one has restarted the peer and cleared its mark |
| Exclusion.FaultsAreClaimed | packages/saksi-campaign/fault.go:238-262 | An active fault belongs to a claimed run, and the down counter is the number of peers stopped and not yet started |
| Exclusion.StepKeeps | packages/saksi-campaign/server.go:269-305 | Every step of claim, finish, job start and fault keeps the exclusion invariant |

## Left out

- Concrete cryptography: curve arithmetic, transcripts and hashes, blind issuance and one-of-two proofs are ideal relations; the hash that picks a challenge and forgery probabilities are not modelled.
- ristretto255's order enters as an arbitrary prime q; encodings are canonical, so equal bytes are equal points.
- Machine integers: u64 and usize are unbounded. `NoWrap` covers the one multiplication the generator wraps on purpose; record counts are assumed to sum below q.
- The square root in the baby-step size is the exact ceiling; its floating-point rounding is not modelled.
- Dkg.RunInMemory: dealers are identified by position; the search for a dealer's commitment by id, which can fail only for ids that do not match, is not modelled.
- Election.MultiPositionFixture: credentials, proofs and trustee signatures attached to the records and the tally are not part of the result.
- BallotCheck.VerifiedSums: the ledger digest and the batching over threads are not modelled.
- Canvass.RunCanvass: file access, hex and JSON decoding become optional inputs; the precinct stream audit is an input.
- BallotProtocol.CloseIsSafe: receipts are not part of the transition system; of a security run it has the paused first window, not the attacks mounted in it, each of which the ledger is taken to refuse. Nobody resets the network under a run. Distinct nullifiers let a ballot be named by its index. The chain, not the journal's order, carries the argument: a progress line may be written, or lost, any time after the bench reported it inside the window.
- CloseRetry.CloseIsRetried: a stamp that the journal lost is outside the promise; without the window's end the window itself is resumed again, without any resume's start the close is not offered.
- PositionShapes.PositionsAlike: below `DistinctFrom(C)` positions that reserve different percentages collide now and then, as rounding falls (`ReservesCollide`); no closed condition is stated for them.
- NationalVotes.PublishedPositionIsTheRecords: that each precinct ran the national contest list under the national key is a hypothesis; the canvass compares neither.
- ResumeWindow.ChainCommitted: a ledger whose bookmarks cycle through two or more values would make the source page for ever; here the replies are a finite list and running out of them is an error.
- ResumeWindow.FinishResume: latencies, throughput and the files they are written to are not modelled.
- JournalQueue.StampFollowsItsProgress: one dispatcher stamps progress, as the bench promises; a stamp that finds the writer retired by Close is excepted.
- Ceremony.RecordedMeansOnChain: the network is not reset under a run (`Exclusion` models the reset job; it wipes the ledger and leaves the run folder, after which a recorded trustee has no share on the chain). File writes are atomic, and the offline ceremony has no chain to speak of.
- Exclusion.FaultIsSettled: panics are not modelled. The fault gate and the mark are separate steps, as in the source, so nothing is claimed about other phases overlapping a fault.
- LedgerDump.NullifierSetDigest: the hash is a parameter; that different sets have different digests is a property of the hash.
- StagePause.PauseIndex: the share is a real number, not a float.
- HTTP handlers, event streams, exports, host and disk probes, timings and statistics: input and output around the parts modelled here.
- Chaincode other than the gates the protocols rely on (one CreateElection, one ballot per nullifier, one share per key, no ballot after the close).
- `rankContest`, login limits, configuration checks, slugs and tracking codes: single-branch facts.
