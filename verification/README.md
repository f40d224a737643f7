# Zilliqa: consensus, CPS execution and EVM continuations in Dafny

A model of the parts of the Zilliqa node in which several objects have to agree with each other over time, and
proofs of what they keep.

* **Two-round co-signing consensus.** `ConsensusLeader` and `ConsensusBackup` are classes with the source's fields.
  Each method is proved against a function on values (`LeaderModel`, `BackupModel`); the theorems are about whole runs
  of those functions. A run is any sequence of delivered messages, closed commit windows and announcements. Schnorr
  multi-signatures are an arbitrary group with a hash (`MultiSig`); the fraction in `TOLERANCE_FRACTION` is a parameter.
* **CPS transactions.** `CpsExecutor` takes a gas deposit, works through a stack of runs over an atomic overlay of the
  accounts, then commits or reverts and settles the gas. Kinds of runs are arbitrary functions of the overlay, the
  revertible contract storage and the gas tracker, which is all a run is given. Wei, Qa and both gas units are in the
  source's 64, 128 and 256 bit widths. The two scaling factors are parameters.
* **EVM continuations.** Suspended frames keep cached storage; exits publish to them; the node applies. The call tracer
  folds the same events into a call tree.
* **Numbers in byte streams**, and the peer lists of the connectivity tool.

Main results:

* Two verifying collective signatures with at least t bits each on messages of the same round are on the same message as
  long as fewer than 2t - n members are faulty (`Agreement.SameRoundSameMessage`). Backups that are DONE with t bits in B2
  hold the same final message, in every world with given faults, if and only if that bound holds; where it fails, whole
  runs of the members that disagree are built (`Disagreement.AgreeAtIff`, `DoneBackupsDisagree`). With a quorum of bits
  at a tolerance fraction of two thirds, less than a third of faults is tolerated (`Agreement.ThirdIsTolerated`). The
  hypotheses are that nobody forges and that announcements never look like second-round messages. That B2 has a quorum of
  bits is a condition on the signature: an honest leader sees to it, a backup does not check it (below).
* One honest leader and the accepting backups that make up a quorum with it all reach DONE once everything is delivered
  (`Delivery.SessionFinishes`): every honest commit passes the leader's checks, the points of a challenged subset are
  traced back through the leader's records to the secrets the backups answer from, and so every honest answer counts. For
  the leader alone it is enough that a quorum commits and one subset answers, whatever else arrives in between
  (`LeaderProgress.LeaderFinishes`).
* A backup signs only content that its validator accepted (`BackupRuns.SignsOnlyAccepted`), over every run. Once more than
  n - q members who are not on record report a commit failure, the leader announces a consensus failure
  (`FailureQuorum.ReportsLeadToFailure`).
* The leader's collective signature never fails its own verification, whoever responds and in whatever order
  (`LeaderProofs.FullSubsetSigns`, `LeaderRuns.StepAdvances`), and every run of the leader refines a machine of seven
  fields (`LeaderRuns.RunAdvances`).
* A backup's secrets are behind at most one response over every run, restarts included (`BackupRuns.SecretUsedOnce`).
* `processLoop` is recursive evaluation of calls (`CpsLoop.LoopIsRecursion`). With any kinds of runs that neither make
  coins nor raise gas, a contract transaction costs exactly the gas on its receipt, on success and on failure, if and
  only if the sender's balance covers what it owes (`CpsTransactions.ContractCosts`); an EVM transaction does up to one
  Qa of rounding: a failed one if and only if the balance covers the fee, a successful one whose deposit the balance
  covered if and only if the refund fits 128 bits (`CpsTransactions.EvmCosts`).
* Along every run of nested EVM calls, creates, returns and failures, all frames see one shared storage that failures
  roll back, if and only if every create and every failed exit meets a condition on the world before it and, for a failed
  exit, on what the storage was at the call (`EvmFrames.CoherentIffGentle`); then every SLOAD gives what that storage would (`EvmFrames.CacheIsTransparent`).

Where the code falls short of a property one would expect, the code is kept and the exact condition is proved:

* `ConsensusBackup` verifies a collective signature under the keys of whatever bitmap comes with it and counts no bits. A
  leader with a single private key brings any accepting backup to DONE on any message (`OneMemberSuffices`), so to be
  DONE, or DONE with one bit, is no agreement, whoever is faulty (`DoneIsNotAgreement`); the number of bits that is enough
  is exact (`AgreeAtIff`).
* `CheckAmount` for Scilla adds deposit and amount in 128 bits; a sum that carries passes for a small one
  (`ScillaCheckGap`, `ScillaCheckExample`). Then the deposit is skipped and gas that was never paid for is refunded, or
  the transfer is refused; charging is right if and only if the sum does not carry (`PlainTransferCosts`, `MintExample`).
* `CheckAmount` for EVM transactions cuts the claim to 128 bits of Qa; a longer one passes if what is left is within the
  balance (`EvmCheckGap`, `EvmCheckExample`, `EvmCoveredIff`). The fee of a failed transaction is cut in the same way, and
  is paid if and only if the balance covers it (`EvmFailurePays`, `UnpaidExample`).
* The EVM refund is a 128-bit product; one that does not fit is not paid (`EvmCosts`, `RefundExample`).
* A plain transfer's receipt always says `NORMAL_TRAN_GAS`, although the gas limit is not compared with it
  (`PlainReceiptIsExact`, `ReceiptExample`).
* `AccountBase::IncreaseBalance` stores the sum into its own operand before comparing, so a carry is not seen
  (`TransferConserves`, `CarryExample`).
* A CREATE trap suspends a frame without applying its writes, so a call back reads the old values (`CreateReadsIff`,
  `CreateExample`).
* A failed exit publishes slots the node does not take (`FailKeepsIff`, `FailExample`), and what the failed frame's own
  calls had applied before is not undone (`FailRestoresIff`, `UndoneExample`).
* An estimate or an eth_call that pre-validation turns away uses up the sender's nonce (`DryRunLeavesNothing`).
* A new announcement resets the count of failure reports but not the record of who reported; those members are not heard
  again before round one ends (`ReportTakenIff`, `EarlierReportersAreRefused`).
* A quorum of one with committed guards takes every guard into the first subset (`SubsetConstruction`).
* `ConsensusBackup::ProcessMessage` alone goes from a commit to DONE on a final signature; `CanProcessMessage` shuts that
  out (`GateShutsOutEarlyDone`).

## Layout

| file | contents |
|---|---|
| `Arithmetic.dfy` | products and quotients by parameters, and the widths |
| `Bitmaps.dfy`, `Lists.dfy` | bitmaps with their counts; distinctness and permutations |
| `MultiSig.dfy` | the signature algebra and the serialised bit vector |
| `Consensus.dfy` | states, messages, key aggregation, quorums |
| `LeaderModel.dfy`, `LeaderProofs.dfy`, `LeaderRuns.dfy` | the leader on values, its invariants, its runs |
| `ConsensusLeader.dfy` | the leader object |
| `BackupModel.dfy`, `BackupRuns.dfy`, `ConsensusBackup.dfy` | the backup on values, its runs, the object |
| `Agreement.dfy`, `Disagreement.dfy`, `RoundTwo.dfy`, `FailureQuorum.dfy` | several members together |
| `LeaderProgress.dfy`, `BackupProgress.dfy`, `Delivery.dfy` | what leader and backup need to hear to finish; a whole session |
| `Amounts.dfy`, `AccountStore.dfy` | units, gas tracker, accounts in two layers |
| `CpsLoop.dfy`, `CpsTransactions.dfy`, `CpsExecutor.dfy` | the stack of runs, whole transactions, the executor object |
| `EvmCache.dfy`, `EvmFrames.dfy`, `Tracer.dfy` | continuations and their caches, nested frames, the call tracer |
| `Codec.dfy`, `PeerList.dfy` | numbers in byte streams, peer lists |

## Model

| member | source | states |
|---|---|---|
| MultiSig.HonestResponseVerifies | src/cmd/signmultisig.cpp:130-149 | a response computed from the secret behind a commit and the key's private scalar verifies against that commit and key |
| MultiSig.ResponsesAggregate | src/cmd/signmultisig.cpp:127-154 | if every response of a bitmap verifies, the sum of responses and the sum of keys reproduce the sum of commits |
| MultiSig.CoSignatureVerifies | src/cmd/signmultisig.cpp:127-156 | the aggregated signature verifies under the aggregated key once the bitmap hashed into the challenge is the one that answered |
| MultiSig.SumBitsSet | src/libConsensus/ConsensusLeader.cpp:232-236 | setting one more bit adds exactly that member's point to the aggregate |
| MultiSig.PackedByteInjective | src/libUtils/BitVector.cpp:47-53 | a packed byte determines its eight bits |
| MultiSig.BitVectorInjective | src/libUtils/BitVector.cpp:35-56 | a serialised bit vector of up to 65535 bits determines the bitmap |
| MultiSig.BitVectorLayout | src/libUtils/BitVector.cpp:35-56 | two bytes hold the number of bits, high byte first, and bit i is the bit of weight 2^(7 - i mod 8) in byte i / 8 after them |
| Consensus.AggregateKeys | src/libConsensus/ConsensusCommon.cpp:119-135 | the loop collects and adds up exactly the keys at the set positions |
| Consensus.QuorumIsLeast | src/libConsensus/ConsensusCommon.cpp:340-342 | the rounded-up fraction is the least number of members that reaches the tolerance fraction, both directions |
| Consensus.QuorumFits | src/libConsensus/ConsensusCommon.cpp:340-342 | the quorum lies between one and the committee size |
| Consensus.QuorumOverlap | src/libConsensus/ConsensusCommon.cpp:340-342 | two quorums share a member outside fewer than 2q - n faulty ones |
| Consensus.FaultyOverlap | src/libConsensus/ConsensusCommon.cpp:340-342 | with 2q - n faulty members or more, two quorums can be chosen that share faulty members only |
| Consensus.QuorumsShareHonestIff | src/libConsensus/ConsensusCommon.cpp:340-342 | any two quorums share an honest member if and only if fewer than 2q - n are faulty |
| Consensus.ThirdIsEnough | src/libConsensus/ConsensusCommon.cpp:340-342 | fewer than a third faulty is below 2q - n once the tolerance fraction is at least two thirds |
| LeaderModel.GuardsAndOthers | src/libConsensus/ConsensusLeader.cpp:189-228 | splitting the shuffled peers into guards and others loses and repeats nobody |
| LeaderModel.PeersAre | src/libConsensus/ConsensusLeader.cpp:150-156 | the peers collected are exactly the committed members other than the leader, each once |
| LeaderModel.MembersOnRecord | src/libConsensus/ConsensusLeader.cpp:184-247 | any order of the peers yields enough members, all with a commit point for the subset |
| LeaderModel.RecordKeepsCommitsOk | src/libConsensus/ConsensusLeader.cpp:484-489 | taking a commit keeps counter, bitmap, point map and point list in step |
| LeaderProofs.SubsetConstruction | src/libConsensus/ConsensusLeader.cpp:147-266 | for every shuffle and guard count each subset holds the leader and committed members only, exactly their i-th commit points, and has quorum size if and only if it is not the oversized case of a quorum of one with guards |
| LeaderProofs.SubsetCount | src/libConsensus/ConsensusLeader.cpp:147-170 | one subset runs unless more than one member has committed beyond the quorum, else all; as many challenges are sent, and the commits are cleared |
| LeaderProofs.EarlierFirst | src/libConsensus/ConsensusLeader.cpp:189-262 | a subset takes committed peers in the order of its shuffle, in guard mode the guards among themselves and the others among themselves |
| LeaderProofs.GuardPreference | src/libConsensus/ConsensusLeader.cpp:189-228 | in guard mode the first subset holds a non-guard besides the leader only if it holds every committed guard |
| LeaderProofs.FullSubsetSigns | src/libConsensus/ConsensusLeader.cpp:718-778 | a subset with a quorum of counted responses has them from all its members, so the key aggregated is the one hashed and the signature verifies |
| LeaderProofs.RecordResponseKeeps | src/libConsensus/ConsensusLeader.cpp:718-765 | counting a response keeps counter, bitmap, sums and the verification of every counted response |
| LeaderProofs.ChallengedKeeps | src/libConsensus/ConsensusLeader.cpp:268-336 | challenging a subset establishes its invariant with the leader's own response as the first |
| LeaderProofs.FinishSucceeds | src/libConsensus/ConsensusLeader.cpp:359-378 | finishing a full subset never fails, ends the round and resets every other subset |
| LeaderProofs.AllSubsetsFail | src/libConsensus/ConsensusLeader.cpp:359-378 | subsets that end without a signature put the leader in ERROR exactly with the last one running |
| LeaderProofs.FinishSubsetInv | src/libConsensus/ConsensusLeader.cpp:778-891 | the session invariant holds again after a subset ends its round |
| LeaderProofs.CountResponsesInv | src/libConsensus/ConsensusLeader.cpp:708-891 | the loop over the responses of one message keeps the session invariant |
| LeaderRuns.NothingThrows | src/libConsensus/ConsensusLeader.cpp:1157-1189 | after any run without consensus failure every message and every timer meets the preconditions of the method that takes it, so no access is out of bounds and the run can go on |
| LeaderRuns.StepInv | src/libConsensus/ConsensusLeader.cpp:395-514 | every step short of a consensus failure keeps the session invariant |
| LeaderRuns.StepAdvances | src/libConsensus/ConsensusLeader.cpp:1157-1189 | every step, with all subsets, counters and lists, is a step of the small phase machine, and every signature sent verifies with a quorum of bits |
| LeaderRuns.RunInv | src/libConsensus/ConsensusLeader.cpp:395-891 | in every run without consensus failure the counters, bitmaps and lists agree and every challenged subset keeps its invariant |
| LeaderRuns.RunAdvances | src/libConsensus/ConsensusLeader.cpp:1068-1189 | every run refines the phase machine |
| LeaderRuns.RunMovesForward | src/libConsensus/ConsensusLeader.cpp:77-108 | the leader's state never moves back in a run without consensus failure |
| LeaderRuns.OneSignaturePerRound | src/libConsensus/ConsensusLeader.cpp:359-378 | at most one subset finishes per round: of two signatures the first ends round one, the second round two |
| LeaderRuns.ChallengesOnce | src/libConsensus/ConsensusLeader.cpp:268-336 | one challenge message per round |
| LeaderRuns.SignatureStays | src/libConsensus/ConsensusLeader.cpp:795-832 | CS1/B1 and CS2/B2 are written once and stay what the message said |
| LeaderRuns.RunFollowsScript | src/libConsensus/ConsensusLeader.cpp:789-832 | all messages of a run speak of one announced message, one first signature and the second message built from them |
| LeaderRuns.ScriptGrows | src/libConsensus/ConsensusLeader.cpp:795-829 | what the messages fixed once never changes |
| LeaderRuns.CommitTakenIff | src/libConsensus/ConsensusLeader.cpp:395-514 | a commit is taken if and only if it is of this round, a member's first, genuine, of full length and with right hashes; any other changes nothing |
| LeaderRuns.ResponseFineIff | src/libConsensus/ConsensusLeader.cpp:661-697 | a message of responses is taken if and only if it is of this round, genuine and of a right length; counting it never fails |
| LeaderRuns.ForgedIsIgnored | src/libConsensus/ConsensusLeader.cpp:428-447 | a message that is not from the member it names changes nothing |
| LeaderRuns.GeneratorIsUsed | src/libConsensus/ConsensusLeader.cpp:780-801 | over every run a signature carries a new announcement, the one generated then, if and only if the session was started with a generator, and the leader keeps the signature |
| LeaderObject.ConsensusLeader.constructor | src/libConsensus/ConsensusLeader.cpp:992-1064 | a new leader has only itself committed, with its own points on record |
| LeaderObject.ConsensusLeader.StartConsensus | src/libConsensus/ConsensusLeader.cpp:1068-1155 | announces from INITIAL only, resets the failure counter and opens the commit window if there are several subsets |
| LeaderObject.ConsensusLeader.TakeGuards | src/libConsensus/ConsensusLeader.cpp:191-210 | takes guards in order up to the quorum, or all of them while setting the others aside in order |
| LeaderObject.ConsensusLeader.GuardsThenOthers | src/libConsensus/ConsensusLeader.cpp:189-228 | the two loops build the subset of guards first and others to fill up |
| LeaderObject.ConsensusLeader.ChooseSubset | src/libConsensus/ConsensusLeader.cpp:171-247 | one iteration builds exactly the members the specification names, in order |
| LeaderObject.ConsensusLeader.GenerateConsensusSubsets | src/libConsensus/ConsensusLeader.cpp:147-266 | the loop over reshuffled peers builds all specified subsets and clears the commit data |
| LeaderObject.ConsensusLeader.SetStateSubset | src/libConsensus/ConsensusLeader.cpp:139-145 | raises the state of one subset only, or resets it to INITIAL |
| LeaderObject.ConsensusLeader.GenerateChallengeMessage | src/libConsensus/ConsensusLeader.cpp:592-644 | computes and stores one challenge per subset over its own commits and keys |
| LeaderObject.ConsensusLeader.StartConsensusSubsets | src/libConsensus/ConsensusLeader.cpp:268-336 | moves the leader and all subsets to the challenge state, sends the challenges and adds the leader's responses |
| LeaderObject.ConsensusLeader.CheckCommits | src/libConsensus/ConsensusLeader.cpp:445-467 | accepts if and only if every commit matches its hash, and then returns exactly the commit points in order |
| LeaderObject.ConsensusLeader.ProcessMessageCommit | src/libConsensus/ConsensusLeader.cpp:395-514 | takes a commit exactly when state, sender, number of points and proofs are right and it is the sender's first, and launches the subsets at the quorum |
| LeaderObject.ConsensusLeader.CommitWindowClosed | src/libConsensus/ConsensusLeader.cpp:1118-1151 | at the end of the window launches the subsets with a quorum, or gives up without |
| LeaderObject.ConsensusLeader.ProcessMessageCommitFailure | src/libConsensus/ConsensusLeader.cpp:523-590 | counts a member's first report and announces a consensus failure at n - q + 1 |
| LeaderObject.ConsensusLeader.EndSubset | src/libConsensus/ConsensusLeader.cpp:359-393 | a subset that succeeded resets all others and gives the leader its state |
| LeaderObject.ConsensusLeader.GenerateCollectiveSigMessage | src/libConsensus/ConsensusLeader.cpp:901-974 | aggregates the responses, verifies the signature and only then replaces the message by a new announcement |
| LeaderObject.ConsensusLeader.ProcessMessageResponse | src/libConsensus/ConsensusLeader.cpp:646-891 | counts the responses of one message subset by subset and ends the round with the first subset that is full |
| BackupModel.ScanAnswers | src/libConsensus/ConsensusBackup.cpp:292-342 | a scan over the challenges answers with the k-th secret to the k-th challenge and only if all of them match the message |
| BackupModel.ScanEnds | src/libConsensus/ConsensusBackup.cpp:299-337 | the scan stops at the first entry that does not match or has no secret, whichever comes first |
| BackupRuns.BoundedChanges | src/libConsensus/ConsensusBackup.cpp:73-102 | between consensus failures each state change raises the state, so there are at most ten |
| BackupRuns.RespondsOnce | src/libConsensus/ConsensusBackup.cpp:261-361 | a backup answers at most one challenge per round |
| BackupRuns.CommitOrReport | src/libConsensus/ConsensusBackup.cpp:128-190 | per announcement a backup sends a commit or a failure report, never both |
| BackupRuns.SecretUsedOnce | src/libConsensus/ConsensusBackup.cpp:229-259 | over every run, restarts and several subsets included, no commit secret is behind two responses |
| BackupRuns.Origin | src/libConsensus/ConsensusBackup.cpp:104-191 | every state past INITIAL goes back to an announcement, and past round one to a verified first signature over it |
| BackupRuns.SignsOnlyAccepted | src/libConsensus/ConsensusBackup.cpp:128-190 | over every run, restarts included, each message a backup signs is, or in round two extends, content its validator accepted |
| BackupRuns.AnswersOnlyHashes | src/libConsensus/ConsensusBackup.cpp:299-337 | each challenge a backup answers is the hash of its message with the commit and key that come along |
| BackupRuns.ReportsRejection | src/libConsensus/ConsensusBackup.cpp:128-163 | a commit failure with a given text is sent, and leaves ERROR, if and only if an announcement in INITIAL was rejected with it; a rejection without text is silent |
| BackupRuns.ErrorIff | src/libConsensus/ConsensusBackup.cpp:128-501 | a step leads into ERROR if and only if its message is taken and is rejected, over another message, or does not verify |
| BackupRuns.TakenIff | src/libConsensus/ConsensusCommon.cpp:344-370 | which messages get past gate and state check, state by state |
| BackupRuns.SignatureKept | src/libConsensus/ConsensusBackup.cpp:401-421 | a signature that is taken is kept with its bitmap, and nothing else changes the two |
| BackupRuns.FailureRestarts | src/libConsensus/ConsensusBackup.cpp:192-209 | after a consensus failure the next accepted announcement starts a session with new secrets |
| BackupRuns.SentCommit | src/libConsensus/ConsensusBackup.cpp:228-259 | every commit sent has a point and its hash for each secret drawn in that step, and the flag of its round |
| BackupRuns.CommitsOnce | src/libConsensus/ConsensusBackup.cpp:228-259 | one commit per round |
| BackupRuns.ResponseSecrets | src/libConsensus/ConsensusBackup.cpp:261-361 | a response is computed from the secrets of the same round's commit |
| BackupRuns.DoneMeansVerifiedTwice | src/libConsensus/ConsensusBackup.cpp:389-501 | a backup at DONE verified CS1 on B1 over the announced message and then CS2 on B2 over a message holding that CS1 and B1 |
| BackupRuns.GateShutsOutEarlyDone | src/libConsensus/ConsensusCommon.cpp:344-370 | without the gate a final signature takes a backup from a commit to DONE; with it exactly from the second round |
| BackupObject.ConsensusBackup.constructor | src/libConsensus/ConsensusBackup.cpp:528-560 | a new backup is INITIAL and holds nothing |
| BackupObject.ConsensusBackup.GenerateCommitMessage | src/libConsensus/ConsensusBackup.cpp:229-259 | replaces all secrets by fresh ones and commits to each |
| BackupObject.ConsensusBackup.ProcessMessageAnnounce | src/libConsensus/ConsensusBackup.cpp:104-191 | answers an announcement with a commit or, if its content is refused, with a failure report and ERROR |
| BackupObject.ConsensusBackup.ProcessMessageChallenge | src/libConsensus/ConsensusBackup.cpp:261-361 | the loop checks every challenge, collects the responses and stops at the first mismatch or missing secret |
| BackupObject.ConsensusBackup.ProcessMessageCollectiveSig | src/libConsensus/ConsensusBackup.cpp:389-501 | verifies, stores signature and bitmap, and after round one extends the message and commits again |
| BackupObject.ConsensusBackup.ProcessMessageConsensusFailure | src/libConsensus/ConsensusBackup.cpp:193-211 | resets any state to INITIAL |
| BackupObject.ConsensusBackup.ProcessMessage | src/libConsensus/ConsensusBackup.cpp:564-598 | dispatches on the message type |
| Agreement.SignsOneMessage | src/libConsensus/ConsensusBackup.cpp:261-361 | an honest member, leader or backup, signs at most one message per round |
| Agreement.SecondRoundExtends | src/libConsensus/ConsensusBackup.cpp:460-478 | in the second round an honest member, leader or backup, signs only messages that end in a signature and its bitmap |
| Agreement.RoundOfMessage | src/libConsensus/ConsensusCommon.cpp:176-182 | the challenge hashes no round; where announcements never have the second-round form, an honest signature belongs to the round of its message's form |
| Agreement.SameRoundSameMessage | src/libConsensus/ConsensusCommon.cpp:340-342 | two verifying signatures with t bits each on messages of the same round are on the same message if fewer than 2t - n members are faulty, nobody forges and the rounds are separated |
| Agreement.DoneBackupsAgree | src/libConsensus/ConsensusBackup.cpp:389-501 | two backups at DONE with t bits in B2 each hold the same final message if fewer than 2t - n members are faulty |
| Agreement.ThirdIsTolerated | src/libConsensus/ConsensusCommon.cpp:340-342 | with a tolerance fraction of at least two thirds, a quorum of bits in B2 and less than a third faulty, two backups at DONE hold the same final message |
| Agreement.SecondMessageFixesBitmap | src/libConsensus/ConsensusLeader.cpp:795-801 | equal second-round messages over bases of equal length carry the same base, CS1 and B1 |
| Disagreement.CoSignatureHolds | src/libConsensus/ConsensusBackup.cpp:417-421 | any members of the committee, however few, produce a signature over any message that verifies under the bitmap of just these members |
| Disagreement.OneMemberSuffices | src/libConsensus/ConsensusBackup.cpp:389-501 | for every committee and every accepting backup there is a run of three messages that ends at DONE on any given message with the signatures of a single member |
| Disagreement.DoneBackupsDisagree | src/libConsensus/ConsensusBackup.cpp:389-501 | with 2t - n faulty members or more and two honest ones there is a world of runs with exactly these faults, unforged and with separated rounds, in which two honest backups are DONE with t bits each and different final messages |
| Disagreement.AgreeAtIff | src/libConsensus/ConsensusBackup.cpp:417-428 | backups that are DONE with t bits agree in every world with these faults if and only if fewer than 2t - n members are faulty |
| Disagreement.DoneIsNotAgreement | src/libConsensus/ConsensusBackup.cpp:417-428 | one bit is never enough for agreement, whatever the set of faulty members |
| LeaderProgress.CountingIs | src/libConsensus/ConsensusLeader.cpp:708-765 | a message of responses that fills no subset is counted for each subset on its own, as if the loop went through them in any order |
| LeaderProgress.FillingEnds | src/libConsensus/ConsensusLeader.cpp:708-891 | a message with the last response some subset waits for ends the round |
| LeaderProgress.HighestFilledSigns | src/libConsensus/ConsensusLeader.cpp:708-778 | of several subsets a message fills, the signature of the highest goes out |
| LeaderProgress.RoundEnds | src/libConsensus/ConsensusLeader.cpp:700-891 | a challenged round is over once all members of one subset have sent a response that verifies, in any order and among any other messages |
| LeaderProgress.CommitsEnd | src/libConsensus/ConsensusLeader.cpp:395-514 | a commit phase is over once a quorum has committed or, with several subsets, once the window closes |
| LeaderProgress.LeaderFinishes | src/libConsensus/ConsensusLeader.cpp:395-891 | if no window closes short, a leader that has announced is at DONE after enough commits and answers in both rounds, whatever else it is sent |
| BackupProgress.AnswerIsValid | src/libConsensus/ConsensusBackup.cpp:261-361 | what a backup answers to a challenge passes the leader's check, if the leader holds the commit of the same secret |
| BackupProgress.BackupFinishes | src/libConsensus/ConsensusBackup.cpp:128-501 | an accepting backup that hears one honest leader is at DONE, for good, once announcement, first and second signature have reached it in order |
| Delivery.AcceptedFrom | src/libConsensus/ConsensusLeader.cpp:455-486 | while commits are taken, every point on record for another member was brought by a genuine commit of this round |
| Delivery.ChallengedFrom | src/libConsensus/ConsensusLeader.cpp:147-336 | the same of every point a challenged subset holds, at its own place in the commit |
| Delivery.ChallengeSent | src/libConsensus/ConsensusLeader.cpp:268-336 | the challenge message of the round carries exactly the challenges the subsets keep |
| Delivery.HonestCommitTaken | src/libConsensus/ConsensusLeader.cpp:428-486 | every commit of an honest backup passes all checks and is taken by a leader in that round that does not have it |
| Delivery.SameSecret | src/libConsensus/ConsensusLeader.cpp:718-760 | the commit point a challenged subset holds of an honest member is that of the secret the member answers from |
| Delivery.HonestAnswerCounts | src/libConsensus/ConsensusLeader.cpp:718-760 | the answer of an honest member passes the leader's check for every subset it is in |
| Delivery.HonestLeaderFinishes | src/libConsensus/ConsensusLeader.cpp:395-891 | a leader to whom a quorum of honest backups commits and answers in both rounds is at DONE, whatever else it is sent |
| Delivery.SessionFinishes | src/libConsensus/ConsensusLeader.cpp:1068-1189 | leader and all parties are at DONE once everything is delivered |
| RoundTwo.BackupHoldsLeadersRound | src/libConsensus/ConsensusBackup.cpp:435-478 | a backup in round two holds its leader's CS1 and B1, and its message is the one every round-two challenge is over, with or without a new announcement |
| RoundTwo.HonestBackupNeverFails | src/libConsensus/ConsensusBackup.cpp:261-501 | a backup that hears one honest leader and accepts the content never ends in ERROR and never reads past its secrets, under any delay, loss, repetition or reordering |
| FailureQuorum.ReportsAfterStep | src/libConsensus/ConsensusLeader.cpp:523-590 | how each step changes the count and the map of reports, and exactly when a failure is announced |
| FailureQuorum.CounterCountsReporters | src/libConsensus/ConsensusLeader.cpp:550-556 | in every run, restarts included, the failure counter is the number of distinct reporters since its last reset |
| FailureQuorum.AnnouncedAtThreshold | src/libConsensus/ConsensusLeader.cpp:559-587 | a consensus failure is announced if and only if a report is taken that brings the count to n - q + 1 |
| FailureQuorum.ReportTakenIff | src/libConsensus/ConsensusLeader.cpp:77-108 | a report is taken if and only if it is a member's first on record and the state is none of the five that refuse reports |
| FailureQuorum.EarlierReportersAreRefused | src/libConsensus/ConsensusLeader.cpp:1095-1101 | a new announcement restarts the count, but members on record are refused |
| FailureQuorum.ReportsLeadToFailure | src/libConsensus/ConsensusLeader.cpp:523-590 | if, with those counted, more than n - q members not on record report, a consensus failure is announced before the count restarts |
| FailureQuorum.FirstReportsLeadToFailure | src/libConsensus/ConsensusLeader.cpp:523-590 | after the first announcement, n - q + 1 members who report before round one ends lead to a consensus failure |
| FailureQuorum.QuorumsMeet | src/libConsensus/ConsensusLeader.cpp:1016-1018 | more than n - q reporters and a quorum of committers have a member in common |
| FailureQuorum.HonestNotBoth | src/libConsensus/ConsensusBackup.cpp:128-190 | no honest backup is among both |
| FailureQuorum.CommittersAndReporters | src/libConsensus/ConsensusLeader.cpp:523-590 | committers and reporters overlap in faulty members only, so together they are at most n plus the number of faulty members |
| FailureQuorum.FailureExcludesQuorum | src/libConsensus/ConsensusLeader.cpp:523-590 | an announced failure leaves fewer than q plus the number of faulty members as first-round committers, and so no quorum where none is faulty |
| Amounts.QaRoundTrip | src/libCps/Amount.h:30-39 | any number of Qa survives the trip through Wei if and only if it fits 128 bits |
| Amounts.ApplyMeans | src/libCps/CpsContext.h:40-58 | each tracker operation does what it means on one number if and only if the meaning fits 64 bits |
| Amounts.TrackerRefinesNumber | src/libCps/CpsContext.h:26-67 | over every sequence of operations within 64 bits the two fields stand for one number, the remainder stays below the scale and core gas is the number rounded down |
| Amounts.DecreasesAddUp | src/libCps/CpsContext.h:43-49 | two decreases in Ethereum gas are one |
| Amounts.GasTracker.CreateFromEth | src/libCps/CpsContext.h:28-33 | the new tracker stands for the given Ethereum gas |
| Amounts.GasTracker.TakeCore | src/libCps/CpsContext.h:40-42 | saturating decrease of whole units |
| Amounts.GasTracker.TakeEth | src/libCps/CpsContext.h:43-49 | saturating decrease in Ethereum gas |
| Amounts.GasTracker.GiveCore | src/libCps/CpsContext.h:50-50 | 64-bit increase of whole units |
| Amounts.GasTracker.SetGasCore | src/libCps/CpsContext.h:51-51 | sets the whole units and keeps the remainder |
| Amounts.GasTracker.GiveEth | src/libCps/CpsContext.h:52-58 | 64-bit increase in Ethereum gas |
| Amounts.GasTracker.GetEthGas | src/libCps/CpsContext.h:59-61 | 64-bit conversion back |
| AccountStore.PullShows | src/libData/AccountStore/AccountStoreAtomic.cpp:23-40 | copying an account into the overlay changes nothing in what the overlay shows |
| AccountStore.DecreaseShows | src/libData/AccountStore/AccountStoreCpsInterface.h:65-72 | on what the overlay shows, a decrease is a debit exactly if the account can pay |
| AccountStore.IncreaseShows | src/libData/AccountStore/AccountStoreCpsInterface.h:56-63 | an increase credits an existing account and fails otherwise |
| AccountStore.TransferShows | src/libData/AccountStore/AccountStoreBase.cpp:260-275 | a transfer is a debit and a credit, or nothing, and touches no committed account |
| AccountStore.TransferConserves | src/libData/AccountData/Account.cpp:88-98 | a transfer keeps the total of balances if and only if the credit does not carry out of 128 bits |
| AccountStore.CarryExample | src/libData/AccountData/Account.cpp:88-90 | a transfer of one to an account at the limit changes the total |
| AccountStore.SupplyPreventsCarry | src/libData/AccountStore/AccountStoreBase.cpp:260-275 | with a supply below 2^128 every transfer keeps the total, self-transfers included |
| CpsLoop.StackSplits | src/libCps/CpsExecutor.cpp:354-378 | on a split stack the loop does what the upper part alone does, then hands the last result down, then goes on; a failure leaves the lower part untouched |
| CpsLoop.ResultGoesDown | src/libCps/CpsExecutor.cpp:357-374 | a run that succeeds and pushes nothing hands its result to the run below if that is resumable, which then runs next |
| CpsLoop.LastPushedRunsFirst | src/libCps/CpsExecutor.cpp:357-374 | of several runs pushed the last runs next, with the result of the pushing run if it is resumable |
| CpsLoop.PushedOrder | src/libCps/CpsExecutor.cpp:471-473 | the runs pushed lie in reverse order on what was there |
| CpsLoop.CallReturns | src/libCps/CpsExecutor.cpp:357-374 | whatever a callee runs, the run waiting below gets the callee's last run and result in the world it leaves; a failed callee leaves it waiting |
| CpsLoop.LoopIsRecursion | src/libCps/CpsExecutor.cpp:354-378 | the loop over the explicit stack equals recursive evaluation of calls: same end, same leftover, same number of runs |
| CpsLoop.ExecStable | src/libCps/CpsExecutor.cpp:357-375 | waiting longer does not change how the loop ends |
| CpsLoop.Exec | src/libCps/CpsExecutor.cpp:354-378 | a successful end leaves an empty stack |
| CpsLoop.TransfersConserve | src/libCps/CpsRunTransfer.cpp:38-45 | any stack of transfers, completed or cut short, keeps the total and commits nothing |
| CpsLoop.TransferReports | src/libCps/CpsRunTransfer.cpp:38-45 | a transfer succeeds if and only if there is nothing to move or the sender can pay, and then hands on the result it was given |
| CpsTransactions.ScillaCheckMeans | src/libCps/CpsExecuteValidator.cpp:77-90 | passing means the deposit fits 128 bits and the 128-bit sum is within the balance, both directions |
| CpsTransactions.ScillaCheckGap | src/libCps/CpsExecuteValidator.cpp:77-90 | a sender who cannot pay passes if and only if the sum has carried to within the balance |
| CpsTransactions.ScillaCheckExample | src/libCps/CpsExecuteValidator.cpp:84-85 | an empty account passes with one unit of gas at the highest price and an amount of one |
| CpsTransactions.BothPaidIff | src/libCps/CpsExecuteValidator.cpp:77-90 | past pre-validation the balance covers deposit and then amount if and only if their sum does not carry |
| CpsTransactions.ScillaDepositAndTransferSucceed | src/libCps/CpsExecutor.cpp:111-119 | past pre-validation the whole deposit is taken and the transfer after it succeeds if and only if their sum does not carry |
| CpsTransactions.PlainTransferCommits | src/libCps/CpsExecutor.cpp:113-134 | past pre-validation a plain transfer commits exactly deposit (skipped if it cannot be paid), transfer, refund and nonce, or, if the transfer is refused, the nonce only |
| CpsTransactions.PlainTransferCosts | src/libCps/CpsExecutor.cpp:113-134 | the committed total falls by the price of the gas used, self-transfers included, if and only if deposit and amount do not carry |
| CpsTransactions.PlainReceiptIsExact | src/libCps/CpsExecutor.cpp:126-130 | a transfer that goes through costs what its receipt says if and only if, besides, the limit covers the normal gas or gas is free |
| CpsTransactions.MintExample | src/libCps/CpsExecutor.cpp:111-134 | a sender with one Qa who sends one and claims gas for 2^128 - 1 ends with the price of a unit of gas |
| CpsTransactions.ReceiptExample | src/libCps/CpsExecutor.cpp:126-130 | a transfer with one unit of gas pays one and has fifty on its receipt |
| CpsTransactions.SoundLoop | src/libCps/CpsExecutor.cpp:354-378 | what every run keeps (total of balances, gas limit) the loop keeps |
| CpsTransactions.ScillaFailureCharges | src/libCps/CpsExecutor.cpp:168-197 | a failed contract transaction leaves only the sender's nonce and the fee, or no fee if the balance does not cover it; storage is as before |
| CpsTransactions.ScillaSuccessCharges | src/libCps/CpsExecutor.cpp:177-185 | a successful one commits what its runs show, the refund for the gas left, and one nonce |
| CpsTransactions.ScillaReceipt | src/libCps/CpsExecutor.cpp:161-197 | receipt, refund and fee in terms of the last result: a Scilla result counts core units, an EVM result whole core units in its Ethereum gas |
| CpsTransactions.ContractCosts | src/libCps/CpsExecutor.cpp:88-199 | over all sound runs the committed total falls by exactly the receipt's gas at the gas price if and only if the balance covers the deposit, or on failure the fee |
| CpsTransactions.TransfersAreSound | src/libCps/CpsRunTransfer.cpp:38-45 | runs that are transfers are sound, whoever pays whom, as long as all coins fit 128 bits |
| CpsTransactions.TransfersCost | src/libCps/CpsExecutor.cpp:88-199 | so the exact cost of a contract transaction holds for these with nothing assumed of the runs |
| CpsTransactions.OwedIsCovered | src/libCps/CpsExecuteValidator.cpp:77-90 | which it does past pre-validation whenever deposit and amount do not carry |
| CpsTransactions.EvmCheckMeans | src/libCps/CpsExecuteValidator.cpp:30-69 | passing means that what 128 bits keep of the claim in Qa is within the balance and the limit covers the floor, both directions |
| CpsTransactions.EvmCheckGap | src/libCps/CpsExecuteValidator.cpp:30-48 | a claim beyond the balance passes if and only if it was cut to within it |
| CpsTransactions.EvmCheckExample | src/libCps/CpsExecuteValidator.cpp:41-45 | with the node's scales, an account with 42 Qa passes with a claim of over 2^128 |
| CpsTransactions.EvmCoveredIff | src/libCps/CpsExecuteValidator.cpp:30-48 | past pre-validation deposit and amount are covered if and only if the claim was not cut, but for one balance at the limit |
| CpsTransactions.EvmDepositAndTransferSucceed | src/libCps/CpsExecutor.cpp:380-421 | past pre-validation the deposit is taken in full and a transfer of the amount after it succeeds if and only if the balance covers both |
| CpsTransactions.EvmFailureCharges | src/libCps/CpsExecutor.cpp:279-320 | a failed EVM transaction leaves only the nonce and, if the sender has that much, what 128 bits keep of the fee in Qa |
| CpsTransactions.EvmFailurePays | src/libCps/CpsExecutor.cpp:305-320 | it pays for its gas if and only if the balance covers the fee |
| CpsTransactions.UnpaidExample | src/libCps/CpsExecutor.cpp:305-320 | with the node's scales, a transaction over an account with 42 Qa passes, fails with all its gas used and is not charged for it |
| CpsTransactions.EvmSuccessCommits | src/libCps/CpsExecutor.cpp:298-303 | a successful one commits what its runs show, the nonce, and the refund if its Wei fit 128 bits and the sender exists |
| CpsTransactions.RoundingOnly | src/libCps/CpsExecutor.cpp:423-456 | deposit less refund is within one Qa of the fee if and only if the refund fits |
| CpsTransactions.EvmCosts | src/libCps/CpsExecutor.cpp:201-352 | over all sound runs an EVM transaction costs the receipt's gas at the gas price up to one Qa of rounding: after a failure if and only if the balance covers the fee, after a success with the deposit covered if and only if the refund's Wei fit 128 bits |
| CpsTransactions.RefundExample | src/libCps/CpsExecutor.cpp:431-441 | with the node's scales and floor, a successful transaction that uses half its gas is not charged for what it used, because its refund does not fit and is not paid |
| CpsTransactions.DryRunLeavesNothing | src/libCps/CpsExecutor.cpp:211-297 | an estimate or eth_call never changes the storage, changes the accounts if and only if pre-validation turns it away and the sender exists, and reports its gas and whether it failed |
| CpsTransactions.EstimateTakesNoDeposit | src/libCps/CpsExecuteValidator.cpp:30-69 | an estimate passes if and only if the balance covers its amount and the limit the floor, and takes no deposit |
| CpsTransactions.TurnedAway | src/libCps/CpsExecutor.cpp:94-102 | a transaction that pre-validation stops costs its sender a nonce and nothing else, with no gas on the receipt |
| CpsTransactions.RunsStartWithTheLimit | src/libCps/CpsExecutor.cpp:228-234 | the runs of either kind of transaction start with exactly the gas limit |
| ExecutorObject.CpsExecutor.DecreaseBalanceAtomic | src/libData/AccountStore/AccountStoreCpsInterface.h:65-72 | copies on first access, then debits or refuses |
| ExecutorObject.CpsExecutor.IncreaseBalanceAtomic | src/libData/AccountStore/AccountStoreCpsInterface.h:56-63 | copies on first access, then credits or refuses |
| ExecutorObject.CpsExecutor.TransferBalanceAtomic | src/libData/AccountStore/AccountStoreBase.cpp:260-275 | moves the amount within the overlay, creating the recipient if needed |
| ExecutorObject.CpsExecutor.ProvideFeedback | src/libCps/CpsExecutor.cpp:369-374 | hands a result to the back of the queue if that run can be resumed |
| ExecutorObject.CpsExecutor.ProcessLoop | src/libCps/CpsExecutor.cpp:354-378 | the while loop ends with the specified queue, overlay, storage, gas and result, and buffers the storage first |
| ExecutorObject.CpsExecutor.RunFromScilla | src/libCps/CpsExecutor.cpp:88-199 | pre-validation, deposit, transfer or loop, and settlement give the specified chain |
| ExecutorObject.CpsExecutor.RunFromEvm | src/libCps/CpsExecutor.cpp:201-352 | the same for EVM transactions, estimates and eth_calls |
| ExecutorObject.CpsExecutor.TakeGasScilla | src/libCps/CpsExecutor.cpp:404-420 | takes the Qa deposit, silently not if it cannot |
| ExecutorObject.CpsExecutor.TakeGasEvm | src/libCps/CpsExecutor.cpp:385-402 | takes the Wei deposit on whole core units, silently not if it cannot |
| ExecutorObject.CpsExecutor.RefundGasScilla | src/libCps/CpsExecutor.cpp:443-455 | pays back the core gas left at the Qa price |
| ExecutorObject.CpsExecutor.RefundGasEvm | src/libCps/CpsExecutor.cpp:429-441 | pays back the Ethereum gas left at the Wei price if the product fits 128 bits |
| EvmCache.Continuations.CreateContinuation | evm-ds/src/continuations.rs:46-67 | stores the frame under a new id |
| EvmCache.Continuations.GetContinuation | evm-ds/src/continuations.rs:69-71 | hands the frame out and forgets it, or reports that there is none |
| EvmCache.Continuations.UpdateStates | evm-ds/src/continuations.rs:76-87 | overwrites the slot in every continuation that caches it and adds it to none, unless skipped |
| EvmCache.Continuations.PublishExit | evm-ds/src/evm_server_run.rs:127-136 | the loop over a finished frame's slots patches every continuation with all of them |
| EvmFrames.StepValid | evm-ds/src/evm_server_run.rs:380-411 | frames cache their own contract's slots only, static ones, which never write, none, and waiting ids stay distinct and present |
| EvmFrames.ExitRemoves | evm-ds/src/continuations.rs:69-71 | a frame that goes on has left the table and no other has |
| EvmFrames.SuspendKeepsIff | evm-ds/src/evm_server_run.rs:529-553 | a trap keeps waiting frames current if and only if the frame it suspends agrees with the node |
| EvmFrames.CallKeeps | evm-ds/src/evm_server_run.rs:173-213 | a call trap keeps waiting frames current |
| EvmFrames.CreateKeepsIff | evm-ds/src/evm_server_run.rs:252-307 | a create trap keeps waiting frames current if and only if its frame has no write the node lacks |
| EvmFrames.CreateReadsIff | evm-ds/src/evm_server_run.rs:252-307 | after a create and a call back, the creator's slots read as the creator left them if and only if it had no write the node lacked |
| EvmFrames.CreateExample | evm-ds/src/evm_server_run.rs:252-307 | write, create, call back: the called frame loads 0 from its own slot instead of 7 |
| EvmFrames.ExitKeepsWaitingIff | evm-ds/src/evm_server_run.rs:81-150 | an exit leaves the frames that keep waiting current if and only if what it publishes to them is backed by the node |
| EvmFrames.ExitKeepsIff | evm-ds/src/evm_server_run.rs:81-150 | and the resumed frame equal to the node too if and only if all it publishes is backed |
| EvmFrames.ReturnKeeps | src/libCps/CpsRunEvm.cpp:148-151 | after every successful exit the resumed frame's cache equals the node's storage on every slot |
| EvmFrames.FailKeepsIff | src/libCps/CpsRunEvm.cpp:152-160 | after a failed exit the same holds if and only if the failed frame's cache was backed by the node |
| EvmFrames.FailExample | src/libCps/CpsRunEvm.cpp:152-160 | write, re-enter, overwrite, fail: the outer frame loads the failed value |
| EvmFrames.FailRestoresIff | src/libCps/CpsRunEvm.cpp:152-160 | after a failed exit every slot reads as before the call if and only if, slot by slot, the value left over in caller and node is that one |
| EvmFrames.UntouchedIff | src/libCps/CpsRunEvm.cpp:152-160 | in a world that agrees with the shared storage, what a failed exit leaves is the storage of the call if and only if that storage is untouched but for slots that only the failing frame caches |
| EvmFrames.FailRestoresCleanIff | src/libCps/CpsRunEvm.cpp:152-160 | caches and node are both restored if and only if all was backed and the node agrees with the storage saved at the call |
| EvmFrames.UndoneExample | src/libCps/CpsRunEvm.cpp:233-286 | write, call out, return, fail: the call had applied the write, and the next call loads 7 instead of 0 |
| EvmFrames.AgreesIsObservable | evm-ds/src/evm_server_run.rs:380-411 | all slots agree with the shared storage if and only if the frame of every contract called next loads its own slots right |
| EvmFrames.StepCoherentIff | evm-ds/src/evm_server_run.rs:380-411 | one event keeps worlds coherent with the shared storage if and only if it is gentle: a create without unapplied writes; a failed exit that is backed and before which the storage is what it was at the call, but for slots only the failing frame caches, of which the node has the old value |
| EvmFrames.CoherentIffGentle | evm-ds/src/evm_server_run.rs:380-411 | over every run all worlds are coherent with one shared storage that failures roll back if and only if every event is gentle |
| EvmFrames.CacheIsTransparent | evm-ds/src/evm_server_run.rs:380-411 | in such runs each SLOAD of each frame gives what that storage would |
| EvmFrames.StaticCallKeeps | evm-ds/src/evm_server_run.rs:173-213 | whatever happens inside a static call, node storage, shared storage and all frames outside stay what they were |
| Tracer.NeverEmptied | evm-ds/src/tracing_logging.rs:266-273 | no sequence of events empties a stack that holds a context |
| Tracer.CallBuildsTree | evm-ds/src/tracing_logging.rs:266-281 | the events of a whole call, however nested, attach exactly its tree, with callers as senders and last outputs, and touch nothing else |
| Tracer.HeardIs | evm-ds/src/tracing_logging.rs:275-281 | a listener with tracing off stays empty whatever it is told, one with tracing on replays every event |
| Tracer.LoggingEventListener.PushCall | evm-ds/src/tracing_logging.rs:275-281 | pushes a context sent by the last one, only if enabled |
| Tracer.LoggingEventListener.NoteOutput | evm-ds/src/evm_server_run.rs:464-472 | sets the output of the last context only |
| Tracer.LoggingEventListener.FinishedCall | evm-ds/src/tracing_logging.rs:266-273 | moves the last context into the one below unless it is the only one |
| Codec.EncodeAt | src/common/Serializable.h:67-71 | each byte written is the value shifted right and cut |
| Codec.EncodeKeepsLow | src/common/Serializable.h:58-72 | the bytes written and the part shifted out make up the value |
| Codec.RoundTrip | src/common/Serializable.h:39-72 | decoding what was encoded gives the value modulo 256^width |
| Codec.SetNumber | src/common/Serializable.h:58-72 | the loop grows the destination if needed and writes exactly the bytes of the value at the offset |
| Codec.GetNumber | src/common/Serializable.h:39-55 | the loop adds up exactly the bytes at the offset, and gives zero if they are not there |
| Codec.ReadAfterWrite | src/common/Serializable.h:39-72 | reading back gives the value modulo 256^width, and all other bytes are as before |
| PeerList.Connectivity.OnPeerListRequest | src/cmd/connectivity.cpp:230-243 | the response lists every peer but localhost and the requester |
| PeerList.Connectivity.OnPeerListResponse | src/cmd/connectivity.cpp:245-262 | adds every whole address in the message and nothing else |
| PeerList.PeersArrive | src/cmd/connectivity.cpp:230-262 | a response decodes to exactly the addresses meant for the requester, in whatever order they were visited |

## Left out

- Agreement.SameRoundSameMessage: that nobody forges (`Unforged`: an honest member in the bitmap signed the message in some round) is a hypothesis, because the elliptic-curve library and its hash are outside the repository; that no honest member accepts an announcement of the second-round form (`Separated`) is another, because the validators of announcements are parameters.
- Agreement.ThirdIsTolerated: a quorum of bits in B2 is a hypothesis, because backups do not count the bits they are sent; what holds for other numbers of bits is exact in `Disagreement.AgreeAtIff`.
- Disagreement.DoneBackupsDisagree: the runs are of honest backups that are told different things; they stand for a faulty leader, and who sends what to whom is not part of a world.
- LeaderProgress.LeaderFinishes: that commits and answers arrive is a condition on the run; the network and its timers are not modelled.
- Delivery.SessionFinishes: that everything arrives, that no commit window closes short and that members who do not take part send no genuine commit are conditions on the runs.
- LeaderRuns.RunInv: sessions with a quorum of at least two and without consensus failure; reuse of a leader object after a failure and `RecoveryAndProcessFromANewState` break the session invariants on purpose.
- BackupRuns.SecretUsedOnce: randomness is a parameter of each step, and fresh draws are a hypothesis.
- CpsTransactions.ContractCosts: that a run neither makes coins nor raises gas is a hypothesis on the kinds of runs (`SoundRuns`), since the EVM and Scilla interpreters are not modelled; it is proved for transfers (`TransfersAreSound`).
- CpsTransactions.EvmCosts: says when a successful transaction pays for its gas only if the balance covered its deposit, because otherwise the carries of a skipped or cut deposit and of the refund depend on the balance the runs leave; for transactions whose arguments carry the transaction's own gas limit, as the constructor of a transaction's context sets them (src/libData/AccountStore/services/evm/EvmProcessContext.cpp:90).
- ExecutorObject.CpsExecutor.ProcessLoop: termination of the loop is a hypothesis with a ghost bound on the number of runs, because runs may push further runs without end.
- EvmFrames.CacheIsTransparent: deletes and storage resets are not modelled, nor is the trap of a precompile that calls Scilla (src/libCps/CpsRunEvm.cpp:410), which suspends a frame without applying its writes as a create does.
- EvmFrames.StepValid: that a static frame never writes is a condition on its events; the cited code leaves it to the interpreter and does not pass the static flag on to its substate.
- BackupObject.ConsensusBackup.ProcessMessageCollectiveSig: a bitmap longer than the committee takes the source's iterator past the end, which has no defined result.
- BackupObject.ConsensusBackup.ProcessMessage: the same longer bitmap.
- Codec.GetNumber: widths up to the width of the number type; offsets do not wrap around 32 bits.
- Threads, mutexes and condition variables: one delivered message, one expired commit window and one start are one step each; the tests repeated under a lock are not.
- `Messenger` parsing, signatures on messages and committee lookups: a message arrives parsed, with a flag that says whether its sender is genuine; building messages always succeeds.
- Scalars are integers without the group order; range and infinity tests in signature verification and the `Initialized()` tests on points, hashes and keys are not modelled.
- `PreProcessMessage` and message headers.
- Looking an account up for pre-validation copies it into the overlay in the source; the copy shows nothing new and the next transaction discards it.
- Receipts: only the cumulative gas and the result; no logs, transitions or errors. Statuses are reduced to success or failure after pre-validation.
- The minimum gas limit of a contract creation is a parameter of the transaction.
- EVM memory, machine stacks, logs and accounts in a continuation, and the RPC between node and evm-ds.
- `CallContext` fields that are only copied, the raw tracer and the Otterscan traces.
- Peer status counters, payloads and acknowledgements of the connectivity tool.
- Out of scope: block and header serialisation, the reading of constants, daemons, scripts and the other command-line tools.
