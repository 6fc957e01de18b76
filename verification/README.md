# Telcoin Network: a verified model of the node's protocols

A Dafny model of the parts of a Telcoin Network node whose correctness spans many steps: the Bullshark
commit rule, certification, the header proposer, the consensus chain and its followers, the execution
engine, the write-behind database, and the fetchers. Code that updates state in place is modelled by
classes and loops proved against specification functions; the properties are then proved of those
functions over every run, every interleaving and every input.

`dafny verify dfyconfig.toml` checks the whole project.

## What is proved

- **Agreement.** Any two nodes that run Bullshark on certificates of one world have committed sequences of
  which one is a prefix of the other (`Bullshark.NodesAgree`), although each sees certificates in its own
  order, starts from its own supported leaders, garbage collects, and changes its leader schedule under
  way. No certificate is committed twice, and each committed sub-dag is exactly what hangs below its
  leader. `process_certificate`, with its dag, its walks and its depth-first search, is shown to produce
  only such histories, and each of its answers has its exact condition: it commits exactly when the new
  certificate's dag lets the commit rule commit at the round below.
- **The world of certificates.** With faulty stake below the validity threshold, and honest nodes that sign one
  header per author and round and check its parents, the certified headers are such a world
  (`ParentChecks.CertifiedWorld`).
- **End to end.** The subscriber sends the commits in order, numbered and hash-linked by arrival, less those
  whose fetch failed, over every interleaving. Of two nodes that order, number, fetch and execute, the
  executed chain of the one behind is a prefix of the other's exactly when both dropped the same outputs up to
  its end (`EndToEnd.ExecutedChainsAgreeIff`); one failed fetch makes them fork
  (`EndToEnd.FailedFetchForks`). Its saved headers are a gap-free chain exactly when nothing was dropped.
- **Certification.** A vote request reads the earlier vote and writes the new one in two steps, and requests
  interleave. A node votes for one header per author, round and epoch exactly when no request writes a vote
  that the table, read again, would refuse (`Voting.VotesOnceIffNoStaleWrite`); two overlapping requests vote
  twice (`Voting.TwoReadsTwoVotes`). What the certifier assembles is signed by a quorum. With equal voting powers
  it forms a certificate exactly when the proper signers weigh one, whatever else is sent; in general it does
  when they still do without any one of them, and the gap in between is real
  (`Certification.HeavyVoteAfterBadOne`). Below the validity
  threshold of faulty stake, two certificates of one author and round carry the same header. The bound is
  sharp.
- **Proposer.** Within a session no acknowledged digest is lost: what is queued, pending, proposed or committed
  is exactly what was acknowledged. A digest of an earlier session survives a restart exactly when it is in the
  stored header and that header is proposed again. Nothing is carried twice, retransmission is exact, and one
  header is sent per round and epoch exactly when each session's first header is clear of those sent before,
  which for a store that kept the newest header means not below it. A digest with `p` before it in the queue is in
  a header as soon as the new headers made have room for those, for what was put back before it, and for itself
  (`ProposerProgress.TakenInTurn`). A header is made only for a ready round or after the maximum delay, and then
  it is made.
- **Crashes.** Votes and the last proposed header go through the write-behind database. After a crash a node can
  vote or propose twice exactly when a write had not become durable (`Durability.CrashVotesTwiceIff`,
  `Durability.CrashProposesTwiceIff`).
- **Consensus chain.** A follower cannot be steered by its peers: what it emits is a hash chain, fixed by
  the target header. Its saved table is one gap-free chain over every order of catching up, saving, flushing,
  crashing and restarting, and each number is executed once per session, in order. A restart goes on from the
  last executed header exactly when its row had become durable, and otherwise starts over.
- **Execution.** The engine neither loses, reorders nor repeats what the stream yields; its result depends on
  that and not on scheduling; and all blocks it executes form one consecutively numbered chain, each made by
  running its own batch on its parent. Execution stops only where a run fails, digests run out or the tip is
  refused.
- **Storage.** After a crash the durable store is a prefix of the calls at which no transaction was open;
  transactions are atomic; after a clean shutdown nothing is lost if every transaction was committed; ordered
  queries on encoded keys are queries on the typed keys.
- **Certificate store.** After any history of writes, deletions and clearings a certificate is held exactly when
  it was written and since then not deleted, cleared or left more than 64 rounds behind by a write
  (`CertificateHistory.HeldIff`); every row of the index by round leads to its certificate; and the rows of the
  index by origin that lead nowhere are exactly those of certificates deleted and not written since.
- **Fetchers and quorum waiter.** No missing certificate is forgotten, and a target is dropped exactly when the
  store or the garbage-collected round has reached it; the rounds a request skips are those the
  store holds above the garbage-collected one, and its bounds round-trip; a batch fetch leaves exactly what no
  attempt could find.
  Each exit of the quorum waiter has its exact condition: Ok means the threshold was acknowledged and anti-quorum
  that it is out of reach, while a rejection or the timeout can come with the threshold still in reach.

## Modelling choices

Digests are identified with what they are computed from, so distinct contents have distinct digests; where a
fixed-length hash matters, the headers of the chain at hand are assumed not to collide. Signatures are
unforgeable terms. The network, the clock, the EVM and the inner database are parameters that may answer
anything. Select loops and futures become sequences of events in arbitrary order.

Hypotheses, each stated where it is used: the certificates a Bullshark instance is fed exist in a world with
one certificate per author and round, each above round one naming a quorum of the round before (derived by
`ParentChecks.CertifiedWorld`); honest nodes' votes have no stale write; `gc_depth` is positive; the memory write
and the message of one database call are one step and tables are opened before use; executing a batch does not
depend on when it was received; a certificate's digest names its header, of which each slot has one.

Where the code differs from its documentation the model follows the code:

- Nothing keeps vote requests for one author apart, so two can both find no earlier vote
  (`Voting.TwoReadsTwoVotes`).
- A sub-dag whose batches cannot be fetched is logged and skipped, and later ones are still executed
  (`Subscribers.DroppedOutput`, `EndToEnd.FailedFetchForks`).
- The rejection exit of the quorum waiter is taken at the first rejected stake rather than when too much stake
  rejected (`QuorumWaiters.RejectedWhileReachableIff`, `QuorumWaiters.RejectionIsNotFinal`).
- It also counts acknowledged stake twice when it tests whether the threshold is out of reach, so it can go on
  waiting after it is (`QuorumWaiters.GivesUpEarlyIff`, `QuorumWaiters.NoticedLate`).
- A vote that reaches the quorum together with a badly signed one only gets that one dropped
  (`Certification.HeavyVoteAfterBadOne`).
- A proposer that restarts below its stored round can send two headers for one round
  (`ProposerSafety.RestartSafeIffNotBelowStored`).
- Deleting a certificate leaves its row by origin, so its round is still reported as the last one and the newest
  certificate held is not returned (`CertificateHistory.DeletedRoundIsStillLast`,
  `CertificateHistory.LastRoundIsHeldIff`).
- A certificate equal in author and round to one in the dag replaces it before the error is returned
  (`Bullshark.Consensus.TryInsert`).
- A transaction handle that is never committed freezes the durable store
  (`LayeredDb.AbandonedTransactionFreezesDurable`), and a fetcher that cannot read its store keeps targets without a
  task (`CertificateFetchers.BusyIffReadable`).

## Model

| member | source | states |
|---|---|---|
| `Bullshark.NodesAgree` | crates/consensus/primary/src/consensus/bullshark.rs:120-298 | of any two valid nodes' committed sequences one is a prefix of the other |
| `EndToEnd.ExecutedChainsAgreeIff` | crates/consensus/executor/src/subscriber.rs:207-283 | of two nodes that commit with Bullshark, number and link the commits, fetch the batches and execute them from one first block, the one behind has a prefix of the other's blocks iff up to its end both dropped the same outputs |
| `EndToEnd.FailedFetchForks` | crates/consensus/executor/src/subscriber.rs:254-269 | two nodes of which one failed to fetch the second commit, each with two outputs executed, have chains neither of which continues the other |
| `EndToEnd.PartingForks` | crates/engine/src/payload_builder.rs:399-421 | lists of outputs that part company execute to chains neither of which continues the other |
| `Subscribers.SentInOrder` | crates/consensus/executor/src/subscriber.rs:207-283 | over every interleaving of arrivals and fetches, what is sent is the commits in order, numbered and hash-linked by arrival, less those whose fetch failed |
| `Subscribers.RunSaves` | crates/consensus/executor/src/subscriber.rs:254-259 | the saved headers are those of the commits sent, at the numbers of their arrival |
| `Subscribers.EveryCommitAccounted` | crates/consensus/executor/src/subscriber.rs:227-270 | over every run each commit taken is counted, and its output is sent iff its fetch brought the leader and every batch, and saving and sending worked |
| `Subscribers.StopsIff` | crates/consensus/executor/src/subscriber.rs:254-274 | the loop ends iff on shutdown or when an output cannot be saved or sent on |
| `Subscribers.BuiltInCommitOrder` | crates/consensus/executor/src/subscriber.rs:341-391 | digest k of certificate i comes after all those of the certificates before it, and there are no others |
| `Subscribers.ChainIffNoneDropped` | crates/consensus/executor/src/subscriber.rs:254-269 | the table stays a gap-free chain iff nothing was dropped before something saved |
| `Subscribers.DroppedOutput` | crates/consensus/executor/src/subscriber.rs:254-269 | three commits whose second fetch fails: the first and third are sent and the table has a gap |
| `Subscribers.HeadersAreLinked` | crates/consensus/executor/src/subscriber.rs:233-246 | the headers given to the commits are one hash chain with consecutive numbers |
| `Subscribers.Subscriber.constructor` | crates/consensus/executor/src/subscriber.rs:207-225 | starts from the last executed header with nothing pending |
| `Subscribers.Subscriber.OnSubDag` | crates/consensus/executor/src/subscriber.rs:229-249 | the arriving commit gets the next number and the hash of the one before, and its fetch is queued |
| `Subscribers.Subscriber.OnFetched` | crates/consensus/executor/src/subscriber.rs:252-270 | the oldest fetch ends: its output is saved and sent, or logged and dropped, or the loop stops |
| `Subscribers.Subscriber.RunLoop` | crates/consensus/executor/src/subscriber.rs:227-283 | the loop does what the machine does on the events it meets |
| `Subscribers.Fetch` | crates/consensus/executor/src/subscriber.rs:290-391 | an output is built iff the leader is known and every batch was fetched; its digests are those of the certificates in commit order, with the pending header's hash and the leader's nonce |
| `ParentChecks.CertifiedWorld` | crates/consensus/primary/src/network/handler.rs:193-229 | faulty stake below validity, and honest nodes that sign once per slot and only headers whose parents pass, give one certificate per author and round, each naming a quorum of the round before |
| `ParentChecks.VerifyParents` | crates/consensus/primary/src/network/handler.rs:193-229 | the loop passes iff parents are of the round before, not newer, by distinct authors, and weigh a quorum |
| `ParentChecks.HonestSigner` | crates/types/src/committee.rs:184-200 | below the fault bound every certified header was signed by an honest node |
| `EndToEnd.ExecutedChainsAgree` | crates/consensus/executor/src/subscriber.rs:207-283 | in particular one is a prefix of the other when no fetch up to the end of the one behind failed at either node |
| `EndToEnd.OutputsAreAlike` | crates/consensus/executor/src/subscriber.rs:290-391 | one commit fetched by two nodes gives outputs equal but for when batches were received, whoever supplied them |
| `EndToEnd.AlikeExecutes` | crates/engine/src/payload_builder.rs:72-229 | such outputs execute to the same blocks |
| `Bullshark.ValidInLargerWorld` | crates/consensus/primary/src/consensus/bullshark.rs:120-201 | what a node committed stays valid as more certificates come to exist |
| `Bullshark.Consensus.ProcessCertificate` | crates/consensus/primary/src/consensus/bullshark.rs:120-201 | for a certificate of the world the state stays valid and the history grows by exactly the returned sub-dags; every outcome is answered iff its condition on the state before holds, among them Commit iff the certificate is new, of an odd round from three on, and the commit rule can commit at the round below on the dag with it; then the committed round rises and nothing committable is left there; a rival is reported iff its parents are there, having replaced it; otherwise only the certificate is added, or nothing |
| `Bullshark.Consensus.CommitBelow` | crates/consensus/primary/src/consensus/bullshark.rs:134-200 | with the certificate in the dag: each outcome iff its condition, and a commit iff the commit rule allows one |
| `Bullshark.SupportedIffCanCommit` | crates/consensus/primary/src/consensus/bullshark.rs:215-237 | counting the support in the dag decides whether the commit rule can commit there on what the dag holds |
| `Bullshark.KeepsRecent` | crates/consensus/primary/src/consensus/state.rs:198-200 | a commit keeps exactly the certificates less than gc_depth rounds below its leader |
| `Bullshark.Consensus.CommitUntilSettled` | crates/consensus/primary/src/consensus/bullshark.rs:153-165 | retrying on schedule changes ends, with the leader round committed or its elected leader unsupported; something is committed iff the leader was supported at the start |
| `Bullshark.Consensus.CommitLeader` | crates/consensus/primary/src/consensus/bullshark.rs:208-298 | commits iff the elected leader is present and supported; stops early only on a schedule change, having made progress |
| `Bullshark.Consensus.CommitLeaders` | crates/consensus/primary/src/consensus/bullshark.rs:245-297 | each leader committed is the one the commit rule picks next, up to the supported one |
| `Bullshark.Consensus.CommitSubDag` | crates/consensus/primary/src/consensus/bullshark.rs:250-286 | the new state: sub-dag appended, last rounds and gc round raised, dag purged, swap table renewed at the end of a window |
| `Bullshark.Consensus.UpdateState` | crates/consensus/primary/src/consensus/state.rs:175-201 | folding `update` over a sub-dag leaves the committed round at its leader's and the dag purged below the gc round |
| `Bullshark.Consensus.TryInsert` | crates/consensus/primary/src/consensus/state.rs:125-231 | for every certificate: nothing at or below the gc round; an error and no change exactly when parents are missing; otherwise inserted, with the equivocation error exactly when it replaced a different one of its slot, and else whether the author's round is new; never a rival within the world |
| `Bullshark.Consensus.constructor` | crates/consensus/primary/src/consensus/state.rs:50-59 | a fresh node is valid in every world |
| `Bullshark.OrderLeaders` | crates/consensus/primary/src/consensus/bullshark.rs:302-350 | the walk over the dag collects exactly the leaders of the commit rule, lowest round first |
| `Bullshark.Linked` | crates/consensus/primary/src/consensus/bullshark.rs:353-368 | the layer-by-layer search holds iff there is a path |
| `Bullshark.OrderDag` | crates/consensus/primary/src/consensus/utils.rs:10-55 | the search on the node's dag equals the search on the certificates themselves, so it does not depend on what else the node holds |
| `Bullshark.PushParents` | crates/consensus/primary/src/consensus/utils.rs:26-48 | pushes the parents not seen and not done, in order |
| `Bullshark.AncestorsHeld` | crates/consensus/primary/src/consensus/state.rs:204-231 | parent checks on insertion keep every ancestor above the gc round in the dag |
| `Bullshark.CommitKeepsValid` | crates/consensus/primary/src/consensus/state.rs:175-201 | committing what the rule allows keeps the node valid |
| `BullsharkModel.SupportedIsReached` | crates/consensus/primary/src/consensus/bullshark.rs:221-237 | two rounds above a leader with f+1 support, every certificate has a path to it |
| `BullsharkModel.WalkMeetsSupported` | crates/consensus/primary/src/consensus/bullshark.rs:302-335 | walking down from any higher certificate leads through a supported leader |
| `BullsharkModel.NextLeaderIsUnique` | crates/consensus/primary/src/consensus/bullshark.rs:208-298 | after equal histories, any two supported leaders lead to the same next commit |
| `BullsharkModel.LeadersTail` | crates/consensus/primary/src/consensus/bullshark.rs:245-294 | committing the first leader leaves the rest of the list as the list from the new floor |
| `BullsharkModel.LeadersAreElected` | crates/consensus/primary/src/consensus/bullshark.rs:302-335 | every leader to commit was elected for its even round above the committed one and is an ancestor of the supported one |
| `BullsharkModel.NoLeaderSkipped` | crates/consensus/primary/src/consensus/bullshark.rs:308-335 | no elected ancestor of a leader to commit lies between it and the next lower one |
| `BullsharkModel.SearchFinds` | crates/consensus/primary/src/consensus/utils.rs:15-49 | the depth-first search orders exactly what hangs below the leader, each once |
| `BullsharkModel.SubDagIsWhatHangs` | crates/consensus/primary/src/consensus/utils.rs:10-55 | a sub-dag is the certificates reachable by parents not yet done above the gc round, once each, by rising round |
| `BullsharkModel.SortFacts` | crates/consensus/primary/src/consensus/utils.rs:51-54 | the sort is by round, a permutation, and stable |
| `BullsharkModel.Agreement` | crates/consensus/primary/src/consensus/bullshark.rs:120-298 | of two histories of the commit rule the shorter is a prefix of the longer |
| `BullsharkModel.NoDoubleCommit` | crates/consensus/primary/src/consensus/state.rs:35-37 | no certificate is in two sub-dags of a history or twice in one |
| `BullsharkModel.CommittedIsDone` | crates/consensus/primary/src/consensus/state.rs:175-180 | everything committed is at or below its author's last committed round and the committed round |
| `BullsharkModel.DoneIff` | crates/consensus/primary/src/consensus/state.rs:175-180 | a certificate counts as done iff one of its author of that round or later was committed |
| `BullsharkModel.OneFinalPerWindow` | crates/consensus/primary/src/consensus/bullshark.rs:105-111 | of any num_sub_dags_per_schedule consecutive leader rounds exactly one closes a schedule window |
| `BullsharkModel.ActiveTableIsLastWindow` | crates/consensus/primary/src/consensus/bullshark.rs:372-390 | the swap table in force is that of the sub-dags up to the last one that closed a window |
| `BullsharkModel.CommitsAreCausal` | crates/consensus/primary/src/consensus/utils.rs:26-48 | parents above the gc round come in the same sub-dag at a lower round or were done before |
| `Voting.VotesOnceIffNoStaleWrite` | crates/consensus/primary/src/network/handler.rs:278-342 | over every interleaving of reads and writes of requests, at most one vote per author, round and epoch, now and whatever comes next, iff no request writes a vote the table would by then refuse |
| `Voting.TwoReadsTwoVotes` | crates/consensus/primary/src/network/handler.rs:278-338 | two requests that both read before either writes give two votes for one slot |
| `Voting.NoOverlapNoStaleWrite` | crates/consensus/primary/src/network/mod.rs:264 | requests of one author that do not overlap never write stale votes |
| `Voting.FreshVoteIff` | crates/consensus/primary/src/network/handler.rs:278-342 | a new header gets a vote iff no vote of another epoch or of this round or later was cast for its author |
| `Voting.RepeatedIff` | crates/consensus/primary/src/network/handler.rs:293-320 | the header last voted for, and no other, is answered with the same vote again |
| `Voting.VotesAreAdmitted` | crates/consensus/primary/src/network/handler.rs:150-278 | over every schedule a vote is cast only on a request for that header of this epoch that passed the checks before the table is read |
| `Voting.AloneIsReadThenWrite` | crates/consensus/primary/src/network/handler.rs:278-342 | a request handled alone is its read followed by its write |
| `Voting.SafeNowIffCovered` | crates/storage/src/stores/vote_digest_store.rs:20-35 | no single request can produce a second vote for a slot iff the table covers every vote cast |
| `Voting.CrashSafeIffDurable` | crates/storage/src/stores/vote_digest_store.rs:20-35 | with an older table found after a crash, voting once is kept iff no written vote is missing from it |
| `Voting.HonestSignsOncePerSlot` | crates/consensus/primary/src/network/handler.rs:278-342 | with no stale write and its own one header per round, an honest node signs one header per slot |
| `Durability.CrashVotesTwiceIff` | crates/storage/src/lib.rs:93-97 | after a crash of the write-behind store a second vote for some slot is possible iff the durable votes table is behind the one read before |
| `Durability.CrashProposesTwiceIff` | crates/storage/src/stores/proposer_store.rs:19-30 | about to propose for the round of its newest header, a restarted proposer is safe iff that header had become durable |
| `Durability.FoundAfterCrash` | crates/storage/src/stores/proposer_store.rs:19-30 | after a crash the proposer finds a header it stored earlier or none, the last one iff its row is the one read before |
| `Durability.RowsAfterCrash` | crates/storage/src/layered_db.rs:74-141 | after a crash a table holds the rows of the first writes to it, for some number of them, while clients had read all |
| `Certification.VotesAggregator.constructor` | crates/consensus/primary/src/aggregators/votes.rs:30-34 | starts with no votes, no weight and nobody seen |
| `Certification.VotesAggregator.Append` | crates/consensus/primary/src/aggregators/votes.rs:39-108 | repeated authors are refused and change nothing; otherwise the vote is kept, a quorum of good votes becomes a certificate of that weight, and bad ones are dropped at quorum; voters stay distinct and the weight is theirs |
| `Certification.VotesAggregator.TakeIn` | crates/consensus/primary/src/aggregators/votes.rs:52-107 | the outcome of the votes with the new one appended |
| `Certification.ProposeHeader` | crates/consensus/primary/src/certifier.rs:243-339 | a certificate is for this header with a quorum of signers whose votes were of its digest, origin, epoch and round; reused or unknown authorities never end it; uncanceled it is what collecting the replies forms, and with proper signatures it forms iff the voters weigh a quorum |
| `Certification.TakeReply` | crates/consensus/primary/src/certifier.rs:211-237 | one reply is counted iff it is a vote of the peer asked for this header, its author, epoch and round, in the current epoch, and the peer has power |
| `Certification.CheckVoteIff` | crates/consensus/primary/src/certifier.rs:211-237 | the checks pass exactly the votes of the peer asked, for this header, its author, epoch and round |
| `Certification.FormsUnlessOneIsNeeded` | crates/consensus/primary/src/aggregators/votes.rs:39-108 | whatever bad votes come in, a certificate needs proper signers that weigh a quorum, and forms if they do without any one of them |
| `Certification.EqualPowersFormIff` | crates/consensus/primary/src/aggregators/votes.rs:39-108 | with equal voting powers it forms iff the proper signers weigh a quorum |
| `Certification.HeavyVoteAfterBadOne` | crates/consensus/primary/src/aggregators/votes.rs:60-92 | with unequal powers, signers that weigh a quorum can form none: the last vote reached it together with a bad one, which is only dropped |
| `Certification.CollectedIsCertified` | crates/consensus/primary/src/certifier.rs:138-240 | when signatures cannot be forged, what is collected counts as certified |
| `Certification.CertificatesAreUnique` | crates/consensus/primary/src/certifier.rs:266-312 | with faulty weight below the validity threshold, two certificates of one author, round and epoch carry one header |
| `Certification.FaultBoundIsSharp` | crates/types/src/committee.rs:184-200 | at the validity threshold two different headers of one slot can both be certified |
| `Committees.CommitteeInner.constructor` | crates/types/src/committee.rs:295-312 | a new committee is loaded |
| `Committees.CommitteeInner.Load` | crates/types/src/committee.rs:169-200 | the index maps every id to its power and the cached thresholds are those of the total |
| `Committees.CommitteeInner.VotingPowerById` | crates/types/src/committee.rs:379-385 | the power of a member, zero for anyone else |
| `Committees.ThresholdsAreComplementary` | crates/types/src/committee.rs:184-200 | the thresholds are f+1 and N-f and exceed the total by one together |
| `Committees.QuorumsIntersect` | crates/types/src/committee.rs:184-200 | two quorums share at least the validity threshold, for every weight assignment |
| `Committees.QuorumMeetsValidity` | crates/types/src/committee.rs:184-200 | a quorum and a validity set share an authority |
| `ProposerModel.NoDigestLost` | crates/consensus/primary/src/proposer.rs:785-909 | over every interleaving, what is queued, pending, proposed or committed in a session is exactly what the session acknowledged, with the stored header's payload once that is proposed again |
| `ProposerModel.EarlierDigestCarriedIff` | crates/consensus/primary/src/proposer.rs:785-909 | a digest of an earlier session that does not arrive again is carried iff it is in the stored header and that header was proposed again |
| `ProposerModel.RestartLosesAcknowledged` | crates/consensus/primary/src/proposer.rs:802-810 | one acknowledged but not yet in a stored header is gone after a restart |
| `ProposerModel.StepKeepsTracked` | crates/consensus/primary/src/proposer.rs:546-752 | one arm of the loop keeps that, and that a result never overwrites a proposed header |
| `ProposerModel.CollectKeys` | crates/consensus/primary/src/proposer.rs:186-288 | a payload has the digests of its queue segment, each once, and is the segment when nothing repeats |
| `ProposerSafety.OneHeaderPerRound` | crates/consensus/primary/src/proposer.rs:302-325 | across restarts and crashes, when each session's first header is clear of those sent before, no two headers are sent for one round and epoch |
| `ProposerSafety.BootIsOneHeader` | crates/consensus/primary/src/proposer.rs:144-183 | a first start meets the run invariants |
| `ProposerSafety.UnsafeFirstProposalEquivocates` | crates/consensus/primary/src/proposer.rs:625-729 | from a first proposal below the stored round, a schedule that sends a second header for that round |
| `ProposerSafety.RestartSafeIffNotBelowStored` | crates/consensus/primary/src/proposer.rs:302-325 | with the newest header sent still stored, a session keeps one header per round on every schedule iff the round it is about to propose for is not below that header's |
| `ProposerSafety.OneHeaderOverRestarts` | crates/consensus/primary/src/proposer.rs:302-325 | over clean restarts, with every session starting at or above its stored round, one header is sent per round and epoch |
| `ProposerSafety.FirstProposalSafeIffClear` | crates/consensus/primary/src/proposer.rs:625-729 | whatever was found in the store, every schedule sends one header per round iff the first header about to be proposed is clear of those sent |
| `ProposerSafety.CrashSafeIffDurable` | crates/consensus/primary/src/proposer.rs:625-729 | at the newest header's round a session is safe iff that header was found, above it always, below it never |
| `ProposerSafety.RetransmissionIsExact` | crates/consensus/primary/src/proposer.rs:546-616 | after a commit notice the queue is the stale payloads by ascending round, then the old queue; exactly the later headers stay proposed |
| `ProposerSafety.NothingCarriedTwice` | crates/consensus/primary/src/proposer.rs:546-752 | with distinct arrivals queue, pending and proposed headers stay pairwise disjoint |
| `ProposerSafety.FullInformationIsEnough` | crates/consensus/primary/src/proposer.rs:397-424 | with a parent from every authority the vote test passes whatever they voted |
| `ProposerSafety.VoteOutcomesExclude` | crates/consensus/primary/src/proposer.rs:397-424 | with one parent per authority the two vote outcomes exclude each other |
| `ProposerProgress.TakenInTurn` | crates/consensus/primary/src/proposer.rs:683-684 | a digest with p before it in the queue is in a header once the new headers made hold more than p and what was put back before it |
| `ProposerProgress.ParentsDecideReady` | crates/consensus/primary/src/proposer.rs:443-534 | after parents arrive the round and parents are as specified, and the flag says whether the leader is among them (even rounds) or, of their stake, f + 1 names the leader or all but f does not (odd rounds) |
| `ProposerProgress.StakesAreWeights` | crates/consensus/primary/src/proposer.rs:404-424 | with one parent per authority those stakes are the voting power of the authorities that name the leader and that do not |
| `ProposerProgress.FoundFirst` | crates/consensus/primary/src/proposer.rs:378-386 | the leader remembered is the first parent of its origin, none iff there is none |
| `ProposerProgress.ProposesOnlyWhenReady` | crates/consensus/primary/src/proposer.rs:862-909 | in every run a header is made only with parents, and after the maximum delay or for the first or a ready round with enough digests or the minimum delay over |
| `ProposerProgress.ReadyRoundProposes` | crates/consensus/primary/src/proposer.rs:862-909 | and then it is made |
| `ProposerProgress.StartsReady` | crates/consensus/primary/src/proposer.rs:144-183 | a session starts out ready to propose on the genesis certificates |
| `ProposerProgress.DelaysRestart` | crates/consensus/primary/src/proposer.rs:862-906 | a tick sets its flag and only a proposal clears the two |
| `ProposerProgress.HaltsIff` | crates/consensus/primary/src/proposer.rs:736-752 | the loop ends iff a header cannot be stored or sent, and stays ended until a restart |
| `Proposers.Proposer.constructor` | crates/consensus/primary/src/proposer.rs:144-183 | the state a session begins in |
| `Proposers.Proposer.EnoughVotesNow` | crates/consensus/primary/src/proposer.rs:397-424 | the counting loop computes the vote test |
| `Proposers.Proposer.UpdateLeader` | crates/consensus/primary/src/proposer.rs:378-386 | remembers the leader's certificate if it is among the parents |
| `Proposers.Proposer.ProcessParentCerts` | crates/consensus/primary/src/proposer.rs:443-534 | the state after parents arrive, by whether their round is later, equal or earlier |
| `Proposers.Proposer.ProcessCommittedHeaders` | crates/consensus/primary/src/proposer.rs:546-616 | the loops over committed and proposed headers do what retransmission is specified to do |
| `Proposers.Proposer.ProposeNextHeader` | crates/consensus/primary/src/proposer.rs:625-729 | the round is one above the greater of the node's and the bus's; the header is the stored one if that is for it, and otherwise takes the whole queue or exactly the maximum off its front, each digest once |
| `Proposers.Proposer.HandleProposalResult` | crates/consensus/primary/src/proposer.rs:736-752 | the pending header becomes a proposed one |
| `Proposers.Proposer.HandleArm` | crates/consensus/primary/src/proposer.rs:785-880 | one select arm |
| `Proposers.Proposer.RunTurn` | crates/consensus/primary/src/proposer.rs:785-909 | one turn of the loop: an arm, then a proposal when one is due |
| `Proposers.Proposer.StoreAndSend` | crates/consensus/primary/src/proposer.rs:302-325 | the header is stored before it is sent |
| `ConsensusChain.CatchUpFromTo` | crates/state-sync/src/lib.rs:361-430 | what is sent is a hash chain from `from`, each header offered by table or verified reply, executed up to and delivered; success iff it reaches the target; an error names the first test the header for the next number fails |
| `ConsensusChain.RequestConsensus` | crates/state-sync/src/lib.rs:386-403 | the first reply whose certificates verify within four tries, or an error when there is none |
| `ConsensusChain.FetchHeader` | crates/state-sync/src/lib.rs:380-404 | the one header offered for a number, or none |
| `ConsensusChain.TargetFixesTheChain` | crates/types/src/primary/block.rs:37-54 | two chains ending in one header agree number by number down to where the later one started |
| `ConsensusChain.StreamMissing` | crates/state-sync/src/lib.rs:173-220 | exactly the saved headers above the last executed one, in order |
| `ConsensusChain.TablesAgreeBelow` | crates/state-sync/src/lib.rs:109-143 | two saved chains that agree at a number agree below it |
| `ConsensusChain.SavingKeepsChain` | crates/state-sync/src/lib.rs:109-143 | saving a header renews a row of the same digest or extends the chain by one |
| `ConsensusChain.FollowerKeepsOneChain` | crates/state-sync/src/lib.rs:258-293 | over every interleaving of catching up, saving, flushing, crashing and restarting, table, durable table and stream stay one chain |
| `ConsensusChain.SessionExecutesEachOnce` | crates/consensus/executor/src/subscriber.rs:118-190 | a session hands each number above the last executed one to execution once, in order, linked, and saved |
| `ConsensusChain.RestartGoesOnIffDurable` | crates/state-sync/src/lib.rs:145-170 | a restart goes on from the last executed header iff its row had become durable, and else from number one |
| `Execution.FetchBatches` | crates/consensus/executor/src/subscriber.rs:290-391 | succeeds iff the leader is known and every digest was fetched; digests in payload order, batches in the payloads' shape |
| `Execution.CollectDigests` | crates/consensus/executor/src/subscriber.rs:341-348 | the digests in order and the set of them |
| `Execution.Row` | crates/consensus/executor/src/subscriber.rs:362-388 | the batches of one certificate, or a digest that is missing |
| `Execution.AllFetched` | crates/consensus/executor/src/subscriber.rs:362-391 | flattened batches match flattened digests position by position |
| `Execution.ExecuteConsensusOutput` | crates/engine/src/payload_builder.rs:72-229 | the loop inserts the blocks of the specification and stops where it does, which `Execution.ExecutedBlocks` characterises |
| `Execution.BuildBlocks` | crates/engine/src/payload_builder.rs:145-189 | one block per batch, each taking the next digest |
| `Execution.ExecutedBlocks` | crates/engine/src/payload_builder.rs:72-229 | inserted blocks are one chain; block k is the result of running batch k on its own parent, with that batch's index, digest and randomness; success iff every block due is there and the tip is accepted, CommitFailed iff it is refused, BuildFailed iff the run of the next block fails, and a missing digest iff none is left for it |
| `Execution.FetchedOutputExecutes` | crates/engine/src/payload_builder.rs:145-177 | a fetched output never runs out of digests, and each block was made by running the batch fetched for the digest it names |
| `Execution.MixHashesDistinctIffBatches` | crates/engine/src/payload_builder.rs:152-154 | two blocks of an output share randomness iff their batches share a digest |
| `Engines.ExecutorEngine.constructor` | crates/engine/src/lib.rs:103-121 | nothing queued or in flight |
| `Engines.ExecutorEngine.PollEngine` | crates/engine/src/lib.rs:212-299 | one poll, over any answers of stream and task |
| `Engines.ExecutorEngine.LoopPass` | crates/engine/src/lib.rs:227-295 | one pass of the poll loop |
| `Engines.RunReceives` | crates/engine/src/lib.rs:229-253 | over every run the engine takes in exactly what the stream yields in the passes it makes, in order |
| `Engines.ReadyPassExecutesOldest` | crates/engine/src/lib.rs:259-286 | a pass with a finished task executes exactly the oldest output waiting, on the parent; its failure is the answer, and reaching the maximum round ends the loop |
| `Engines.IdlePass` | crates/engine/src/lib.rs:216-253 | with nothing waiting the engine waits, or ends when the stream is closed or on shutdown; with no task finished it only waits |
| `Engines.SmoothPassesDrain` | crates/engine/src/lib.rs:227-295 | without errors each such pass executes one output as long as there are any |
| `Engines.RunKeepsInv` | crates/engine/src/lib.rs:212-299 | over every run, received is executed, in flight, then queued, and the parent is the result of executing the executed outputs in order |
| `Engines.ShutdownIsComplete` | crates/engine/src/lib.rs:216-250 | stopping without error means everything the stream yielded was executed; stopping with one means the next output fails |
| `Engines.ScheduleIndependent` | crates/engine/src/lib.rs:212-299 | equal outputs received lead to the same final block, whatever the schedule |
| `Engines.EnginesAgreeOnPrefixes` | crates/engine/src/lib.rs:127-163 | at any moment the engine behind is where the other was |
| `Engines.EngineBuildsOneChain` | crates/engine/src/lib.rs:259-286 | all blocks executed form one chain ending at the parent, one per batch or empty output |
| `LayeredDb.CrashConsistency` | crates/storage/src/layered_db.rs:74-141 | the durable store is the replay of a prefix ending with no transaction open, and replaying what is in flight gives memory |
| `LayeredDb.RunConsistent` | crates/storage/src/layered_db.rs:74-141 | the invariant over log, queue, open transaction, count and durable store in every run |
| `LayeredDb.TransactionsAreAtomic` | crates/storage/src/layered_db.rs:44-70 | no transaction has calls on both sides of what a crash exposes |
| `LayeredDb.DepthCountsOpenTxns` | crates/storage/src/layered_db.rs:74-131 | the thread's counter is the number of handles open |
| `LayeredDb.AbandonedTransactionFreezesDurable` | crates/storage/src/layered_db.rs:74-131 | after a handle that is never committed, nothing later becomes durable |
| `LayeredDb.RestartRoundTrip` | crates/storage/src/layered_db.rs:156-192 | after a drained shutdown with every transaction committed, reopening gives what clients last saw |
| `LayeredDb.RestartLosesUncommitted` | crates/storage/src/layered_db.rs:74-141 | without that, a write acknowledged to a client can be gone |
| `LayeredDb.ReplayIsNewestWrite` | crates/storage/src/layered_db.rs:206-245 | memory is the plain map: the newest operation on a key decides |
| `LayeredDb.DrainIsARun` | crates/storage/src/layered_db.rs:74-141 | draining the queue is a run of background steps |
| `LayeredDb.LayeredDatabase.OpenHandle` | crates/storage/src/layered_db.rs:179-184 | a handle with empty memory over the durable store |
| `LayeredDb.LayeredDatabase.OpenTable` | crates/storage/src/layered_db.rs:186-192 | memory takes exactly the durable rows of the table |
| `LayeredDb.LayeredDatabase.WriteTxn` | crates/storage/src/layered_db.rs:213-216 | a start message is sent |
| `LayeredDb.LayeredDatabase.InsertRow` | crates/storage/src/layered_db.rs:226-231 | memory written and message sent |
| `LayeredDb.LayeredDatabase.RemoveRow` | crates/storage/src/layered_db.rs:233-238 | memory removed and message sent |
| `LayeredDb.LayeredDatabase.ClearTable` | crates/storage/src/layered_db.rs:240-245 | memory cleared and message sent |
| `LayeredDb.LayeredDatabase.CommitTxn` | crates/storage/src/layered_db.rs:66-70 | a commit message is sent |
| `LayeredDb.LayeredDatabase.DbRun` | crates/storage/src/layered_db.rs:74-141 | the background loop drains the queue as specified |
| `LayeredDb.LayeredDatabase.DropLast` | crates/storage/src/layered_db.rs:156-176 | dropping the last handle shuts the thread down after everything queued |
| `KeyCodec.KeyRoundTrip` | crates/types/src/codec.rs:20-49 | decoding an encoded integer key gives it back |
| `KeyCodec.BytesRoundTrip` | crates/types/src/codec.rs:20-49 | encoding a decoded key gives its bytes back |
| `KeyCodec.EncodingKeepsOrder` | crates/types/src/codec.rs:20-49 | byte order of encoded keys is the order of the integers, and encoding is injective |
| `KeyCodec.PairsSortByParts` | crates/types/src/codec.rs:20-49 | keys with a fixed-width first part sort by parts |
| `MemDb.MemDatabase.LastRecord` | crates/storage/src/mem_db.rs:336-346 | the row of the greatest encoded key, none iff the table is empty |
| `MemDb.MemDatabase.RecordPriorTo` | crates/storage/src/mem_db.rs:315-334 | the row of the greatest smaller encoded key, none iff there is none |
| `MemDb.MemDatabase.SkipTo` | crates/storage/src/mem_db.rs:262-288 | exactly the rows from the key on, ascending |
| `MemDb.LastRowIsGreatestKey` | crates/storage/src/mem_db.rs:336-346 | on integer keys, the last row is that of the greatest key |
| `MemDb.PriorRowIsGreatestSmallerKey` | crates/storage/src/mem_db.rs:315-334 | on integer keys, the prior row is that of the greatest smaller key |
| `MemDb.SkipToIsTypedTail` | crates/storage/src/mem_db.rs:262-288 | on integer keys, skipping gives the entries at or above the key in ascending order |
| `CertificateHistory.HeldIff` | crates/storage/src/stores/certificate_store.rs:128-208 | after any history a certificate is held iff it was written and since then neither deleted, cleared, nor followed by a write more than 64 rounds above it |
| `CertificateHistory.EveryRowLeadsToItsCertificate` | crates/storage/src/stores/certificate_store.rs:323-353 | after any history every row of the index by round leads to a held certificate of its slot, so the invariant violation is never reported |
| `CertificateHistory.StaleIff` | crates/storage/src/stores/certificate_store.rs:273-294 | a row by origin leads nowhere iff its certificate was deleted while held and its slot neither written nor cleared since |
| `CertificateHistory.LastRoundIsHeldIff` | crates/storage/src/stores/certificate_store.rs:437-445 | the round reported as an origin's last is the newest held iff each of its rows that lead nowhere is below a certificate still held |
| `CertificateHistory.NamedIsHeldIff` | crates/storage/src/stores/certificate_store.rs:414-426 | what a row by origin names is held iff the row is not stale, and is of that slot |
| `CertificateHistory.DeletedRoundIsStillLast` | crates/storage/src/stores/certificate_store.rs:273-294 | two rounds written and the second deleted: still reported as the last, not found, and the first not returned |
| `CertificateStores.Open` | crates/storage/src/mem_db.rs:138-150 | the opened tables are empty |
| `CertificateStores.Write` | crates/storage/src/stores/certificate_store.rs:174-188 | on the byte tables, writing is saving under all three keys and collecting what fell 64 rounds behind |
| `CertificateStores.WriteAll` | crates/storage/src/stores/certificate_store.rs:190-212 | the same for a list, collected once by its greatest round |
| `CertificateStores.GcRounds` | crates/storage/src/stores/certificate_store.rs:149-172 | exactly the rows below the target go, with their certificates, although the scan stops at the first row that stays |
| `CertificateStores.Delete` | crates/storage/src/stores/certificate_store.rs:273-294 | a held certificate and its row by round go, its row by origin stays |
| `CertificateStores.Clear` | crates/storage/src/stores/certificate_store.rs:464-477 | all three tables are empty |
| `CertificateStores.AfterRound` | crates/storage/src/stores/certificate_store.rs:323-353 | the certificates named at or after the round in key order, or the violation iff one is not held |
| `CertificateStores.OriginsAfterRound` | crates/storage/src/stores/certificate_store.rs:356-376 | exactly the origins of each round at or above the given one, in key order |
| `CertificateStores.LastRoundNumber` | crates/storage/src/stores/certificate_store.rs:437-445 | the greatest round below the maximum that the index has for the origin |
| `CertificateStores.LastRound` | crates/storage/src/stores/certificate_store.rs:414-426 | the certificate that row names, if held |
| `CertificateStores.KeysSortByParts` | crates/types/src/codec.rs:20-49 | (origin, round) and (round, origin) keys sort by their parts and are injective, for identifiers of any lengths |
| `CertificateFetchers.NeverIdleWithTargets` | crates/consensus/primary/src/certificate_fetcher.rs:137-226 | while the store can be read, at most one task and never targets without one |
| `CertificateFetchers.BusyIffReadable` | crates/consensus/primary/src/certificate_fetcher.rs:233-304 | an event keeps that iff it does not try to start a task with targets over an unreadable store |
| `CertificateFetchers.UnreadableStoreLeavesTargets` | crates/consensus/primary/src/certificate_fetcher.rs:252-255 | a report met by a failed read leaves a target with no task |
| `CertificateFetchers.NotForgotten` | crates/consensus/primary/src/certificate_fetcher.rs:137-304 | a target is chased until the store or the gc round was seen to reach it |
| `CertificateFetchers.ReportIsHandled` | crates/consensus/primary/src/certificate_fetcher.rs:153-198 | a report of this epoch is chased unless the store or the gc round has reached it |
| `CertificateFetchers.DroppedIffReached` | crates/consensus/primary/src/certificate_fetcher.rs:258-275 | over a readable store a target is dropped iff reached, and a task starts iff one is left |
| `CertificateFetchers.TargetsRise` | crates/consensus/primary/src/certificate_fetcher.rs:153-198 | an event changes at most the reporter's target, to a round of this epoch above it and above what is stored |
| `CertificateFetchers.CertificateFetcher.constructor` | crates/consensus/primary/src/certificate_fetcher.rs:97-135 | no targets and no task |
| `CertificateFetchers.CertificateFetcher.Kickstart` | crates/consensus/primary/src/certificate_fetcher.rs:258-304 | exactly the targets are dropped whose origin is stored at or above them, or not stored at all with the gc round there; a task is started iff one is left, its bounds decoding to the rounds held for every authority |
| `CertificateFetchers.CertificateFetcher.KickstartFromStore` | crates/consensus/primary/src/certificate_fetcher.rs:233-304 | the rounds sent are exactly those the store indexes after the gc round, so unless that is the last 32-bit round no distance wraps |
| `CertificateFetchers.CertificateFetcher.Handle` | crates/consensus/primary/src/certificate_fetcher.rs:137-226 | one pass of the loop, with every reason to ignore a report |
| `CertificateFetchers.CollectRounds` | crates/consensus/primary/src/certificate_fetcher.rs:236-251 | the rounds held of each origin, with an entry for every authority |
| `CertificateFetchers.BoundsRoundTrip` | crates/network-types/src/request.rs:45-91 | decoding encoded bounds gives them back, for every map of 32-bit rounds |
| `CertificateFetchers.NoUnderflowIff` | crates/network-types/src/request.rs:79-82 | the encoded number is the plain difference iff the round is not below the bound |
| `BatchFetchers.BatchFetcher.Fetch` | crates/consensus/worker/src/batch_fetcher.rs:30-82 | found and remaining partition the request across retries; what remains is exactly what no attempt could find in a readable store or a reply; remote batches are requested ones under their own digest, and persisted |
| `BatchFetchers.BatchFetcher.FetchLocal` | crates/consensus/worker/src/batch_fetcher.rs:84-105 | exactly what the store holds of the digests |
| `BatchFetchers.BatchFetcher.SafeRequestBatches` | crates/consensus/worker/src/batch_fetcher.rs:108-129 | every batch of the reply under the digest computed from it |
| `BatchFetchers.BatchFetcher.Persist` | crates/consensus/worker/src/batch_fetcher.rs:55-75 | exactly the replies still wanted are stamped, kept and stored |
| `QuorumWaiters.VerifyBatch` | crates/consensus/worker/src/quorum_waiter.rs:142-218 | the loop ends as specified, each answer given at the first point where its guard holds in the order of the checks |
| `QuorumWaiters.EndsOnce` | crates/consensus/worker/src/quorum_waiter.rs:142-218 | a run has one end, so the guard of each exit is its exact condition |
| `QuorumWaiters.AnswersAreSound` | crates/consensus/worker/src/quorum_waiter.rs:182-207 | Ok only with the threshold acknowledged, anti-quorum only when it is out of reach |
| `QuorumWaiters.OkIffEnoughAcks` | crates/consensus/worker/src/quorum_waiter.rs:182-207 | without rejections or timeout, Ok iff the acknowledged stake suffices |
| `QuorumWaiters.GivesUpEarlyIff` | crates/consensus/worker/src/quorum_waiter.rs:213-217 | before the answers end, anti-quorum is answered iff own stake, twice the acknowledged and the outstanding fall short of the threshold |
| `QuorumWaiters.NoticedLate` | crates/consensus/worker/src/quorum_waiter.rs:213-217 | a run that goes on although the threshold is out of reach |
| `QuorumWaiters.RejectionExit` | crates/consensus/worker/src/quorum_waiter.rs:166-212 | when the rejection exit is taken, in wrapping 64-bit arithmetic |
| `QuorumWaiters.RejectedWhileReachableIff` | crates/consensus/worker/src/quorum_waiter.rs:166-212 | a run is ended as rejected with the threshold still in reach iff some stake was rejected, the peers' stake does not fall short of the threshold by that much, and own stake with what is neither rejected nor failed still makes it |
| `QuorumWaiters.RejectionIsNotFinal` | crates/consensus/worker/src/quorum_waiter.rs:208-212 | a run of the loop that ends as rejected at the first of three answers although the other two make the threshold |

## Left out

- The libp2p network, gossip, dialing and codecs, the EVM and state roots, cryptography, and the RPC layer.
- Command line, configuration, genesis files, keys, metrics, the task manager and batch building.
- Recovery of a Bullshark dag from the certificate store, reputation scores and the weighted leader election itself: the leader is an arbitrary function of the committed sub-dags the active swap table was computed from.
- How certificates received from peers are verified and accepted in causal order; payload availability checks before a vote.
- Which header survives cancellation in the certifier.
- Certification.FormsUnlessOneIsNeeded: with unequal powers, whether a certificate forms from signers of whom one is needed for the quorum depends on the order in which good and bad votes come, and is not characterised further.
- Header numbering in the active subscriber right after replaying missing headers, and node mode switching.
- Concurrent writers of one key in the layered database, broadcast lag, timeouts, delays and wake-up liveness.
- Of the certificate store: deleting lists, the last two rounds, the next round of an origin, and waiting readers.
- Bullshark.Consensus.ProcessCertificate: a certificate that is neither of the world nor a rival of one in the dag is not covered; `Bullshark.Consensus.TryInsert` covers every certificate.
- Subscribers.Subscriber.OnSubDag: a closed header channel ends the loop like the shutdown signal, and the bound on pending fetches is left to the order of events.
- Proposers.Proposer.HandleArm: closed channels and shutdown are one halting outcome.
- QuorumWaiters.VerifyBatch: stake sums are unbounded integers; only the two subtractions that wrap in the source wrap here.
- Committees.CommitteeInner.Load: sums of voting power are unbounded integers, so 64-bit overflow of a total is not modelled.
- LayeredDb.RestartRoundTrip: inner commits are atomic and do not fail.
- CertificateStores.LastRoundNumber: a certificate of the maximum 32-bit round is not found, as in the source.
- Execution.FetchBatches: the worker's reply is one map; how it is fetched is `BatchFetchers.BatchFetcher.Fetch`.
