# Verified model of the DFSS cluster

DFSS is a three-node file service. This project models the parts of it whose
correctness is hard to see from the code, and proves what they are for:

* **The Raft engine** (`app/services/consensus.py`): leader election, log replication
  with back-off repair, the current-term commit rule and the application of entries.
* **The login rate limiter** (`app/services/rate_limiter.py`) and the order in which the
  login handler calls it.
* **The slewed clock** (`app/services/time_sync.py`).
* **The last-active-administrator rule** across `app/api/auth.py` and
  `app/services/user_storage.py`.

Run `dafny verify dfyconfig.toml` to check everything.

## How the Raft model is built

| file | what it holds |
|---|---|
| `common.dfy` | options, lists without repetition, and two facts about set sizes |
| `raft_node.dfy` | the fields of one node and, per lock-held block, the function from the fields before to the fields after |
| `raft_service.dfy` | the service as a class with those fields; each method is one lock-held block with the source's branches and loops, and is proved to compute the function |
| `raft_cluster.dfy` | nodes, election threads and messages as one state machine; runs; the two forms of the ordering assumption |
| `raft_invariant.dfy`, `raft_preservation.dfy` | an inductive invariant that needs no assumption on the network |
| `raft_safety.dfy`, `raft_safety_preservation.dfy` | an inductive invariant for the commit-related properties |
| `raft_theorems.dfy` | the properties, each over every run |
| `raft_laws.dfy` | what each message does on every run: when a vote is given, how terms, roles and logs move, what an answer teaches a leader |
| `raft_runs.dfy` | building a run one step at a time |
| `raft_ordering.dfy` | what the ordering assumption amounts to |
| `raft_reordering.dfy`, `raft_small.dfy`, `raft_exact.dfy` | which clusters need the assumption: for every cluster of three or more nodes a run that breaks safety without it, for smaller ones a proof without it, and both together |
| `raft_repair.dfy` | log repair, as an exchange between two nodes and as steps of a run |

A run is any finite sequence of steps. Every lock-held block is one step, so blocks of
different threads and nodes interleave freely. The cluster has any finite, non-empty
membership. A message, once sent, stays in the network: it may be handled late, more
than once, out of order or never. A node that stops takes no more steps. The timeout
step is always possible, from every role, because the source does not look at the role
again after it has taken the lock again (lines 83-87 and 100-104). Any number of
election threads of one node, one per term, may be under way. Data may be submitted to
any node; only a leader takes it.

The history variables (`History`, `Ordering`, and the fields of a message that no
handler reads) record campaigns, votes, each term's leader and its growing log, and
what each node accepted in each term. No step depends on them.

### The ordering assumption

The follower replaces everything after the previous entry (line 300), where section 5.3
of the Raft paper truncates only on a conflict. An append built before, but handled
after, another one of the same term can therefore remove entries that the follower has
already acknowledged. For every cluster of three or more nodes
`RaftReordering.ReorderedAppendsBreakSafety` builds a complete run in which two nodes
then apply different data.

So the commit-related properties assume `InOrder`: no handled append is `Overtaken`,
that is, none is accepted while the follower's log goes on past the append's end with an
entry of the append's own term. The receiver can see this condition before it acts, and
`RaftOrdering.OvertakenExactly` proves that handling an append loses an entry of the
append's own term if and only if the condition holds. `RaftOrdering.FifoIsInOrder`
proves that first-in first-out delivery of appends per term and follower is enough.

Over whole runs, `RaftExact.SafeExactlyWhen` proves that every run of a cluster is safe
if and only if appends are delivered first-in first-out or the cluster has at most two
nodes. For a single run there is no converse: a run with an overtaken append can still
be safe, because the entry it removes may not be committed, may be on a majority without
that follower, or may come back with a later append. Whether it does is decided by steps
that lie after the one in question.

Election Safety, Log Matching, the index bounds, acknowledgement soundness and the
stability properties need no assumption.

## Where the code and its documentation differ

* The comment "Persistent state" on lines 36-39 of `consensus.py` describes fields held
  in memory. The model has nodes that stop, not nodes that restart with fresh fields.
* The repository's README promises Berkeley synchronization; the code takes an offset
  from one leader's clock. The model starts from that offset.
* The repository's README promises no data loss on failures. The code keeps a committed
  entry under the ordering assumption above, not without it.
* `get_remaining_attempts` and `is_rate_limited` are two views of one state, but only the
  second drops expired lockouts. `LimiterRuns.ViewsAgreeIff` says for exactly which
  configurations they agree.

## Model

| member | source | states |
|---|---|---|
| `RaftService.ConsensusService.constructor` | app/services/consensus.py:37-51 | a new node is a follower of term 0 with an empty log and knows its peers |
| `RaftService.ConsensusService.CheckElectionTimeout` | app/services/consensus.py:100-115 | an expired timer starts a campaign whatever the role; what it advertises is the last index and term of the log |
| `RaftService.ConsensusService.ReceiveVoteReply` | app/services/consensus.py:140-148 | a higher term ends the campaign; otherwise the vote counts exactly if granted and the node is still a candidate in the campaign's term |
| `RaftService.ConsensusService.ResetPeers` | app/services/consensus.py:157-160 | the loop sets every peer's next index and clears every match index |
| `RaftService.ConsensusService.FinishElection` | app/services/consensus.py:152-160 | only a candidate still in the campaign's term with more than half of the votes becomes leader |
| `RaftService.ConsensusService.PrepareAppend` | app/services/consensus.py:180-203 | a leader's append carries its whole suffix from the peer's next index |
| `RaftService.ConsensusService.ReceiveAppendReply` | app/services/consensus.py:211-227 | step down, record an acknowledgement and search for a commit, or back up by one |
| `RaftService.ConsensusService.CountHolders` | app/services/consensus.py:236-239 | the loop counts the leader and the distinct peers that hold an index |
| `RaftService.ConsensusService.AdvanceCommitIndex` | app/services/consensus.py:231-243 | the downward loop finds the specified commit index and applies up to it |
| `RaftService.ConsensusService.ApplyCommitted` | app/services/consensus.py:245-250 | the loop appends the data of exactly the newly committed entries, in order |
| `RaftService.ConsensusService.ReceiveRequestVote` | app/services/consensus.py:252-272 | adopts a higher term, grants at most one candidate, and only an up-to-date one |
| `RaftService.ConsensusService.ReceiveAppendEntries` | app/services/consensus.py:274-307 | refuses an old term, truncates at a conflict, otherwise takes the suffix and follows the leader's commit index |
| `RaftService.ConsensusService.CommitUpTo` | app/services/consensus.py:303-305 | commits as far as the leader has and the own log reaches |
| `RaftService.ConsensusService.Submit` | app/services/consensus.py:309-320 | only a leader appends; it answers the index and term of the new entry |
| `RaftNode.CommitTarget` | app/services/consensus.py:231-243 | searching down from any index finds the greatest committable index up to it, or the old commit index |
| `RaftNode.CommitSearchIsGreatest` | app/services/consensus.py:231-243 | the commit search yields the greatest index above the old one that is of the current term and held by a majority, and stays put exactly when there is none |
| `RaftInvariant.BackedMatch` | app/services/consensus.py:288-300 | two logs whose entries all come from their term's leader agree up to any index where their terms agree |
| `RaftInvariant.MajoritiesMeet` | app/services/consensus.py:152-153 | two sets that each pass the majority test share a member |
| `RaftPreservation.AppendEffect` | app/services/consensus.py:288-300 | an accepted append with entries makes the log the sender's log at build time; an accepted empty one shows that that log was a prefix; a refused one only shortens the log |
| `RaftPreservation.StepInv` | app/services/consensus.py:100-320 | the assumption-free invariant is inductive over every step |
| `RaftSafety.CommittedNotBlocked` | app/services/consensus.py:231-243 | a majority acknowledgement meets the voters of every later leader |
| `RaftSafety.LaterLeaderHolds` | app/services/consensus.py:152-160 | every later leader starts with everything the earlier leader's majority acknowledged |
| `RaftSafety.SafePrefixesComparable` | app/services/consensus.py:231-250 | any two committed prefixes are comparable |
| `RaftSafetyPreservation.UpToDateHolds` | app/services/consensus.py:261-268 | a candidate that passes the up-to-date check has every entry the voter holds that may still be committed |
| `RaftSafetyPreservation.WinStart` | app/services/consensus.py:152-160 | a winner starts with every entry of earlier terms that may still be committed |
| `RaftSafetyPreservation.HandleKeepsPrefix` | app/services/consensus.py:292-300 | an append that was not overtaken removes nothing shared with the leader's log |
| `RaftSafetyPreservation.CommittableIsCommitted` | app/services/consensus.py:231-243 | what the counting rule finds has been acknowledged by a majority in the leader's term |
| `RaftSafetyPreservation.FollowCommitApplied` | app/services/consensus.py:303-305 | following the leader's commit index applies only committed entries, and `min` picks the leader's index |
| `RaftSafetyPreservation.StepSafety` | app/services/consensus.py:100-320 | the safety invariant is inductive as long as handled appends are not overtaken |
| `RaftTheorems.ElectionSafety` | app/services/consensus.py:100-163 | two leaders of one term, at any two moments of a run, are the same node |
| `RaftTheorems.VoteWitness` | app/services/consensus.py:252-268 | a recorded vote is one the node really cast: at some moment of the run it was in that term with that vote |
| `RaftTheorems.VotesAreCounted` | app/services/consensus.py:123-148 | the vote counter is one plus the number of distinct peers each of which, at some moment, was in this term with its vote for this candidate |
| `RaftTheorems.LeaderHasMajority` | app/services/consensus.py:150-155 | for every leader there is a majority of nodes each of which, at some moment, was in the leader's term with its vote for the leader |
| `RaftTheorems.LogMatching` | app/services/consensus.py:274-300 | two logs, at any two moments, with the same term at an index are equal up to it |
| `RaftTheorems.LogMatchingInFlight` | app/services/consensus.py:180-203 | the same between a log and an append in flight: matching one carried entry means matching the previous entry and all carried before it |
| `RaftTheorems.LeaderIndexBounds` | app/services/consensus.py:188-194 | next and match indexes stay within the leader's log, so the previous term 0 is never sent for an existing index; an append carries the leader's term, its whole suffix and its commit index |
| `RaftTheorems.AcknowledgementSoundness` | app/services/consensus.py:217-224 | a match index m means the peer had, in the leader's term, a log agreeing with the leader's up to m, whatever the order of replies |
| `RaftTheorems.BuiltWitness` | app/services/consensus.py:180-203 | every append in flight was built by its leader, in its term, from the log recorded with it, with the leader's commit index and the peer's next index at that moment |
| `RaftTheorems.EntriesWereSubmitted` | app/services/consensus.py:309-320 | every entry of every log was submitted to the leader of its term as the entry with that index |
| `RaftTheorems.TermsAndVotes` | app/services/consensus.py:252-268 | terms never fall and within a term a vote once cast never changes |
| `RaftTheorems.LeaderAppendOnly` | app/services/consensus.py:309-315 | within one term a leader's later log extends its earlier one |
| `RaftTheorems.CandidateStable` | app/services/consensus.py:104-112 | a candidate's log still has the last index and term that its vote requests advertise |
| `RaftTheorems.CandidateLogKept` | app/services/consensus.py:104-155 | a node found as a candidate twice in one term has the same log |
| `RaftTheorems.SubmissionSurvives` | app/services/consensus.py:309-320 | a submitted entry stays at its index for as long as the node leads its term |
| `RaftTheorems.LeaderHint` | app/services/consensus.py:283-312 | the leader a node names to clients really led a term that is not later than the node's own; a leader names itself |
| `RaftTheorems.SomeoneIsElectable` | app/services/consensus.py:260-268 | in every non-empty group of nodes that can still vote in a term there is one for which all the others vote |
| `RaftTheorems.StateMachineSafety` | app/services/consensus.py:231-250 | what any two nodes have applied, at any two moments, is prefix-comparable (in-order appends) |
| `RaftTheorems.AppliedInRun` | app/services/consensus.py:245-250 | in every state `last_applied` equals `commit_index`, lies within the log, and `state_machine` is the data of the committed prefix (in-order appends) |
| `RaftTheorems.CommitMonotone` | app/services/consensus.py:292-305 | commit indexes never fall, `state_machine` only grows at the end, no truncation reaches a committed entry (in-order appends) |
| `RaftTheorems.CommitHasMajority` | app/services/consensus.py:231-243 | a leader's commit index rises only to an entry of its term for which a majority of nodes each had, at some moment of that term, the whole log up to it |
| `RaftTheorems.LeaderCompleteness` | app/services/consensus.py:231-243 | what a leader commits is at the same place in the log of every leader of a later term (in-order appends) |
| `RaftTheorems.FollowerCommitSound` | app/services/consensus.py:182-305 | an accepted append with entries makes the follower's log the leader's at build time; the append covers the leader's commit index; exactly up to it is committed, all of it shared (in-order appends) |
| `RaftTheorems.SubmissionIsPermanent` | app/services/consensus.py:309-320 | once its leader has committed a submission, every node that applies that index, at any moment, applies that data (in-order appends) |
| `RaftLaws.StartLaw` | app/services/consensus.py:37-55 | every run starts with followers of term 0 with empty logs that know nothing but their peers |
| `RaftLaws.VoteGivenExactly` | app/services/consensus.py:252-272 | a handled request is granted if and only if its term is not behind, its last entry is at least as new as the log, and the node voted for no other candidate in that term at any earlier moment of the run; otherwise it is refused; the term becomes the larger of the two |
| `RaftLaws.TermLaw` | app/services/consensus.py:104-106 | a node's term is always the larger of its own and the one it reads in a request, append or answer, and grows otherwise only by one when it campaigns; whoever reads a larger term follows without a vote of its own choosing |
| `RaftLaws.LeadsExactly` | app/services/consensus.py:150-160 | a node leads after a step if and only if it has just won, as a candidate of the election's term with more than half of the votes, or led before in the same term; a new leader expects every peer to have its whole log and credits none; an election that is not won changes nothing |
| `RaftLaws.AnswerCountedExactly` | app/services/consensus.py:140-148 | an answer is counted if and only if it is a grant and the node is still a candidate of the campaign's term; an answer of a larger term ends the campaign |
| `RaftLaws.ChangeLaw` | app/services/consensus.py:100-320 | which steps may change a node's log, its committed and applied state, its view of its peers and the leader it names |
| `RaftLaws.AppendAcceptedExactly` | app/services/consensus.py:274-300 | an append is accepted if and only if its term is not behind and the node's log agrees with the sender's up to the previous entry; accepted with entries it makes the log the sender's; refused it cuts the log exactly at the previous entry, which differs from the sender's |
| `RaftLaws.AcceptsAgreement` | app/services/consensus.py:288-294 | comparing one term decides whether two logs agree up to that index |
| `RaftLaws.AnswerLearnt` | app/services/consensus.py:211-227 | an answer to an append of another term, or a success without entries, changes nothing; a success credits the peer, and no other, with the sender's log at build time; a refusal steps back by one |
| `RaftOrdering.OvertakenExactly` | app/services/consensus.py:297-300 | handling an append loses an entry of its own term if and only if the append is overtaken |
| `RaftOrdering.FifoIsInOrder` | app/services/consensus.py:176-194 | first-in first-out delivery of appends per term and follower implies the ordering assumption |
| `RaftReordering.ReorderedAppendsBreakSafety` | app/services/consensus.py:297-300 | in every cluster of three or more nodes there is a run with late appends in which two nodes apply different data |
| `RaftSmall.GrantKeepsLed` | app/services/consensus.py:261-268 | a candidate that a former leader votes for has everything that leader added to its log |
| `RaftSmall.StepSmall` | app/services/consensus.py:100-320 | an invariant of clusters of at most two nodes that every step keeps, whatever the order of appends |
| `RaftSmall.SmallStateMachineSafety` | app/services/consensus.py:231-250 | in a cluster of at most two nodes what any two nodes have applied is prefix-comparable, with no assumption on the order of appends |
| `RaftExact.SafeExactlyWhen` | app/services/consensus.py:231-300 | all runs of a cluster apply one sequence if and only if appends are delivered first-in first-out or the cluster has at most two nodes |
| `RaftRepair.RoundOutcome` | app/services/consensus.py:180-227 | an answered round fails exactly when next_index is past the common prefix; then it backs up by one and keeps the common prefix; otherwise the logs agree and the leader knows it |
| `RaftRepair.RoundCommits` | app/services/consensus.py:182-194 | a successful round, with entries or without, brings the peer's commit index up to the leader's |
| `RaftRepair.RepairConverges` | app/services/consensus.py:188-227 | repair fails exactly next_index minus common-prefix times, never more than next_index times, and then the leader's log is a prefix of the follower's, equal if the last append had entries, and the follower has committed at least as far |
| `RaftRepair.RepairInRun` | app/services/consensus.py:180-227 | from any state of any run the rounds of a repair are steps the run can take: three for each failed round and three for the successful one |
| `RaftRepair.LeaderRepairsPeer` | app/services/consensus.py:180-227 | every leader in any run can, by appends to one peer that is not ahead and their answers alone and with at most next_index failed rounds, reach a state where its unchanged log is a prefix of the peer's; an in-order run stays in order, and the peer has then committed and applied all that the leader had at the start |
| `RaftRepair.LeadersCanRepair` | app/services/consensus.py:180-227 | in every state of every run a leader can so repair every peer whose term is not ahead |
| `Limiter.AuthRateLimiter.constructor` | app/services/rate_limiter.py:24-38 | a new limiter has no attempts and no lockouts |
| `Limiter.AuthRateLimiter.KeepAfter` | app/services/rate_limiter.py:95-95 | the filter keeps, in order, the timestamps after the cutoff |
| `Limiter.AuthRateLimiter.IsRateLimited` | app/services/rate_limiter.py:67-107 | answer and new tables of the check: lockout in force, expired lockout, pruned window |
| `Limiter.AuthRateLimiter.RecordFailedAttempt` | app/services/rate_limiter.py:109-136 | answer and new tables of recording a failure |
| `Limiter.AuthRateLimiter.RecordSuccessfulAttempt` | app/services/rate_limiter.py:138-144 | a success clears the key |
| `Limiter.AuthRateLimiter.GetRemainingAttempts` | app/services/rate_limiter.py:146-158 | zero under a lockout in force, otherwise what the window leaves |
| `Limiter.AuthRateLimiter.Reset` | app/services/rate_limiter.py:160-166 | a reset clears every key |
| `Limiter.KeysAreIsolated` | app/services/rate_limiter.py:67-158 | an operation on one key changes nothing for another and does not depend on it |
| `Limiter.RetryAfterIsExact` | app/services/rate_limiter.py:82-90 | with no call in between, a wait of whole seconds is refused exactly if it is shorter than the returned number |
| `Limiter.RecordIsConsistent` | app/services/rate_limiter.py:130-134 | the same for the number returned by the record call, and the check at once repeats it |
| `Limiter.CheckDecides` | app/services/rate_limiter.py:80-107 | on any tables and for any configuration the check refuses exactly under a lockout in force, or if no lockout is stored and the window holds the maximum, and then it locks out |
| `LimiterRuns.CheckRefines` | app/services/rate_limiter.py:80-107 | the check agrees with a reference limiter that never prunes, and never takes the branch that locks out again |
| `LimiterRuns.RunRefines` | app/services/rate_limiter.py:67-166 | over every run in time order the tables refine the reference limiter |
| `LimiterRuns.AnswersRefineHistory` | app/services/rate_limiter.py:67-158 | all three answers are functions of the failures since the key was last cleared; without a lockout fewer than the maximum are stored |
| `LimiterRuns.ViewsAgreeOnRuns` | app/services/rate_limiter.py:146-158 | if the cooldown is at least the window (or the window is empty), zero remaining attempts means refused and conversely, on every run |
| `LimiterRuns.ViewsDisagree` | app/services/rate_limiter.py:150-158 | otherwise a run on which the two views differ |
| `LimiterRuns.ViewsAgreeIff` | app/services/rate_limiter.py:80-158 | the two views agree on every run if and only if the cooldown is at least the window or the window is empty |
| `LimiterRuns.ServeLogin` | app/api/auth.py:83-128 | the handler checks first, then records a failure, at a second and later reading of the clock, or a success |
| `LimiterRuns.GoodLoginClears` | app/api/auth.py:127-128 | after an admitted good login the key has all its attempts again at every instant, every check admits it, and no other key notices |
| `LimiterRuns.AdmittedSinceCleared` | app/api/auth.py:86-128 | on every run the failures held against a key are those admitted since its last admitted good login or reset |
| `LimiterRuns.CountsSinceCleared` | app/api/auth.py:86-128 | a lockout dates from the latest of these failures; without one the stored attempts are the latest of them, fewer than the maximum, and the others are too old to matter |
| `LimiterRuns.AdmittedFailuresAreSpread` | app/api/auth.py:86-112 | whatever time passes between each check and its record, any max_attempts + 1 admitted failures of a key with no success or reset in between are recorded over a span of at least the smaller of window and cooldown |
| `Clock.NodeClock.constructor` | app/services/time_sync.py:6-8 | offset, target and last returned time start at zero |
| `Clock.NodeClock.GetCurrentNodeTime` | app/services/time_sync.py:20-27 | the reported time and the new last returned time |
| `Clock.NodeClock.FinishSync` | app/services/time_sync.py:105-122 | an offset is accepted exactly within the skew threshold of the current one; only then the target moves |
| `Clock.NodeClock.SlewOnce` | app/services/time_sync.py:154-157 | one pass of the slew loop |
| `Clock.SlewMovesTowards` | app/services/time_sync.py:154-157 | a pass moves towards the target by at most the slew rate and never crosses it |
| `Clock.GapBounded` | app/services/time_sync.py:105-157 | in every interleaving of synchronizations, passes and readings the gap to the target is at most the skew threshold |
| `Clock.SlewConverges` | app/services/time_sync.py:149-158 | with a fixed target the gap is closed after n passes if and only if n passes at the slew rate cover it |
| `Clock.ConvergesInTime` | app/services/time_sync.py:149-158 | ceil(gap / slew rate) passes are enough |
| `Clock.TicksFor` | app/services/time_sync.py:154-157 | the least number of passes at the slew rate that cover a distance |
| `Clock.AlwaysConverges` | app/services/time_sync.py:105-158 | after any run 60 000 passes without a synchronization close the gap |
| `Clock.ReportedTimes` | app/services/time_sync.py:20-27 | reported times strictly increase and after n reports exceed the largest reading shown (or zero) by at most n microseconds |
| `Clock.ReportsExactly` | app/services/time_sync.py:20-27 | a report is exactly what the offset clock shows whenever that is more than zero and than every earlier report, and otherwise the previous report (or zero) plus one microsecond |
| `Clock.TargetIsLatest` | app/services/time_sync.py:105-113 | on every run the target is the offset of the latest synchronization that was within 60 seconds of the offset in use at its time, or zero |
| `Clock.SyncTakesEffect` | app/services/time_sync.py:105-158 | such a synchronization brings the offset in use to within a microsecond of it in 60 000 passes; any other leaves the clock as it was |
| `Accounts.UserStorage.CreateUser` | app/services/user_storage.py:69-123 | a row is added exactly if neither its id nor its username is taken |
| `Accounts.UserStorage.GetUserByUsername` | app/services/user_storage.py:126-145 | finds an account with the name, or none has it |
| `Accounts.UserStorage.GetUserByIdOrUsername` | app/services/user_storage.py:205-212 | the id is looked up first, then the username |
| `Accounts.UserStorage.CountActiveAdmins` | app/services/user_storage.py:215-228 | the number of active administrators |
| `Accounts.UserStorage.UpdateUserRole` | app/services/user_storage.py:231-257 | changes the role of the account found and nothing else |
| `Accounts.UserStorage.UpdateUserStatus` | app/services/user_storage.py:260-286 | changes the status of the account found and nothing else |
| `Accounts.CreateUserAccount` | app/api/auth.py:232-256 | a new account, or a conflict and no change |
| `Accounts.ChangeUserRole` | app/api/auth.py:317-340 | a missing account, a refusal by the guard, or the new role on that account alone |
| `Accounts.SetUserActiveStatus` | app/api/auth.py:400-421 | the same for activation and deactivation |
| `Accounts.GuardIsExact` | app/api/auth.py:326-333 | the handlers' test and count decide exactly whether a change takes away the last active administrator |
| `Accounts.RefusedExactly` | app/api/auth.py:326-416 | a role or status change is refused exactly if it would take away the last active administrator |
| `Accounts.DoneLeaves` | app/api/auth.py:218-416 | a done request leaves the account it stands for with the role or status asked for and otherwise as it was, a created account as given, and every other row untouched; a request that is not done changes nothing |
| `Accounts.RoleIsLatest` | app/api/auth.py:317-335 | on every run an account's role is the one given by the latest done request that gave it one, or the one it started with |
| `Accounts.StatusIsLatest` | app/api/auth.py:400-416 | the same for its status |
| `Accounts.StepKeeps` | app/api/auth.py:218-442 | every request keeps usernames unique, keeps an active administrator if there was one, and removes no account |
| `Accounts.LastAdminSurvives` | app/api/auth.py:317-416 | every sequence of creations, role changes and status changes keeps at least one active administrator |
| `Accounts.IdentifierIsUnambiguous` | app/services/user_storage.py:205-212 | an identifier stands for one account, even if it is one user's id and another's username, and resolving the found id again gives the same account |

## Left out

- RaftTheorems.StateMachineSafety: assumes in-order appends, as do the other members marked so above; without it the property is false in every cluster of more than two nodes (`RaftExact.SafeExactlyWhen`).
- RaftTheorems.LeaderCompleteness: speaks of entries committed by a leader's own count; a follower's commit index only repeats one (`RaftTheorems.FollowerCommitSound`).
- RaftRepair.LeaderRepairsPeer: says that the run can go on by a completed repair, not that it must; submissions, other peers and lost answers in between are other continuations.
- Real time in the Raft engine: timers, the random timeout, heartbeat intervals and whether an election ever ends. A timeout is a step that may happen at any moment.
- Threads, HTTP, JSON, authentication headers and logging in the Raft engine: a message that gets no answer is one that is never handled, and a peer that fails is skipped. `node_status` and the peers' addresses play no part.
- Restart of a node with fresh memory, and changes of membership: the code supports neither for consensus.
- `update_cluster_config` and `get_cluster_config`: range checks on tunables that only affect timing.
- Node names: compared only, so they are numbers. Proposed JSON blocks are opaque texts.
- A clock that runs backwards: the limiter's runs assume that successive clock readings do not decrease, across calls and between the check and the record of one login.
- The limiter's configuration is fixed over a run; the source reads environment variables on every call when it is not given explicitly.
- Floating point in the limiter and the clock: times are reals, so rounding is not modelled.
- `fetch_remote_time`, the sampling loop and the averaging in `perform_sync`: the computed offset is an arbitrary real; each reading of the system clock is a parameter.
- SQLite, bcrypt, JWT and request validation: the users table is a map keyed by id, a login attempt arrives as good, bad or disabled, and rows keep only name, role and status.
- `delete_user`: no route reaches it, so it is not one of the requests.
- `Accounts` handlers run one at a time: they do not give up control between check and update within one process; two processes on one database file are not modelled.
- The health, replication and log services, the replication routes and the frontend: probing, file transfer, ring-buffer and display code with only easy properties.
