# Verified models of the course repository

Dafny models of the protocols and pipelines in this repository, with proofs of what they
keep, lose and bound. Each system is one or two modules:

- `VersionedStore`, `PeerQuery`, `LeaderFollower`, `Linearizability`, `ReorderedRead`,
  `Acknowledged`, `Outages`, `LeaderHandlers`, `Freshness`, `Awaiting`, `Leaderless`,
  `LeaderlessHistory`, `Agreement`: the replicated key-value store of hw10. The store and the
  handlers are a class and methods; the nodes, messages, losses, reads and acks form a machine whose runs are
  arbitrary lists of events (an event that is not enabled changes nothing). A message may also be
  applied after its send has failed. `Freshness` and `Agreement` say exactly when reads through the
  leader are fresh and when all nodes of the leaderless mode come to agree, and `Awaiting` what a
  client can do about it. `PeerQuery` decodes the URL with which the leader asks a follower.
- `FailFast`, `HungRankers`, `BreakerRuns`: circuit breaker, bulkhead and ranker timeout of the midterm, as classes and as a
  machine of many concurrent callers with one integer clock.
- `Text`, `Counting`, `GoMapReduce`, `PyMapReduce`, `Keys`: both word-count pipelines of hw4, from
  splitter to reducer, and the object keys that connect the Go services.
- `AlbumTables`, `AlbumRuns`, `AlbumContents`, `AlbumDeletes`: album-store's tables, bucket, queue and
  handlers as classes and methods, and all interleavings of uploads, workers and deletes.
- `Counter`: the racy and the atomic counter of hw3.
- `Carts`: the MySQL and DynamoDB shopping carts of hw8.

`Common` holds a few shared definitions. `dafny verify dfyconfig.toml` checks everything.

Where the code and its own words disagree, the models follow the code:

- hw10/README.md:124 says that followers accept the incoming version. `Store.Set` takes the larger
  of the incoming version and local + 1, so a follower keeps the leader's versions exactly if a key's
  messages arrive in increasing order (`FollowerKeepsVersionsIffInOrder`).
- hw10/docker/compose-lf-quorum.yml:3 concludes strong consistency from overlapping quorums. A
  follower that gets version 2 and then version 1 holds the old value as version 3, above the
  leader's (`ReorderedQuorumReadIsStale`). Reads are fresh exactly if the followers they ask received
  the key's writes in order (`ReadsAreFreshIffInOrder`; `ReadsAreFreshIff` with losses and for all
  keys). A client gets that by awaiting the ack of each write to a key before the next, in every mode
  but w1r5 (`AwaitingSufficesIff`), as long as no failed send is applied late after all
  (`AwaitingAloneSufficesIff`).
- The leader puts a key into the URL of its request to a follower without escaping it
  (hw10/internal/leader/handler.go:258), so the follower may hear another key: of "x#1" it hears "x".
  A key is heard as it is exactly if it has none of `# & + % ;`, blank and control characters
  (`HeardAsItIsIffPlain`). Through followers exactly the keys that are heard as they are, or not at
  all, are read linearizably (`KeyReadsLinearizableIff`).
- midterm/src/main.go:109 and :117 speak of one request in the half-open state. `Allow` lets every
  caller through there, so the load bound carries the bulkhead's capacity, not 1. A late success also
  moves the breaker from Open to Closed. Both are ruled out exactly if the bulkhead has at most one
  slot (`ProbesAloneIffOneSlot`, `NoLateSuccessIffOneSlot`).
- The Go splitter moves words away from chunk ends so that they stay whole, but it drops a word that
  straddles a boundary from both chunks; the pipeline result is therefore not the plain word count
  (`TextWithoutItsWord`), and the theorems say exactly what is missing.
- album-store/REPORT.md:67 asks for unique, increasing sequence numbers. A PUT of an album replaces
  the item without `photo_count`, and so numbers repeat exactly if a PUT lies between two increments
  (`NumbersRepeatIffPutSeparates`, with a run in `PutRepeatsANumber`).
- An upload whose record was stored but reported an error leaves a record that stays processing with
  no job. The records left processing by a drained pool are exactly those that such an error, or a
  failed final update, left stuck (`ProcessingIffJobOrStuck`).
- A DELETE in album-store can leave the photo's object behind (`DeleteCanOrphanObject`). A deleted
  object can come back exactly while an upload of the photo is pending (`ObjectReturnsIffPending`),
  which a caller rules out by deleting only photos that have left processing.
- hw10's leaderless nodes can disagree for good after overlapping writes. A new write wins everywhere
  exactly if no earlier write with another value was under way to some node (`NewWriteWinsIff`).
- An acknowledgement counts sends that returned, not sends that arrived: in every mode of hw10 a write
  can be acknowledged where no other node got it (`AckedWhereFollowersAreDown`,
  `AckedWhereOthersAreDown`). The ack floors therefore assume that nothing is lost.
- hw3/regular.go:20 has a `#` comment, which is not Go; the model is of the intended loop.
- In quorum mode with fewer than two peers the code panics on `peers[:2]`; in the model such a
  write is never acknowledged and such a read never answered (`TooFewFollowersBlock`).

## Model

| member | source | states |
|---|---|---|
| `VersionedStore.Store.Set` | hw10/internal/store/store.go:34-59 | the entry becomes the new value under max(old + 1, incoming), an absent key counting as 0; every other key is unchanged and the version rises |
| `VersionedStore.Store.Get` | hw10/internal/store/store.go:62-72 | the entry, or none exactly if the key is absent |
| `VersionedStore.ClosedForm` | hw10/internal/store/store.go:34-59 | after k calls the version is the maximum of start + k and every incoming version plus the number of later calls |
| `VersionedStore.VersionsStrictlyIncrease` | hw10/internal/store/store.go:34-59 | every call raises the version, whatever versions come in |
| `VersionedStore.FollowerFinalVersion` | hw10/internal/store/store.go:47-57 | versions 1..n once each, in any order, end in n..2n-1: at n iff in increasing order, at 2n-1 iff n came first |
| `VersionedStore.FollowerFidelity` | hw10/internal/leader/handler.go:335-346 | the same for a follower's store, with messages of other keys in between; it holds the value of the write that arrived last, which is the latest value iff that write arrived last (unless an earlier write had the same value) |
| `VersionedStore.ReplayVersion` | hw10/internal/leader/handler.go:335-346 | with messages of all keys mixed, a key's version depends only on the versions that arrived for it |
| `VersionedStore.KeepsIncomingVersionsIffInOrder` | hw10/internal/store/store.go:47-57 | a receiver stores every message under the version it carried iff each key's messages came in increasing order |
| `LeaderHandlers.HandleSet` | hw10/internal/leader/handler.go:83-101 | status for each kind of request, and the message sent on carries the version the leader has just stored |
| `LeaderHandlers.HandleReplicate` | hw10/internal/leader/handler.go:335-346 | the follower's store after a message |
| `LeaderHandlers.CollectQuorum` | hw10/internal/leader/handler.go:215-254 | the answer is the first entry of some order by descending version of the replies that found the key |
| `LeaderHandlers.AnswersAreNewest` | hw10/internal/leader/handler.go:245-254 | an entry can be that answer iff it is among the replies and none has a higher version; no answer iff no reply found the key |
| `PeerQuery.HeardAsItIsIffPlain` | hw10/internal/leader/handler.go:257-270 | the follower hears the leader's key as it is iff the key has no character that the unescaped URL gives a meaning of its own |
| `PeerQuery.UnescapeEscape` | hw10/internal/leader/handler.go:257-270 | decoding inverts percent-encoding, for every string of bytes |
| `PeerQuery.EscapedIsHeard` | hw10/internal/leader/handler.go:257-270 | had the leader escaped the key, every key of bytes would be heard as it is |
| `PeerQuery.PlusIsHeardAsBlank` | hw10/internal/leader/handler.go:257-270 | a plus sign is heard as a blank, every other plain character as itself |
| `PeerQuery.PercentIsHeardAsByte` | hw10/internal/leader/handler.go:257-270 | a percent sign with two hexadecimal digits is heard as that byte |
| `PeerQuery.HexInEitherCase` | hw10/internal/leader/handler.go:257-270 | hexadecimal digits are understood in either case |
| `PeerQuery.NotHeardIff` | hw10/internal/leader/handler.go:257-270 | a key is not heard at all iff a blank or control character stands before its first number sign, or after it a percent sign that begins no escape |
| `LeaderHandlers.FetchFromPeer` | hw10/internal/leader/handler.go:257-270 | the reply is the follower's entry under the key it hears, if the request reaches it |
| `LeaderHandlers.HandleGet` | hw10/internal/leader/handler.go:172-211 | status and entry of a client read in each mode from the leader's store and those of the asked followers |
| `LeaderFollower.InvHolds` | hw10/internal/leader/handler.go:83-165 | in every run, in any delivery order and with losses: the leader is an atomic register per key, followers are the replay of what arrived, and what arrived was sent, at most once |
| `LeaderFollower.FollowerKeepsVersionsIffInOrder` | hw10/internal/leader/handler.go:335-346 | in every run a follower keeps the leader's versions iff its arrivals were in order |
| `LeaderFollower.FollowersInHistory` | hw10/internal/leader/handler.go:335-346 | if a key's messages reached a follower in order, losses allowed, its entry is the leader's history at its version, whatever happened to other keys and followers |
| `Linearizability.ReadsAreLinearizable` | hw10/internal/leader/handler.go:172-254 | every answered read returns what the leader held at a moment between its begin and end, in all modes, if the key is not misheard and the followers that the mode asks received its messages in order |
| `Linearizability.ReadsAreMonotone` | hw10/internal/leader/handler.go:172-254 | under the same premise a read that begins after another ended never returns an older version |
| `Linearizability.ReadsSeeEarlierWrites` | hw10/internal/leader/handler.go:172-254 | under the same premise a read returns at least the version of every write the leader made before it began |
| `Linearizability.ReadVersionsAreFresh` | hw10/internal/leader/handler.go:172-254 | even with reordering and losses a read's version is at least the leader's when it began |
| `Linearizability.AnsweredReadsAsked` | hw10/internal/leader/handler.go:172-201 | an answered read has asked no follower in w5r1 mode, all of them in w1r5 mode and exactly the first two in quorum mode |
| `Linearizability.OneEntryPerNode` | hw10/internal/leader/handler.go:215-243 | a read collects at most one entry from the leader and one from each follower it asked |
| `ReorderedRead.ReorderedQuorumReadIsStale` | hw10/docker/compose-lf-quorum.yml:3 | a quorum run with nothing lost and both writes acknowledged, in which a later read returns the older value under a version the leader never held |
| `Acknowledged.AckFloor` | hw10/internal/leader/handler.go:103-142 | with no loss and any order: after a write is acknowledged every follower, in w5r1 mode, and the first two, in quorum mode, have at least its version, then and for ever |
| `Acknowledged.AckNeedsReturnedSends` | hw10/internal/leader/handler.go:103-142 | an ack goes out iff the sends to all followers in w5r1 mode, or to the first two in quorum mode, have returned; in w1r5 mode at once |
| `Acknowledged.OnlyAcksAcknowledge` | hw10/internal/leader/handler.go:103-124 | no other step acknowledges a write |
| `Acknowledged.FirstTwoComeFirst` | hw10/internal/leader/handler.go:108-117 | in quorum mode a send to a third or later follower returns only after those to the first two |
| `Outages.AckedWhereFollowersAreDown` | hw10/internal/leader/handler.go:157-165 | in every mode, from every reachable state, a write can be acknowledged although no follower got it, since a failed send is only logged |
| `Outages.AnsweredWhereFollowersAreDown` | hw10/internal/leader/handler.go:215-270 | in every mode, from every reachable state, a read can be answered with the leader's own entry although no follower answers |
| `Outages.RequestsHaveKeys` | hw10/internal/leader/handler.go:83-98 | in every run no write or read of the empty key is taken |
| `Freshness.WholeReadAnswers` | hw10/internal/leader/handler.go:172-254 | an uninterrupted read returns the first entry of the sort of the leader's and the asked followers' entries |
| `Freshness.RepliesPerMode` | hw10/internal/leader/handler.go:172-201 | what an uninterrupted read collects, written out per mode: the leader's entry alone, with that of every follower, or with those of followers 0 and 1 |
| `Freshness.ReadsAreFreshIff` | hw10/internal/leader/handler.go:172-270 | in every run and for every key, every uninterrupted read returns the leader's entry iff what each asked follower received of the key it hears is behind the leader, or at its version with its value |
| `Freshness.ReadsAreFreshIffInOrder` | hw10/docker/compose-lf-quorum.yml:3 | when the asked followers have all writes to a plain key, every uninterrupted read of it returns the leader's entry iff each of them received the writes in version order |
| `Awaiting.AwaitedWritesReadLinearizably` | hw10/internal/leader/handler.go:103-142 | in w5r1 and quorum mode, if each write to a key begins after the earlier ones to it were acknowledged and none of its failed sends may still be applied, every read of the key is linearizable unless it is misheard, losses and reordering elsewhere allowed |
| `Awaiting.AwaitingSufficesIff` | hw10/internal/leader/handler.go:103-142 | with no failed send applied late, awaiting acks makes all reads of keys that are not misheard linearizable iff the configuration is not w1r5 with followers |
| `Awaiting.AwaitingAloneSufficesIff` | hw10/internal/leader/handler.go:157-165 | with failed sends that may be applied late, it does so iff reads ask no follower, or more than there are |
| `Awaiting.LateStaleRun` | hw10/internal/leader/handler.go:157-165 | a quorum run in which a write is acknowledged after its sends failed, is applied after the next one, and is read |
| `Awaiting.KeyReadsLinearizableIff` | hw10/internal/leader/handler.go:257-270 | where reads ask followers: all runs with awaited, lossless, ordered writes read a key linearizably iff followers hear the key as it is or hear nothing |
| `Awaiting.MisheardExample` | hw10/internal/leader/handler.go:257-270 | a quorum run that answers a read of "x#1", never written, with the value of "x" |
| `Awaiting.TooFewFollowersBlock` | hw10/internal/leader/handler.go:103-119 | in quorum mode with fewer than two followers no write is acknowledged and no read answered |
| `Leaderless.HandleSet` | hw10/internal/leaderless/handler.go:64-97 | status for each kind of request, and the message carries the version just stored at the coordinator |
| `Leaderless.HandleGet` | hw10/internal/leaderless/handler.go:114-133 | a read is served from this node's store alone |
| `Leaderless.HandleReplicate` | hw10/internal/leaderless/handler.go:144-157 | the peer's store after a message |
| `Leaderless.HappensBeforeOrdersVersions` | hw10/internal/leaderless/handler.go:64-97 | along any chain of writes to a key, each applied at the next one's coordinator before it was issued, versions strictly grow |
| `LeaderlessHistory.SeenAreAppliedBefore` | hw10/internal/leaderless/handler.go:64-157 | the writes that a write has seen are exactly those that its coordinator took from clients or got by message before it |
| `LeaderlessHistory.AckedWhereOthersAreDown` | hw10/internal/leaderless/handler.go:80-108 | from every reachable state a write can be acknowledged although it reached no other node |
| `LeaderlessHistory.WritesHaveKeys` | hw10/internal/leaderless/handler.go:75-78 | in every run no write of the empty key is taken |
| `Leaderless.VersionsBounded` | hw10/internal/leaderless/handler.go:64-157 | no stored or sent version exceeds the number of `Set` calls on its key over all nodes |
| `Leaderless.DeliveredVersionsCountWrites` | hw10/internal/leaderless/handler.go:80-96 | with every message for a key delivered, each node's version is at least the number of writes to it |
| `Leaderless.AckFloor` | hw10/internal/leaderless/handler.go:80-96 | with no loss, after an ack every node has at least the write's version, in all later states |
| `Leaderless.NodesAgree` | hw10/internal/leaderless/handler.go:64-157 | writes to a key issued one at a time through any coordinators, nothing lost, other keys' writes overlapping or not: when all are acknowledged every node holds the last value under the number of writes |
| `Agreement.NewWriteWinsIff` | hw10/internal/leaderless/handler.go:64-157 | after a write begins, every order of delivery without a loss or a further write to the key ends with its value at all nodes iff no earlier write with another value could still be applied somewhere |
| `Leaderless.SettledStays` | hw10/internal/leaderless/handler.go:80-157 | once no message is on its way, only a new write changes any node |
| `Leaderless.OverlappingWritesDisagree` | hw10/internal/leaderless/handler.go:64-157 | two overlapping acknowledged writes that leave two nodes at the same version with different values, whatever happens later short of a new write |
| `FailFast.CircuitBreaker.constructor` | midterm/src/main.go:129-135 | a new breaker is closed with no failures |
| `FailFast.CircuitBreaker.Allow` | midterm/src/main.go:137-156 | who is let through, and the move from open to half-open after the reset time |
| `FailFast.CircuitBreaker.RecordSuccess` | midterm/src/main.go:158-164 | closes the breaker from any state and clears the failures |
| `FailFast.CircuitBreaker.RecordFailure` | midterm/src/main.go:166-176 | counts the failure and opens at the threshold or from half-open |
| `FailFast.Bulkhead.Acquire` | midterm/src/main.go:202-210 | takes a slot iff one is free, and counts a rejection otherwise |
| `FailFast.Bulkhead.Release` | midterm/src/main.go:212-214 | gives one slot back |
| `FailFast.CallRankerSafely` | midterm/src/main.go:231-257 | every outcome's status, what the breaker was told, and that the slot is given back on every path |
| `FailFast.SlotsMatchCallers` | midterm/src/main.go:202-257 | in every interleaving the slots in use are the callers between Acquire and Release, at most the capacity; rejections and admissions are accounted for by final statuses |
| `FailFast.BreakerFollowsItsTrace` | midterm/src/main.go:137-176 | in every run the breaker is closed iff fewer than threshold failures were recorded since the last success, and the half-open disjunct never decides |
| `FailFast.OpenBreakerIsQuiet` | midterm/src/main.go:137-156 | after a failure that leaves it open, nobody is let through up to and including the reset time unless a success intervenes |
| `FailFast.FailingRankerLoad` | midterm/src/main.go:137-257 | any stretch of length L without a success, in any run, lets through at most threshold + C - 1 + C * floor(L / reset) calls |
| `HungRankers.AbandonedWorkBounded` | midterm/src/main.go:84-103 | at every instant of every run at most C * ceil((hang + delay) / min(hang, timeout)) hung ranker goroutines are asleep, when each began within the delay of its admission |
| `HungRankers.PromptWorkBounded` | midterm/src/main.go:84-103 | without delay that is C * ceil(hang / timeout), for every hang time |
| `HungRankers.HungCallMayAnswer` | midterm/src/main.go:83-103 | a hung call may end with its answer even after the deadline, or with the timeout |
| `BreakerRuns.ProbesAloneIffOneSlot` | midterm/src/main.go:137-156 | no run lets one more caller through while the breaker is, and stays, half-open iff the bulkhead has at most one slot |
| `BreakerRuns.NoLateSuccessIffOneSlot` | midterm/src/main.go:158-164 | no success that comes within its timeout closes an open breaker iff the bulkhead has at most one slot |
| `BreakerRuns.LoadBoundReached` | midterm/src/main.go:137-257 | the load bound is attained, for every number of half-open periods that fit their time |
| `BreakerRuns.AbandonedBoundReached` | midterm/src/main.go:84-103 | the bound on sleeping goroutines is attained for every threshold of at least 2, as in the program, and by a single wave for any |
| `Text.TokenizeConcat` | hw4/mini-mapreduce-go/mapper/main.go:82-89 | cutting a text where no token is cut splits its tokens |
| `Text.TokenizeJoin` | hw4/mini-mapreduce/mapper/app.py:26-27 | cutting inside a token makes exactly one token more |
| `Text.TokensAreRuns` | hw4/mini-mapreduce-go/mapper/main.go:82-89 | a string is a token iff it is the lower-cased form of a longest run of token characters of the text |
| `Text.TokensHaveNoUpperCase` | hw4/mini-mapreduce-go/mapper/main.go:82-89 | no token has a character in A..Z |
| `Text.CaseDoesNotMatter` | hw4/mini-mapreduce/mapper/app.py:26-27 | texts that differ only in the case of letters have the same tokens |
| `Text.LowerTextAsItStands` | hw4/mini-mapreduce-go/mapper/main.go:82-89 | the tokens of a text without upper-case letters are its longest runs of token characters, verbatim and in order |
| `Counting.CountWords` | hw4/mini-mapreduce-go/mapper/main.go:163-166 | the map holds each word of the list with its number of occurrences, and no other |
| `Counting.MergeCounts` | hw4/mini-mapreduce-go/reducer/main.go:118-171 | the merged map holds each word of any input with the sum of its counts |
| `Counting.MergesAgree` | hw4/mini-mapreduce-go/reducer/main.go:118-171 | the merged result does not depend on the order of the map outputs |
| `GoMapReduce.SafeCut` | hw4/mini-mapreduce-go/splitter/main.go:70-99 | the chunk without the words that its two ends cut |
| `GoMapReduce.Split` | hw4/mini-mapreduce-go/splitter/main.go:158-209 | exactly as many chunks as asked for, 3 if none or fewer were, between the cuts for that number |
| `GoMapReduce.CutsWrittenOut` | hw4/mini-mapreduce-go/splitter/main.go:158-198 | cut i of n lies at the smaller of i * ceil(length / n) and the length, n being the number asked for or 3 |
| `GoMapReduce.ChunksDisjoint` | hw4/mini-mapreduce-go/splitter/main.go:186-209 | chunks are in order, in bounds and do not overlap |
| `GoMapReduce.ChunksLoseExactlyCutWords` | hw4/mini-mapreduce-go/splitter/main.go:70-99 | the tokens of the text are those of the chunks plus those of exactly the whitespace-delimited words with a boundary strictly inside |
| `GoMapReduce.PipelineAccounting` | hw4/mini-mapreduce-go/reducer/main.go:118-171 | for every text, chunk count and merge order, whole-text count = reduced count + count in the cut words, for each word |
| `GoMapReduce.CountText` | hw4/mini-mapreduce-go/splitter/main.go:186-209 | splitter, mappers and reducer in a row meet that equation |
| `GoMapReduce.ExactIffNothingLost` | hw4/mini-mapreduce-go/splitter/main.go:70-99 | the reduced result is the whole-text count iff no cut word holds a token |
| `GoMapReduce.OneWordVanishes` | hw4/mini-mapreduce-go/splitter/main.go:70-99 | a text of one word, split at all, leaves an empty result |
| `GoMapReduce.TextWithoutItsWord` | hw4/mini-mapreduce-go/splitter/main.go:70-99 | a concrete text whose only token the pipeline does not count |
| `GoMapReduce.AtMostOneWordPerBoundary` | hw4/mini-mapreduce-go/splitter/main.go:186-209 | n chunks lose at most n - 1 words |
| `PyMapReduce.Split` | hw4/mini-mapreduce/splitter/app.py:26-34 | exactly as many chunks as requested, but at least one; chunk i starts at the smaller of i * ceil(length / n) and the length, all chunks have that ceiling size until the text ends, and they concatenate back to the text |
| `PyMapReduce.ChunksWrittenOut` | hw4/mini-mapreduce/splitter/app.py:26-34 | the chunks of the loop are the evenly cut ones, written out by position |
| `PyMapReduce.ChunksJoinToText` | hw4/mini-mapreduce/splitter/app.py:26-34 | any such chunks concatenate back to the text, for every size and count |
| `PyMapReduce.ExcessIsCutTokens` | hw4/mini-mapreduce/mapper/app.py:26-37 | the chunks have more tokens than the text by exactly the number of chunk boundaries inside a token |
| `PyMapReduce.ReducedWeight` | hw4/mini-mapreduce/reducer/app.py:28-39 | summing any per-word cost over the reduced result gives the sum over all chunk tokens |
| `PyMapReduce.TokenCharsConserved` | hw4/mini-mapreduce/reducer/app.py:28-39 | over the reduced result, count times length sums to the text's token characters, and the counts sum to the true number of tokens plus the cut ones |
| `Keys.AtoiItoa` | hw4/mini-mapreduce-go/mapper/main.go:177-197 | the chunk number reads back from its decimal form |
| `Keys.ParsesWhatWasFormatted` | hw4/mini-mapreduce-go/mapper/main.go:52-62 | a URL parses to a bucket and key iff it was formatted from them and the bucket has no slash |
| `Keys.MapperRecoversChunk` | hw4/mini-mapreduce-go/mapper/main.go:177-215 | from the splitter's URL the mapper recovers bucket, run id and chunk number |
| `Keys.MapKeysDistinct` | hw4/mini-mapreduce-go/mapper/main.go:177-197 | different chunks never share a mapper output key |
| `Keys.KeysWrittenOut` | hw4/mini-mapreduce-go/mapper/main.go:170-197 | the chunk, map and result keys as texts |
| `Keys.KindsOfKeysDiffer` | hw4/mini-mapreduce-go/reducer/main.go:174 | a result key never equals a chunk or map key, nor a map key a chunk key, for any runs |
| `Keys.MapTargetCases` | hw4/mini-mapreduce-go/mapper/main.go:177-182 | a URL that does not parse is refused with 400, a key of fewer than three parts with 500 |
| `Keys.OddIndexIsZero` | hw4/mini-mapreduce-go/mapper/main.go:189-197 | a chunk name whose index is no number is mapped under index 0 |
| `Keys.DeepChunkKey` | hw4/mini-mapreduce-go/mapper/main.go:177-197 | in a longer chunk key the run is the second part and the chunk the last |
| `Keys.ReduceTarget` | hw4/mini-mapreduce-go/reducer/main.go:112-193 | the reply of the reducer's loop over map URLs: refused if there is none or one does not parse, and otherwise the result key of the last bucket and run (written out in `Keys.ReducerWritesRunsResult` and `Keys.ResultURLParts`) |
| `Keys.ReducerRecoversRun` | hw4/mini-mapreduce-go/reducer/main.go:136-139 | fed the mapper's URLs of a run, the reducer recovers the same bucket and run id |
| `Keys.TargetOfShortKeys` | hw4/mini-mapreduce-go/reducer/main.go:136-139 | a map key of two parts names its run; one of a single part leaves the run as it was |
| `Keys.ReducerWritesRunsResult` | hw4/mini-mapreduce-go/reducer/main.go:174-193 | fed the mapper's URLs of a run, the reducer writes to s3://<bucket>/reduce/run-<run>/result.json |
| `Keys.ResultURLParts` | hw4/mini-mapreduce-go/reducer/main.go:174-193 | from a result's URL one gets back its bucket and the parts reduce, run-<run>, result.json |
| `Keys.ResultsDistinct` | hw4/mini-mapreduce-go/reducer/main.go:174-193 | results of different runs or buckets have different URLs |
| `AlbumTables.DynamoDB.PutAlbum` | album-store/store/dynamodb.go:64-74 | unless the call fails the item holds exactly the album of this PUT and no counter, also where the call reports an error after it took effect; every other album keeps its item, and a call that fails changes nothing |
| `AlbumTables.DynamoDB.IncrementAndGetSeq` | album-store/store/dynamodb.go:137-162 | the album's counter goes up by one and is returned, its data and every other item are unchanged; an error hides the number, whether the increment took effect or not |
| `AlbumTables.DynamoDB.PutPhoto` | album-store/store/dynamodb.go:167-177 | the record is written and nothing else, also where the call reports an error after it took effect |
| `AlbumTables.DynamoDB.GetPhoto` | album-store/store/dynamodb.go:180-200 | the record, or none if there is none, or an error |
| `AlbumTables.DynamoDB.UpdatePhotoStatus` | album-store/store/dynamodb.go:203-234 | only a record that is still processing is updated; otherwise the condition fails; an error may come with or without the update |
| `AlbumTables.DynamoDB.DeletePhoto` | album-store/store/dynamodb.go:237-246 | the record is gone and nothing else; an error may come with or without that |
| `AlbumTables.Pool.Submit` | album-store/worker/worker.go:49-51 | the job goes to the end of the queue if there is room, and the caller has to wait otherwise |
| `AlbumTables.Pool.RunNext` | album-store/worker/worker.go:53-80 | the first job is taken and its object stored; a record that is still processing is marked completed with that object's own URL, or failed, each also where an error comes after the effect; no record is created |
| `AlbumTables.UploadPhoto` | album-store/handlers/handlers.go:144-182 | reply, counter, record and job on every path: each error of the database, with or without effect, and a full queue |
| `AlbumTables.DeletePhoto` | album-store/handlers/handlers.go:207-239 | reply, object and record on every path: the record goes even if the object step failed, stays if its own delete fails, and a missing record changes nothing |
| `AlbumContents.AlbumIsItsLastPut` | album-store/store/dynamodb.go:64-162 | in every run an album has the given data iff they are those of its last PUT, whatever increments came in between |
| `AlbumContents.CompletedCarriesItsURL` | album-store/worker/worker.go:53-80 | in every run a completed record carries the URL of its own object, written out, and any other record none |
| `AlbumContents.RecordsCarryTheirNumbers` | album-store/handlers/handlers.go:144-182 | in every run the record of an accepted upload, if not deleted, has the number that the upload's own increment answered |
| `AlbumContents.PoolBounded` | album-store/worker/worker.go:30-51 | in every run at most the queue depth of jobs wait and at most one job per worker is under way |
| `AlbumContents.ErrorsMayHideEffects` | album-store/store/dynamodb.go:64-246 | each call can do all it does and still report an error, and one that fails does nothing |
| `AlbumContents.WorkerRound` | album-store/worker/worker.go:53-80 | a worker's three steps without interruption do what `AlbumTables.Pool.RunNext` does |
| `AlbumContents.WholeDelete` | album-store/handlers/handlers.go:207-239 | a delete's three steps without interruption do what `AlbumTables.DeletePhoto` does |
| `AlbumRuns.RecordsEndOnce` | album-store/store/dynamodb.go:203-234 | in every interleaving a record keeps its number, and once it left processing it never changes again |
| `AlbumRuns.DeletedStaysDeleted` | album-store/store/dynamodb.go:203-246 | a deleted record never reappears |
| `AlbumRuns.CompletedHasObject` | album-store/worker/worker.go:53-80 | a completed photo's object is stored unless a DELETE for it has run its object step |
| `AlbumRuns.JobsHold` | album-store/handlers/handlers.go:144-175 | no photo ever has two jobs, and a processing one has exactly one unless a write that reported an error, or a failed final update, left it stuck |
| `AlbumRuns.ProcessingHasOneJob` | album-store/worker/worker.go:48-80 | without such errors a processing record has exactly one job, so a drained pool leaves none processing |
| `AlbumRuns.ProcessingIffJobOrStuck` | album-store/worker/worker.go:48-80 | in every run a record is processing iff it has its job or is stuck, so a drained pool leaves exactly the stuck ones processing |
| `AlbumRuns.IncrementsCountUp` | album-store/store/dynamodb.go:137-162 | over any interleaving the increments of an album since its last PUT were numbered exactly 1..k in order; a lost answer leaves its number unused |
| `AlbumRuns.NumbersRepeatIffPutSeparates` | album-store/store/dynamodb.go:64-74 | an album's numbers repeat iff a PUT of it lies between two of its increments |
| `AlbumRuns.AcceptedNumbersUnique` | album-store/handlers/handlers.go:144-175 | two accepted uploads to an album with the same number had a PUT of the album between their increments |
| `AlbumRuns.DeleteCanOrphanObject` | album-store/handlers/handlers.go:207-239 | a run in which a delete's object step precedes the worker's upload and the object stays, with no record and no work left |
| `AlbumDeletes.ObjectReturnsIffPending` | album-store/handlers/handlers.go:207-239 | an absent object of a known photo is stored by some continuation iff an upload of the photo is unsubmitted, queued or just taken |
| `AlbumDeletes.DeleteAfterEndIsFinal` | album-store/handlers/handlers.go:207-239 | once a photo has left processing, its object, if absent at any later time, never comes back |
| `AlbumDeletes.PutRepeatsANumber` | album-store/store/dynamodb.go:64-74 | a run in which two accepted uploads to an album both carry number 1 |
| `Counter.PossibleResults` | hw3/regular.go:17-24 | a value can be the final count iff it lies between the lowest possible one (2 for two or more goroutines and increments each) and goroutines * increments |
| `Counter.InvHolds` | hw3/regular.go:17-24 | in every interleaving the counter and all loaded values are at most the finished increments, and a goroutine on its own loses nothing |
| `Counter.SharesBounded` | hw3/regular.go:17-24 | in every run a goroutine does at most its share of increments, and begins none beyond it |
| `Counter.OverwriteLoses` | hw3/regular.go:21-23 | a store after a delayed load loses exactly the increments made in between |
| `Counter.OneByOneAdds` | hw3/regular.go:21-23 | increments that do not overlap act as atomic adds and none is lost |
| `Counter.AtomicIsExact` | hw3/atomic-counters.go:15-24 | however the atomic adds interleave, the counter ends at goroutines * increments |
| `Carts.MySQL.CreateCart` | hw8/src/main.go:142-169 | status and tables after a create, with the primary key refusing an id in use |
| `Carts.MySQL.AddItems` | hw8/src/main.go:218-255 | status and tables after an add, which sums up the row of the product |
| `Carts.MySQL.GetCart` | hw8/src/main.go:173-215 | customer and the quantity of exactly the products with a row |
| `Carts.Dynamo.CreateCart` | hw8/src/main.go:260-292 | status and documents after a create, which replaces a cart with the same id |
| `Carts.Dynamo.AddItems` | hw8/src/main.go:326-376 | status and documents after an add, which appends to the list of an existing cart |
| `Carts.BackendsAgreeIffFresh` | hw8/src/main.go:142-376 | for every request sequence both backends give the same answers iff no two accepted creates draw the same id, and then carts, product sets and total quantities are the same |
| `Carts.RowsSumAcknowledged` | hw8/src/main.go:242-254 | every MySQL row is the sum of the acknowledged quantities of its product, for any sequence |
| `Carts.ListsAreAcknowledged` | hw8/src/main.go:341-375 | with fresh ids every DynamoDB list is the acknowledged items in order |
| `Carts.RedrawnIDLosesItems` | hw8/src/main.go:274-283 | drawing an id again empties the DynamoDB cart, while MySQL answers with an error and keeps its own |

## Left out

- HTTP routing, JSON encoding and decoding, logging and environment variables; a request arrives with its fields already read.
- AWS and MySQL clients: each external call is one atomic step, with a failure branch where a theorem depends on it. Failed downloads and uploads in hw4 and crashes in the middle of a handler are not modelled.
- hw10's sleeps are arbitrary delays. The keys of hw10 are strings of bytes; the limits that a server sets for the length of a request are not modelled.
- hw10's node-local debug reads (`/local_read`, `/internal/read`) and the follower's refusal of writes have no member of their own; a follower's reply to the leader is a step of the machine.
- In the breaker machine a call's deadline starts with its admission; from then on an answer and, from the deadline on, the timeout may come in either order and late. The begin of a ranker goroutine is not a step but a parameter of the bound on sleeping ones.
- Machine limits: int64 version and uint64 counter overflow, SQL INT range, and float rounding in `math.Ceil`; integers are unbounded and ceiling division is exact.
- Unicode: texts are sequences of ASCII characters, so byte and character positions agree.
- Keys.MapperRecoversChunk: requires bucket and run id without a slash, as the splitter's run ids and S3 bucket names are.
- The Python services' key handling, which replaces `run-` anywhere in a run id; its run ids are hexadecimal.
- The Go splitter's random run ids and the uuids of album-store and hw8 are parameters; where uniqueness matters it is stated.
- A call to DynamoDB or S3 takes effect at most once and when it is made, although its caller may get an error; the client library's own retries, which can repeat an increment, are not modelled.
- Carts compares ids exactly; a MySQL collation that ignores case would find a cart under another spelling of its id.
- AlbumRuns has one shared queue and worker pool; several servers with a pool each would multiply the queue and leave the tables as they are.
- AlbumTables.Pool.Submit: one attempt; the waiting of a blocked sender is a disabled step in `AlbumRuns`.
- AlbumTables.UploadPhoto: stops at a full queue with a reply of its own, where the program keeps waiting; the steps after the wait are in `AlbumRuns`.
- Carts: MySQL's existence check and insert are one step; carts are never deleted, so a cart found by the check is still there at the insert.
- DynamoDB's GET of a cart, whose decoding depends on the client library's handling of field tags.
- A torn or cached `ops++`: the racy counter is a load and a store of whole words seen in one order by all.
- The product search of the midterm and hw6, hw5's product map, hw7's semaphore, hw1, hw2, the other programs of hw3, load generators, plots and deployment files: simpler versions of what is modelled, or input and output only.
