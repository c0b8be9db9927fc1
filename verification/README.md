# Verified model of a multi-protocol message broker

A Dafny model of the broker's core: consensus, tiered storage, topic routing, task leasing, and the
MQTT, AMQP and RESP wire formats with the MQTT session state. `dafny verify dfyconfig.toml` checks
all of it.

Objects that the broker updates in place are classes. Each method is proved equal to a function on
values, and the promises are proved as lemmas about those functions, over whole runs where the
promise is about runs. In a run, a step that is not enabled changes nothing, so the theorems hold
for every sequence of steps.

## Components

**Raft** (`raft_node`, `raft_server`, `raft_cluster`, `raft_progress`). N nodes and the set of all
messages ever sent. Messages are lost, delayed, reordered and repeated at will. A node may crash
between any two writes to its store. Its log lives in memory, so a restart loses it. The driver
contract is explicit: a vote request carries the candidate's own id and term, votes are counted
from distinct voters of that term, an election is finalized only by a node that is still a
candidate, and only a leader proposes or replicates.

**Tiered log** (`segment_codec`, `tiered_log`, `tiered_store`). The two tiers stand for one flat
sequence of payloads. Appends are sequential, the object store starts without segment keys, payloads
are under 2^32 octets and fewer than 2^32 segments are opened. Offsets and payloads are compared;
offload resets timestamps.

**Topics** (`glob`, `like`, `topic`, `topic_fast`, `topic_exact`, `topic_router`). A pattern of levels
has a declarative meaning: the topic splits into one piece per filter level. The scanning matcher has
that meaning for every filter and topic. Exactly which filters and which topics the compiled matcher
with its 16-level view agrees on is settled in `topic_exact`.

**Task leasing** (`task_queue`, `task_lease`, `task_runs`, `task_visibility`, `task_server`). Tokens are
fresh, the clock is any non-decreasing input, sweeps return expired leases in any order.

**MQTT** (`utf8`, `parsing`, `mqtt_wire`, `mqtt_packets`, `mqtt_roundtrip`, `mqtt_codec`, `mqtt_sound`,
`mqtt_growth`, `mqtt_reencode`, `mqtt_io`, `mqtt_session`, `mqtt_alias`, `mqtt_registry`, `mqtt_share`, `mqtt_broker`,
`mqtt_fair`). Property blocks are a map from identifier to value plus the list of user properties; the
table of types is `MqttWire.KindOf`. Reason codes are kept as their wire values. The four acknowledgements share one
constructor. Strings are octet sequences with a UTF-8 check. `Normal` is what a reader makes of a
written packet: it drops what the version does not carry and fills in defaults.

**AMQP fields** (`amqp_fields`) and **RESP values** (`resp_codec`).

## Where the code and its comments differ

- `core/src/consensus.rs:184-186` describes commit as the highest index replicated on a majority.
  The code stops at the first entry of an earlier term. An acknowledgement brings the commit index to
  that highest index exactly when every entry on the way has the leader's term
  (`RaftProgress.CommitReachesIff`); a re-elected leader of three shows the other case
  (`RaftProgress.HeldButNotCommitted`), and it lasts for the whole leadership
  (`RaftProgress.EarlierTermBlocksCommit`).
- `core/src/queue.rs:57-58` permits empty payloads. The write-ahead log refuses them, so enqueueing
  one is an error that changes nothing.
- `routing/src/topic.rs` presents the compiled matcher as equivalent to `topic_matches`. Call a filter
  trusted when it is neither empty nor a non-empty level followed by a final separator. Over topics that
  do not end in the separator, a filter agrees everywhere exactly when it is trusted or needs more than
  16 levels (`TopicExact.FilterAgreesIff`). Over trusted filters, a topic agrees everywhere exactly when
  it does not end in the separator, has more than 16 levels, or has a last level that reads `+` or `#`
  (`TopicExact.TopicAgreesIff`).
- `adapters/mqtt/src/server.rs:344-346` increments a 16-bit alias counter; what is modelled is a release
  build, in which it wraps (a debug build stops there). With the maximum at 65535 it hands out alias 0
  and then alias 1 again, so that a later publish reaches another topic; every smaller maximum is safe
  (`MqttAlias.SoundIff`, `MqttAlias.LosslessIff`).
- `adapters/mqtt/src/codec.rs:616-618` lets the last value of a property block run past the announced
  end, and such a block can take more octets when it is written again (`MqttGrowth.OverrunGrows`). A
  block that ends as announced never does (`MqttGrowth.BlockNeverGrows`), and neither does a packet made
  of such blocks (`MqttReencode.TidyReadAgain`). Where no field is repeated and no subscription
  identifier padded, a block does not grow exactly when the length field it was read with has room for
  all its octets (`MqttGrowth.BlockGrowsIff`).
- `adapters/mqtt/src/broker.rs:151-165` finds a session's subscriptions by the prefix of their keys.
  Client identifiers may hold a NUL, the octet that ends the prefix. Two clients can have a key in common
  exactly when one is the other with a NUL behind it (`MqttRegistry.KeysMeetIff`), and dropping the
  shorter one's session takes out the longer one's subscriptions (`MqttRegistry.DropTakesUnder`).

## Model

| member | source | states |
|---|---|---|
| RaftCluster.ElectionSafety | core/src/consensus.rs:234-287 | whoever leads a term at one moment of any run and whoever leads it at the same or a later moment are one node |
| RaftCluster.WinsOnce | core/src/consensus.rs:246-255 | a candidate that finalizes with a majority has won its term, and nobody had won that term before |
| RaftCluster.LogMatching | core/src/consensus.rs:291-353 | in any run, two logs with the same term at an index are identical up to it |
| RaftCluster.VoteUniqueness | core/src/consensus.rs:258-287 | in any run with crashes between store writes, a node votes for at most one candidate in a term |
| RaftCluster.CrashKeepsVote | core/src/consensus.rs:93-111 | restarting after any prefix of a call's store writes keeps the vote of the node's term or moves to a later term |
| RaftCluster.TermsNeverDecrease | core/src/consensus.rs:234-241 | no node's term decreases along any run, restarts included |
| RaftCluster.ReplicationAgrees | core/src/transport.rs:209-229 | a successful reply reports an index through which the follower's log equals the leader's, and a commit taken over covers only identical entries |
| RaftCluster.RequestBacked | core/src/transport.rs:320-344 | the entries and previous term a leader sends are those of its own log |
| RaftCluster.MergeSlice | core/src/consensus.rs:323-342 | merging a slice of a log behind an agreeing prefix gives the log through the slice, or leaves a log that already starts with it |
| RaftCluster.RunInv | core/src/consensus.rs:234-373 | every run keeps the cluster invariant: stored votes, quorums behind leaders, logs grounded in leaders' logs |
| RaftProgress.GrantExclusive | core/src/consensus.rs:258-287 | once a vote is granted, no other candidate of that term gets it, whatever its log, and asking again changes nothing |
| RaftProgress.MergeHolds | core/src/consensus.rs:323-335 | a merge keeps what agreed and replaces everything from the first conflict |
| RaftProgress.MergeRedelivered | core/src/consensus.rs:323-337 | redelivering a request or any prefix of it changes nothing |
| RaftProgress.MergeKeepsIff | core/src/consensus.rs:323-337 | the first entries survive a merge exactly when no sent entry conflicts among them |
| RaftProgress.AppliedExactlyOnce | core/src/consensus.rs:359-373 | over any run that respects the committed prefix, the entries applied are the applied prefix of the log, each once and in order, and neither index goes back |
| RaftProgress.AppliedExactlyOnceFromStart | core/src/consensus.rs:359-373 | from a new node, over any such run, what was handed over is exactly the applied prefix of the log |
| RaftProgress.MajorityIsReal | core/src/consensus.rs:187-211 | the leader's count is the true number of holders, itself counted once |
| RaftProgress.CommitIsExact | core/src/consensus.rs:194-211 | commit moves over indices of the current term held by a majority and stops at the first that is not |
| RaftProgress.CommitSound | core/src/consensus.rs:187-211 | within one leadership every index committed has the current term and the acknowledgement of a majority |
| RaftProgress.FirstLeadershipSound | core/src/consensus.rs:187-255 | in the first leadership of a node every committed index has its term and was reported in that leadership by peers that make a majority with it |
| RaftProgress.CommitMaximal | core/src/consensus.rs:187-211 | after an acknowledgement the next index is not acknowledged by a majority in this term |
| RaftProgress.CommitReachesIff | core/src/consensus.rs:187-211 | an acknowledgement brings the commit index to the greatest index a majority holds exactly when every entry past the old commit and up to it has the leader's term |
| RaftProgress.NothingHeldNothingCommitted | core/src/consensus.rs:187-211 | where no majority holds an index past the commit index, an acknowledgement commits nothing |
| RaftProgress.HeldButNotCommitted | core/src/consensus.rs:187-255 | a re-elected leader of three whose only entry a majority holds, with the commit index still at 0 |
| RaftProgress.EarlierTermBlocksCommit | core/src/consensus.rs:194-211 | an uncommitted entry of an earlier term holds the commit index for the whole leadership |
| RaftServer.MemoryStore.SaveTerm | core/src/consensus.rs:57-59 | one store write, recorded in order |
| RaftServer.MemoryStore.SaveVotedFor | core/src/consensus.rs:63-65 | one store write, recorded in order |
| RaftServer.Server.constructor | core/src/consensus.rs:93-111 | a node starts from what the store holds, with an empty log |
| RaftServer.Server.BeginElection | core/src/consensus.rs:234-241 | new state, store writes and last log position of starting an election |
| RaftServer.Server.FinalizeElection | core/src/consensus.rs:246-255 | new state of counting votes |
| RaftServer.Server.HandleRequestVote | core/src/consensus.rs:258-287 | new state, store writes, and the reply, which grants exactly when the rule does |
| RaftServer.Server.AppendAll | core/src/consensus.rs:323-337 | the append loop computes the merge |
| RaftServer.Server.HandleAppendEntries | core/src/consensus.rs:291-345 | new state, store writes and reply of an append request |
| RaftServer.Server.LeaderAppend | core/src/consensus.rs:348-356 | the new entry goes to the end and its index is returned |
| RaftServer.Server.RecordPeerAck | core/src/consensus.rs:187-211 | the loop moves commit as far as the rule allows |
| RaftServer.Server.CountMatches | core/src/consensus.rs:198-203 | the count of peers at or beyond an index |
| RaftServer.Server.ApplyCommitted | core/src/consensus.rs:359-373 | the entries handed over are those between applied and commit, in order |
| SegmentCodec.DecodeEncode | core/src/storage.rs:398-416 | decoding an encoded segment gives back its payloads |
| SegmentCodec.EncodeSegment | core/src/storage.rs:330-335 | the encode loop writes each payload behind its 32-bit length |
| SegmentCodec.DecodeSegment | core/src/storage.rs:398-416 | the decode loop reads payloads until the buffer ends or breaks off |
| TieredLog.SegmentKeyInjective | core/src/storage.rs:288-290 | segments have different object keys |
| TieredLog.AppendRepresents | core/src/storage.rs:86-107 | an append, rolling over or not, keeps the tiers standing for the flat log with one more payload |
| TieredLog.PutRepresents | core/src/storage.rs:329-336 | storing a sealed segment's object changes nothing a reader sees |
| TieredLog.MoveRepresents | core/src/storage.rs:323-339 | dropping a stored segment locally changes nothing a reader sees |
| TieredLog.OffloadedContent | core/src/storage.rs:361-365 | the object of an offloaded segment decodes to its stretch of the flat log |
| TieredLog.RunRepresents | core/src/storage.rs:312-342 | after any interleaving of appends and offloads, wherever an offload stopped, the tiers stand for everything appended |
| TieredStore.SegmentedLog.Append | core/src/storage.rs:86-107 | empty payloads are refused, others get the next offset |
| TieredStore.TieredSegmentedLog.Append | core/src/storage.rs:312-314 | the flat log grows by the payload and its offset is the old length |
| TieredStore.TieredSegmentedLog.OffloadSealed | core/src/storage.rs:318-342 | the flat log is untouched even when the store fails part way; on success only the active segment is left locally |
| TieredStore.TieredSegmentedLog.Read | core/src/storage.rs:347-387 | reading yields exactly the flat log from an offset, at most a number of records, with original offsets |
| TieredStore.SortDedup | core/src/storage.rs:348-354 | the bases of both tiers in ascending order, each once |
| Glob.MatchesIffSplits | routing/src/topic.rs:18-30 | a pattern matches exactly the values that split into one fitting piece per element |
| LikeMatch.Like | routing/src/rule.rs:147-181 | true exactly when the value splits along the pattern, each % any run, each _ one character |
| LikeMatch.Backtrack | routing/src/rule.rs:153-160 | some suffix matches the rest of the pattern |
| TopicMatch.MatchLevels | routing/src/topic.rs:119-197 | the recursive matcher with its scan loop computes `Slow` |
| TopicMatch.SlowIsGlob | routing/src/topic.rs:119-197 | for every filter and topic the scanning matcher is the level semantics on the levels a scan visits |
| TopicMatch.SplitVsLevels | routing/src/topic.rs:79-104 | the two ways of cutting differ by one empty level, on exactly the texts that are empty or end in the separator |
| TopicFast.RebuildCompiled | routing/src/topic.rs:57-70 | the filter text rebuilt for the fallback is the original |
| TopicFast.SplitLevels | routing/src/topic.rs:239-263 | the one-pass split notes the levels, or reports more than 16 |
| TopicFast.Sub | routing/src/topic.rs:222-234 | the view without its first levels |
| TopicFast.MatchSegs | routing/src/topic.rs:295-335 | the recursive matcher over the view computes the level semantics |
| TopicFast.MatchForward | routing/src/topic.rs:268-292 | the forward loop computes the level semantics |
| TopicFast.MatchesLevels | routing/src/topic.rs:56-76 | all three paths of a compiled filter compute `Fast` |
| TopicFast.FastIsSlow | routing/src/topic.rs:18-76 | on filters not empty and not ending in the separator and topics not ending in it, compiled matching, scanning and the split semantics agree |
| TopicExact.FilterAgreesIff | routing/src/topic.rs:18-76 | for every filter: agreement on all topics not ending in the separator holds exactly when the filter is trusted or needs more than 16 levels |
| TopicExact.UntrustedDiffers | routing/src/topic.rs:56-106 | an untrusted filter that needs at most 16 levels: a topic that the scan matches and the hot path does not |
| TopicExact.MinLevelsNeeded | routing/src/topic.rs:119-197 | a topic not ending in the separator that the scan matches has at least as many levels as the filter needs |
| TopicExact.TopicAgreesIff | routing/src/topic.rs:208-263 | for every topic: all trusted filters agree exactly when it does not end in the separator, has more than 16 levels, or has a last level that reads as a wildcard |
| TopicExact.TrailingTopicDiffers | routing/src/topic.rs:208-263 | any other topic differs on the filter that adds `#` to it |
| TopicExact.TrailingSepTopicDiffers | routing/src/topic.rs:208-218 | the shortest such topic: filter "a" against topic "a/" |
| TopicExact.LevelsJoined | routing/src/topic.rs:79-106 | scanning two texts with a separator between them visits what `split` finds in the first, then the levels of the second |
| TopicRouting.TopicRouter.Subscribe | routing/src/topic.rs:363-373 | an id's entry is replaced in place or appended |
| TopicRouting.TopicRouter.Unsubscribe | routing/src/topic.rs:375-380 | the id's entries are gone, the rest keep their order |
| TopicRouting.TopicRouter.Route | routing/src/topic.rs:383-402 | the matching ids in registry order |
| TopicRouting.RegistryIsLatest | routing/src/topic.rs:363-380 | after any history an id appears once, with the filter of its last operation |
| TopicRouting.RouteExact | routing/src/topic.rs:383-402 | after any history an id is selected exactly when its latest filter accepts the topic, and never twice |
| TopicRouting.RouteMeansMatch | routing/src/topic.rs:383-402 | on plain filters and topics, selected exactly when the levels split along the filter |
| TopicRouting.RouteIndices | routing/src/topic.rs:452-460 | the matching positions as 32-bit numbers |
| TopicRouting.IndicesAreHits | routing/src/topic.rs:452-460 | with at most 2^32 subscribers those are the matching positions themselves |
| TopicRouting.HitsExact | routing/src/topic.rs:439-475 | the matching positions are ascending and exactly the entries whose filter accepts the topic |
| TopicRouting.CountMatches | routing/src/topic.rs:466-475 | the number of matching positions |
| TaskQueues.DispatchInv | tpt-workflow/src/dispatch.rs:94-119 | dispatching keeps the partition, payloads, order of first deliveries, attempt counts and the agreement of leases and in-flight entries |
| TaskQueues.ReleaseAllInv | tpt-workflow/src/dispatch.rs:158-174 | sweeping expired leases in any order keeps them |
| TaskQueues.FinishInv | tpt-workflow/src/dispatch.rs:130-140 | a positive answer keeps them and finishes the entry once |
| TaskQueues.SweepExact | tpt-workflow/src/dispatch.rs:158-174 | a sweep takes exactly the leases whose deadline has come |
| TaskLeases.RunInv | tpt-workflow/src/dispatch.rs:321-458 | every run keeps the queues consistent with the history and accounts for every token |
| TaskRuns.AcceptedAtMostOnce | tpt-workflow/src/dispatch.rs:419-452 | no token is accepted twice in any run |
| TaskRuns.CompletedAtMostOnce | tpt-workflow/src/dispatch.rs:419-452 | no task is completed twice in any run, even under different tokens |
| TaskRuns.ResponseExact | tpt-workflow/src/dispatch.rs:419-458 | in every reachable state: accepted exactly while leased, duplicate exactly within 600 seconds of being accepted, otherwise unknown |
| TaskRuns.SweptStaysUnknown | tpt-workflow/src/dispatch.rs:158-174 | a swept token is unknown from then on |
| TaskVisibility.LeaseLasts | tpt-workflow/src/dispatch.rs:94-174 | from the moment a task is taken, through any steps until the visibility timeout then in force has passed, its token is leased exactly as long as it has not been accepted |
| TaskVisibility.LeaseEnds | tpt-workflow/src/dispatch.rs:158-174 | once it has passed, the next sweep of the queue takes the lease, whatever happened in between |
| TaskRuns.RefusedChangesNothing | tpt-workflow/src/dispatch.rs:421-430 | a duplicate or unknown answer changes no queue and no token routing |
| TaskRuns.TaskInOnePlace | core/src/queue.rs:59-96 | every task added is in exactly one of ready, leased and completed; leases and in-flight entries have the same keys |
| TaskRuns.DeliveriesOk | tpt-workflow/src/dispatch.rs:94-119 | every delivery carries the payload added, and its attempt number counts the task's dispatches so far |
| TaskRuns.AttemptsAreDispatches | tpt-workflow/src/dispatch.rs:99-104 | the attempt counter of an unfinished task is the number of its dispatches |
| TaskRuns.FirstDeliveriesInOrder | core/src/queue.rs:71-96 | first deliveries happen in the order tasks were added, under any refusals and sweeps |
| TaskServer.DepthConserved | core/src/queue.rs:99-101 | depth is what was added and is not finished |
| TaskServer.Queue.Enqueue | core/src/queue.rs:59-68 | the entry goes to the back under the next number; an empty payload is refused |
| TaskServer.Queue.Dequeue | core/src/queue.rs:71-79 | the front entry moves to the in-flight table |
| TaskServer.Queue.Ack | core/src/queue.rs:82-84 | the entry is removed; reports whether it was in flight |
| TaskServer.Queue.Nack | core/src/queue.rs:88-96 | the entry returns to the front; reports whether it was in flight |
| TaskServer.TaskQueue.SetVisibility | tpt-workflow/src/dispatch.rs:84-86 | the timeout of later dispatches; leases given out keep their deadline |
| TaskServer.TaskQueue.Dispatch | tpt-workflow/src/dispatch.rs:94-119 | the front entry is leased with the token, a deadline and its attempt number |
| TaskServer.TaskQueue.Ack | tpt-workflow/src/dispatch.rs:130-140 | true exactly when the token is leased, and then its entry is finished |
| TaskServer.TaskQueue.Nack | tpt-workflow/src/dispatch.rs:144-154 | true exactly when the token is leased, and then its entry is ready again with its counter kept |
| TaskServer.TaskQueue.Sweep | tpt-workflow/src/dispatch.rs:158-174 | exactly the expired leases are released, in some order, and counted |
| TaskServer.FindLease | tpt-workflow/src/dispatch.rs:121-127 | a lease with the token, if there is one |
| TaskServer.TaskQueueManager.AddTask | tpt-workflow/src/dispatch.rs:321-340 | unnamed queues, full tenants and empty payloads are refused, otherwise the task gets the next number |
| TaskServer.TaskQueueManager.Take | tpt-workflow/src/dispatch.rs:345-367 | the front task with its token, payload and attempt, or nothing |
| TaskServer.TaskQueueManager.Respond | tpt-workflow/src/dispatch.rs:419-458 | the result and new state of an answer |
| TaskServer.TaskQueueManager.Sweep | tpt-workflow/src/dispatch.rs:231-257 | every queue is swept, tokens and memory untouched |
| MqttWire.VarBack | adapters/mqtt/src/codec.rs:590-607 | every integer up to 268435455 is read back, whatever follows |
| MqttWire.VarStable | adapters/mqtt/src/codec.rs:590-607 | a reading that did not run out of octets is not changed by more of them |
| MqttWire.VarCut | adapters/mqtt/src/codec.rs:590-607 | cut inside its digits, an integer runs out of octets |
| MqttWire.PropsBack | adapters/mqtt/src/codec.rs:610-661 | a block of well-typed properties is read back, whatever follows |
| MqttWire.ValueBack | adapters/mqtt/src/codec.rs:618-655 | a value of each property type is read back |
| MqttIo.Reader.Varint | adapters/mqtt/src/codec.rs:590-607 | the digit loop reads what `ReadVar` reads, with the same errors |
| MqttIo.Reader.String | adapters/mqtt/src/codec.rs:573-579 | a length-prefixed string, refused when it is not UTF-8 |
| MqttIo.Reader.Binary | adapters/mqtt/src/codec.rs:584-587 | length-prefixed octets |
| MqttIo.Reader.Props | adapters/mqtt/src/codec.rs:610-661 | the property loop reads what `ReadProps` reads, with the same errors |
| MqttIo.Writer.Varint | adapters/mqtt/src/codec.rs:701-713 | the digit loop writes what `PutVar` writes |
| MqttIo.Writer.Props | adapters/mqtt/src/codec.rs:715-828 | the block, by ascending identifier, behind its length |
| MqttRoundTrip.DecodeStable | adapters/mqtt/src/codec.rs:854-944 | once a packet or an error is seen, octets arriving behind it change nothing |
| MqttRoundTrip.StrictPrefixNeedsMore | adapters/mqtt/src/codec.rs:854-877 | every strict prefix of any decodable packet asks for more |
| MqttRoundTrip.FrameBack | adapters/mqtt/src/codec.rs:1375-1381 | a written fixed header and body are framed again exactly |
| MqttRoundTrip.ConnectBack | adapters/mqtt/src/codec.rs:1029-1088 | CONNECT bodies of both versions are read back, with every combination of will, user name and password |
| MqttCodec.PublishBack | adapters/mqtt/src/codec.rs:1105-1138 | PUBLISH bodies and flags are read back |
| MqttCodec.AckBack | adapters/mqtt/src/codec.rs:958-997 | the short and long forms of acknowledgements are read back |
| MqttCodec.SubscribeBack | adapters/mqtt/src/codec.rs:1140-1169 | SUBSCRIBE bodies are read back with their options |
| MqttCodec.SubAckBack | adapters/mqtt/src/codec.rs:1171-1189 | SUBACK bodies are read back, codes derived from reasons |
| MqttCodec.UnsubscribeBack | adapters/mqtt/src/codec.rs:1191-1204 | UNSUBSCRIBE bodies are read back |
| MqttCodec.UnsubAckBack | adapters/mqtt/src/codec.rs:911-924 | UNSUBACK bodies are read back |
| MqttCodec.ReasonPropsBack | adapters/mqtt/src/codec.rs:1003-1027 | reason and properties of DISCONNECT and AUTH are read back in all three forms |
| MqttCodec.ConnAckBack | adapters/mqtt/src/codec.rs:1090-1103 | CONNACK bodies are read back |
| MqttCodec.ReadersTake | adapters/mqtt/src/codec.rs:1149-1164 | every reader that is repeated takes at least one octet each time |
| MqttCodec.RoundTrip | adapters/mqtt/src/codec.rs:854-1387 | every encodable packet of both versions is read back in its normal form, over exactly its own octets, with any suffix behind |
| MqttCodec.RoundTripIffNormal | adapters/mqtt/src/codec.rs:854-1387 | a packet comes back as it was exactly when it is in normal form |
| MqttCodec.EncodedPrefix | adapters/mqtt/src/codec.rs:854-877 | every strict prefix of a written packet asks for more |
| MqttSound.DecodedIsSound | adapters/mqtt/src/codec.rs:854-1204 | whatever octets arrive, a decoded packet is well formed: valid text, widths, reason codes, typed properties, fields present as version and quality of service demand |
| MqttSound.DecodedIsNormal | adapters/mqtt/src/codec.rs:854-1204 | every decoded packet is in normal form, save for a spelled-out empty property block |
| MqttReencode.ReadAgain | adapters/mqtt/src/codec.rs:854-1387 | a packet that was read can be written again whenever its body fits the length field, and then reads back as the same packet exactly when it does not spell out an empty property block |
| MqttReencode.TidyReadAgain | adapters/mqtt/src/codec.rs:854-1387 | a packet whose property blocks all end as announced can be written again in no more octets than were read, and reads back as the same packet exactly when it does not spell out an empty block |
| MqttReencode.BodyLength | adapters/mqtt/src/codec.rs:876-1204 | for every type of packet: the body is written in no more octets than were read when its blocks end as announced |
| MqttGrowth.BlockNeverGrows | adapters/mqtt/src/codec.rs:610-661 | a property block that ends as announced takes no more octets when written again than were read |
| MqttGrowth.BlockGrowsIff | adapters/mqtt/src/codec.rs:610-661 | a block without repeated fields and padded identifiers takes no more octets exactly when its length field has room for all its octets, announced or not |
| MqttGrowth.OverrunGrows | adapters/mqtt/src/codec.rs:610-661 | a user property of at least 128 octets in a block that announces one octet takes more octets when written again |
| MqttGrowth.VarRead | adapters/mqtt/src/codec.rs:590-607 | a variable byte integer is written in no more octets than it was read from, and in as many exactly when it was not padded |
| MqttGrowth.CollectLength | adapters/mqtt/src/codec.rs:618-661 | collected properties take no more octets than the items read, and as many when no field repeats |
| MqttSound.PropsSound | adapters/mqtt/src/codec.rs:610-661 | every property read has a known identifier and a value of its type |
| MqttSession.ChunkingIrrelevant | adapters/mqtt/src/server.rs:113-139 | however a stream is cut, handled packets, version, aliases, leftover buffer and closing are those of receiving it at once |
| MqttSession.SameStreamSameState | adapters/mqtt/src/server.rs:113-139 | on a new connection two cuts of one stream lead to the same state |
| MqttSession.Connection.Receive | adapters/mqtt/src/server.rs:113-139 | the decode loop takes every complete packet off the buffer and closes on errors |
| MqttSession.Connection.HandlePacket | adapters/mqtt/src/server.rs:164-306 | version, alias tables and closing after one packet |
| MqttAlias.AliasLossless | adapters/mqtt/src/server.rs:334-352 | for any deliveries and any maximum up to 65534, the inbound rule recovers every delivery in order |
| MqttAlias.LosslessIff | adapters/mqtt/src/server.rs:334-352 | every stream of deliveries is recovered exactly when the maximum is not 65535 |
| MqttAlias.RepeatLost | adapters/mqtt/src/server.rs:334-352 | with maximum 65535, a stream of 65538 deliveries whose last one reaches another topic |
| MqttAlias.SoundIff | adapters/mqtt/src/server.rs:334-352 | aliases stay between 1 and the maximum and distinct on every stream exactly when the maximum is not 65535 |
| MqttAlias.CounterWraps | adapters/mqtt/src/server.rs:344-346 | with maximum 65535 the 65536th topic is given alias 0 |
| MqttAlias.EndToEnd | adapters/mqtt/src/server.rs:312-352 | deliveries aliased, encoded, cut anyhow, decoded and resolved are handled in order, and nothing else is |
| MqttAlias.AliasTable.Apply | adapters/mqtt/src/server.rs:334-352 | the rewritten publish and the table after it |
| MqttRegistry.KeyParts | adapters/mqtt/src/broker.rs:92-94 | a key gives back the client and filter it was made of |
| MqttRegistry.KeysMeetIff | adapters/mqtt/src/broker.rs:92-94 | two clients can have one key between them exactly when they are the same or one is the other with a NUL behind it |
| MqttRegistry.OwnsAllIff | adapters/mqtt/src/broker.rs:151-165 | a session is taken for the owner of all keys of a client exactly when that client is itself or starts with it and a NUL |
| MqttRegistry.DropTakesUnder | adapters/mqtt/src/broker.rs:151-165 | dropping a session takes out the subscriptions of such a client as well |
| MqttRegistry.SameKey | adapters/mqtt/src/broker.rs:92-94 | the shortest pair of clients and filters with one key |
| MqttRegistry.ParseShareFilter | adapters/mqtt/src/broker.rs:99-106 | a shared filter is parsed into the group and filter it was made of |
| MqttRegistry.SharedText | adapters/mqtt/src/broker.rs:99-106 | what parses as a shared filter is the text of that group |
| MqttRegistry.SubscribeInv | adapters/mqtt/src/broker.rs:216-237 | subscribing keeps router, subscription states and group members in agreement |
| MqttRegistry.UnsubscribeInv | adapters/mqtt/src/broker.rs:283-293 | unsubscribing keeps them in agreement |
| MqttRegistry.DropSessionInv | adapters/mqtt/src/broker.rs:151-165 | dropping a session removes exactly its own subscriptions and keeps the rest in agreement |
| MqttRegistry.LeftKept | adapters/mqtt/src/broker.rs:167-179 | a leaving member is gone, the others stay, and the cursor is in range |
| MqttShare.DirectOnce | adapters/mqtt/src/broker.rs:328-341 | the direct keys picked belong to different clients |
| MqttShare.ChosenIff | adapters/mqtt/src/broker.rs:342-364 | a group chooses someone exactly when a member is connected, and then a connected member |
| MqttShare.TurnsRotate | adapters/mqtt/src/broker.rs:348-362 | whoever is chosen goes to the end of the queue of connected members |
| MqttShare.QueueServed | adapters/mqtt/src/broker.rs:348-362 | a choice serves the head of the queue of connected members, which then goes to its end |
| MqttShare.FairCycle | adapters/mqtt/src/broker.rs:348-362 | of k choices each of the n in the queue gets k/n, rounded down or up |
| MqttShare.QueueIs | adapters/mqtt/src/broker.rs:348-362 | the queue holds every connected member once and nobody else |
| MqttShare.PublishInv | adapters/mqtt/src/broker.rs:342-364 | publishing keeps the tables in agreement |
| MqttBroker.RegistryAgrees | adapters/mqtt/src/broker.rs:132-364 | in every reachable state the tables agree and every cursor is in range |
| MqttBroker.MatchedIff | adapters/mqtt/src/broker.rs:321-341 | a group is matched exactly when it has members and its filter accepts the topic |
| MqttBroker.SharedExactlyOne | adapters/mqtt/src/broker.rs:342-364 | in every reachable state a publish chooses one connected member of a group exactly when its filter accepts the topic and a member is connected |
| MqttBroker.DirectAtMostOne | adapters/mqtt/src/broker.rs:321-341 | in every reachable state a publish picks at most one direct subscription of a client, and one exactly when the client has one that accepts the topic |
| MqttFairness.SharedFairly | adapters/mqtt/src/broker.rs:132-364 | from every reachable state, over any steps that leave a group's members and its connected members as they are, each of the n connected members gets k/n of the k choices made, rounded down or up |
| MqttFairness.SelectionsGoRound | adapters/mqtt/src/broker.rs:132-364 | over such steps the members chosen are the queue going round |
| MqttFairness.GroupKept | adapters/mqtt/src/broker.rs:132-293 | a connect, disconnect, subscribe or unsubscribe that leaves the members as they were leaves the cursor too |
| MqttBroker.Broker.DropSession | adapters/mqtt/src/broker.rs:151-165 | the keys with the client's prefix are taken out everywhere, in some order |
| MqttBroker.Broker.RemoveSharedMember | adapters/mqtt/src/broker.rs:167-179 | the member leaves the group |
| MqttBroker.Broker.Connect | adapters/mqtt/src/broker.rs:132-144 | a clean session is dropped first, then the client is connected |
| MqttBroker.Broker.Subscribe | adapters/mqtt/src/broker.rs:216-237 | every filter in turn enters router, states and groups |
| MqttBroker.Broker.Unsubscribe | adapters/mqtt/src/broker.rs:283-293 | every filter in turn leaves router, states and groups |
| MqttBroker.Broker.Publish | adapters/mqtt/src/broker.rs:320-364 | whom a publish selects, and the cursors after it |
| MqttBroker.Partition | adapters/mqtt/src/broker.rs:328-341 | one pass splits routed keys into direct ones and matched groups |
| MqttBroker.FindConnected | adapters/mqtt/src/broker.rs:348-362 | the first connected member from the cursor on |
| AmqpFields.FieldsRoundTrip | adapters/amqp/src/codec.rs:126-237 | any sequence of bits, integers and strings, written and read with the same kinds, comes back over exactly its octets |
| AmqpFields.FieldsRoundTripIff | adapters/amqp/src/codec.rs:126-387 | fields come back as they were, over exactly their octets, exactly when every number and length fits its width |
| AmqpFields.BitBack | adapters/amqp/src/codec.rs:192-201 | a bit is read where it was written, across octet boundaries |
| AmqpFields.FieldBack | adapters/amqp/src/codec.rs:204-237 | a whole field is read where it was written, behind a closed octet of bits |
| AmqpFields.KeepsAll | adapters/amqp/src/codec.rs:337-387 | later writes keep whole octets and the low bits of the open octet |
| AmqpFields.Writer.PutFlag | adapters/amqp/src/codec.rs:365-373 | one bit is added and a full octet is pushed |
| AmqpFields.Writer.PutNum | adapters/amqp/src/codec.rs:345-363 | the open octet is closed, then the integer is written big-endian |
| AmqpFields.Writer.PutShort | adapters/amqp/src/codec.rs:375-380 | the open octet is closed, then one octet of length and the string |
| AmqpFields.Writer.PutLong | adapters/amqp/src/codec.rs:382-387 | the open octet is closed, then four octets of length and the string |
| AmqpFields.Writer.IntoBytes | adapters/amqp/src/codec.rs:403-406 | all octets, the open one closed |
| AmqpFields.Reader.GetBit | adapters/amqp/src/codec.rs:192-201 | the next bit, taking a new octet when none is left; at the end nothing moves |
| AmqpFields.Reader.GetNum | adapters/amqp/src/codec.rs:140-188 | leftover bits are dropped, then the integer is read; with too few octets left nothing else moves |
| AmqpFields.Reader.GetShort | adapters/amqp/src/codec.rs:204-213 | the string, or an error that leaves the reader behind its length |
| AmqpFields.Reader.GetLong | adapters/amqp/src/codec.rs:216-237 | the string, or an error that leaves the reader behind its length |
| RespCodec.RoundTrip | adapters/resp/src/codec.rs:85-222 | every plain value is read back at any depth, over exactly its octets, with any suffix behind |
| RespCodec.RoundTripIff | adapters/resp/src/codec.rs:85-222 | a value of any depth is read back over exactly its octets exactly when it is plain: text that is UTF-8 without a line end inside, integers and lengths of 64 bits |
| RespCodec.ParseShow | adapters/resp/src/codec.rs:110-122 | every 64-bit integer is parsed from its decimal text, and a wider one is refused |
| RespCodec.ScanCrlf | adapters/resp/src/codec.rs:58-67 | the scan loop finds the first line end |
| RespCodec.DecodeArray | adapters/resp/src/codec.rs:150-176 | the position loop reads the elements one after the other |
| RespCodec.DecodeValue | adapters/resp/src/codec.rs:85-178 | the recursive reader computes `Decode` |

## Left out

- Sockets, tasks, timers, long polling, TLS, HTTP, gRPC, metrics, the CLI and the control plane: input and output.
- Elections as `try_elect` and `Cluster::run_election` drive them, and liveness of replication: they do not keep the driver contract.
- State machine safety across leaderships: `match_index` is not reset when an election is won.
- `commit_up_to`, and overflow of 64-bit terms, offsets and sequence numbers.
- Concurrent appends to one segmented log: the offset is taken before the lock, so appends are modelled as sequential.
- TieredStore.TieredSegmentedLog.Append: stands for the flat sequence only with payloads under 2^32 octets and fewer than 2^32 segments, because lengths and segment ids are 32 bits wide in the code.
- TieredStore.TieredSegmentedLog.Read: never sees the object store lose a key, so the error of a missing object does not arise.
- TaskServer.TaskQueueManager.Take: requires the token not to be leased already, which stands for tokens being freshly generated; works on a queue taken up from a value, like AddTask.
- TaskServer.TaskQueueManager.Respond: works on a queue taken up from a value, like AddTask.
- TaskServer.TaskQueue.Dispatch: requires the token not to be leased already, for the same reason.
- TaskServer.TaskQueueManager.AddTask: takes a task queue up from a value and puts its new value back, so sharing of queue objects between callers is not captured.
- Task queue names containing `|`: keys are plain joins, so isolation of queues is not claimed.
- MqttIo.Writer.Props: walks the list of properties present instead of one conditional per identifier.
- Per-packet readers and writers of MQTT other than the cursor, integers and property blocks are functions; their loops over filters and codes are `Parsing.ReadMany`.
- MqttSession.Connection.HandlePacket: leaves out replies, keep-alive and the calls into the broker.
- MqttBroker.Broker.Publish: selects subscriptions only; effective quality of service, No Local, packet identifiers, retained messages and durability are left out.
- MqttReencode.ReadAgain: for packets with a block that runs past its announced end, takes the fit of the written body as its condition.
- Broker runs with client identifiers that hold a NUL octet: the theorems over runs take identifiers without one.
- AmqpFields.Reader.GetShort: gives the octets of the string; the repair of invalid UTF-8 is left out.
- AmqpFields.Reader.GetLong: gives the octets of the string, as the raw variant does; the repair of invalid UTF-8 in the text variant is left out.
- AmqpFields.FieldsRoundTrip: strings are octet sequences; repair of invalid UTF-8 on reading does not arise for strings that were written.
- AMQP frames, field tables, method arguments and broker accounting: easier, or not a theorem of the code.
- RESP input that is not a whole value: a lone marker is an error in the code. Memory for huge announced arrays is not modelled.
- Text of error messages; errors are only told apart as running out of octets or malformed.
- The native protocol, WASM transforms, backpressure, tenant counters, Kafka encoders and rebalancing.
