# Verified models of the state stores and of Redis Streams

This project models, in Dafny 4.11, the concurrent heart of the Dapr component library: the Redis and
ZooKeeper state stores with their ETags, the retry loop around them, the Redis Streams consumer, and the
consistency levels of the Cassandra store. `dafny verify dfyconfig.toml` checks everything.

A server (Redis, ZooKeeper, a stream with its consumer group, a set of replicas) is an explicit state
machine whose steps are the commands it executes atomically. The Go code is the client that drives it.
Whatever the Go code cannot control is a parameter over which every theorem quantifies: the commands of
other clients between any two of its own, lost requests and replies, crashes, handler outcomes, the order
of the fields in a hash reply, and the behaviour of ZooKeeper's `Multi`.

| file | contents |
|---|---|
| `Common.dfy`, `Requests.dfy` | options, fates, 32- and 64-bit truncation; requests and option checks |
| `Decimal.dfy` | decimal text: Itoa, Atoi, the integers HINCRBY accepts |
| `VersionedCell.dfy` | the versioned cell behind both stores: three lemmas about one lifetime of a key |
| `Retry.dfy` | the retry loop, generic in the world an attempt changes; back-off arithmetic |
| `RedisServer.dfy` | key space with textual hashes, both Lua scripts, transactions, reads; simulation by a numbered cell per key |
| `RedisHistory.dfy` | theorems about every interleaved run on one key space |
| `RedisStore.dfy` | the store: Set, Delete, Get, Multi, hash decoding, ETags, Get followed by Set |
| `ReplicaInfo.dfy` | the replica count in the reply to INFO |
| `ZkServer.dfy`, `ZkStore.dfy`, `ZkBulk.dfy` | nodes and runs; Set, Delete, Get and Get followed by Set; BulkSet and BulkDelete |
| `Streams.dfy` | consumer group, sessions, and the reading loop as a run of that protocol |
| `Cassandra.dfy` | level choice and replicas |

## What turned out to need care

* Redis versions restart when a key is deleted or written by `Multi`. The ETag theorems therefore speak of
  one lifetime of a hash; `RebirthDefeatsETags` shows that they fail across lifetimes at every version, and
  `AliveUnlessEnded` says exactly which commands end one.
* A retried set is applied at most once if it is conditional and its key is a hash throughout.
  `RedisStore.RetriedSetRepeats` gives the exact condition, over all losses and all commands of others that
  end no hash, under which some run of the retry loop applies it twice: the policy allows a second attempt
  (a known pattern and a threshold of at least 2), and the set is unconditional and the version has room for
  two more, or the key was no hash when the call began and the ETag is 0 or any version from 1 to 2^63 - 2.
  On ZooKeeper, counting fewer than 2^32 sets between the two effects, `ZkStore.RetriedSetRepeats` says: the
  policy allows a second attempt, and the set is unconditional or its node was missing.
* An attempt may take effect and report an error (lost reply, failed WAIT). `EffectThenErrors`: no later
  attempt of the same conditional set can then succeed, so the caller is told of a failure.
* A retried delete can remove a hash created after its first, unanswered attempt.
  `RetriedDeleteRemovesSuccessor`: exactly if a set accepted in between was left standing, and the ETag is
  the wildcard or the number of sets accepted since the key last became a hash. Likewise on ZooKeeper, with
  a create in place of the set.
* At version 2^63 - 1 the set script stores the data, fails to raise the version and reports an error.
  `RefusedSetIsInert`, `ETagAmbiguousAtLimit` and `StoreRefinesMap` state the consequences exactly: a run
  behaves as a plain map if and only if no such set occurs in it.
* ZooKeeper versions are 32-bit counters. Two uses of one version in one lifetime of a node are the same
  use exactly if the node was set fewer than 2^32 times in between; other traffic does not matter.
* On Redis a set compares ETags as numbers and a delete compares them as text; last-write has no influence
  on a delete, and a last-write set with an unparsable ETag is an error. On ZooKeeper an unparsable ETag,
  and any number that truncates to -1 in 32 bits, is silently unconditional (`ETagIsWildcard`).
* `BulkSet` and `BulkDelete` on ZooKeeper treat the results of `Multi` as independent, as the mocked
  connection of the tests returns them. Then `BulkSet` succeeds exactly when setting the requests in turn
  would and no missing node is named twice. The client library the store is built with rolls a batch back
  and reports its first error as the error of `Multi` itself, which both operations return at once. So in
  production `BulkSet` never creates a node: it succeeds exactly when setting in turn would and no node is
  missing (`BulkSetAsRun`), and `BulkDelete` fails if one listed node is missing (`BulkDeleteAsRun`).
* A hypothetical `Multi` that rolled back and still returned results would make `BulkSet` return nil and
  lose all writes but the last when only the last node is missing (`AllOrNothingDropsWrites`).
* A stream entry whose handler failed, whose acknowledgement or delivery was lost, or that a crash caught in
  hand is handled again only after a new subscription (`NoRedeliveryWithoutRestart`).
* A read of new entries that the server executed and whose reply was lost takes those entries away from the
  session for good (`LostReplySkips`), although the client repeats the read; a lost request skips nothing
  (`NothingSkipped`).
* A strong Cassandra read may miss an acknowledged eventual write at every replication factor.

## Model

| member | source | states |
|---|---|---|
| Requests.OptionTexts | state/retry.go:13-42 | which option texts a request may carry |
| Retry.WithRetries | state/retry.go:45-98 | at least one call exactly for the patterns "", linear and exponential; one call and its own error for a non-positive threshold, otherwise calls until the first success or the threshold; nil iff the last call succeeded; one sleep per failure, the first of the interval and each later one the same, or twice the last in 64 bits for exponential; the world is what the calls made of it |
| Retry.BackoffDoubles | state/retry.go:60-62 | doubling the truncated duration gives the truncation of the exact next duration |
| Retry.ExponentialBackoffVanishes | state/retry.go:53-63 | from the 65th sleep on every exponential sleep is 0 |
| Retry.ExponentialTotal | state/retry.go:53-63 | f failures sleep interval * (2^f - 1) in total, for any interval, if and only if the longest sleep fits 64 bits |
| Decimal.ItoaRoundTrip | state/redis/redis.go:280-290 | printing an int64 and parsing it back is the identity, and the text is an integer to HINCRBY |
| Decimal.OtherSpellings | state/redis/redis.go:280-290 | a sign or a leading zero parses to the same number, but is no integer to HINCRBY |
| VersionedCell.VersionDeterminesData | state/redis/redis.go:26 | in one lifetime of a versioned cell, equal versions below the ceiling mean equal data |
| VersionedCell.OvertakenForGood | state/redis/redis.go:26 | a version that was raised is never current again in the same lifetime |
| RedisServer.StepOnSlots | state/redis/redis.go:26-27 | on every key the text-level scripts and transactions simulate a numbered cell; no step leaves a hash without data or version; a script accepts exactly when the numbers match, the wildcard is given, or there is no hash |
| RedisServer.RunsKeepSound | state/redis/redis.go:26-27 | no run of sets, deletes and transactions reaches a hash with a missing or malformed field |
| RedisServer.SlotNext | state/redis/redis.go:26-27 | every op of every run moves every key as the numbered cell prescribes, and its reply says whether it was accepted |
| RedisHistory.AliveUnlessEnded | state/redis/redis.go:27 | a hash stays a hash through a run if and only if no delete of it is accepted and no transaction writes it |
| RedisHistory.NoLostUpdate | state/redis/redis.go:188-228 | in every interleaved run of one lifetime at most one set carrying a given version is accepted |
| RedisHistory.ETagDeterminesData | state/redis/redis.go:165-186 | two instants of one lifetime with equal versions below the limit hold equal data |
| RedisHistory.ETagAmbiguousAtLimit | state/redis/redis.go:26 | at version 2^63 - 1 two writes leave different data under the same version |
| RedisHistory.ReplacesWhatWasRead | state/redis/redis.go:26-27 | an accepted conditional set or delete replaces exactly the data that was read with its version, at any earlier instant, by any client |
| RedisHistory.LiveIffRevived | state/redis/redis.go:26-27 | once a key is no hash, it is one at a later instant if and only if a set accepted since then was left standing |
| RedisHistory.RebirthDefeatsETags | state/redis/redis.go:114-125 | for every version v below the limit: after anything that ended the hash and v sets, the stale version v is accepted over data it was not read with |
| RedisHistory.VersionAccounting | state/redis/redis.go:26-27 | from any well-formed store, at every instant a version is the number of accepted sets since the key last became a hash, counted from commands and replies alone |
| RedisHistory.RefusedSetIsInert | state/redis/redis.go:26 | a refused set leaves its key as it was, except exactly at the 64-bit limit with a matching version and new data |
| RedisHistory.StoreRefinesMap | state/redis/redis.go:243-258 | in every run of any length from any well-formed store, each key holds its last accepted write at every instant, through all three representations, if and only if no set overflows the version |
| RedisHistory.ShortRunsRefineMap | state/redis/redis.go:243-258 | no set overflows, and the key holds its last accepted write, while version and number of commands together stay within 64 bits |
| RedisStore.SuccessTookEffect | state/redis/redis.go:188-223 | an attempt that returns nil was accepted by the script, and was the last command of the call |
| RedisStore.WaitFailureIsReported | state/redis/redis.go:215-220 | an accepted write is reported as an error exactly when it is strong, there are replicas and WAIT failed |
| RedisStore.InvalidSetSendsNothing | state/redis/redis.go:188-196 | unsupported options or a bad ETag fail every attempt with their own error, without reaching the server |
| RedisStore.AtMostOnce | state/redis/redis.go:225-228 | all attempts of a conditional set in one lifetime together take effect at most once |
| RedisStore.ExactlyOnce | state/redis/redis.go:188-228 | any number of attempts of a conditional set, interleaved with anything that keeps the key a hash, take effect at most once, and exactly once with the last command if the last attempt succeeded |
| RedisStore.EffectThenErrors | state/redis/redis.go:210-220 | after one attempt of a conditional set took effect, every further attempt fails |
| RedisStore.AttemptSucceeds | state/redis/redis.go:188-223 | an attempt returns nil if and only if EVAL got through, the key is no hash or has room and the carried version, and WAIT was not sent or did not fail; it then leaves the new data under the next version |
| RedisStore.RetriedSetRepeats | state/redis/redis.go:188-228 | some run of the retry loop under the request's own policy, with losses and others' commands that end no hash, has two attempts of a set both take effect if and only if the policy allows two attempts, and the set is unconditional with room for two versions, or the key was no hash and the version is from 0 to 2^63 - 2 |
| RedisStore.RetriedDeleteRemovesSuccessor | state/redis/redis.go:114-134 | after an accepted delete, a later attempt finds a hash if and only if a set accepted in between was left standing, and removes it if and only if moreover its ETag is the wildcard or the number of sets since that birth |
| RedisStore.DeleteSuccess | state/redis/redis.go:114-125 | a successful delete attempt sent the normalized ETag and left the key absent at that instant |
| RedisStore.DeleteSucceeds | state/redis/redis.go:114-125 | a delete attempt returns nil if and only if EVAL got through and the key is no hash, or the ETag is the wildcard or the text of its version |
| RedisStore.ETagRoundTrip | state/redis/redis.go:193-213 | on one state: the ETag text shown for a hash survives parse and print and is accepted by the set script, which raises the version by one unless at the limit, and by the delete script |
| RedisStore.LastWriteWins | state/redis/redis.go:193-200 | a last-write set is accepted whatever its ETag's number, except at the limit; its ETag must still parse |
| RedisStore.EqualETagsEqualData | state/redis/redis.go:165-186 | two Gets of one lifetime that show the same ETag text show the same data, except for the largest number |
| RedisStore.SetReplacesWhatGetShowed | state/redis/redis.go:164-213 | a set accepted with the ETag of an earlier Get of any client replaces exactly the data that Get showed, and leaves its own |
| RedisStore.SetComparesNumbersDeleteText | state/redis/redis.go:114-118 | which spellings of an ETag a set and a delete accept on a hash |
| RedisStore.GetKeyVersion | state/redis/redis.go:260-278 | succeeds iff both fields occur, and returns the value after the last occurrence of each |
| RedisStore.DecodingIsOrderIndependent | state/redis/redis.go:260-278 | for every flattening of a hash, in any order and with other fields, the decoded value is the field's |
| RedisStore.DecodedAsShown | state/redis/redis.go:170-185 | the reply for a well-formed key is decoded to its data and ETag and never reported as missing a field |
| RedisStore.DirectGetShows | state/redis/redis.go:148-162 | the fallback read returns the string or nothing as of its own instant, and fails exactly on a hash |
| RedisStore.StateStore.Set | state/redis/redis.go:225-228 | the call is the retry loop over its attempts, and reports success iff the last one did; a first attempt that gets through and is admitted succeeds at once with the new slot; success implies the write took effect with the call's last command, which carries the bytes of a byte slice or else the JSON text; a conditional set in one lifetime takes effect at most once on any result; an invalid request changes nothing |
| RedisStore.StateStore.Delete | state/redis/redis.go:127-134 | the call is the retry loop over its attempts; a first attempt that gets through and is admitted succeeds at once; success implies the key was absent at some instant by this call's doing; the empty ETag in the request is overwritten; unsupported options are refused before any attempt |
| RedisStore.StateStore.Get | state/redis/redis.go:164-186 | for every environment exactly which commands the server sees and what is answered; a success answers with the content and version of the key at one instant; undisturbed it shows the stored string, or the two fields of the stored hash, or nothing |
| RedisStore.GetShowsContent | state/redis/redis.go:164-186 | a successful Get returns the bytes stored under the key at one instant, empty if none, and the decimal version of a hash, else no ETag |
| RedisStore.GetReturnsLastWrite | state/redis/redis.go:164-186 | while no set overflows, a successful Get returns the last write accepted before one instant of the call, through all three representations |
| RedisStore.UndisturbedGet | state/redis/redis.go:148-186 | what is stored is what is shown; if HGETALL is lost, a string or nothing is still shown and a hash is an error |
| RedisStore.GetShowsOneInstant | state/redis/redis.go:164-186 | data and ETag are those of one instant of the call, also across the fallback; on a working network the only error is a string becoming a hash between the two reads |
| RedisStore.StateStore.Multi | state/redis/redis.go:242-258 | all operations take effect at one instant, the last one on each key deciding its content: an upsert leaves its JSON text, a delete nothing, and other keys keep theirs |
| RedisStore.TxDecided | state/redis/redis.go:242-258 | the last operation on a key decides: an upsert leaves its JSON text even for bytes, a delete removes the key |
| RedisStore.SetShown | state/redis/redis.go:188-228 | Set with the ETag the store shows at its start: the retry loop of Set; undisturbed it succeeds below the limit and raises the version by one; whoever interferes, success in that lifetime replaced just the data shown |
| RedisStore.GetThenSet | state/redis/redis.go:164-228 | Get followed by Set with its ETag: the same, for the data and ETag that Get returned |
| RedisStore.SetThenGet | state/redis/redis.go:164-228 | Set followed by Get, undisturbed and admitted: Get shows the bytes that were set, or the JSON text, under the next version |
| ReplicaInfo.ParseConnectedSlaves | state/redis/redis.go:102-112 | every slice is in bounds, the result fits 32 bits and is the count in the first line with the marker |
| ReplicaInfo.SplitJoin | state/redis/redis.go:103 | splitting at CRLF undoes joining |
| ReplicaInfo.ParserInvertsPrinter | state/redis/redis.go:102-112 | if the first line with the marker is marker and decimal of n < 2^32, the result is n |
| ReplicaInfo.NoMarkerNoReplicas | state/redis/redis.go:102-112 | without the marker the result is 0 |
| ReplicaInfo.OverflowClamps | state/redis/redis.go:106 | a number beyond 32 bits yields the largest 32-bit value whatever follows it |
| ReplicaInfo.SyntaxErrorIsZero | state/redis/redis.go:106 | anything but a digit before 32 bits overflow makes the count 0 |
| ZkServer.NoLostUpdate | state/zookeeper/zk.go:194-209 | in runs of any length, two applied set-datas of one lifetime that carry the same version are one, if and only if the node was set fewer than 2^32 times from the one to the other |
| ZkServer.ETagDeterminesData | state/zookeeper/zk.go:137-148 | equal versions in one lifetime show the same node if and only if it was set fewer than 2^32 times in between |
| ZkServer.VersionAccounting | state/zookeeper/zk.go:24 | from any start the version is the 32-bit count of sets since creation, counted from requests and results alone, and equals -1 only after 2^32 - 1 of them |
| ZkServer.ExistsIffRevived | state/zookeeper/zk.go:157-208 | a missing node exists at a later instant if and only if a create applied since then was left standing |
| ZkStore.ETagRoundTrip | state/zookeeper/zk.go:276-318 | on one state: a set with the ETag shown carries that version through Itoa, Atoi and the int32 cast, and is applied |
| ZkStore.LastWriteWins | state/zookeeper/zk.go:289-293 | a last-write set is applied to an existing node whatever its ETag |
| ZkStore.ETagIsWildcard | state/zookeeper/zk.go:310-318 | exactly which ETags make an operation unconditional |
| ZkStore.ETagDecides | state/zookeeper/zk.go:256-318 | the requests built for a set and a delete match a node exactly if last-write is asked for, the ETag is no 64-bit decimal or congruent to -1, or it agrees with the count of sets modulo 2^32 |
| ZkStore.PlainETags | state/zookeeper/zk.go:310-318 | without last-write the decimal text of a 32-bit version other than -1 accepts just that version, and no ETag every version |
| ZkStore.SuccessTookEffect | state/zookeeper/zk.go:200-208 | an attempt that returns nil ended with its own set or create, and the node holds its data |
| ZkStore.AttemptSucceeds | state/zookeeper/zk.go:200-208 | an attempt returns nil if and only if its messages get through and the node matches, or is missing and still missing when created; it then leaves the node with one more set, or new; and which error it returns otherwise |
| ZkStore.DeleteSucceeds | state/zookeeper/zk.go:157-163 | a delete attempt returns nil if and only if it gets through and finds a matching node or none; it then leaves all other nodes |
| ZkStore.AtMostOnce | state/zookeeper/zk.go:194-209 | two effects of a conditional set in one lifetime of the node are one, if and only if the node was set fewer than 2^32 times from the one to the other |
| ZkStore.ExactlyOnce | state/zookeeper/zk.go:194-209 | any number of attempts of a conditional set, in one lifetime of the node in which it is set fewer than 2^32 times, take effect at most once, and exactly once with the last command if the last attempt succeeded |
| ZkStore.RetriedSetRepeats | state/zookeeper/zk.go:194-209 | some run of the retry loop under a policy, with losses and others' commands that never delete the node, has a set take effect twice, fewer than 2^32 sets apart, if and only if the policy allows two attempts, and the set is unconditional or its node was missing |
| ZkStore.RetriedDeleteRemovesSuccessor | state/zookeeper/zk.go:151-164 | after a delete that removed the node or found none, a later attempt finds a node if and only if a create applied in between was left standing, and removes it if and only if moreover its version is the wildcard or the count of sets since that birth |
| ZkStore.StateStore.Set | state/zookeeper/zk.go:193-209 | the call is the retry loop over its attempts, and reports success iff the last one did; on an existing node the first attempt succeeds exactly if it gets through and its ETag is accepted; success means the last event was this call's write, of the bytes of a byte slice or else the JSON text; a conditional set in one lifetime takes effect at most once; an invalid request changes nothing |
| ZkStore.StateStore.Delete | state/zookeeper/zk.go:150-164 | the call is the retry loop over its attempts; the first attempt succeeds exactly if it gets through and finds no node or one its ETag accepts; success means the last event was this call's delete, of such a node or of none |
| ZkStore.StateStore.Get | state/zookeeper/zk.go:136-148 | data and ETag of the node as it is, an error exactly for a missing node or a failed request |
| ZkStore.GetThenSet | state/zookeeper/zk.go:136-209 | Get followed by Set with its ETag: undisturbed it succeeds and counts one more set; whoever interferes, success in that lifetime found exactly the node that was read, unless the ETag is the wildcard |
| ZkStore.SetThenGet | state/zookeeper/zk.go:136-209 | Set followed by Get, undisturbed and accepted: Get shows what was set, under the next version, or under version 0 of a new node |
| ZkBulk.BulkSet | state/zookeeper/zk.go:211-250 | at most two Multi rounds whatever Multi does; one invalid request leaves everything untouched; otherwise the result is that of the closed two-round form |
| ZkBulk.Sift | state/zookeeper/zk.go:229-242 | results of one Multi are sorted into errors and creates in order |
| ZkBulk.CreatesAreFinal | state/zookeeper/zk.go:231-242 | a round of creates leaves nothing to retry |
| ZkBulk.SetOnceIsAttempt | state/zookeeper/zk.go:200-208 | the reference for the batch is one undisturbed attempt of Set |
| ZkBulk.BulkSetRefinesSet | state/zookeeper/zk.go:211-254 | with independent operations BulkSet returns nil iff Set in turn would succeed throughout and no missing node is named twice, and then leaves the same nodes |
| ZkBulk.DuplicateMissingFails | state/zookeeper/zk.go:211-254 | a missing node named twice is refused although setting it twice in turn works |
| ZkBulk.BulkSetAsRun | vendor/github.com/samuel/go-zookeeper/zk/structs.go:343-389 | with the Multi of the client library, BulkSet returns nil if and only if Set in turn would succeed throughout and no node is missing, and then leaves the same nodes and creates none; otherwise it leaves everything untouched and reports the first error |
| ZkBulk.FirstErrorIsFirst | vendor/github.com/samuel/go-zookeeper/zk/structs.go:383-388 | the error of a rolled-back batch is that of its first failing operation |
| ZkBulk.TwoRoundsAllOrNothing | state/zookeeper/zk.go:223-249 | for a hypothetical Multi that rolls back and reports it in its results: BulkSet returns nil if and only if no operation fails, or the last node is missing and no other operation fails; in the latter case only that node is written |
| ZkBulk.AllOrNothingDropsWrites | state/zookeeper/zk.go:223-249 | for the same hypothetical Multi: among the batches for which BulkSet returns nil, it leaves what setting in turn leaves if and only if no node is missing or the batch is a single request |
| ZkBulk.BulkDelete | state/zookeeper/zk.go:166-191 | one Multi; every error but a missing node is reported, in order; one invalid request leaves everything untouched |
| ZkBulk.DeleteOnceIsAttempt | state/zookeeper/zk.go:157-163 | the reference for the batch is one undisturbed attempt of Delete, at any point of any call |
| ZkBulk.BulkDeleteRefinesDelete | state/zookeeper/zk.go:166-191 | with independent operations, duplicates and errors included: the nodes of deleting in turn, which are those that no listed delete matches; nil iff each delete in turn succeeds, which is iff each one's node is missing or matched by it or an earlier one |
| ZkBulk.BulkDeleteRemovesListed | state/zookeeper/zk.go:166-191 | nil means that exactly the listed nodes are gone |
| ZkBulk.BulkDeleteAsRun | state/zookeeper/zk.go:166-191 | with the Multi of the client library, BulkDelete returns nil if and only if no node is listed twice and each exists with the version listed, and then exactly the listed nodes are gone; otherwise everything is untouched |
| ZkBulk.BulkDeleteAsRequested | state/zookeeper/zk.go:166-191 | the same in terms of the requests: nil if and only if they name different nodes, each of which exists and is accepted by its ETag |
| ZkBulk.BulkSetAsRequested | state/zookeeper/zk.go:211-221 | each set-data of a batch carries its request's path and bytes or JSON text, and matches exactly what its ETag accepts |
| ZkBulk.ErrorsReported | state/zookeeper/zk.go:184-242 | BulkSet reports exactly the errors it does not retry, and BulkDelete exactly those other than a missing node |
| Streams.Conservation | pubsub/redis/redis.go:112-168 | in every run with crashes and losses each entry is in exactly one of undelivered, pending, acknowledged, and is acknowledged only if a handler call on it returned nil |
| Streams.SessionOrder | pubsub/redis/redis.go:153-168 | the ids one session hands to its handler strictly increase, whatever other sessions do |
| Streams.HandlersGetWhatWasPublished | pubsub/redis/redis.go:134-145 | the log is what was published, and each handler call carries the data published under its entry |
| Streams.FirstBatchIsPending | pubsub/redis/redis.go:154-158 | whatever happens between subscription and first read, the first batch is exactly what is pending at the read, in order, and every entry pending at the restart is in it or was acknowledged since |
| Streams.LaterBatchIsNew | pubsub/redis/redis.go:158-166 | whatever happens before it, every later read gives the session exactly what is not yet delivered, in order, and leaves nothing undelivered |
| Streams.LostReplySkips | pubsub/redis/redis.go:78-131 | if a try of a later read was executed and its reply lost, what was undelivered when the read began is delivered and not given to the session |
| Streams.NothingSkipped | pubsub/redis/redis.go:78-131 | if no reply is lost and others only publish, a read that succeeds gives everything undelivered when it began |
| Streams.Drains | pubsub/redis/redis.go:153-168 | while the only session's handler and acks succeed, nothing is pending after any batch and everything delivered is acknowledged |
| Streams.DroppedIsStranded | pubsub/redis/redis.go:134-166 | in every run, with any number of sessions, an entry given up by a failed handler, a lost acknowledgement or delivery, or a crash is stranded if and only if it is still pending and every other session is past it |
| Streams.StrandedUntilResubscribe | pubsub/redis/redis.go:145-166 | a stranded entry stays stranded and unhandled in any run without a new subscription |
| Streams.NoRedeliveryWithoutRestart | pubsub/redis/redis.go:134-166 | in every run with one session at a time, an entry given up in any of these ways stays pending and is not handled again until somebody subscribes |
| Streams.Subscriber.Process | pubsub/redis/redis.go:137-148 | exactly these steps: the handler with the outcome the environment gives it and, if and only if it returned nil, an acknowledgement with the fate the environment gives it; the session moves on either way |
| Streams.BatchAcks | pubsub/redis/redis.go:134-151 | after any number of messages of a batch, those whose handler returned nil and whose acknowledgement arrived are acknowledged, and if no other session acknowledges, no others |
| Streams.ReadingSucceeds | pubsub/redis/redis.go:78-131 | a read succeeds if and only if one of its four tries brings a reply |
| Streams.Subscriber.ReadFromStream | pubsub/redis/redis.go:121-132 | exactly these steps: try by try a lost reply is a read that happened, a lost request is none, and the first reply ends it; success iff one of the four tries brings a reply |
| Streams.Subscriber.ProcessStreams | pubsub/redis/redis.go:134-151 | the two nested loops handle exactly the messages of all streams in order, and what they acknowledge is what succeeded, as in BatchAcks |
| Streams.ServingHandsOver | pubsub/redis/redis.go:153-168 | what a session hands to its handler is the batches it read, each whole and in order |
| Streams.FirstServed | pubsub/redis/redis.go:153-168 | the first batch handed over is what was pending when it was read, and no entry pending at the subscription is skipped |
| Streams.LaterServed | pubsub/redis/redis.go:153-168 | every later batch handed over is all that was new when it was read, and nothing published before the loop then stays undelivered |
| Streams.ServingEndsSession | pubsub/redis/redis.go:157-162 | the session ends exactly when a read fails for good |
| Streams.Subscriber.BeginReadingFromStream | pubsub/redis/redis.go:153-168 | the loop adds exactly the steps of its closed form under the given environment |
| Streams.Subscriber.Subscribe | pubsub/redis/redis.go:112-168 | the run it adds is exactly the subscription and the reading loop; what is handled is the batches read, with increasing ids, the first one being what was pending, every later one all that was new; after two reads nothing published before is undelivered, and in a healthy environment all of it is acknowledged and the pending list drained; the session ends exactly when a read fails for good |
| Cassandra.ConsistencyNames | state/cassandra/cassandra.go:115-139 | which configured name selects which level, the empty one All |
| Cassandra.OverlapIsFresh | state/cassandra/cassandra.go:213-284 | if the levels overlap, a read returns the acknowledged write or a newer one that somebody made |
| Cassandra.FreshIffOverlap | state/cassandra/cassandra.go:213-284 | reads never miss an acknowledged write, in any history, iff the two levels need more than all replicas |
| Cassandra.StrongSeesStrong | state/cassandra/cassandra.go:213-271 | a strong read is never stale after a write at a level if and only if that level is not Any, so strong writes are always seen and eventual ones may be missed; eventual reads see strong writes only up to two replicas; other option texts use the configured level, and the default and quorum ones are safe by themselves |

## Left out

- Streams of more than one topic in one read: `ProcessStreams` takes several, but all of the topic the code asks for.
- Redis `BulkSet` and `BulkDelete`: loops over Set and Delete that stop at the first error.
- `bindings/`, `exporters/`, `secretstores/`, `servicediscovery/` and the remaining state stores: client plumbing around services whose semantics lie elsewhere.
- `Init` and metadata parsing of every component.
- JSON encoding, `path.Join` and the `%q`/Unquote pair: a payload carries its encoded text, the key prefix is a function, quoting is the identity.
- Several store objects on one server: a store object owns its server's state, and every other client appears as interleaved commands.
- Replica durability of WAIT: its acknowledgement count is not inspected by the code, only its error.
- ZooKeeper access control, parent nodes and session expiry; node versions are assumed to wrap as 32-bit counters.
- Cassandra deletes, data centres other than one, and equal timestamps with different values.
- Time: sleeps are recorded, not waited for, and the endless reading loop is cut after any number of reads.
- Text is a sequence of characters without an encoding; Go's `int` is taken as 64 bits wide.
