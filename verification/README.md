# Aldea: a verified model of storage, routing and rate limiting

Aldea is a distributed file store. A client cuts a file into chunks of 1 MiB, erasure-codes each chunk into
four data and four parity shards, encrypts every shard, stores the eight shards on eight nodes that the
tracker picks, and publishes the placement last. A repairer rebuilds the shards of dead nodes and moves
their placements. A download gathers any four shards of each chunk and puts the file back together. Around
this stand a Kademlia-style routing table and a token-bucket limiter.

This project models those three parts in Dafny and proves what they are for.

**Storage.** `Storage` is a state machine over the tracker's tables and every storage node: nodes register
with any metadata, liveness passes run, disks fail, nodes come back elsewhere with their old shards, single
shards get lost or corrupted, uploads begin, store shards and publish. The invariant is that every copy
held anywhere under a shard's id decrypts to the one canonical shard of that file, chunk and index, or is
rejected by decryption. `Upload.Put` and `Inspect.InspectAndRepair` are the source's loops over mutable
state. Before each remote call `Cluster.Network` lets everybody else (`Cluster.Environment`) take any number of
steps, so nodes fall silent or lose shards and others upload in the middle of an upload or a repair; the
environment also says which requests are heard and answered and which draws of a nonce fail. Each is shown to
be a run of the machine, whether it completes or is abandoned, and to fail only for a reason found in its own
calls and draws. What they claim to have stored is claimed of the nodes that others spare: an upload names the
nodes that may fail meanwhile (`Spared`), a repair the addresses that keep their shards and answer
(`Steady`); everybody else acts freely. What a repair does to the tables is exact however the nodes behave.
`Download.Get` is the loop of the client; every
one of its remote calls sees another moment of a history in which the rest of the network moves on in any
way. The end result is that `Get` yields the bytes that were put, or fails without touching the output, or
is cut short while writing those very bytes; and it gets as far as writing exactly when four shards of every
chunk arrive. `Durability` says which losses leave a file: during or after an upload any four nodes, whether
silent, wiped, moved or damaged, while other uploads and repairs go on; during or after a repair an exact
count of shards.

**Routing.** The array of buckets refines a partial map from id to contact over every run of additions and
removals. Prefix length, bytes compared in order and XOR distance read as a 160-bit number are shown to be
one and the same order, from the bits upwards.

**Rate limiting.** Any number of callers poll the bucket in any order; the bound over every time window, the
ledger of tokens and the exact charge of each caller are proved over all runs. Tokens and time are reals.

The libraries underneath are interfaces with laws: a Reed-Solomon code (deterministic parity; any `k` of
`k + m` equal-length shards determine all), a cipher (decryption undoes encryption), a hash (any function)
and a sort (a permutation in descending order). `Instances.SomeSetupIsLawful` and
`Instances.SortedIsLawful` show that these laws can be met, with a Reed-Solomon code built from scratch
over GF(16) for four data and four parity shards.

## How the modules follow the repository

| module | models |
|---|---|
| `Erasure`, `Chunker` | `internal/erasure`, `internal/chunker` |
| `Tracker`, `Listing` | `internal/tracker`: store, placement selection, liveness; bucket walks in key order |
| `ShardServer` | `cmd/noded/server.go`: a node's shard bucket and its quota |
| `ShardIds`, `Placements` | the shard id format and the grouping of placements by chunk |
| `Storage` | the network as a state machine, with its invariant |
| `Download`, `Upload` | `cmd/aldea/get.go`, `cmd/aldea/put.go` |
| `Cluster` | the running network that uploads and repairs act on |
| `Repair`, `Inspect` | `internal/repair`: one file, then the whole store |
| `Durability` | what an uploaded file survives |
| `Distance`, `Routing` | `internal/dht` |
| `Bandwidth`, `Throttle` | `internal/bandwidth` |
| `Polynomials`, `ReedSolomon`, `Instances` | instances of the library interfaces |

## What the proofs brought to light

- The comments in `internal/tracker/liveness.go` say a transient node is not repaired yet. The code clears its
  health flag and repair then treats it as dead (`Tracker.TransientIsRepaired`). The model follows the code.
- `ApplyLiveness` at `t1` and then at `t2` does not always leave what `t2` alone leaves: the silence is
  multiplied into nanoseconds in an int64, which wraps after 9223372036 seconds, whenever the node was last seen;
  the tracker stores any such time it is sent (`Tracker.SilenceWraps`). `Tracker.JudgedTwice` gives the exact condition, `Tracker.ChangesAddUp` the exact
  difference of the change counts, and `Tracker.NobodyRevives` shows that neither matters while clocks stay
  within 292 years of each other.
- `Reconstruct` refuses a list with fewer than `k + m` entries however many good shards it has
  (`Erasure.ShortListIsRefused`), and counts usable entries, not distinct indices, so repeated indices pass its
  count check and only the library rejects them. `Erasure.RebuiltFromSurvivors` says exactly which error comes
  when.
- A repair moves all dead shards of a run to one node. With eight nodes and four of them dead, that node ends up
  with five shards of a chunk, and losing it loses the file (`Durability.RepairTargetCanBeFatal`).
- A `ThrottledReader` is charged for the buffer it offers, not for the bytes it gets.

## Assumptions

- File ids are fresh: an upload never draws an id used before.
- Placement lists in the tracker come from uploads and repairs, so shard indices are 0 to 7 and all
  placements of one chunk carry the same chunk size.
- One key is shared by all. A corrupted shard is one that decryption rejects.
- The tracker's store is intact: its own reads and writes succeed. A tracker that does not answer a client
  is modelled.
- A repair has the tracker's tables to itself while it runs, as nothing in the repository calls it beside other
  work; nodes and shards are not its own. An upload shares the tracker with everybody.

## Model

| member | source | states |
|---|---|---|
| Download.Get | cmd/aldea/get.go:31-144 | Over every history of the network, a download returns exactly the bytes that were put, or fails with the output untouched, or is cut short by the output itself while writing a prefix of those bytes; it reaches the writing exactly when the tracker answers, knows the file and four shards of every chunk arrive; otherwise the error is exactly that of the tracker, the unknown file or the first chunk lost. |
| Download.FetchChunks | cmd/aldea/get.go:71-130 | The chunk loop yields the file's pieces in order with their hashes, or names the first chunk of which fewer than four shards arrive. |
| Download.FetchChunk | cmd/aldea/get.go:85-120 | One chunk comes back as its own bytes if four of its shards arrive, and otherwise as the too-few-shards error; no third outcome. |
| Download.GatherChunk | cmd/aldea/get.go:87-115 | For any group of placements: each slot holds what the last answer for its index brought, or nothing, each call seeing its own moment; placements out of range are not asked; the chunk size is that of the last placement in range. |
| Download.SizeOfLast | cmd/aldea/get.go:92-97 | The chunk size that counts is that of the last placement whose index is below 8, or 0 if there is none. |
| Download.FilledInPlace | cmd/aldea/get.go:93-115 | For a group with one placement for each index, slot i holds what placement i brought. |
| Download.ChunkRebuilt | cmd/aldea/get.go:117-127 | From slots that are each empty or canonical, the chunk is rebuilt exactly when at least four are filled. |
| Download.FetchedIsCanonical | cmd/aldea/get.go:99-114 | Whatever a placement's node answers, now or from a stale copy, is nothing or the canonical shard. |
| Download.InvAt | cmd/aldea/get.go:104-107 | At every remote call of every history the canonical-copy invariant holds and the file's original content is unchanged. |
| Download.UploadIsRemembered | cmd/aldea/get.go:51-54 | A download begun after any run that followed an upload is measured against the bytes that upload read. |
| Download.WriteOutput | cmd/aldea/get.go:132-143 | Writing ends with the whole file or leaves the output untouched or a prefix of the file. |
| Storage.EveryCopyIsCanonical | internal/repair/repair.go:117-147 | After every run from the empty network, any copy on any node under the id of file f, chunk c, index i, stale and orphaned ones included, decrypts to the shard `Encode` gave for it or is rejected. |
| Storage.RunKeepsInv | internal/repair/repair.go:67-162 | Every run of registrations, outages, liveness passes, losses, uploads and repairs keeps the canonical-copy invariant and every file's original content. |
| Storage.InvStep | internal/repair/repair.go:138-149 | Each single step keeps the invariant: registering, judging, storing, losing, moving, beginning, publishing. |
| Cluster.Network.Pass | cmd/aldea/put.go:89-102 | Before a remote call others may have taken any steps, on the tracker too; begun files keep their content, the invariant holds, and nodes that others spare are still registered where they were with what could be read there. |
| Cluster.Network.PassNodes | internal/repair/repair.go:105-108 | The same where others leave the tracker alone: steady addresses keep their shards and answer. |
| ShardIds.ShardIdInjective | cmd/aldea/put.go:90 | The id format is injective over file, chunk and index, for file ids of any length and content. |
| ShardIds.ShardIdReads | cmd/aldea/put.go:90 | An id read from its end gives back the shard index after `-s`, the chunk index after `-c` and the file id before that. |
| ShardIds.DecimalReads | cmd/aldea/put.go:90 | Indices are written in base ten without leading zeros. |
| Upload.Put | cmd/aldea/put.go:32-121 | While others take any steps between its calls, on the tracker too, an upload is a run of the network whether it completes or not; what it publishes has every chunk on eight distinct nodes, of which all that others spared hold their shard, under a record with the file's name, size, time and number of chunks, and is recorded as the bytes the reader held; spared nodes keep all they had. It fails only if the reader or the random source did, the tracker did not answer or knew fewer than eight eligible nodes, or a chosen node did not answer, was gone or had no room for its shard. If others leave the tracker alone, that record and placement are the only change to its tables, and only if published. |
| Upload.PutChunk | cmd/aldea/put.go:69-105 | A successful turn has placed the chunk's eight canonical shards, in order, on the eight distinct nodes the tracker gave; those on spared nodes are readable there, and nothing readable on spared nodes before is lost. |
| Upload.UploadShards | cmd/aldea/put.go:89-102 | Shard i goes to the i-th selected node under its own id; on success every entry on a spared node is held. |
| Upload.EncryptShards | cmd/aldea/put.go:75-82 | Shard i is encrypted with the i-th nonce drawn and opens to itself; the loop stops only at a failed draw. |
| Upload.Select | cmd/aldea/put.go:84-87 | Eight nodes are asked for with no space required; it fails exactly when the tracker does not answer or knows fewer than eight eligible nodes. |
| Durability.PutThenGet | cmd/aldea/put.go:32-121 | Upload, any run, download, all beside others who use nodes and tracker: if both succeed the output is the bytes the reader held; a failed download leaves the output as it was or at a part of those bytes; and if others spare all but some nodes during the upload, and the file but for these and others afterwards, four nodes in all or four placements of a chunk, a download into a sound output succeeds. |
| Durability.UploadSurvives | cmd/aldea/put.go:84-117 | Any four nodes, or more if no chunk has more than four placements on them, may be silent, wiped, moved or damaged during and after an upload, while uploads, repairs and all other steps go on: the file can be downloaded. |
| Durability.HeldSurvives | cmd/aldea/get.go:85-120 | The same from any published list, on distinct nodes or not, whose entries outside the lost nodes are held. |
| Durability.StandingRun | cmd/aldea/get.go:99-114 | A placement stays held, in place and where it was through every run that spares its node's disk and address, this shard and this entry. |
| Durability.SurvivesFourLosses | cmd/aldea/put.go:84-117 | In any history, a file published on distinct nodes for each chunk can be downloaded if all placements outside four nodes bring their shard. |
| Durability.RetrievableIff | cmd/aldea/get.go:85-120 | A published file, whatever its nodes, can be downloaded exactly when no chunk has more than four placements on the lost nodes. |
| Durability.RepairedSurvives | internal/repair/repair.go:127-159 | From a completed repair to a download: if the entries it left alone were held at steady addresses, and for each chunk the moved shards (if the node they went to is lost) and those on lost healthy nodes are at most four, the file survives losing these nodes during or after the repair. |
| Durability.SurvivesRepairIff | internal/repair/repair.go:127-159 | Given which placements bring their shard, that count is exact: after a completed repair a download succeeds if and only if it is at most four for each chunk. |
| Durability.MovedLosses | internal/repair/repair.go:127-151 | The exact number of a chunk's shards that a set of nodes holds after its dead entries moved to one node. |
| Durability.RepairTargetCanBeFatal | internal/repair/repair.go:132-149 | With eight nodes registered, a chunk on all of them and four of them dead, a completed repair leaves five of its shards on one node: if that node is lost, so is the file. |
| Durability.ChunkArrivesIff | cmd/aldea/get.go:92-120 | A chunk arrives exactly when at most four of its placements are on the lost nodes, whether these are one node or many. |
| Durability.LostAtMost | cmd/aldea/put.go:84-102 | On distinct nodes, no more shards of a chunk are lost than nodes. |
| Cluster.Network.Send | internal/repair/repair.go:226-248 | An upload call is a legal step of the network, loses no readable copy, and succeeds exactly when the node answers, is there and has room; a node that hears it stores it although its answer is lost. |
| Cluster.Network.Seal | internal/crypto/crypto.go:43-55 | Encryption fails exactly when the random source does, and otherwise opens to the plaintext. |
| Cluster.FirstIsRoomiest | internal/repair/repair.go:132-137 | The node a repair moves shards to is healthy and none has more bytes unused. |
| Cluster.HeldMeansFetched | internal/repair/repair.go:185-224 | A fetch brings a shard exactly when its node is registered, answers and holds a copy that opens. |
| Inspect.InspectAndRepair | internal/repair/repair.go:35-165 | While nodes come and go, shards are lost and others upload, a repair, completed or aborted, is a run of the network; it marks exactly the unhealthy nodes, moves exactly the dead placements of the files before the failing one and nothing else, and returns the number of placements formerly on dead nodes when it completes. It fails only if no node is eligible, the random source failed, the node selected did not answer, was gone or had no room, or fewer than four shards of a chunk were brought although all healthy nodes with one were asked. Steady addresses lose no readable copy and hold every shard moved to them; an unrecoverable chunk had fewer than four shards on healthy steady nodes. |
| Inspect.FreshIsLeftAlone | internal/repair/repair.go:45-53 | A node flagged healthy and silent for no longer than the timeout keeps its record and all its placements. |
| Inspect.SilentIsCleared | internal/repair/repair.go:45-53 | A node flagged unhealthy or silent for longer has its flag cleared, and no placement once the repair completes. |
| Inspect.AllDeadCounted | internal/repair/repair.go:151-164 | The count returned is the number of placements, over all files, on the nodes found unhealthy. |
| Tracker.UnhealthyInFields | internal/repair/repair.go:46 | Where the silence fits an int64, unhealthy means flagged so or silent for longer than the timeout. |
| Tracker.UnhealthyGrows | internal/repair/repair.go:46 | A later clock or a shorter timeout never finds fewer nodes unhealthy. |
| Inspect.InspectTwice | internal/repair/repair.go:35-165 | After a completed repair, and whatever became of the nodes in between, a second repair at the same clock completes, counts zero and changes nothing. |
| Inspect.Classify | internal/repair/repair.go:45-53 | The first loop clears the flags of the unhealthy nodes, those flagged so or silent for longer than the timeout, and keeps the records of all others as the healthy ones. |
| Inspect.RepairFiles | internal/repair/repair.go:167-183 | The walk over the files handles them in listing order until one fails; an unrecoverable chunk had fewer than four healthy shards from the start. |
| Inspect.RepairFile | internal/repair/repair.go:67-162 | One file is fully repaired and saved, or keeps its old placements; an error needs a dead entry, and a file without one is left alone. |
| Inspect.NoneLeftOnDead | internal/repair/repair.go:127-159 | A completed repair leaves no placement on a node it classed unhealthy and changes only node ids, and only of entries on dead nodes. |
| Inspect.NoShardLost | internal/repair/repair.go:145-159 | Completed or aborted, whatever others store meanwhile and whichever other nodes fail: a shard that could be fetched from a steady address can be fetched through the placement then recorded, if that is at a steady address, as it is when only steady ones answer. |
| Inspect.DeadAreRestored | internal/repair/repair.go:127-151 | After a completed repair every placement formerly on a dead node can be fetched, if the node it moved to has not failed since; no such node exists when only steady addresses answer. |
| Inspect.CompletedAgree | internal/repair/repair.go:77-153 | Any two completed repairs of one state agree on nodes, files, placements and count, whatever order the chunks were walked in, whatever answered and whatever happened to the nodes meanwhile: the node moved to depends on the node table alone. |
| Inspect.CompletedMoves | internal/repair/repair.go:127-159 | A completed repair has moved exactly the dead entries of every file to that one node. |
| Inspect.NothingLeft | internal/repair/repair.go:45-57 | After a completed repair the same nodes are unhealthy at the same clock and no placement is on them. |
| Repair.RepairPlacements | internal/repair/repair.go:68-153 | On one file: every dead entry has moved to the selected node, all others are as they were, and the count is the number of dead entries; a steady node holds what moved to it, and an unrecoverable chunk had fewer than four shards on healthy steady nodes. |
| Repair.RepairChunks | internal/repair/repair.go:77-153 | The chunk map walked in any order makes the same progress over exactly the walked chunks. |
| Repair.RepairChunk | internal/repair/repair.go:77-152 | A chunk without dead entries is left alone; otherwise all its dead entries move, or the error says why. |
| Repair.Rebuild | internal/repair/repair.go:89-125 | Decoding and re-encoding what was fetched, each shard at its own moment, gives all eight canonical shards exactly when four fetches brought one; what steady nodes held at the start is among it. |
| Repair.Gather | internal/repair/repair.go:89-115 | For any group of placements: each slot holds what the last answer for its index brought, each fetch at its own moment, and unhealthy nodes bring nothing. |
| Repair.GatheredIsCanonical | internal/repair/repair.go:105-114 | Whatever moment it was fetched at, every gathered shard is the canonical one or missing. |
| Repair.Relocate | internal/repair/repair.go:132-149 | A moved shard goes to the first selected node, which is healthy, and is readable there if the node is steady. |
| Repair.MoveEntry | internal/repair/repair.go:127-152 | One turn of the loop moves a dead entry of the chunk and counts it, and passes over any other. |
| Repair.FetchableGrows | internal/repair/repair.go:145-147 | What happens on the way never costs another chunk a shard that could be fetched from a steady address. |
| Erasure.RebuiltFromSurvivors | internal/erasure/erasure.go:79-112 | Encode then Reconstruct over every data, every k and m and every survivor list: the data exactly when it is empty, or the list has k + m entries with k distinct usable indices; too few shards exactly when the list is shorter or fewer than k entries are usable; a failed reconstruction exactly when repeated indices hide that. |
| Erasure.RebuiltAtAnySize | internal/erasure/erasure.go:102-111 | Asked for another size, it gives that much of the data and its padding, and fails to join only beyond the padding. |
| Erasure.ShortListIsRefused | internal/erasure/erasure.go:85-87 | With k = m = 4, a list of seven distinct intact shards is refused as too few. |
| Erasure.Reconstruct | internal/erasure/erasure.go:79-112 | The loop over the shards computes the specified rebuild, with its order of checks, index filter and truncation. |
| Erasure.Encode | internal/erasure/erasure.go:50-77 | The result is the encoding of the data: k + m shards numbered from 0, empty for empty data; otherwise of one length n with k(n-1) < size <= kn, the first k of them the data followed by zeros, the others the parity of these. |
| Erasure.EncodingUnique | internal/erasure/erasure.go:50-77 | Data has only one encoding. |
| Erasure.SlicesPadWithZeros | internal/erasure/erasure.go:59-62 | The slices concatenate to the data followed by zeros. |
| Erasure.ShardsAreSplit | internal/erasure/erasure.go:59-76 | The shards of a non-empty chunk are such an encoding, of the least length that holds the data. |
| Chunker.Split | internal/chunker/chunker.go:23-56 | However the reader fragments the stream, a successful split cuts it into pieces of the size asked for, or of 1048576 bytes if none is, all but the last full and none empty, numbered from 0 with their hashes; it fails only when the reader does. |
| Chunker.ReadFull | internal/chunker/chunker.go:33-33 | Over arbitrary short reads the buffer receives exactly the next bytes of the stream, full or up to its end. |
| Chunker.CutIsCut | internal/chunker/chunker.go:23-56 | The pieces concatenate to the stream, all but the last are full and none is empty. |
| Chunker.CutUnique | internal/chunker/chunker.go:23-56 | Only one list of pieces has that shape. |
| Chunker.CutCount | internal/chunker/chunker.go:23-56 | The number of chunks is the stream length over the chunk size, rounded up. |
| Chunker.Reassemble | internal/chunker/chunker.go:58-74 | Writes the chunks up to the first one out of order or corrupted and says which check it failed; all of them if none is. |
| Chunker.UnsoundMeans | internal/chunker/chunker.go:58-74 | A wrong index is one error, a wrong hash at the right index the other, and all chunks before are right. |
| Chunker.SplitThenReassemble | internal/chunker/chunker.go:23-74 | Reassembling a split writes the stream, or a prefix of it when the reader or writer fails. |
| Tracker.SelectionIsBest | internal/tracker/tracker.go:105-128 | Selection fails exactly when fewer than count nodes are eligible; otherwise it gives count distinct eligible nodes in non-increasing free space, and no eligible node left out has more. |
| Tracker.SelectionInFields | internal/tracker/tracker.go:105-128 | The same in allocated minus used bytes, where these fit an int64: it fails exactly when fewer than count healthy nodes have the space, and otherwise takes those with most, in that order. |
| Tracker.Store.SelectPlacementNodes | internal/tracker/tracker.go:105-128 | The filter, sort and cut compute that selection, from the node table alone; its free space is allocated minus used bytes. |
| Tracker.Store.ListNodes | internal/tracker/tracker.go:90-103 | Every registered node once, in key order. |
| Tracker.ListOfNodes | internal/tracker/tracker.go:90-103 | The listing holds exactly the table's nodes, with distinct ids. |
| Tracker.Store.RegisterNode | internal/tracker/tracker.go:80-88 | Adds or replaces one node and changes nothing else. |
| Tracker.Store.SaveFilePlacement | internal/tracker/tracker.go:130-146 | Replaces one file's record and placements together, and nothing else. |
| Tracker.Store.ListFiles | internal/tracker/tracker.go:148-161 | Every file once, in key order. |
| Tracker.Store.GetFilePlacement | internal/tracker/tracker.go:163-187 | A known file's record and placements, or not found. |
| Tracker.Store.ApplyLiveness | internal/tracker/liveness.go:66-90 | A pass changes flags only and sets none; within 292 years it leaves exactly those of nodes silent for less than the first threshold; the count is the number of flags changed. |
| Tracker.EvaluateInFields | internal/tracker/liveness.go:47-61 | The three statuses in terms of the flag, the seconds of silence and the two thresholds. |
| Base.Wrap64Is | internal/tracker/liveness.go:52 | A 64-bit value is the one number in range that differs by a multiple of 2^64. |
| Tracker.JudgedTwice | internal/tracker/liveness.go:47-90 | A pass at t1 and then at t2 leaves what t2 alone leaves if and only if no node found silent at t1 is found fresh at t2. |
| Tracker.ChangesAddUp | internal/tracker/liveness.go:66-90 | The two change counts exceed that of t2 alone by exactly the number of nodes that revive in between; so they add up if and only if none does. |
| Tracker.NobodyRevives | internal/tracker/liveness.go:47-61 | The condition holds whenever t1 <= t2 and both are within the range an int64 of nanoseconds can hold. |
| Tracker.SilenceWraps | internal/tracker/liveness.go:47-61 | Outside that range it fails, whenever the node was last seen: with thresholds of 60 and 600 seconds a node silent for 9223372036 seconds is found fresh a second later. |
| Tracker.TransientIsRepaired | internal/tracker/liveness.go:74-85 | After a liveness pass a transient node counts as unhealthy for repair, at any timeout. |
| ShardServer.ShardStore.HandlePut | cmd/noded/server.go:53-89 | A shard is stored exactly when it fits beside everything stored; a node within its quota stays within it, overwriting included. |
| ShardServer.LastAcceptedWins | cmd/noded/server.go:53-126 | After any run of puts, accepted or refused, a node has a shard exactly when some put of it was accepted, then what the last of these sent, and stays within its quota. |
| ShardServer.PutsThenGet | cmd/noded/server.go:53-126 | A get after any run of puts answers with the last one accepted for the shard. |
| ShardServer.StorageUsed | cmd/noded/server.go:140-149 | Walking the bucket in any order adds up to the same number of bytes. |
| ShardServer.UsedAfterPut | cmd/noded/server.go:73-82 | Writing a key adds the new bytes and releases those it held. |
| Placements.GroupByChunk | cmd/aldea/get.go:66-69 | The chunk map holds, for each chunk index, its placements in list order, and no other key. |
| Placements.GroupedShaped | cmd/aldea/get.go:66-69 | For a published file the groups are the consecutive runs of eight placements of chunks 0, 1, and so on. |
| Placements.SortedIndices | cmd/aldea/get.go:71-75 | The chunk indices, each once, in ascending order. |
| Listing.WalkKeys | internal/tracker/tracker.go:148-161 | A walk of a store bucket meets every key once, in byte order. |
| Listing.BeforeIsLexicographic | internal/tracker/tracker.go:148-161 | One key comes before another exactly when it is a proper prefix or smaller at the first difference. |
| Distance.PrefixIffRange | internal/dht/dht.go:25-46 | The prefix length is p < 160 exactly when the distance, as a 160-bit number, lies in [2^(159-p), 2^(160-p)). |
| Distance.PrefixUnique | internal/dht/dht.go:33-46 | The prefix length is the only number below which all bits agree and at which they differ, or 160. |
| Distance.PrefixLen | internal/dht/dht.go:33-46 | The byte and bit loops find that number. |
| Distance.XOR | internal/dht/dht.go:25-31 | The loop computes the byte-wise exclusive or. |
| Distance.XorBit | internal/dht/dht.go:25-31 | A bit of the distance is set exactly where the ids differ. |
| Distance.BytesLessIsNumeric | internal/dht/dht.go:128-132 | Comparing two ids byte by byte is comparing the numbers they stand for, and equal numbers are equal ids. |
| Distance.LongerPrefixIsCloser | internal/dht/dht.go:33-46 | A longer shared prefix means a strictly smaller distance, as a number and under byte comparison. |
| Distance.DistIsMetric | internal/dht/dht.go:25-31 | The XOR distance is zero only between equal ids, symmetric, and obeys the triangle inequality. |
| Distance.PrefixUltrametric | internal/dht/dht.go:33-46 | PrefixLen(a,c) is at least the smaller of PrefixLen(a,b) and PrefixLen(b,c), with equality when those differ. |
| Distance.DistInjective | internal/dht/dht.go:25-31 | Two different ids are never equally far from a target. |
| Routing.RoutingTable.Add | internal/dht/dht.go:72-99 | Takes a contact exactly if it is not the local one and is known already or fewer than 20 share its prefix length; then it is added or replaced, otherwise nothing changes; the result is true exactly when the contact is in the table afterwards. |
| Routing.RoutingTable.Remove | internal/dht/dht.go:101-117 | Removes exactly that id from the map. |
| Routing.RoutingTable.FindClosest | internal/dht/dht.go:119-138 | Returns the min(count, size) nearest contacts in strictly increasing distance; every contact left out is farther than each returned. |
| Routing.ClosestUnique | internal/dht/dht.go:119-138 | Only one list is that: the answer depends on the set of contacts alone. |
| Routing.RunsKeepWell | internal/dht/dht.go:72-117 | After every run of additions and removals the local id is absent, every contact is under its own id, and no prefix length has more than twenty. |
| Routing.Replay | internal/dht/dht.go:64-117 | The bucket array follows the map through every run of operations. |
| Routing.BucketFillsZone | internal/dht/dht.go:72-99 | A bucket lists exactly the contacts of its prefix length, so its length is their number. |
| Bandwidth.BytesPerWindow | internal/bandwidth/bandwidth.go:43-69 | In every run of interleaved callers and every window of length t, at most rate * t + rate bytes are granted. |
| Bandwidth.TokensInRange | internal/bandwidth/bandwidth.go:49-60 | Tokens stay between 0 and the rate in every run. |
| Bandwidth.TokenLedger | internal/bandwidth/bandwidth.go:49-60 | Tokens at the end are the start, plus the refill over the time passed, less the overflow and all bytes granted. |
| Bandwidth.PollTakesOnlyItsBytes | internal/bandwidth/bandwidth.go:49-60 | A poll finds the old tokens and the refill, up to a full bucket, is granted exactly if that suffices, and leaves it less what it granted. |
| Bandwidth.OverflowOnlyWhenFull | internal/bandwidth/bandwidth.go:53-56 | Tokens are lost exactly in runs that refill beyond a full bucket. |
| Bandwidth.NothingIsLost | internal/bandwidth/bandwidth.go:49-60 | A run that never does holds every token it started with or was refilled with and did not grant. |
| Bandwidth.InterleavedCallers | internal/bandwidth/bandwidth.go:26-69 | However callers interleave, each is granted exactly what it asked for less what it still waits for, in pieces no larger than the bucket. |
| Bandwidth.PieceIsTheLess | internal/bandwidth/bandwidth.go:32-38 | A caller asks for all it has left or a full bucket, whichever is less. |
| Bandwidth.Limiter.Check | internal/bandwidth/bandwidth.go:49-63 | The locked section refills, clamps and grants as specified; a piece the refilled bucket can cover is granted. |
| Bandwidth.Limiter.WaitChunk | internal/bandwidth/bandwidth.go:43-69 | A lone caller that sleeps as long as it is told is granted at the latest on its second poll, and charged exactly n. |
| Bandwidth.Limiter.WaitN | internal/bandwidth/bandwidth.go:26-41 | Charges exactly n tokens, in full buckets and one remainder; charges nothing without a limit or without bytes. |
| Bandwidth.Limiter.Turn | internal/bandwidth/bandwidth.go:48-68 | A pass that is not granted sleeps until the bucket, refilled, holds the piece. |
| Bandwidth.SleepSuffices | internal/bandwidth/bandwidth.go:62-65 | After sleeping for the missing tokens the bucket holds them. |
| Throttle.ThrottledReader.Read | internal/bandwidth/bandwidth.go:84-90 | The stream passes through unchanged; the whole buffer offered is charged; the bytes passed on since the start never exceed one bucket plus rate times the time. |
| Throttle.ThrottledWriter.Write | internal/bandwidth/bandwidth.go:105-111 | The same for written bytes, charged by what is handed over. |
| Throttle.ChargedSoFar | internal/bandwidth/bandwidth.go:26-69 | A lone caller's charge since the limiter was made is at most one bucket plus rate times the time. |
| ReedSolomon.ReedSolomonIsLawful | internal/erasure/erasure.go:33-48 | For all k, m >= 1 with k + m <= 8 there is a concrete code that meets every law assumed of the library. |
| Instances.SomeSetupIsLawful | internal/erasure/erasure.go:33-48 | The laws assumed of the code with four data and four parity shards and of the cipher can be met together. |
| Instances.SortedIsLawful | internal/tracker/tracker.go:122-124 | The laws assumed of the sort can be met. |
| Instances.DiskLostIsLawful | internal/repair/repair.go:105-108 | The laws assumed of others, for uploads and for repairs, can be met by ones that wipe a disk in the middle. |

## Left out

- Repair.Relocate: does not claim distinct nodes, because the code asks for one node, excludes none and never updates the used space; after a repair loss tolerance counts shards, not nodes.
- Routing.RoutingTable.FindClosest: models `sort.Slice` by an insertion sort of its own; any sort gives the same list (`Routing.ClosestUnique`). A negative count, which makes the code panic, is not modelled.
- Tracker.Store.SelectPlacementNodes: does not model a negative count, which makes the code panic.
- Erasure.Reconstruct: does not model a negative size, nor the argument check of `NewEncoder`; both come from constants and stored lengths.
- ShardServer.ShardStore.HandlePut: does not model concurrent requests, because the quota check and the write are separate transactions and the quota claim does not hold across them.
- Bandwidth.Limiter.WaitN: models one caller; interleaved callers are the state machine of `Bandwidth.InterleavedCallers`. Float rounding and the rounding of sleeps to nanoseconds are not modelled.
- Upload.Put: does not say which shards nodes that others do not spare still hold, because they may lose them after acknowledging.
- Inspect.InspectAndRepair: does not model others changing the tracker's tables while it runs, nor failures of its own store, which the code partly ignores (internal/repair/repair.go:49).
- Download.GatherChunk: does not model a negative shard index, which makes the code panic.
- Repair.Gather: does not model a shard index outside 0 to 7, which makes the code panic (internal/repair/repair.go:114).
- HTTP, JSON and database failures inside one call appear as a call that fails or is not answered.
- Key derivation, the ciphers themselves, the message envelope, invite tokens and random file ids.
- The scheduler, runtime, ingress, snapshot, metrics and configuration packages: single-pass selection or plain maps that would only add easy members.
- The relay, NAT traversal, user interfaces and command-line plumbing.
