# btfind, modelled and proved in Dafny

btfind crawls the BitTorrent DHT, fetches torrent metadata from peers, keeps a searchable catalogue in
MySQL and exports its logs. This project models the parts of it whose correctness is a matter of
algorithms and protocols, and proves what they keep. `dafny verify dfyconfig.toml` checks everything.

The modules follow the program:

- `NodeIds`, `Net`, `Buckets`, `Routing`, `Closest`: 160-bit ids and the XOR metric, the Kademlia routing
  table with buckets that split only toward our own id, and its nearest-contact queries.
- `DhtState`, `DhtEffects`, `DhtLookups`, `DhtBudget`, `DhtTables`, `DhtReuse`, `DhtEngine`, `DhtRuns`: the RPC
  engine. Its handlers are functions on a state, its classes carry the mutable tables and are proved to follow
  them; `DhtEffects` says what each handler does, the other theorems are about every run.
- `Bytes`, `Bencode`, `Wire`: the bencode boundary scanner against a grammar, the peer wire messages and the
  frame reader.
- `Download`: the BEP 9 piece loop against a protocol without a window.
- `HashJobs`, `Scheduler`, `Fetcher`: the metadata scheduler, once without redundancy and once as the program
  keeps it, and the loading of due jobs.
- `Receipts`, `PersistedCatalogue`: retries under receipts. The tables are the history of committed
  transactions; a call fails before its commit, commits and loses the reply, or succeeds.
- `SearchText`, `Catalogue`, `CatalogueRuns`, `PeerRows`, `Pages`, `SearchIndex`: the catalogue tables and
  transactions, their totals and job lifecycle, and the search index, kept by transactions and rebuilt page
  by page.
- `Journal`, `Exporter`: the journal reader and the log exporter's cursor protocol.
- `Seqs`, `Sums`: sequences without duplicates, sums over maps.

How the program is rendered. Each handler or transaction is one atomic step. Code that updates fields is a
class, or a method with the loops of the source, and its contract equates the new state with a function of
the old one; the theorems are about that function. Values a Rust map owns (buckets, hash jobs, rows) are
values in a map. Time is an integer argument. What sockets, the database and the journal do is an argument
as well: which datagrams are delivered, which calls fail or lose their reply, in which order a hash map gives
up its entries, which lines the journal holds.

Where proofs found a limit of the code it is stated with its exact condition: `Wire.BytesRoundTrip`
(payloads of 2^32 bytes and more), `Wire.FrameReadBack` (262144 bytes), `Bencode.AcceptedCanonicalExactly`
(accepted texts that are not canonical, with `Bencode.LaxInstances`), `DhtLookups.RunExactly` (a 64-bit lookup
id given out again while in use, which takes more than 2^64 lookups: `DhtReuse.ShortRuns`,
`DhtReuse.ReuseReached`), `Receipts.DiscoverForeseen` (a discovery retried after its receipt was pruned, with
`Receipts.DiscoveryTwice` as instance), `Scheduler.StuckExactly` (jobs of panicked workers, with
`Scheduler.StuckReached`). Runtime batches have no such limit as long as one worker flushes and prunes
(`Receipts.WorkerOnce`); `Receipts.FlushExactly` says what a second one would do. `Catalogue.FailLifecycle`
states what `update_hash_job_failure` would allow; no caller passes the status complete.

Each handler is also described without its function: lemmas whose names end in `Exact`, `Rows`, `Answer`,
`Asks`, `Refused` or `Layout` state its effect on the message, the tables and the literal limits alone.

## Model

| member | source | states |
|---|---|---|
| `NodeIds.NodeIdDistance` | src/types.rs:186-192 | the loop computes the bytewise XOR of two ids |
| `NodeIds.DistanceBit` | src/types.rs:186-192 | bit k of the distance is set exactly when bit k of the ids differs |
| `NodeIds.DistanceInjective` | src/types.rs:186-192 | two ids at the same distance from a target are the same id |
| `NodeIds.SetBitValue` | src/routing.rs:298-309 | set_bit changes the one bit that bit_value reads back, and no other |
| `NodeIds.IdExtensional` | src/routing.rs:298-300 | ids that agree on all 160 bits are equal |
| `NodeIds.PrefixCapacity` | src/routing.rs:43-45 | at most 2^(160 - len) distinct ids share a prefix of len bits |
| `NodeIds.LexIsNumeric` | src/routing.rs:242-251 | byte-lexicographic order of distances, which sort_by_key uses, is the numeric order of the 160-bit XOR metric |
| `NodeIds.FirstBitDecides` | src/routing.rs:242-251 | the most significant differing bit decides the order of two distances |
| `NodeIds.PrefixLocality` | src/routing.rs:43-45 | an id that shares a prefix with the target is nearer to it than any id that does not |
| `Buckets.BucketIndex` | src/routing.rs:79-84 | the position found covers the id and no earlier bucket does; in a partition the `expect` never fires |
| `Buckets.IndexUnique` | src/routing.rs:79-84 | in a partition the covering bucket is unique, whichever is found |
| `Buckets.SplitPartition` | src/routing.rs:86-114 | a split keeps the buckets a partition of all 160-bit ids and moves each id to the half of its bit |
| `Buckets.SplitKeeps` | src/routing.rs:86-114 | a split loses no live record and no candidate, changes none, and keeps the candidate total |
| `Buckets.HalfOk` | src/routing.rs:86-114 | each half holds only ids it covers, within the limits of a bucket |
| `Routing.DistributeNodes` | src/routing.rs:86-114 | the loop over the live nodes puts each in the half that covers it |
| `Routing.DistributeCandidates` | src/routing.rs:86-114 | the loop over the queue puts each candidate in its half, in order |
| `Routing.RoutingTable.SplitBucket` | src/routing.rs:86-114 | removing a bucket and inserting the two halves gives exactly the split list |
| `Routing.RoutingTable.constructor` | src/routing.rs:71-77 | a new table is one empty bucket and satisfies the invariant |
| `Routing.RoutingTable.MakeRoom` | src/routing.rs:127-138 | the global eviction loop drops oldest candidates only, until the total is below the limit; a bucket loses one only when every bucket before it has none left |
| `Routing.RoutingTable.Enqueue` | src/routing.rs:116-145 | after eviction the contact is queued last; the queue is at most K and the total within the limit |
| `Routing.RoutingTable.AddCandidate` | src/routing.rs:116-145 | a contact is admitted exactly when it is not ourselves, not live, and no candidate of its bucket has its id or its address; nothing live changes; with room in the table it is queued last, and a queue of 8 loses its oldest |
| `Routing.QueuedKeeps` | src/routing.rs:116-145 | queueing keeps the table sound, every live record, and adds no candidate but the contact |
| `Routing.RoutingTable.MarkValidated` | src/routing.rs:151-210 | terminates; an id that was live or is inserted has this address and time afterwards and 0 unanswered queries; any other id finds its bucket full of 8 other live contacts and away from us, and it or its address is queued; without bad contacts nobody else is dropped |
| `Routing.RoutingTable.OutcomeNoBad` | src/routing.rs:192-200 | in a table without bad contacts the result has none either, so the eviction branch is not taken |
| `Routing.InsertKeeps` | src/routing.rs:157-183 | inserting or refreshing an id changes the table at that id only and takes it out of the queue |
| `Routing.EvictStep` | src/routing.rs:192-200 | evicting a bad contact keeps everything else and makes room in the bucket of the id |
| `Routing.OverflowDepth` | src/routing.rs:185-190 | a full bucket that covers us and another foreign id has a prefix of at most 156 bits, so only such buckets split |
| `Routing.RoutingTable.RecordFailure` | src/routing.rs:212-225 | a live contact with 0 unanswered queries has 1 afterwards, at the same address; one with more is gone; nobody else changes and no bad contact is ever stored |
| `Routing.FailureKeeps` | src/routing.rs:212-225 | the same of the buckets: the first failure counts 1, the second removes; every other live record and every candidate stay as they were |
| `Routing.NeverBoth` | src/routing.rs:116-124 | no id is live and a candidate at once |
| `Routing.RunOperations` | src/routing.rs:67-225 | after any sequence of operations: partition, limits, no bad contact, at most 158 buckets, candidate total within its limit, own id never stored |
| `Routing.Perform` | src/routing.rs:67-225 | operations that neither validate nor fail an id leave its live record as it is |
| `Routing.FailTwice` | src/routing.rs:151-225 | from its validation on, a live contact has 0 unanswered queries, 1 after the first failure at the same address, and is gone with the second, whatever happens to others in between |
| `Closest.SortSorts` | src/routing.rs:248-248 | the sort permutes the contacts into strictly increasing distance when ids are distinct |
| `Closest.NearestPicks` | src/routing.rs:248-250 | sorting and truncating picks the count least, all others being farther |
| `Closest.ClosestNodesExact` | src/routing.rs:242-251 | exactly min(count, live) live contacts, strictly increasing in XOR distance, everyone left out farther than everyone returned |
| `Closest.ClosestCandidatesExact` | src/routing.rs:253-262 | the same for the candidate queues |
| `Closest.OwnBucketFirst` | src/routing.rs:242-251 | contacts of the bucket of the target come before all others |
| `Closest.OwnBucketExhausted` | src/routing.rs:242-251 | no outside contact is returned while a live one of the own bucket is left out |
| `Closest.LookupNodesExact` | src/dht.rs:1313-1319 | a lookup starts with as many nodes as asked for or as the table holds, live ones first, no id twice, candidates only when every live contact is among them |
| `Closest.LookupNodesNearest` | src/dht.rs:1313-1319 | every live contact left out is numerically farther from the target than every live one returned, and so of the candidates |
| `Closest.LookupNodesOrder` | src/dht.rs:1313-1319 | live contacts first, then candidates, each part in increasing distance |
| `Closest.NearerIsNumeric` | src/routing.rs:248-248 | the order of the result is the numeric XOR metric |
| `DhtState.FirstFreeFresh` | src/dht.rs:716-725 | a number found by the search is in neither table |
| `DhtState.AllocateFresh` | src/dht.rs:712-726 | an allocated transaction is neither pending nor retired and the pending table has room |
| `DhtTables.AllocateExact` | src/dht.rs:712-726 | allocation fails exactly when the pending table is full or all 65536 numbers are in use |
| `DhtTables.RunTables` | src/dht.rs:712-786 | over every run: pending and retired are disjoint, pending within its limit, the queue without duplicates, within its limit, never the zero hash, and equal to its set |
| `DhtLookups.StepKeeps` | src/dht.rs:935-963 | every handler keeps the agreement of tracker and pending table (timeouts, responses, errors, sends) |
| `DhtLookups.StepExactly` | src/dht.rs:553-564 | an input keeps the agreement if and only if it does not begin a lookup under an id still in use |
| `DhtLookups.RunExactly` | src/dht.rs:553-564 | so a run keeps it throughout if and only if no lookup does |
| `DhtReuse.ShortRuns` | src/dht.rs:553-564 | in a run that begins at most 2^64 lookups, however long, none does |
| `DhtReuse.StepBegun` | src/dht.rs:1302-1344 | the number of lookups begun counts exactly the discovery ticks with a queued hash and nodes |
| `DhtReuse.ReuseReached` | src/dht.rs:553-564 | a run that does with one lookup more: the first RPC stays unanswered and not yet due while 2^64 further lookups begin, and there the accounting ends |
| `DhtLookups.LookupAccounting` | src/dht.rs:538-617 | over every run in which no lookup begins under an id still in use: outstanding is positive and the number of pending RPCs with the id, pending ids are active and get_peers only, initiated = succeeded + failed + active, each finalised once |
| `DhtLookups.CarriedExactly` | src/dht.rs:1163-1181 | the n-th lookup is marked as having found peers exactly when some correlated response of it carried peers |
| `DhtLookups.SuccessMeansPeers` | src/dht.rs:598-617 | a finalised lookup is a success exactly when such a response occurred in the run |
| `DhtLookups.ExpireKeeps` | src/dht.rs:935-963 | expiring any set of transactions, in any order, keeps the agreement |
| `DhtLookups.ResponseKeeps` | src/dht.rs:1119-1224 | so does every response: unsolicited, from the wrong source, malformed, or correlated |
| `DhtLookups.ErrorKeeps` | src/dht.rs:1226-1251 | so does every error message |
| `DhtLookups.StartRealKeeps` | src/dht.rs:1327-1343 | starting a real lookup keeps it, whichever sends fail; a lookup that sent nothing disappears uncounted |
| `DhtBudget.SendTotal` | src/dht.rs:729-786 | a send adds at most the weight of its budget to its own origin and nothing to others |
| `DhtBudget.ResponseConsumes` | src/dht.rs:1119-1224 | an answered or malformed RPC strictly lowers the pending weight of its origin, whatever it continues with |
| `DhtBudget.ErrorConsumes` | src/dht.rs:1226-1251 | so does an error |
| `DhtBudget.TimeoutConsumes` | src/dht.rs:935-963 | so does a timeout |
| `DhtBudget.RunBudget` | src/dht.rs:1259-1344 | over every run, of any length, no origin has sent, or can still send, more than its cap |
| `DhtBudget.RpcBounds` | src/dht.rs:20-21 | at most 168 RPCs per lookup, 21 per bootstrap contact, 1 per sampled node, over the whole run |
| `DhtEngine.RealLookupTracker.BeginLookup` | src/dht.rs:553-564 | a new active entry under the next id, which wraps at 2^64 |
| `DhtEngine.RealLookupTracker.AttachRpc` | src/dht.rs:566-570 | one more outstanding RPC, for an active lookup only |
| `DhtEngine.RealLookupTracker.CountStarted` | src/dht.rs:586-596 | counts the lookup when something was sent, drops it otherwise |
| `DhtEngine.RealLookupTracker.Finish` | src/dht.rs:598-617 | one outstanding RPC less; the last one finalises the lookup and counts it one way |
| `DhtEngine.NextFree` | src/dht.rs:716-725 | the search loop over the shared 16-bit counter finds the first number in neither table and leaves the counter behind it |
| `DhtEngine.DhtCrawler.AllocateTransaction` | src/dht.rs:712-726 | no number when the table is full, otherwise what the search finds |
| `DhtEngine.DhtCrawler.Send` | src/dht.rs:729-786 | send_rpc: a failed datagram leaves the tables as they were; a delivered one is pending and attached |
| `DhtEngine.DhtCrawler.Enqueue` | src/dht.rs:848-866 | queue and set change together, or not at all |
| `DhtEngine.DhtCrawler.ExpirePendingRpcs` | src/dht.rs:935-963 | exactly the expired transactions are retired, each once, and due numbers become reusable |
| `DhtEngine.DhtCrawler.OnResponse` | src/dht.rs:1119-1224 | handle_response has the effect its function gives; unless an RPC is pending under its transaction with its sender, it changes nothing |
| `DhtEngine.DhtCrawler.OnError` | src/dht.rs:1226-1251 | handle_error likewise |
| `DhtEngine.DhtCrawler.ContinueFind` | src/dht.rs:1259-1276 | at most four children with one less budget, in order |
| `DhtEngine.DhtCrawler.ContinueLookup` | src/dht.rs:1278-1300 | the same for get_peers, with the lookup id of the parent |
| `DhtEngine.DhtCrawler.DiscoverPeers` | src/dht.rs:1302-1344 | expiry first, then a real or a random lookup at every node the routing table offers, or bootstrap and the hash back in the queue |
| `DhtEngine.DhtCrawler.LookUpReal` | src/dht.rs:1327-1343 | begins a real lookup, sends to each node, counts it if anything was sent |
| `DhtEngine.DhtCrawler.BootstrapFrom` | src/dht.rs:788-804 | one find_node per resolved node with budget 2 |
| `DhtEngine.DhtCrawler.SampleNodes` | src/dht.rs:1346-1375 | one sample query per node with budget 0 |
| `DhtEffects.ResponseRefused` | src/dht.rs:90-119 | a response changes nothing unless an RPC is pending under its transaction with its sender; from another node than expected, or without the fields of the method, it ends that RPC as a failure and does nothing else |
| `DhtEffects.OnlyGenuine` | src/dht.rs:1119-1224 | whatever a response sends, queues or counts as found peers, it does as an answer from the address asked, by the node expected, with the fields of the method |
| `DhtEffects.ErrorExact` | src/dht.rs:1226-1251 | an error ends the RPC pending with its sender as a failure, and changes nothing otherwise |
| `DhtEffects.SendAllSends` | src/dht.rs:729-786 | sending in a loop: everything pending stays, and what is new is one of those RPCs, delivered, due after the timeout |
| `DhtEffects.SendAllArrive` | src/dht.rs:729-786 | with room for all, each one the socket took is pending afterwards under a number that was free |
| `DhtEffects.FindNodeAnswer` | src/dht.rs:1259-1276 | a genuine find_node answer ends its RPC and asks its first 4 contacts at most the same question with one budget less; queue and tracker stay |
| `DhtEffects.GetPeersAnswer` | src/dht.rs:1163-1181 | a genuine get_peers answer queues its hash exactly if there are peers or the lookup is real, and asks its first 4 contacts at most under the same lookup |
| `DhtEffects.SampleAnswer` | src/dht.rs:1182-1222 | a genuine sample_infohashes answer ends its RPC, queues its samples and asks nobody |
| `DhtEffects.QueueAllGains` | src/dht.rs:848-893 | queueing hashes keeps what is queued, in order, and adds all of them that are not zero, unless the queue is full |
| `DhtEffects.ExpiryExact` | src/dht.rs:935-963 | a timeout takes out the expired RPCs, lets their numbers rest for one timeout more, frees those whose time has come, and queues the hashes that real lookups among them sought |
| `DhtEffects.RealLookupAsks` | src/dht.rs:1302-1343 | a tick with a queued hash and nodes takes the first hash and asks every node for its peers, with budget 2, under the id of the lookup |
| `DhtEffects.WithoutNodesBootstraps` | src/dht.rs:1320-1326 | without nodes the hash goes to the end of the queue and every bootstrap address is asked |
| `DhtEffects.BootstrapAsks` | src/dht.rs:788-804 | bootstrap asks every address for the nodes nearest to us, with budget 2, and changes nothing else |
| `DhtEffects.RandomLookupAsks` | src/dht.rs:1302-1343 | with an empty queue every node is asked for a random id, with budget 2, under no lookup |
| `DhtEffects.SamplingAsks` | src/dht.rs:1346-1375 | sampling asks every node it picked, with its own target and budget 0, and changes nothing else |
| `DhtRuns.HandleInput` | src/dht.rs:895-933 | each turn of the loop is one step of the engine |
| `DhtRuns.RunCrawler` | src/dht.rs:895-933 | after any inputs, on the fields of the engine: the table invariants, the bound of 168, and the accounting unless an id was reused |
| `Bencode.FindBencodeEnd` | src/wire.rs:429-434 | the scanner with its shared position and count equals its functional form, errors included |
| `Bencode.ParseOne` | src/wire.rs:436-503 | the loops over list and dictionary entries compute the recursive functions, never leaving the data |
| `Bencode.ParseInteger` | src/wire.rs:481-498 | the integer arm, leading-zero check on the first byte after `i` included |
| `Bencode.ParseString` | src/wire.rs:505-532 | length digits, canonical form, overflow, limit and truncation checks in order |
| `Bencode.Scan` | src/wire.rs:436-503 | a success ends strictly after where it began and within the data |
| `Bencode.Complete` | src/wire.rs:436-503 | a well-formed value within the limits is scanned to its end, whatever follows |
| `Bencode.Sound` | src/wire.rs:436-503 | whatever is accepted is a value of the grammar within depth 32 and 1024 values |
| `Bencode.EndsExactly` | src/wire.rs:429-434 | the answer is n exactly when the first n bytes are a value of the grammar within the limits |
| `Bencode.ValueThenTail` | src/wire.rs:429-434 | an admitted value in front of any tail is found whole |
| `Bencode.TailIgnored` | src/wire.rs:429-434 | the answer does not depend on bytes after the value |
| `Bencode.NoStrictPrefix` | src/wire.rs:429-434 | no strict prefix of an accepted value is accepted |
| `Bencode.CanonicalThenTail` | src/wire.rs:425-434 | canonical values (BEP 3) within the limits are among them |
| `Bencode.IntTreeExact` | src/wire.rs:481-498 | every integer has one canonical encoding: a tree is canonical and denotes n exactly when it is that of the decimal digits of n |
| `Bencode.CanonicalIsStrict` | src/wire.rs:425-427 | a value is canonical (BEP 3) exactly when it is well-formed and strict: no signed integer with a leading zero, dictionary keys strictly ascending |
| `Bencode.UnparseInjective` | src/wire.rs:436-503 | different well-formed values have different texts, so an accepted text stands for one value |
| `Bencode.AcceptedCanonicalExactly` | src/wire.rs:429-434 | of every text the scanner accepts: it is canonical exactly when its one value is strict |
| `Bencode.LaxAccepted` | src/wire.rs:429-434 | every value within the limits that is not strict is accepted, and its text is not canonical |
| `Bencode.LaxInstances` | src/wire.rs:450-496 | among them i-0e, i-00e, a dictionary with its keys out of order and one with a key twice |
| `Bencode.StringComplete` | src/wire.rs:505-532 | a string with its canonical length is scanned to its end |
| `Bencode.StringSound` | src/wire.rs:505-532 | an accepted string is one with its canonical length, at most 1 MiB |
| `Bencode.StringRefused` | src/wire.rs:505-532 | from the digits at its start: which error refuses a string, or where it ends |
| `Bencode.IntegerRefused` | src/wire.rs:481-498 | the same of an integer |
| `Bencode.LimitsRefused` | src/wire.rs:436-503 | deeper than 32, out of data, after 1024 values, or with no marker, a value is refused, in this order |
| `Bytes.DecimalCanonical` | src/wire.rs:512-520 | decimal digits of n have no leading zero and denote n |
| `Bytes.CanonicalIsDecimal` | src/wire.rs:512-520 | digits without leading zero are the decimal digits of what they denote |
| `Wire.WordRoundTrip` | src/wire.rs:105-168 | reading a big-endian word undoes writing it |
| `Wire.ParsesExactly` | src/wire.rs:199-259 | the parser answers m exactly on the payloads that stand for m: equal, or with ignored bytes after it for fixed-length messages |
| `Wire.RejectsExactly` | src/wire.rs:199-259 | it answers nothing exactly when no message stands behind the payload |
| `Wire.LayoutExact` | src/wire.rs:199-259 | byte by byte: the parser answers m exactly on payloads with the identifier of m (0 to 9, 20) and its fields behind it, words most significant byte first |
| `Wire.PrintedLayout` | src/wire.rs:105-168 | the printer writes the length of the payload in four bytes, then the payload, laid out as m and no byte longer |
| `Wire.BytesRoundTrip` | src/wire.rs:105-186 | from_bytes undoes to_bytes exactly for payloads below 2^32 bytes; longer ones wrap their length prefix |
| `Wire.FrameReadBack` | src/metadata.rs:528-552 | one frame is read back whole, with nothing after it touched, exactly when its payload is at most 262144 bytes |
| `Wire.FrameLayout` | src/metadata.rs:528-552 | a frame is the message laid out in as many bytes as its first four announce; more than 262144 is too large, fewer bytes than announced the end of the stream |
| `Wire.FrameReader.Resize` | src/metadata.rs:548-548 | the buffer has the new length, old bytes kept, new ones zero |
| `Wire.FrameReader.ReadExact` | src/metadata.rs:512-526 | the next n bytes, or the end of the stream |
| `Wire.FrameReader.ReadNextFrame` | src/metadata.rs:528-552 | header, keep-alive, size check and body as a function of the bytes to come, whatever the buffer held |
| `Wire.FrameReader.ReadMany` | src/metadata.rs:528-552 | reading the concatenated encodings of messages yields them in order and consumes exactly their bytes |
| `Download.SpanStep` | src/metadata.rs:134-144 | piece lengths are positive, at most 16384, and sum to the metadata size |
| `Download.TopUp` | src/metadata.rs:332-348 | the requesting loop keeps the window and fills it, asking for each piece once in order; it fails exactly when one of the requests due cannot be written |
| `Download.TopUpTracks` | src/metadata.rs:408-424 | topped up, the loop has made as many requests as were answered and the window more, as far as there are pieces |
| `Download.NoStall` | src/metadata.rs:328-348 | while a piece is missing and the window is topped up, a request is outstanding |
| `Download.WindowShrinks` | src/metadata.rs:366-370 | an answer leaves in_flight the number of outstanding requests, without underflow |
| `Download.Accept` | src/metadata.rs:393-396 | the first data for a piece is stored and counted, later data dropped |
| `Download.Receive` | src/metadata.rs:363-406 | size mismatch, out of range, wrong length and rejection are detected in order; otherwise the invariant holds with the piece stored |
| `Download.FetchPieces` | src/metadata.rs:323-459 | the windowed loop gives the result of the protocol without a window, except exactly when the request that cannot be written falls due before an answer decides; that result is what the next rows say |
| `Download.Fetch` | src/metadata.rs:310-459 | zero and oversized metadata are refused first; then as above, for any reqq |
| `Download.Assemble` | src/metadata.rs:427-458 | in-order concatenation, or a missing piece; the final size checks never fail |
| `Download.OkIsAssembled` | src/metadata.rs:354-458 | an Ok result has exactly the advertised size and is, piece by piece, the first data accepted for each index |
| `Download.OkExactly` | src/metadata.rs:354-425 | success exactly when the answers complete before anything is at fault |
| `Download.SuccessExact` | src/metadata.rs:354-425 | success exactly when some first events are all acceptable (data of the advertised total size for an existing piece of 16384 bytes or, if last, the rest; or another message) and answer every piece |
| `Download.SuccessData` | src/metadata.rs:427-458 | a success returns as many bytes as advertised, each piece at 16384 times its index as first received |
| `Download.FailureExact` | src/metadata.rs:354-425 | with a piece unanswered, the first event not acceptable names the error (rejected, total size, range, length, read, frame); if there is none the deadline passes |
| `Download.HonestRoundTrip` | src/metadata.rs:323-459 | with an honest peer the content comes back exactly once every piece was answered, in any order, with duplicates and chatter |
| `HashJobs.NewPeersExact` | src/metadata.rs:852-867 | the newcomers are the addresses not known before, each once |
| `HashJobs.MergePeers` | src/metadata.rs:852-867 | new addresses go in front in order as far as the limit allows; the set stays that of the queue |
| `HashJobs.MergedOk` | src/metadata.rs:852-867 | merging keeps the queue duplicate-free and within the limit and loses nobody |
| `HashJobs.MergedExact` | src/metadata.rs:852-867 | the old queue keeps its order at the end; in front come the newcomers in the order given, all of them or as many as the limit admits, the first ones first |
| `HashJobs.TakeRound` | src/metadata.rs:869-879 | the first peers leave queue and set together |
| `Fetcher.MetadataFetcher.AdmitJobPeers` | src/metadata.rs:891-927 | admission on jobs, ready and ready_set equals admission without redundancy, result included |
| `Fetcher.MetadataFetcher.PrioritizeReadyJob` | src/metadata.rs:1352-1362 | an accepted ready job moves to the front, the others keep their order |
| `Fetcher.MetadataFetcher.DispatchReady` | src/metadata.rs:1411-1444 | the dispatch loop starts ready jobs in order while there are workers; its three skips never happen |
| `Fetcher.MetadataFetcher.JoinNext` | src/metadata.rs:938-965 | the hash stays a job exactly if the outcome is not complete, terminal or parked and peers are left: idle, its attempts grown by those of the outcome up to 2^32-1, its peers as they were, last in ready; otherwise it is in no structure; nothing else changes |
| `Fetcher.MetadataFetcher.JoinPanicked` | src/metadata.rs:1574-1579 | after a panic there is one worker less and the job stays marked as running |
| `Fetcher.MetadataFetcher.LoadDueJobs` | src/metadata.rs:1364-1385 | exactly the first untracked rows of the whole due order, as many as max_active leaves room for |
| `Fetcher.FirstUntracked` | src/metadata.rs:1370-1384 | the query, filter and take over the rows compute that |
| `Fetcher.MetadataFetcher.AdmitDueJobs` | src/metadata.rs:1531-1567 | admitting them never meets the capacity limit |
| `Fetcher.MetadataFetcher.Loop` | src/metadata.rs:1410-1583 | turns of the loop keep the redundant structures in agreement and follow the scheduler without them |
| `Scheduler.AdmitKeeps` | src/metadata.rs:891-927 | admission keeps: ready duplicate-free and exactly the idle jobs, all with peers, limits on jobs and workers |
| `Scheduler.PrioritizeKeeps` | src/metadata.rs:1352-1362 | so does prioritizing |
| `Scheduler.DispatchKeeps` | src/metadata.rs:1411-1444 | so does a dispatch; the first ready job exists, is idle and has peers |
| `Scheduler.RoundExact` | src/metadata.rs:1415-1443 | a round goes to the first ready job with its attempts so far, is non-empty, within the limit and duplicate-free, and full unless the queue is used up; round and queue together are the old queue; no other job changes |
| `Scheduler.FinishKeeps` | src/metadata.rs:938-965 | so does the end of a worker, whatever its outcome |
| `Scheduler.FinishExact` | src/metadata.rs:938-965 | the same of the scheduler without redundancy |
| `Scheduler.DoneIsDone` | src/metadata.rs:1410-1583 | over runs: once its worker reported a hash complete, terminal or parked, it gets no further round until it is admitted again |
| `Scheduler.AdmitExact` | src/metadata.rs:891-927 | an admission touches one job: merged peers, the larger number of attempts; accepted exactly if it gained a peer; a new job is last in ready; refused without peers or room |
| `Scheduler.PrioritizeExact` | src/metadata.rs:1352-1362 | an accepted ready job becomes the first, the others keep their order |
| `Scheduler.RetryTakes` | src/metadata.rs:1531-1567 | every due row with peers that is not tracked is a job after the tick, as far as there is room, in due order |
| `Scheduler.Run` | src/metadata.rs:1410-1583 | every state of every run satisfies the invariant |
| `Scheduler.DispatchFalls` | src/metadata.rs:1411-1444 | 2 x queued peers + running rounds strictly falls at a dispatch |
| `Scheduler.FinishFalls` | src/metadata.rs:938-965 | and at a join |
| `Scheduler.RunsEnd` | src/metadata.rs:1410-1583 | every run without admissions, panics included, is at most as long as the work it starts with |
| `Scheduler.StuckIsDrained` | src/metadata.rs:1410-1583 | nothing can happen exactly when the jobs left are those whose worker panicked |
| `Scheduler.StuckExactly` | src/metadata.rs:1569-1583 | over every run a job is left marked as running exactly when its worker panicked; nothing takes it up again |
| `Scheduler.StuckReached` | src/metadata.rs:1568-1580 | the shortest run there: one discovery with a peer, and its worker panics |
| `Scheduler.PanickedKeeps` | src/metadata.rs:1574-1579 | a panicking worker keeps the invariant |
| `Scheduler.UntrackedCount` | src/metadata.rs:1364-1385 | pigeonhole: of distinct rows at most as many are tracked as there are jobs |
| `Scheduler.DueWindowSuffices` | src/metadata.rs:1364-1385 | querying only max_active rows before filtering loses none of the rows to load |
| `Scheduler.AdmitDueNeverFull` | src/metadata.rs:1540-1551 | admitting no more than there is room for never yields AtCapacity |
| `Receipts.PersistKeeps` | src/store.rs:425-513 | committing under a new receipt or replaying an old one keeps the account of receipt and log |
| `Receipts.PassKeeps` | src/store.rs:519-522 | so does whatever others do meanwhile, pruning included |
| `Receipts.PersistExact` | src/store.rs:425-513 | a call under a receipt that is there answers what it stores and commits nothing; under a new one it commits once, unacknowledged; only a call whose reply arrives answers |
| `Receipts.AcknowledgeExact` | src/store.rs:514-518 | an acknowledgement sets the time of a receipt that has none, and touches nothing else |
| `Receipts.PruneExact` | src/store.rs:519-522 | exactly the receipts acknowledged more than 604800 seconds ago go |
| `Receipts.RemoveExact` | src/store.rs:345-357 | removing a receipt leaves other rows and the tables alone |
| `Receipts.FlushDoneExactly` | src/main.rs:511-573 | the flush ends exactly when one attempt had both its batch and its acknowledgement answered |
| `Receipts.FlushExactly` | src/main.rs:511-573 | when the retry loop exits the batch is in the tables once more than its receipt was pruned before the last persist call, and one committed outcome was counted once |
| `Receipts.FlushAlone` | src/main.rs:475-509 | the flushing worker is the only one that prunes: the batch is in the tables exactly once and counted once, however long the retries take |
| `Receipts.WorkerOnce` | src/main.rs:463-509 | over every run of the worker, pruning between flushes: each batch it is through with is in the tables once and was counted once, in order |
| `Receipts.FlushOnce` | src/main.rs:511-573 | even if others prune, exactly once within a week of the first call |
| `Receipts.DiscoverExactly` | src/store.rs:311-358 | a discovery retried under one receipt is in the tables once more than its receipt was pruned before the last call that answered, and was counted once |
| `Receipts.DiscoverOnce` | src/metadata.rs:1455-1490 | within a week, exactly once |
| `Receipts.DiscoverForeseen` | src/store.rs:311-358 | times, fates and prunes of the calls alone tell whether the client gets its answer and how often too many the discovery is committed |
| `Receipts.DiscoveryTwice` | src/store.rs:415-423 | a lost reply and more than a week later: the discovery is committed twice |
| `Receipts.SecondWorkerTwice` | src/store.rs:514-522 | what the rule of one persistence worker is for: with a second one pruning, a lost acknowledgement and a retry after more than a week commit the batch twice |
| `Receipts.StatsWriter.TryFlushStatsBatch` | src/main.rs:526-573 | one attempt; the buffers are cleared exactly when it was acknowledged |
| `Receipts.StatsWriter.FlushStatsBatch` | src/main.rs:511-524 | the retry loop follows the modelled client; it keeps its events until it succeeds |
| `PersistedCatalogue.PersistedStore.PersistRuntimeBatch` | src/store.rs:425-513 | a known receipt is answered from its row, a new one runs the batch; the tables stay the fold of the log |
| `PersistedCatalogue.PersistedStore.PersistHashDiscoveryOnce` | src/store.rs:359-424 | a discovery runs under a new receipt, stored acknowledged; the tables stay the fold of the log |
| `PersistedCatalogue.PersistedStore.AcknowledgeReceipt` | src/store.rs:514-518 | an unacknowledged receipt gets the time, nothing else changes |
| `PersistedCatalogue.PersistedStore.RemoveReceipt` | src/store.rs:345-357 | the receipt goes, nothing else changes |
| `PersistedCatalogue.PersistedStore.PruneReceipts` | src/store.rs:519-522 | exactly the receipts acknowledged more than a week ago go |
| `PersistedCatalogue.TablesOk` | src/store.rs:259-298 | whatever was committed, in any order and under any receipts: totals, integrity and lifecycle hold |
| `PersistedCatalogue.BatchOnce` | src/main.rs:511-573 | after a flush the tables are those some transaction found, stepped once by the batch and then by what others committed; its report was counted once |
| `PersistedCatalogue.DiscoveryOnce` | src/store.rs:311-358 | the same for a discovery, if and only if the times, fates and prunes of its calls foresee no pruning of its receipt before the call that answers, as they never do within a week |
| `PersistedCatalogue.WorkerBatches` | src/main.rs:463-509 | the same for every batch of every run of the persistence worker |
| `CatalogueRuns.Store.DiscoverRow` | src/store.rs:890-930 | the statements of discover in order: row, totals, job by peers and completeness, outcome flags |
| `CatalogueRuns.Store.RefreshSearch` | src/store.rs:1041-1056 | the document of the row is stored or removed; too large changes nothing |
| `CatalogueRuns.Store.CommitMetadata` | src/store.rs:259-298 | all effects, or none when the metadata is invalid or its document too large |
| `CatalogueRuns.Store.FillRow` | src/store.rs:277-285 | files replaced in chunks and metadata columns set |
| `CatalogueRuns.Store.PersistRuntimeBatch` | src/store.rs:425-513 | the event loop discovers rejected observations and samples and adds up their outcomes |
| `CatalogueRuns.Store.PruneOldTorrents` | src/store.rs:663-690 | the loop over chunks of 128 ends with the state and the count of deleting all stale torrents at once, whatever the order of the query |
| `CatalogueRuns.DeleteRow` | src/store.rs:674-687 | one torrent with its dependent rows leaves tables and totals together |
| `CatalogueRuns.BulkStep` | src/store.rs:674-687 | deleting one more row with its decrements equals one more member of the bulk deletion |
| `PeerRows.PersistPeers` | src/store.rs:367-414 | the first addresses, each once, are inserted or refreshed in chunks as seen now; the least recent rows beyond the limit go; the reported counts account for the change exactly |
| `PeerRows.TouchedMore` | src/store.rs:378-401 | touching chunk after chunk is touching all, and the counts of known rows add up |
| `PeerRows.TouchedExact` | src/store.rs:378-401 | the listed addresses are seen now, the other rows stay |
| `PeerRows.RecentStay` | src/store.rs:402-414 | rows that stay are at least as recent as rows that go |
| `Catalogue.DiscoverTotals` | src/store.rs:890-930 | a discovery keeps the totals true |
| `Catalogue.CommitTotals` | src/store.rs:259-298 | a metadata commit keeps the totals true |
| `Catalogue.FiledAgain` | src/store.rs:259-298 | where a commit has been run already it is accepted again and marks its torrent as seen now from the DHT; nothing else changes |
| `Catalogue.CommitAgain` | src/store.rs:1097-1101 | so a commit retried after a lost reply does no harm: the second one moves only the time of the torrent |
| `Catalogue.BatchTotals` | src/store.rs:425-513 | a runtime batch keeps the totals true |
| `Catalogue.BatchReports` | src/store.rs:457-500 | a batch reports exactly the torrents it added, no new job, and as skipped exactly its discoveries of torrents without a job |
| `Catalogue.DeletedTotals` | src/store.rs:674-687 | a pruned row keeps the totals true |
| `CatalogueRuns.RunKeeps` | src/store.rs:259-298 | from an empty store, over all transactions: true totals, referential integrity, complete torrents = complete jobs |
| `CatalogueRuns.ReconcileIsIdle` | src/store.rs:778-783 | so reconciling never changes anything |
| `Catalogue.DiscoverLifecycle` | src/store.rs:890-930 | a discovery keeps: metadata complete exactly when the job is |
| `Catalogue.CommitLifecycle` | src/store.rs:259-298 | so does a metadata commit |
| `Catalogue.FailLifecycle` | src/store.rs:523-533 | a recorded failure keeps it exactly unless it writes complete to an incomplete job |
| `Catalogue.DiscoverJobs` | src/store.rs:890-930 | with peers the hash has a job with next_attempt_at 0 and its attempts unchanged (0 if new), queued unless terminal or complete; without peers no job is created and no time moves, retry_at becomes queued, waiting_peers stays; jobs of other hashes do not change |
| `Catalogue.DiscoveredIsDue` | src/store.rs:556-560 | so after a discovery with peers the job is due at every time exactly unless its status is terminal |
| `Catalogue.FailRows` | src/store.rs:523-533 | a recorded failure writes status, attempts and time of a job that is not complete, and nothing else |
| `Catalogue.FailedIsDue` | src/store.rs:556-560 | and such a job is due exactly from that time on if it is queued or to be retried |
| `Catalogue.DiscoverTorrent` | src/store.rs:890-930 | a discovery marks the torrent as seen now from its source; a new one is incomplete and first seen now; no other row changes; the flags say what was created |
| `Catalogue.BatchOthers` | src/store.rs:457-500 | a batch leaves the rows of a hash alone that no rejected observation and no sample of it names |
| `Catalogue.BatchTorrent` | src/store.rs:457-500 | a hash that is named is seen now from the source of the last event that names it |
| `Catalogue.CommitRefused` | src/store.rs:267-298 | a commit is refused exactly for a negative size or piece length, a file with an empty path or negative size, or a document over the budget |
| `Catalogue.CommitRows` | src/store.rs:259-298 | beyond the metadata a commit marks the torrent as seen now from the DHT and its job complete; attempts, first_seen and other hashes stay |
| `CatalogueRuns.PrunedExact` | src/store.rs:663-690 | pruning keeps all rows of torrents seen at the cutoff or later and no row of any other |
| `CatalogueRuns.DiscoveriesKeepJobs` | src/store.rs:890-930 | the same over any sequence of discoveries and batches |
| `CatalogueRuns.CompleteStays` | src/store.rs:663-690 | nothing but pruning leaves complete, and pruning takes the torrent along |
| `SearchText.Output.AppendSearchText` | src/store.rs:986-1004 | true exactly when the words so far and those of the field, joined, fit the budget; then they are the text; the text never exceeds it |
| `SearchText.AppendAll` | src/store.rs:986-1004 | folding over fields gives split, drop empties, join by single spaces, or false exactly when that is over budget |
| `SearchText.GrowText` | src/store.rs:986-1004 | what one character does to the joined words |
| `SearchText.NormalNewField` | src/store.rs:986-1004 | no field, or an empty one more, adds no text |
| `SearchText.NormalByChar` | src/store.rs:986-1004 | one more character in the last field: a separator adds nothing, any other is added, after one space if it begins a word that is not the first |
| `SearchText.NormalGrows` | src/store.rs:1057-1064 | joined words never get shorter with more fields |
| `SearchText.SearchDocument` | src/store.rs:1005-1040 | the document of a row, or too large; the remaining budget never underflows |
| `SearchText.DocumentFits` | src/store.rs:1005-1040 | no document exceeds the limit it was built under |
| `SearchText.DocumentExact` | src/store.rs:1005-1040 | there is a document for a complete named torrent or one with files: name, once complete, and paths in normal form; too large exactly when the raw name, a raw path, or the texts with 168 bytes exceed the budget |
| `Pages.UnionPage` | src/store.rs:791-797 | the first n of two limited sorted queries together are the first n of both whole sets |
| `Pages.FirstIsFirst` | src/store.rs:791-797 | a sorted limited query gives the least n, ascending |
| `SearchIndex.PageAdvances` | src/store.rs:791-834 | after a page exactly the wanted hashes beyond its last one remain |
| `SearchIndex.ForPacket` | src/store.rs:939-953 | documents as long as the packet less 16384 bytes allows, 16 MiB at most; batches of 1 MiB at most; refused below 1024 bytes |
| `SearchIndex.ReplaceSearchDocuments` | src/store.rs:841-861 | called only with a batch within the limit or of one document; replaces exactly its rows |
| `SearchIndex.Collect` | src/store.rs:813-827 | a full batch is sent before or with the new document, so every batch is within the limit or a singleton |
| `SearchIndex.RebuildPage` | src/store.rs:801-832 | every hash of a page gets its document, none is left unsent |
| `SearchIndex.RebuildSearchIndex` | src/store.rs:784-840 | from any index, ends with exactly the documents the tables call for, each wanted hash visited once, or fails exactly when a document is too large |
| `SearchIndex.RebuildIsIdle` | src/store.rs:784-840 | on a consistent store the rebuild changes nothing |
| `SearchIndex.IndexedIsIndexOf` | src/store.rs:784-840 | the index is right exactly when it is the map the rebuild builds |
| `SearchIndex.DiscoverIndexed` | src/store.rs:890-930 | a discovery keeps the index right |
| `SearchIndex.CommitIndexed` | src/store.rs:259-298 | a metadata commit keeps the index right |
| `SearchIndex.BulkIndexed` | src/store.rs:663-690 | pruning keeps the index right |
| `SearchIndex.RunIndexed` | src/store.rs:1041-1056 | from an empty store, after any transactions, the index is exactly the documents of the tables |
| `Journal.ReadBatches` | scripts/oci-observability/journal.py:155-231 | batches slice the eligible records in order, each with the cursor it ends with, within the bounds or a single record; it stops at the batch limit or the end |
| `Journal.ResumeExact` | scripts/oci-observability/journal.py:155-231 | resuming after any batch reads exactly the rest: what was read and what is left are all eligible records, in order |
| `Journal.EligibleExact` | scripts/oci-observability/journal.py:102-135 | a record is exported exactly if some entry with a cursor carries it: of this user or none, from btfind.service or btfind-web.service with no other identifier, or without a unit under btfind-crawler or btfind-web |
| `Exporter.EntriesByService` | scripts/oci-observability/logging_export.py:127-137 | groups hold the records of each service in order |
| `Exporter.LogExporter.ShipLogBatch` | scripts/oci-observability/export.py:202-222 | on success every record of the batch was acknowledged, each sent once; otherwise part of the batch, none twice |
| `Exporter.LogExporter.ShipChunks` | scripts/oci-observability/logging_export.py:38-40 | chunks cover the entries in order, as far as they go |
| `Exporter.LogExporter.Save` | scripts/oci-observability/checkpoint.py:109-136 | the saved state is the old or the new one |
| `Exporter.LogExporter.ShipBatches` | scripts/oci-observability/export.py:225-242 | wherever it stops, what the saved cursor stands for has been acknowledged; sent was every record up to that cursor, once, and at most one batch more |
| `Exporter.LogExporter.RunLogs` | scripts/oci-observability/export.py:245-288 | one pass keeps: every eligible record up to the saved cursor is acknowledged. It sends only what lies behind the cursor it started with, each record once; short of the batch limit and without failure, exactly all of it |
| `Exporter.LogExporter.RunPasses` | scripts/oci-observability/export.py:245-288 | the same after any number of passes over a growing journal, each failing or crashing anywhere; once a cursor is saved each pass goes on where the last saved one stands |
| `Exporter.SentAgain` | scripts/oci-observability/export.py:225-242 | over those passes a record is sent again only if the pass that sent it saved no cursor at or behind it |
| `Exporter.SentOnce` | scripts/oci-observability/export.py:202-222 | and within one pass no record is sent twice |
| `Exporter.ExportedShip` | scripts/oci-observability/export.py:202-242 | shipping part of a batch leaves the old cursor valid; shipping all of it makes the new one valid |

## Left out

- Sockets, TCP and UDP timeouts, DNS and the Tokio runtime: only their outcomes appear, as arguments.
- MySQL: locking, isolation, full-text ranking, migrations and pools. Statements appear through their effect on tables; BIGINT columns are unbounded integers.
- SHA-1, HMAC tokens, random ids and jitter: the checks that use them are not part of this model.
- `src/bencode.rs`, `parse_torrent_info`, the extended handshake and its dictionaries: conversions of values a library decodes; the download starts at the advertised size and reqq.
- The peer cache (`cache_peer`, `expire_peer_cache`), `questionable` contact states and `last_changed`: they decide nothing that is proved here.
- Requests from other nodes (ping, find_node, get_peers, announce_peer) and the publishing of discoveries to the channel.
- Counters other than those of the lookup tracker and the persisted outcomes; `src/metrics.rs`, `metrics_export.py` and the metrics stream of the exporter.
- `src/web.rs`, the dashboard, magnet links, configuration parsing, logging and the command line; configured ranges appear as preconditions (a round limit of at least 1, chunks of at least 1 entry).
- `process_hash_round` between dispatch and join: it appears as an arbitrary outcome for its job, or as a panic.
- The rows of `sample_observations`, `dht_nodes`, `crawl_stats` and `metadata_failure_counts`: no proved property reads them. Peer rows are modelled for one job at a time (`PeerRows`), beside the catalogue tables.
- PersistedCatalogue.PersistedStore.PersistHashDiscoveryOnce: leaves out the peer rows of the same transaction, which `PeerRows` models on their own.
- The chunks of `prune_rows`: receipts that expired go at once; a prune that stops halfway is one that leaves the others for later.
- The loop that retries a metadata commit up to three times: each attempt is modelled, as all or nothing, and what one more does after an accepted one.
- The process-wide transaction counter is a field of the engine: one engine is modelled.
- Origins of RPCs, the numbers of lookups and the sets of initiated, successful and failed ones are history the program does not store; they only serve to state the theorems.
- Texts of error messages, except where they distinguish outcomes; in `Bencode` and `Download` each kind is its own constructor.
- NFKC normalisation and the alphanumeric class of a character: texts are given normalised, each character marked as a word character or not. The byte budget (`max_allowed_packet`) does not change during a run.
- Exporter.LogExporter.RunPasses: excludes journal rotation and the `cursor_invalid` reset; cursors are unique and a saved one is found again. Until a pass has saved a cursor, each pass begins at its own lookback window, so records that leave the window before the first save are not exported; accounting starts at the window of the pass that saved first.
- Dead letters for oversized log entries: a record that cannot be serialised or stored ends the pass like any other failure.
