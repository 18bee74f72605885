# Models of the RDMA transport, the collectives and the key-value cache

This project models the stateful protocols of the repository in Dafny and proves what
they keep. There are three groups.

**The collectives** (`phase3_collective`). A program is any list of ring all-reduces and
barriers that all ranks call in the same order. Both schedules run it as one global step
system, in any interleaving:

- `PostedRing`: the posted-receive schedule over queue pairs. Sends are zero-copy: an
  element is fetched from the sender's live buffer at any moment until the message is
  delivered, and elements land in the receiver's live buffer in any order. Order, delivery
  and acknowledgement on a link are those of reliable connections in section 9.7 of the
  InfiniBand Architecture Specification, Volume 1.
- `BlockingRing`: the blocking schedule over sockets of any capacity, capacity 0 meaning
  that a sender waits for its receiver element by element.

`RingSpec` is the reference both are proved against: synchronous rounds, and the fold they
amount to. Elements are of any type with any binary operation, so "the same bits on every
rank" assumes nothing about floating-point addition. `RingIndex`, `RingProgram`,
`RingMeeting` and `RingFlat` hold the chunk arithmetic, the program, the places of the
ranks in it and the flat buffer.

**The two-party benchmarks** (`phase1_verbs`, `phase2_transport`). `PingPong` (send and
receive, one shared completion queue), `WritePingPong` (one-sided writes with an 8-bit
doorbell), `TornDoorbell` (a 32-bit doorbell that can be seen half-written), `WriteWindow`
(the sliding window, as a step system and as the client's own loops) and `Rendezvous` (the
exchange the teardown rests on). The queue-pair loops of both send/receive benchmarks have
one shape; `backend_compare.cpp` is the case of depth 8.

**The slot pool** (`phase4_kv_cache`, with the TCP backend of `phase2_transport`). `KvPool`
is the allocator as a function of the requests and the ledger of who holds what;
`SlotStore` adds the slab and one-sided access to it; `CtrlProtocol` and `CtrlTheorems`
are the control connection as a step system over two byte streams; `TcpStream`,
`CtrlEndpoints` and `RunBench` are the loops of the backend, of both ends of the control
connection and of the measurement, as methods proved against those specifications.
`Bytes`, `Counting`, `CtrlMessages`, `Limits` and `Remainders` serve them.

**Inline posting.** A payload no larger than the inline size the adapter has granted is
copied into the work request when it is posted (`rdma_ops.c:41-42` and `:84-85`); any
other is read from the live buffer. `WriteWindow` and `PostedRingReuse`, where that changes
what can be observed, have the granted size as a parameter. The program compares with each
queue pair's own grant; `PostedRingReuse` takes the grants of all queue pairs as equal.
Elsewhere the zero-copy model covers both: in `PostedRing` a message can be fetched whole
as soon as it is posted, and in `WritePingPong`, `TornDoorbell` and `SlotStore` no buffer
changes while a write from it is in flight.

`dafny verify dfyconfig.toml` checks everything.

## What the proofs show beyond the documentation

- **Two ranks reuse a send buffer early.** `ring_posted` leaves the chunk of an unreaped
  zero-copy send alone exactly when there are more than two ranks or the messages of every
  all-reduce are posted inline (`PostedRingReuse.ReuseRule`, of each program). With two
  ranks, the receive posted one step ahead lands on a chunk whose send has been delivered
  but not reaped. The result is right all the same: what could still be fetched is never
  written (`PostedRingTheorems.SourceIsNotWritten`).
- **A barrier on sockets does not vouch for the right neighbour.** `collective.hpp:63-64`
  says that it establishes that the two neighbours have arrived. On the posted path it does
  (`PostedRingTheorems.NeighboursHaveEntered`). On sockets it does exactly when there are
  two ranks or the sockets hold nothing (`BlockingRingBarrier.BarrierRule`); of the left
  neighbour it does always.
- **The streaming doorbell can come early.** The comments in `bw_rdma_write.c:78` and
  `:123-126` say that the doorbell tells the server that the last write's data landed. It
  does exactly when `depth` is 1 or the payload is posted inline (`WriteWindow.BellRule`).
  Teardown is safe in every case because of the second exchange alone.
- **`run_bench` fails for a batch that exceeds the send queue.** `kv_bench.cpp:61-70` sets
  no upper bound on `--depth`, but a batch is posted whole before it is polled: the loop
  succeeds exactly when the smaller of `depth` and the number of iterations, warm-up
  included, is at most the 127 usable entries, and gives up in its first batch otherwise
  (`RunBench.Run`).
- **A depth of 127 overfills a receive queue.** `bench_config.h:116-120` admits it because
  127 of the 128 entries can be used, but the client of `lat_send_recv.c` posts one receive
  more than `depth` before it sends; it fits exactly when `depth` is below 127 or there are at
  most 127 iterations with the 20 of the warm-up, that is, `--iters` is at most 107
  (`PingPong.QueuesSuffice`).
- **A slot freed while it is free stays in two places** (`KvPool.PartitionRule`): the pool
  is partitioned after a run exactly when every FREE named a slot held at that moment.
- **A negative slot size gets past the parser** of `kv_server.cpp`, which refuses only 0;
  the vector it asks for is then larger than any vector can be (`SlotStore.SlabSizeRule`).
- **The bandwidth clock of `run_bench`** covers the operations the bandwidth is computed
  from exactly when `depth` divides the warm-up of 20, provided that it is started at all
  (`RunBench.WindowRule`).
- **The client does not wait in connect().** `lat_rdma_write.c:152-156` says so, but a
  connection can be queued before it is accepted; the client waits in the receive that
  follows (`rdma_oob_connect.c:121-126`). `Rendezvous` follows the code.

## Model

| member | source | states |
|---|---|---|
| RingIndex.ChunkFormulas | phase3_collective/src/ring_allreduce.cpp:9-16 | The linear chunk functions equal the program's remainder expressions at every rank and step. |
| RingIndex.NeighbourFormulas | phase3_collective/include/collective.hpp:23-24 | Left and right neighbour are (r-1+N)%N and (r+1)%N. |
| RingIndex.ForwardsWhatItReceived | phase3_collective/src/ring_allreduce.cpp:9-16 | Each step sends the chunk the step before received. |
| RingIndex.EndsAgree | phase3_collective/src/ring_allreduce.cpp:9-16 | What the left neighbour sends in a step is what the rank receives in it. |
| RingIndex.RecvAtHops | phase3_collective/src/ring_allreduce.cpp:9-16 | A rank receives a chunk in a step exactly when it is the step's distance along the ring from that chunk. |
| RingIndex.SendIsNotRecv | phase3_collective/src/ring_allreduce.cpp:9-16 | No step sends the chunk it receives. |
| RingIndex.RecvAdvances | phase3_collective/src/ring_allreduce.cpp:118-131 | Consecutive steps receive different chunks, so the early receive is not the chunk being summed. |
| RingIndex.SendMeetsNextRecv | phase3_collective/src/ring_allreduce.cpp:94-121 | The all-gather receive posted one step ahead names the chunk being sent exactly when there are two ranks. |
| RingIndex.FlatIndexUnique | phase3_collective/src/ring_allreduce.cpp:127 | Chunk offsets cover the flat buffer once. |
| RingSpec.ScatterFolds | phase3_collective/src/ring_allreduce.cpp:107-132 | After s reduce-scatter rounds each chunk is the fold over exactly the ranks it has passed, and untouched elsewhere. |
| RingSpec.GatherSpreads | phase3_collective/src/ring_allreduce.cpp:107-132 | The finished chunk has spread one rank further after each all-gather round. |
| RingSpec.RoundsReduce | phase3_collective/src/ring_allreduce.cpp:107-132 | After all rounds every rank's chunk c is x[c+N-1]+(...+(x[c+1]+x[c])), for an uninterpreted sum. |
| RingSpec.FoldIsRankSum | phase3_collective/src/ring_allreduce.cpp:126-131 | With an associative, commutative sum each partial fold is the plain sum of the ranks it covers, wrap-around included. |
| RingSpec.ReducedIsSum | phase3_collective/src/ring_allreduce.cpp:136-150 | The ring-order fold is then the sum over all ranks. |
| PostedRingProof.StepKeepsInv | phase3_collective/src/ring_allreduce.cpp:87-134 | Every event of every rank and adapter keeps the link, wire and memory invariant. |
| PostedRingTheorems.AllReduceResult | phase3_collective/src/ring_allreduce.cpp:87-134 | In every reachable state a rank that has returned from an all-reduce holds the ring-order fold of every chunk. |
| PostedRingTheorems.BitIdentical | phase3_collective/src/ring_allreduce.cpp:87-134 | Any two ranks that have returned hold equal buffers, across different states and runs. |
| PostedRingTheorems.AllReduceSums | phase3_collective/src/ring_allreduce.cpp:136-150 | With an associative, commutative sum the result is the sum over ranks. |
| RingFlat.JoinSplit | phase3_collective/src/ring_allreduce.cpp:146 | Cutting a flat buffer into chunks and joining them again gives the buffer. |
| RingFlat.FlatResult | phase3_collective/src/ring_allreduce.cpp:136-150 | The same of the flat buffers: every element of a returned rank's buffer is the sum of the ranks' elements at its index. |
| RingFlat.FlatResultBlocking | phase3_collective/src/ring_allreduce.cpp:136-150 | Likewise on the blocking path. |
| RingFlat.AddChunk | phase3_collective/src/ring_allreduce.cpp:126-131 | The summing loop adds the staged chunk element by element and changes nothing else. |
| PostedRingTheorems.ReturnsClean | phase3_collective/src/world.cpp:66-99 | Between calls a rank has no work request or completion outstanding on either queue pair. |
| PostedRingTheorems.MessageMeetsItsReceive | phase3_collective/src/ring_allreduce.cpp:94-121 | The message at the head of a link and the receive it meets are of the same call, step and length, and name the chunk or stage half expected. |
| PostedRingTheorems.BarrierKeepsResult | phase3_collective/src/world.cpp:66-99 | Barriers leave the latest result in the buffer. |
| PostedRingTheorems.NeighboursHaveEntered | phase3_collective/src/world.cpp:75-80 | Who has returned from a call knows that both neighbours have entered it; with two ranks all have. |
| PostedRingTheorems.EveryoneHasEntered | phase3_collective/src/ring_allreduce.cpp:102-133 | Who has returned from an all-reduce knows that every rank has entered it. |
| PostedRingTheorems.NeighboursStayClose | phase3_collective/src/ring_allreduce.cpp:102-133 | At most one message and one receive per link; the left neighbour is at most one step behind and two ahead. |
| PostedRingTheorems.OnlyWritesChange | phase3_collective/src/ring_allreduce.cpp:126-131 | A buffer cell changes only by a call being entered, a sum on it or an element landing on it. |
| PostedRingTheorems.SourceIsNotWritten | phase3_collective/src/ring_allreduce.cpp:94-131 | While a message can still be fetched, nothing writes its source chunk, for two ranks too. |
| PostedRingTheorems.SumIsApart | phase3_collective/src/ring_allreduce.cpp:117-131 | The receive posted during a sum names neither the half read nor the chunk written. |
| PostedRingReuse.ReuseRule | phase3_collective/src/ring_allreduce.cpp:94-131 | Of every program: no run writes a chunk of an unreaped zero-copy send exactly when there are more than two ranks or every all-reduce's messages are posted inline. |
| PostedRingReuse.WrittenBeforeReaped | phase3_collective/src/ring_allreduce.cpp:94-131 | Every two-rank program with an all-reduce that is not inline has a run in which it happens, for any chunk length and whatever calls come before. |
| PostedRingProgress.NoDeadlock | phase3_collective/src/ring_allreduce.cpp:102-133 | Every reachable unfinished state has an event that makes progress. |
| PostedRingProgress.MeasureDescends | phase3_collective/src/ring_allreduce.cpp:102-133 | One natural number falls with every fresh event, and no event raises it. |
| PostedRingProgress.RunsFinish | phase3_collective/src/ring_allreduce.cpp:102-133 | Retransmissions apart, a run from any start holds no more events than a number computed from the program, and where no such event is possible every rank has finished every call. |
| PostedRingProgress.CanFinish | phase3_collective/src/ring_allreduce.cpp:102-133 | From every reachable state a run finishes all calls on all ranks. |
| PostedRingProgress.SomeRunGathers | phase3_collective/src/ring_allreduce.cpp:102-133 | Every program has a run in which all ranks meet at the beginning of any one of its calls. |
| BlockingRingProof.StepKeepsInv | phase3_collective/src/ring_allreduce.cpp:31-68 | Every step keeps sockets aligned with what the peer sent and memory equal to the rounds. |
| BlockingRingTheorems.AllReduceResult | phase3_collective/src/ring_allreduce.cpp:31-68 | A rank that has returned holds the ring-order fold of every chunk. |
| BlockingRingTheorems.SchedulesAgree | phase3_collective/src/ring_allreduce.cpp:136-150 | Blocking and posted runs of one program leave equal buffers. |
| BlockingRingTheorems.LeftHasEntered | phase3_collective/src/world.cpp:81-98 | On sockets a returned rank knows that its left neighbour has entered the call. |
| BlockingRingTheorems.EveryoneHasEntered | phase3_collective/src/ring_allreduce.cpp:37-60 | Who has returned from an all-reduce knows that every rank has entered it. |
| BlockingRingBarrier.BarrierRule | phase3_collective/include/collective.hpp:63-66 | In all runs a returned rank's right neighbour has entered the barrier exactly when there are two ranks or the sockets hold nothing. |
| BlockingRingBarrier.RightHasEntered | phase3_collective/src/world.cpp:81-98 | With rendezvous the right neighbour has entered every call the rank has returned from. |
| BlockingRingTheorems.NoDeadlock | phase3_collective/src/ring_allreduce.cpp:37-60 | With even ranks sending first, every reachable unfinished state can move, for every ring size and every capacity, 0 included. |
| BlockingRingProgress.RunsFinish | phase3_collective/src/ring_allreduce.cpp:37-67 | No run exceeds a fixed length, and it is finished exactly when it has that length. |
| PingPong.AnswersInTurn | phase1_verbs/bench/lat_send_recv.c:85-140 | Whatever kinds of completion were reaped, the server answers ping i only after receiving it, and at most one send is unreaped. |
| PingPong.NeverNotReady | phase1_verbs/bench/lat_send_recv.c:85-140 | Whenever a message is under way a receive is posted for it. |
| PingPong.AccountsClose | phase1_verbs/bench/lat_send_recv.c:85-140 | A side leaves its loop with exactly total receives posted and consumed and every completion reaped. |
| PingPong.CreditsBounded | phase1_verbs/bench/lat_send_recv.c:86-140 | At most prepost receives are outstanding on the server and prepost+1 on the client; a completion queue holds at most two. |
| PingPong.PeakIsReached | phase1_verbs/bench/lat_send_recv.c:114-125 | The client does reach prepost+1. |
| PingPong.QueuesSuffice | common/include/bench_config.h:116-120 | The receive queues' 127 usable entries suffice in every run exactly when depth < 127 or there are at most 127 iterations, warm-up included. |
| PingPong.NoDeadlock | phase2_transport/bench/backend_compare.cpp:205-234 | Neither side ever waits for ever. |
| PingPong.RunsFinish | phase1_verbs/bench/lat_send_recv.c:85-140 | Every run has bounded length and is finished exactly at that length. |
| Rendezvous.ExchangeSynchronizes | phase1_verbs/src/rdma_oob_connect.c:66-141 | In every run of accept/send/receive against connect/receive/send, the server is through only once the client is, the client only once the server has come, no side destroys its queue pair before the other has left its loop, and neither waits for good. |
| WritePingPong.DoorbellNeverAliases | phase1_verbs/bench/lat_rdma_write.c:99-146 | While waiting in iteration i the watched byte is i or i+1 modulo 256; it is i+1 exactly when the peer's write of that iteration is whole, and then the half equals the peer's. |
| WritePingPong.WatchedHalfIsThePeers | phase1_verbs/bench/lat_rdma_write.c:102-134 | In the one buffer of two halves, at the program's offsets, only the peer's landing bytes change the half a side watches, and they change nothing of the half it writes from. |
| WritePingPong.TeardownIsSafe | phase1_verbs/bench/lat_rdma_write.c:152-167 | Neither queue pair is destroyed while the other side has an unreaped write. |
| WritePingPong.RunsFinish | phase1_verbs/bench/lat_rdma_write.c:99-176 | Loops and teardown always finish, in a fixed number of events. |
| TornDoorbell.BytesOfSuccessor | phase2_transport/bench/backend_compare.cpp:367-368 | The little-endian bytes of k+1 are those of k with the carry propagated. |
| TornDoorbell.TornWord | phase2_transport/bench/backend_compare.cpp:313-323 | Any half-written mixture of k and k+1 reads as at most k, or as k+1 with all four bytes equal to its. |
| TornDoorbell.FinalMeansInPlace | phase2_transport/bench/backend_compare.cpp:313-381 | The word shows the final value only once the last write is posted and the server's buffer equals the client's, whatever values were missed. |
| TornDoorbell.FinalStays | phase2_transport/bench/backend_compare.cpp:313-381 | After the last completion the word shows the final value for good, so the server leaves. |
| TornDoorbell.RunsFinish | phase2_transport/bench/backend_compare.cpp:313-381 | Every run has bounded length and is finished exactly at that length. |
| WriteWindow.WindowHolds | phase1_verbs/bench/bw_rdma_write.c:89-117 | ccnt <= scnt <= total and scnt-ccnt <= depth <= 127 for any batches, so neither queue overflows. |
| WriteWindow.ClockCoversIters | phase1_verbs/bench/bw_rdma_write.c:93-118 | The clock is started once, with exactly iters posts from then on. |
| WriteWindow.BellRule | phase1_verbs/bench/bw_rdma_write.c:77-126 | The doorbell implies that the last write landed, in all runs, exactly when depth is 1 or the size is within the granted inline size. |
| WriteWindow.BellCanComeEarly | phase1_verbs/src/rdma_ops.c:70-94 | For every depth from 2 on and every payload too large for inline posting, a run in which the server sees the doorbell before the last write is posted. |
| WriteWindow.TeardownIsSafe | phase1_verbs/bench/bw_rdma_write.c:123-137 | Once either side destroys its queue pair every write has landed and been reaped and both have left their loops. |
| WriteWindow.RunsFinish | phase1_verbs/bench/bw_rdma_write.c:75-137 | Events other than empty polls are bounded, and until both sides are through one can always happen. |
| WriteWindow.Stream | phase1_verbs/bench/bw_rdma_write.c:89-118 | The client's nested loops end with every write posted and reaped, the doorbell set for the last post only, the window filled but not exceeded, and the clock started iters posts before the end. |
| KvPool.PartitionRule | phase4_kv_cache/src/kv_server.cpp:69-114 | After a run of accepted requests the free list and the held slots partition the pool exactly when every FREE named a slot held at that moment. |
| KvPool.StartPartitions | phase4_kv_cache/src/kv_server.cpp:168-170 | The initial free list is a partition with nothing held. |
| KvPool.AllocAnswers | phase4_kv_cache/src/kv_server.cpp:84-90 | In a partitioned pool ALLOC answers -1 exactly when all slots are held, and otherwise a slot of the pool nobody holds. |
| KvPool.FreeThenAlloc | phase4_kv_cache/src/kv_server.cpp:84-103 | FREE and then ALLOC answers the same slot and restores the free list. |
| KvPool.AllocThenFree | phase4_kv_cache/src/kv_server.cpp:84-103 | ALLOC and then FREE of its slot restores the free list. |
| KvPool.AnyRequests | phase4_kv_cache/src/kv_server.cpp:72-113 | With no discipline every ALLOC reply is -1 or in range and every ack 0; the service ends in error exactly on a FREE out of range or a foreign type. |
| KvPool.FreedTwiceIsSharedOut | phase4_kv_cache/src/kv_server.cpp:96-103 | Freeing any free slot makes two later ALLOCs answer with it. |
| KvPool.ServePrefix | phase4_kv_cache/src/kv_server.cpp:72-113 | Replies do not depend on later requests. |
| SlotStore.AddressIsExact | phase4_kv_cache/bench/kv_bench.cpp:277 | The 64-bit address computation is exact and the slot lies in the slab. |
| SlotStore.AddressesApart | phase4_kv_cache/include/kv_cache.hpp:28-38 | Different slots' address ranges do not overlap. |
| SlotStore.SlabSizeRule | phase4_kv_cache/src/kv_server.cpp:27-31 | Of the slot sizes the parser admits, exactly the positive ones ask for a slab a vector can have, and then of the exact size. |
| SlotStore.ReadReturnsLastWrite | phase4_kv_cache/bench/kv_bench.cpp:279-321 | Every completed read of a slot its holder has written returns the holder's last write, with any number of reads or of writes outstanding on a slot and any byte-wise interleaving with other slots, ALLOCs and FREEs. |
| SlotStore.OnlyTheHolderChangesIt | phase4_kv_cache/include/kv_cache.hpp:8-20 | A slot's last write changes only by the holder's own write completing or the holder freeing the slot. |
| SlotStore.AllocGivesAFreshSlot | phase4_kv_cache/src/kv_server.cpp:84-90 | In every reachable state ALLOC gives out a slot without holder, or none because all are held. |
| Bytes.DecodeEncodeInt | phase4_kv_cache/include/kv_cache.hpp:45-48 | Signed words survive encoding and decoding. |
| Bytes.EncodeDecodeInt | phase4_kv_cache/include/kv_cache.hpp:45-48 | So do any four bytes read as a word. |
| TcpStream.SendAll | phase2_transport/src/tcp_backend.cpp:17-28 | On success exactly the bytes asked for have gone out, in order; on failure a proper prefix of them. |
| TcpStream.RecvAll | phase2_transport/src/tcp_backend.cpp:30-41 | On success exactly the next len bytes are in the buffer at the offset and nothing else of it changed; on failure fewer are. |
| TcpStream.SendAsync | phase2_transport/src/tcp_backend.cpp:68-84 | Refuses null, empty and oversized requests without sending; otherwise as SendAll. |
| TcpStream.RecvAsync | phase2_transport/src/tcp_backend.cpp:86-102 | Likewise for receiving, a failure part of the way included. |
| TcpStream.AlignedReads | phase2_transport/src/tcp_backend.cpp:17-41 | Reading lengths in turn from a stream of messages yields the messages exactly when the lengths are theirs. |
| CtrlTheorems.StepKeepsInv | phase4_kv_cache/src/kv_server.cpp:37-114 | Every split transfer and every turn of either side keeps one message under way and the server's pool in step with the calls. |
| CtrlTheorems.ServerGetsTheRequest | phase4_kv_cache/src/kv_server.cpp:72-83 | However bytes are split, a message the server has wholly received is the one the client sent in that exchange, and nothing else is under way. |
| CtrlTheorems.ClientGetsTheReply | phase4_kv_cache/bench/kv_bench.cpp:103-150 | A message the client has wholly received is the server's, and answers the request just sent. |
| CtrlTheorems.ResultsMatch | phase4_kv_cache/bench/kv_bench.cpp:80-150 | The client's results are always the first replies of the pool served directly, and after META it knows the pool's dimensions. |
| CtrlTheorems.HowItEnds | phase4_kv_cache/src/kv_server.cpp:72-113 | The client gets through exactly if no call is refused; the server returns 0 only after that, with the free list the calls leave, and -1 only on a refused call. |
| CtrlTheorems.NoDeadlock | phase4_kv_cache/bench/kv_bench.cpp:80-150 | Neither side ever waits for ever, for any connection capacity from one byte on. |
| CtrlTheorems.RunsFinish | phase4_kv_cache/bench/kv_bench.cpp:80-150 | Runs are bounded by the number of calls and stop only when both sides have ended. |
| CtrlEndpoints.KvAlloc | phase4_kv_cache/bench/kv_bench.cpp:103-125 | On success the request has gone out whole and the result is the next four bytes of the stream. |
| CtrlEndpoints.KvFree | phase4_kv_cache/bench/kv_bench.cpp:127-150 | Likewise, and success means that the ack was 0. |
| CtrlEndpoints.AskMeta | phase4_kv_cache/bench/kv_bench.cpp:80-101 | On success the client has the two fields of the 16-byte reply. |
| CtrlEndpoints.PoolServer.AnswerMeta | phase4_kv_cache/src/kv_server.cpp:37-61 | Succeeds only on META, and then has sent 16 bytes that decode to the pool's dimensions. |
| CtrlEndpoints.PoolServer.FillFreeList | phase4_kv_cache/src/kv_server.cpp:168-170 | The loop fills the free list with 0 to num_slots-1 in order. |
| CtrlEndpoints.PoolServer.Treat | phase4_kv_cache/src/kv_server.cpp:83-112 | The request in the control buffer is treated in place as the specification says. |
| CtrlEndpoints.PoolServer.Loop | phase4_kv_cache/src/kv_server.cpp:69-114 | Free list, bytes sent and exit code are those of serving the requests that came whole from the stream. |
| CtrlEndpoints.StreamsAgree | phase4_kv_cache/src/kv_server.cpp:63-68 | Requests read off a prefix of the client's request stream are the first ones the client wrote. |
| RunBench.ClockStartsAt | phase4_kv_cache/bench/kv_bench.cpp:170-173 | The first batch past the warm-up begins at operation depth*ceil(20/depth). |
| RunBench.WindowRule | phase4_kv_cache/bench/kv_bench.cpp:170-191 | If some batch begins past the warm-up, the clock covers iters - (depth*ceil(20/depth) - 20) operations, from 1 to iters, and iters exactly when depth divides 20. |
| RunBench.Run | phase4_kv_cache/bench/kv_bench.cpp:164-189 | The loop succeeds exactly when min(depth, 20+iters) fits the 127 usable send-queue entries; then every operation is posted once in order, at most that many are unpolled and none at the end, every latency entry is written once with its batch's figure, and the clock is set exactly when a batch starts past the warm-up. |
| RunBench.Measure | phase4_kv_cache/bench/kv_bench.cpp:174-188 | A batch fails, with the queue full, exactly when it exceeds the send queue; otherwise it leaves nothing unpolled and keeps the record of entries. |

## Left out

- Connection set-up (`rdma_cm`, verbs, GID selection, queue-pair attributes, memory registration and destruction order): calls into drivers. Links and queue pairs are given as connected.
- `rdma_ops.c` and `rdma_backend.cpp` as code: their posts and polls are the steps of the models.
- `world_init`: threads, retries and port arithmetic. The ring is given.
- Errors returned by the fabric, by polls and by completions: in the step systems transport operations succeed, with any timing and any splitting; `TcpStream` and `CtrlEndpoints` do model failing socket calls.
- `ring_allreduce` called with a count of 0 or one that N does not divide, or with a world of one rank: the first fails in the transport, the second is refused and the third returns at once; the model begins where N >= 2 and a chunk has at least one element.
- The loops of the rings, of both ping-pongs and of the 32-bit doorbell as methods: each is a program counter of its step system, with the fields the loop updates, because what it promises lies in what the other sides do meanwhile. The summing loop, the sliding window, the stream loops, the pool server and the measuring loop are methods.
- Rounding of floats: the sum is uninterpreted, or associative and commutative where that is said.
- RNR timers, moderation and measured times: a message that finds no receive waits. The clock in `RunBench` only does not go back.
- Latency statistics, reports, option parsing beyond the bounds cited, scripts and bindings: user interface.
- SlotStore.ReadReturnsLastWrite: reads and writes are not outstanding on one slot at the same time; the program never has both.
- SlotStore.AddressIsExact: assumes that the slab lies in the address space, as any allocated slab does.
- TcpStream.SendAsync: lengths and offsets are taken below 2^64 together, so their sum does not wrap; likewise RecvAsync.
- CtrlEndpoints.StreamsAgree: is about requests whose words fit in 32 bits, as everything read off the stream does.
- RunBench.Run: a negative iteration count, for which the vector cannot be made, is not modelled.
- WriteWindow.Stream: the bound on empty polls is a field of the modelled adapter; that completions arrive at all is the fabric's promise.
- `lat_send_recv.c` and `backend_compare.cpp` hold no exchange at teardown, so nothing is claimed about it.
- TCP mode of `backend_compare.cpp`: the same ping-pong without credits.
- The data connection's own exchange of addresses and keys: base address and slot size are given to `SlotStore`.
