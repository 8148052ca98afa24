# Verified model of simple-rpc

This project models the stateful core of simple-rpc in Dafny and proves what the code is meant to
guarantee: the chunk buffer behind every message, variable-length integers and typed serialisation,
framing and request/reply matching over two byte streams, connection lifetime, the work-stealing
thread pool and the deferred runner, the parser generator (its fixpoints and the dispatch it emits),
type strings, the k-way merge, and the log reordering buffer. `dafny verify dfyconfig.toml` checks all of it.

Code that updates objects in place is modelled by classes and methods whose contracts give the new
state as a function of the old one; the laws are lemmas about those functions, invariants over every
run, or methods that carry out an arbitrary run. Concurrency is modelled by step systems whose
atomic steps are the code's own lock regions or queue operations, so a theorem about a run holds for
every interleaving of any number of threads.

## Files

| file | what it models |
|---|---|
| Bytes.dfy | memory images of integers, little and big endian |
| SparseInt.dfy | the variable-length integer codec |
| Chunk.dfy, Marshal.dfy | raw blocks, windows on them, and the chain of windows of a buffer |
| Sharing.dfy | any run on a buffer, its bookmark and its socket, with any number of buffers that share its blocks |
| Wire.dfy, Serialize.dfy | the stream operators for integers, strings, pairs and containers |
| Framing.dfy, Sending.dfy | size-prefixed frames, and threads that write them under a lock |
| Server.dfy, Client.dfy | the two handle_read loops, dispatch, futures, begin/end of requests and replies |
| Protocol.dfy | whole runs of a client and a server over streams that deliver arbitrary fragments |
| Lifetime.dfy | reference counts of connections, deferred removal, reuse of descriptors |
| ThreadPool.dfy, Stealing.dfy, RunLater.dfy | the pool, what its workers take and in which order, and the deferred runner, including shutdown |
| Grammar.dfy, Nullability.dfy, FirstFollow.dfy, Least.dfy, Generator.dfy | grammars, derivations, and the two fixpoint loops, which find the least solution |
| ChoiceOutput.dfy | the emitted if/elif/else text of a choice |
| TypeString.dfy | printing type strings, taking them apart, and what read_obj makes of them |
| Merge.dfy, LogOrder.dfy | MergedEnumerator, and the reordering of log messages |

## What turned out false, and exactly when it holds

- An i64 whose shortest form takes eight bytes loses its low byte on the wire: `dump` stores nine bytes
  and reports eight (base/basetypes.cc:158-168), and the reader takes the ninth from whatever its buffer
  held (base/basetypes.cc:223-225). `SparseInt.WireRoundTrip64` shows that a value arrives intact,
  whatever that was, if and only if it is outside this band; `SparseInt.InsideBand` says what arrives inside it.
- A future can be both ready and timed out (rpc/client.cc:35-40): `Protocol.FlagsCollide` gives the run,
  and `Protocol.ReadyAndTimedOut` shows that it happens if and only if a timed wait ends with a time-out
  although the future is ready already.
- The branches emitted for a choice need not form a statement, because the loop over `testset` shortens the
  list it iterates over (pylib/yapps/parsetree.py:527-533): `ChoiceOutput.Malformed` gives the choice, and
  `ChoiceOutput.WellFormedStatement` the exact condition on the FIRST lists. Python still accepts the text if
  the stray else attaches itself to the statement at the end of the alternative before it, exactly in the
  case `ChoiceOutput.AcceptedText` describes; then both alternatives may run, so `ChoiceOutput.Selects` speaks
  of branches that form a statement.
- The queue of the deferred runner need not be empty when its worker has ended (base/threading.cc:198-203):
  `RunLaters.PillLeftOver` gives the run, and `RunLaters.PillLeft` shows that the death pill stays behind if and
  only if it was pushed after the worker had ended.
- A job that was accepted need not run: `run_later` tests should_stop_ first and pushes later
  (base/threading.cc:268-292). `RunLaters.JobsMissed` shows that every accepted job has run once in the end if and
  only if none was pushed after the worker had ended; `RunLaters.EveryJobOnce` that none can be if no submission
  was under way at the stop.
- A job that was accepted by the thread pool need not run either: `run_async` also tests before it pushes
  (base/threading.cc:92-105), and the destructor makes one pass over the queues (base/threading.cc:80-87).
  `ThreadPools.LostJob` gives the run, and `ThreadPools.JobsMissed` shows that every accepted job has run once in
  the end if and only if none was pushed to a queue that the destructor had passed.
- The worker of the deferred runner can wait on an empty queue after shutdown has begun
  (base/threading.cc:198-208, 238-242): `RunLaters.WaitsAfterStop` gives the run, and `RunLaters.WaitsOnEmpty`
  shows that it waits so if and only if its last try found the queue empty and since then nothing was pushed
  and nobody woke it. The pill ends it: `RunLaters.NeverStuck`.
- A FIRST list can hold tokens that begin no derivation of its node: what accepts the empty sequence takes over
  the tokens that may follow it (pylib/yapps/parsetree.py:344-657), wherever it is used. `Least.FirstExact` shows that
  nothing else is wrong with it: FIRST is exact for every node at whose front nothing accepts the empty sequence, and
  the lists are in any case the least that meet the equations (`Least.LeastSolution`).
- A map with a repeated key is not read alike by both peers: C++ inserts, so that the first entry counts (base/misc.h:58-61),
  and Python assigns, so that the last one does (pylib/simplerpc/marshal.py:157-166). `TypeStrings.FirstAndLast` shows that
  they agree if and only if the first and the last entry of every key have the same value.
- A reply whose xid is unknown to the client is not skipped: only its size, xid and code are taken off, and the
  loop goes on in its body (rpc/client.cc:188-191). `Protocol.LookAtReply` says what happens then, and `Protocol.Matching`
  that a server which answers each request once never lets it come to that.
- A Python peer cannot read back everything it can write: `read_obj` puts what it reads into sets and dicts
  (pylib/simplerpc/marshal.py:157-181), but lists, sets and dicts cannot be hashed. `TypeStrings.Unreadable` gives
  the value, and `TypeStrings.ReadsBack` shows that a value comes back if and only if no non-empty set or map has
  elements or keys of such a type; otherwise a TypeError is raised.

## Model

| member | source | states |
|---|---|---|
| `Marshals.Marshal.ContentSizeSlow` | rpc/marshal.cc:18-28 | walking the chain adds up to the number of unread bytes, which Valid() equates with content_size_ |
| `Marshals.Marshal.Write` | rpc/marshal.cc:30-57 | the bytes are appended on all three branches; at most the tail block changes, and none of its handed-out bytes; an outstanding bookmark stays intact |
| `Marshals.Marshal.Read` | rpc/marshal.cc:59-91 | the prefix of length min(n, size) is returned and removed |
| `Marshals.Marshal.Peek` | rpc/marshal.cc:93-114 | the same prefix, and nothing changes |
| `Marshals.Marshal.ReadFromFd` | rpc/marshal.cc:116-140 | exactly the bytes taken from the descriptor are appended, whatever it delivers per call, and the loop goes on until ::read gives nothing more |
| `Marshals.Marshal.ReadFromMarshal` | rpc/marshal.cc:142-201 | on both branches dst gains exactly the first n bytes of src and src loses exactly these; the chain invariants of both survive sharing |
| `Marshals.Marshal.ShareWindows` | rpc/marshal.cc:146-176 | the pointer-copying loop moves exactly n bytes, the last window truncated, and only the side with the last window of a block may go on writing it |
| `Marshals.Marshal.ReadByCopy` | rpc/marshal.cc:184-190 | the copying half fills the tail up with exactly the bytes it reads, even if the source shares blocks with this buffer |
| `Marshals.Marshal.Undisturbed` | rpc/marshal.cc:149-151 | what another buffer appends to a shared block, or changes where no window of this one looks, is never seen here |
| `Marshals.AllKept` | rpc/marshal.cc:149-151 | the same for any number of buffers |
| `Marshals.ReceiveBeside` | rpc/marshal.cc:116-140 | read_from_fd, down to the last byte there is, while any number of buffers share the blocks |
| `Marshals.Marshal.WriteToFd` | rpc/marshal.cc:204-226 | a prefix of the content moves to the descriptor, whatever it accepts per call, and the rest stays; something stays only if the last ::write took nothing |
| `Marshals.Marshal.SetBookmark` | rpc/marshal.cc:228-248 | n bytes are reserved behind the content, also across chunk boundaries: in new blocks, or in the last one behind everything that was handed out; each is seen through one window only |
| `Marshals.Marshal.WriteBookmark` | rpc/marshal.h:60-66 | exactly the reserved bytes are replaced, in the content and in the memory behind it |
| `Marshals.Marshal.MarkedKept` | rpc/marshal.h:60-66 | whatever is appended behind them, the reserved bytes stay where they are |
| `Marshals.FlattenUpdate` | rpc/marshal.h:60-66 | changing a byte of one window changes exactly that byte of the content |
| `Chunks.Chunk.Write` | rpc/buffer.h:91-104 | as much as fits is appended to the window, and no byte handed out before changes |
| `Chunks.Chunk.Read` | rpc/buffer.h:106-119 | the front of the window is returned and the window shrinks by it |
| `Chunks.Chunk.Discard` | rpc/buffer.h:133-143 | the front of the window is dropped |
| `Sharing.Family.Run` | rpc/marshal.cc:18-248 | any sequence of operations (write, read, peek, from and to the socket, counter, bookmark, splices into new buffers, taking over buffers written elsewhere, reads of any of them): each buffer holds and each call reports what separate byte strings would give |
| `Sharing.InOrder` | rpc/marshal.cc:18-248 | over any such run, what has left the buffer followed by what it still holds only grows at the end, bookmark bytes counting once they are filled in |
| `Sharing.Family.Receive` | rpc/marshal.cc:116-140 | filling the block behind the last window leaves every buffer that shares it as it is, and an outstanding bookmark in place |
| `Sharing.Family.Reserve` | rpc/marshal.cc:228-248 | the reserved bytes are seen by no buffer that shares the block |
| `Sharing.Family.Fill` | rpc/marshal.h:60-66 | filling them in changes these bytes of this buffer and nothing of any other |
| `Sharing.Family.Splice` | rpc/marshal.cc:146-176 | a splice out of the buffer is a move of its first n bytes, and both sides can go on |
| `Sharing.Family.Absorb` | rpc/marshal.cc:142-201 | a buffer that was written elsewhere moves over whole, also while a bookmark is outstanding |
| `SparseInt.Dump64` | base/basetypes.cc:101-182 | each branch stores the bytes of the format's definition, leaves the rest of the buffer alone and returns val_size |
| `SparseInt.Dump32` | base/basetypes.cc:60-99 | the i32 encoder stores the same bytes as the i64 encoder on every i32 |
| `SparseInt.Load64` | base/basetypes.cc:207-228 | the loop with sign extension computes the number the bytes denote |
| `SparseInt.Load32` | base/basetypes.cc:184-205 | the same for i32 |
| `SparseInt.AnnouncedSize` | base/basetypes.cc:8-58 | the first byte of an encoding announces val_size(v), the number of bytes sent |
| `SparseInt.RoundTrip64` | base/basetypes.cc:101-228 | loading what was stored gives v back, whatever follows in the buffer |
| `SparseInt.RoundTrip32` | base/basetypes.cc:60-205 | the same for every i32 |
| `SparseInt.InsideBand` | base/basetypes.cc:158-168 | in the 8-byte band a value survives exactly when the stray byte happens to be its low byte |
| `SparseInt.WireBand` | base/basetypes.cc:223-225 | in the 8-byte band what arrives is v with its low byte replaced by the stray byte |
| `SparseInt.WireRoundTrip64` | base/basetypes.cc:101-228 | v survives the wire, whatever the reader's buffer held, if and only if it is outside the 8-byte band |
| `SparseInt.WireForm` | base/basetypes.cc:101-182 | the bytes on the wire as one big-endian number: n - 1 ones and a zero, and then the 7n low bits of the value; 0xFE and the value without its low byte; 0xFF and the whole value |
| `SparseInt.LoadedForm` | base/basetypes.cc:207-228 | and back, for any nine bytes: the low 7n bits in two's complement, or the 64 bits behind the first byte |
| `SparseInt.SevenBits` | base/basetypes.cc:36-58 | the form has at most n bytes if and only if the value fits into 7n bits of two's complement, for n up to 8 |
| `Wire.GetV64` | rpc/marshal.h:242-251 | peek, then read: consumes exactly the announced bytes; the number is the one they denote, whatever the reader's buffer held, and in the 8-byte form that with some stray last byte |
| `Wire.GetV32` | rpc/marshal.h:231-240 | the same for v32 |
| `Wire.ArrivesIntact` | rpc/marshal.h:103-251 | an i64 outside the band arrives as it was sent, and announces its own length |
| `Bytes.LeDigit` | rpc/marshal.h:76-101 | byte k of a fixed-width integer is the one that counts 256^k |
| `Serialize.RoundTrip` | rpc/marshal.h:76-374 | for every nested type, decoding encode(x) ++ rest gives x and exactly rest |
| `Serialize.Layout` | rpc/marshal.h:76-209 | the layout by example: lengths and v64 big end first, integers of fixed width little end first, parts in order |
| `Serialize.SameMeaning` | rpc/marshal.h:171-209 | two values on the wire stand for the same value if and only if they differ at most in the order of sets and maps, and in repetitions within a set, at any depth |
| `Serialize.EnumerationOrder` | rpc/marshal.h:171-374 | two encodings are read as the same value if and only if they differ at most in that |
| `Serialize.AssembleEntries` | base/misc.h:58-61 | a map read entry by entry holds exactly the entries that were sent, if the keys are distinct |
| `Serialize.FirstWins` | base/misc.h:58-61 | of several entries with one key the first counts |
| `Serialize.Put` | rpc/marshal.h:76-209 | the operators append exactly the encoding, whatever the chunk boundaries, and count it |
| `Serialize.PutAll` | rpc/marshal.h:152-209 | the loop over a container appends the encodings of its elements in order |
| `Serialize.Get` | rpc/marshal.h:211-374 | the operators read what decoding says and leave what it leaves |
| `Serialize.GetAll` | rpc/marshal.h:296-374 | the loop that reads a container |
| `Framing.ParseFrames` | rpc/server.cc:300-331 | a run of frames followed by a piece of another parses to exactly these payloads and that piece |
| `Framing.ParseMore` | rpc/server.cc:300-331 | bytes that arrive later do not change what was complete before |
| `Framing.FragmentationIndependence` | rpc/server.cc:300-331 | for any split of the stream into arrivals the packet loops deliver the same payloads in the same order and keep only the unfinished frame |
| `Framing.FrameBytes` | rpc/client.cc:242-248 | byte k of the size prefix counts 256^k, and the payload follows |
| `Sending.Sender.Begin` | rpc/client.cc:208-240 | takes the lock and reserves the size prefix; a client that is not connected only takes the lock |
| `Sending.Sender.End` | rpc/client.cc:242-256 | the finished message becomes one whole frame le32(size) ++ payload of the stream, and write events are enabled |
| `Sending.Sender.HandleWrite` | rpc/server.cc:377-388 | moves bytes to the socket, until nothing is left or it takes no more, without changing the stream; write events stay enabled exactly as long as something is left, and no wake-up is lost; idle exactly when every finished frame has left |
| `Sending.Sender.OnlyFinished` | rpc/server.cc:273-298 | at any time, only bytes of finished frames have reached the socket, never an unpatched size |
| `Sending.RunSchedule` | rpc/client.cc:135-256 | under any schedule of any number of threads, the client being closed at any time, the stream is the frames of the finished messages in the order they were finished, and only bytes of messages that were finished while it was connected ever leave; and at every moment of it at which the lock is free, bytes to send are awaited by an event on its way or a full socket, although the poller reports changes only |
| `Sending.SentAlone` | rpc/client.cc:208-256 | no message of a thread is lost, reordered or mixed with that of another: each thread sends what it would have sent alone, had the client been closed at the same moment |
| `Servers.TakeSize` | rpc/server.cc:312-319 | the guard of the packet loop recognises exactly the complete packets and consumes their size |
| `Servers.TakeRequest` | rpc/server.cc:321-326 | the request's own buffer holds the body, the xid is the one sent, and the incoming bytes continue behind the packet |
| `Servers.TakeRequests` | rpc/server.cc:312-331 | one request per complete packet in the order of arrival, no two sharing a buffer |
| `Servers.Dispatch` | rpc/server.cc:337-374 | one round of the dispatch loop settles the request as `Servers.Routed` and `Servers.TooShort` say, with one error reply or none, and keeps the arguments in the request |
| `Servers.Routed` | rpc/server.cc:346-374 | a request for rpcId reaches the handler of exactly this id, with its xid and exactly its arguments, if and only if there is one; otherwise nothing is handed over and the one reply is the xid with ENOENT (2) |
| `Servers.TooShort` | rpc/server.cc:339-345 | a body of less than four bytes reaches no handler, and the one reply is the xid with EINVAL (22) |
| `Servers.RefusalsJoin` | rpc/server.cc:337-374 | the replies to two batches of requests are those to the first followed by those to the second |
| `Servers.SendError` | rpc/server.cc:273-298 | an error reply is one whole frame with the xid and the code, after which the lock is free and no wake-up is lost |
| `Servers.ServerConnection.HandleRead` | rpc/server.cc:300-375 | one wake-up takes what there is until ::read gives nothing more, dispatches every packet complete by then once and in order, answers the refused ones, keeps the rest buffered, and leaves the requests of earlier wake-ups, and the reply a handler is in the middle of, as they are; nothing happens once closed |
| `Servers.ServerConnection.HandleReads` | rpc/server.cc:300-375 | any number of wake-ups dispatch together what one would have dispatched had everything arrived at once, and afterwards every request still holds its arguments |
| `Clients.TakeReply` | rpc/client.cc:159-195 | one round: idle, or the future with that xid gets code and body, or the xid is unknown and the body is not skipped |
| `Clients.TakeReplies` | rpc/client.cc:159-195 | the loop completes exactly the futures of the sorted replies, each with a buffer of its own, and leaves exactly the others pending |
| `Clients.Client.HandleRead` | rpc/client.cc:149-196 | the whole of handle_read for any arrival, taken down to the last byte there is; replies of earlier wake-ups stay as they are |
| `Clients.NowDelivered` | rpc/client.cc:174-184 | the replies of one wake-up may be read while later ones are received |
| `Clients.Client.BeginRequest` | rpc/client.cc:208-240 | a connected client registers a fresh future under the next xid and starts a frame with xid and rpc id; any other only takes the lock |
| `Clients.Client.Close` | rpc/client.cc:69-96 | every pending future completes with ENOTCONN, once, and none is left; the poller forgets the connection |
| `Protocol.SortPiece` | rpc/client.cc:159-195 | on any piece of a run of replies to pending calls the packet loop completes the whole ones and stays on the frame boundary |
| `Protocol.LookAtReply` | rpc/client.cc:159-191 | a whole reply is recognised with its code and exactly its body if its xid is pending; otherwise size, xid and code are taken off and the body is left in place |
| `Protocol.ParsePiece` | rpc/server.cc:312-331 | on any piece of a run of frames the server's loop finds the next payloads and leaves what follows them |
| `Protocol.Safety` | rpc/client.cc:149-256 | the invariant of both streams, the ledger of requests, the books of calls and what futures say holds in every reachable state |
| `Protocol.Matching` | rpc/client.cc:149-196 | over whole runs each reply completes the future with its xid, with the code and body the server wrote; every call is pending, completed or failed, only one of these; a pending one has no code, or 110 if a wait for it timed out; the unknown-xid branch is never taken |
| `Protocol.CodeAfter` | rpc/client.cc:19-96 | in every state the invariant allows, a step changes the code of a call to that of the reply it completes with, to 107 when close invalidates it and to 110 when a timed wait gives up, and otherwise not at all; and it turns ready or timed out only by these |
| `Protocol.NothingLost` | rpc/server.cc:300-375 | when nothing is under way any more, no call of a connected client is left waiting |
| `Protocol.ServerReady` | rpc/server.cc:300-331 | in every reachable state everything buffered or under way is well formed and consists of requests, which is what the server's handle_read needs |
| `Protocol.ClientReady` | rpc/client.cc:149-196 | in every reachable state no arrival of any length looks malformed to a connected client, which is what its handle_read needs |
| `Protocol.HandleAllRefuses` | rpc/server.cc:337-374 | handling requests adds exactly their error replies to the replies, and exactly the xids of the others to those that await a handler |
| `Protocol.HandedAre` | rpc/server.cc:354-358 | an xid awaits a handler if and only if one of the requests carries it and is for a handler there is |
| `Protocol.ServerReads` | rpc/server.cc:300-375 | the server's handle_read, called in any state that meets the invariant, leaves buffer, stream and replies as the step of the system says |
| `Protocol.ClientReads` | rpc/client.cc:149-196 | the same for the client's handle_read; the futures it completes hold the replies that the step adds |
| `Protocol.LeftForGood` | rpc/client.cc:69-87 | a call leaves the pending ones only once |
| `Protocol.ReadyAndTimedOut` | rpc/client.cc:19-60 | a future is ready and timed out if and only if a timed wait ended with a time-out when the future was ready already |
| `Protocol.FlagsCollide` | rpc/client.cc:35-57 | a run in which both flags end up set |
| `Lifetime.ChecksPass` | rpc/polling.cc:204-289 | nothing that add, remove, update_mode or release verify can fail, also when a descriptor is reused |
| `Lifetime.Safety` | rpc/server.cc:394-423 | the invariant holds in every reachable state |
| `Lifetime.Lifetimes` | rpc/server.cc:261-270 | a connection's count is [in sconns_] + [closing] + [polled] + [to be removed] + handlers; it is deleted once, when all are gone; sconns_ctr_ counts those alive |
| `Lifetime.NothingLeaks` | rpc/server.cc:394-423 | once all connections are closed, the sweeps done and the handlers finished, every connection has been deleted and no descriptor is open or watched |
| `Lifetime.DescriptorReused` | rpc/polling.cc:160-198 | a run in which a descriptor is taken again before the sweep comes to its old connection; the new one stays watched |
| `Lifetime.SweepWatches` | rpc/polling.cc:160-198 | the sweep never stops the kernel from watching a descriptor that a polled connection uses |
| `Lifetime.PollThread.Remove` | rpc/polling.cc:258-277 | forgets the pollable but keeps its reference for the sweep |
| `ThreadPools.StealOrder` | base/threading.cc:114-128 | the shuffled stealing order is a permutation of the workers |
| `ThreadPools.StepAccounts` | base/threading.cc:92-180 | every step keeps accepted == handed over + queued + in hand + run, for every job |
| `ThreadPools.StepKeepsPills` | base/threading.h:147-157 | a pill is in its own queue or was taken by its own worker; nobody takes another's |
| `ThreadPools.NeverStuck` | base/threading.h:159-168 | a worker whose pill has been pushed never blocks in pop |
| `ThreadPools.TurnProgresses` | base/threading.cc:132-178 | every turn takes an entry, or brings the worker closer to taking one: a lexicographic measure |
| `ThreadPools.StepsEnd` | base/threading.cc:71-180 | however workers, submitting threads and the destructor are scheduled, they make only so many steps unless more is submitted |
| `ThreadPools.WorkersEnd` | base/threading.cc:71-79 | once all pills are out, turns only end when every worker has ended, so the join returns |
| `ThreadPools.NothingLeft` | base/threading.cc:71-105 | after the stop, steps only end when the destructor is done: all joined, all queues passed, no submission under way; and what ran is what run_async took if and only if no job was pushed to a queue already passed |
| `ThreadPools.JobsMissed` | base/threading.cc:71-105 | the same for every run in which the destructor is done and no submission is under way |
| `ThreadPools.EveryJobOnce` | base/threading.cc:71-90 | what ran is what run_async took, with the same multiplicities, if at some moment between the stop and the last pass no submission was under way |
| `ThreadPools.LostJob` | base/threading.cc:80-105 | a run in which an accepted job is pushed too late and never runs |
| `ThreadPools.ThreadPool.Seek` | base/threading.cc:132-165 | one round of the worker's switch, with the queue operations, is a turn of the system, whose choices `Stealing.OwnFirst`, `Stealing.FirstVictim` and `Stealing.NoVictim` spell out |
| `ThreadPools.ThreadPool.Accept` | base/threading.cc:92-102 | EPERM after the stop; otherwise the queue is the channel modulo n, or the next one in turn |
| `Stealing.NeverIdle` | base/threading.cc:132-165 | while any queue has a job in front, a worker that looks for one runs a job at most n + 5 turns of its own later, unless what it took was the pill in front of its own queue |
| `Stealing.OwnFirst` | base/threading.cc:133-141 | the front of its own queue comes first |
| `Stealing.FirstVictim` | base/threading.cc:145-157 | then the front job of the first queue in the stealing order that has one |
| `Stealing.NoVictim` | base/threading.cc:145-165 | and if none has one, its own queue again; it waits exactly if that is empty |
| `Stealing.WaitsAfterAll` | base/threading.cc:132-165 | whatever the other threads do in between, a worker comes from the start of its round to wait in pop in no less than n + 4 turns of its own, and when it takes no more it has looked into every queue in vain: its own was empty, and each other one empty or with a pill in front |
| `Stealing.FirstInFirstOut` | base/threading.h:128-168 | in every reachable state a queue holds the last entries that were pushed to it, in the order in which they were pushed |
| `ThreadPools.ThreadPool.DrainAll` | base/threading.cc:81-88 | the final pass, when nobody else pushes, empties every queue and runs every job that was left |
| `RunLaters.Safety` | base/threading.cc:210-292 | the invariant holds in every reachable state |
| `RunLaters.NeverEarlyNeverTwice` | base/threading.cc:210-292 | whatever runs was asked for by a call of run_later, more than the delay it gave ago; and nothing runs more often than there were calls for it |
| `RunLaters.AcceptedAre` | base/threading.cc:268-292 | what is accepted is exactly what the calls ask for: due at the time of the call, later by the delay if that is positive |
| `RunLaters.EarliestFirst` | base/threading.cc:213-228 | the job that runs has the earliest deadline of those queued |
| `RunLaters.WaitsOnEmpty` | base/threading.cc:197-248 | the worker waits on an empty queue if and only if its last try found it empty and since then nothing was pushed and nobody woke it |
| `RunLaters.WaitsAfterStop` | base/threading.cc:198-208 | a run in which it does so after the stop |
| `RunLaters.NeverStuck` | base/threading.cc:197-208 | once the pill has been pushed the worker never waits on an empty queue |
| `RunLaters.EveryJobOnce` | base/threading.cc:250-266 | if no submission was under way at the stop, the job of every call has run exactly once when the worker has ended |
| `RunLaters.TurnsEnd` | base/threading.cc:197-266 | once the pill is out and every deadline has passed, only so many steps are left, whatever submissions under way still push, and the worker can always go on until it has ended |
| `RunLaters.JobsMissed` | base/threading.cc:250-292 | in any run that has ended, every accepted job has run once if and only if no job was pushed after the end of the worker |
| `RunLaters.PillLeft` | base/threading.cc:198-203 | when the worker has ended, the pill is in the queue if and only if it was pushed after that |
| `RunLaters.PillLeftOver` | base/threading.cc:198-203 | a run that ends with the death pill in the queue |
| `RunLaters.RunLater.TryOneJob` | base/threading.cc:210-248 | the code of one try is a step of the system |
| `Nullability.Exact` | pylib/yapps/parsetree.py:226-232 | at a fixpoint the marks are exactly the nodes that derive the empty sequence, for arbitrary cyclic grammars |
| `Nullability.Complete` | pylib/yapps/parsetree.py:380-443 | once all equations hold every node with an empty derivation is marked |
| `Generators.Generator.CalculateEpsilon` | pylib/yapps/parsetree.py:226-232 | the first loop ends, and accepts_epsilon holds exactly for the nodes that derive the empty sequence |
| `Generators.Generator.AddTo` | pylib/yapps/parsetree.py:138-143 | the parent list gains exactly the missing elements, each counted as a change, and no list a node stands for is polluted |
| `Generators.Generator.Update` | pylib/yapps/parsetree.py:344-657 | a pass that counts no change has found every equation below the node true, and any pass adds only what the equations demand, so that the lists stay below every solution |
| `Generators.Generator.CalculateSets` | pylib/yapps/parsetree.py:234-239 | the second loop ends, also with the reset of Terminal.first, and all equations hold |
| `Generators.Generator.Calculate` | pylib/yapps/parsetree.py:222-239 | both loops end; the lists are the least solution of the equations; FIRST holds exactly the tokens that begin a derivation of the node unless something at its front accepts the empty sequence, and then these and more; FOLLOW holds every token that can come right after it in a derivation from a goal |
| `FirstFollow.FirstComplete` | pylib/yapps/parsetree.py:344-657 | FIRST is complete at a fixpoint |
| `FirstFollow.FollowComplete` | pylib/yapps/parsetree.py:344-657 | FOLLOW is complete at a fixpoint, for every occurrence of a node in a derivation |
| `Least.LeastSolution` | pylib/yapps/parsetree.py:234-239 | what is added only where an equation demands it is below every solution of the equations |
| `Least.FirstExact` | pylib/yapps/parsetree.py:344-657 | FIRST holds the tokens that begin derivations, and no other unless something at the front accepts the empty sequence |
| `Least.FollowExact` | pylib/yapps/parsetree.py:344-657 | FOLLOW holds only tokens that can begin what comes after the node, or after a node it is linked to through calls and ends of sequences, and all of these if nothing that comes after a node can be empty |
| `FirstFollow.LocateSplits` | pylib/yapps/parsetree.py:426-657 | the tokens counted as coming after an occurrence are those that follow it in the derived sequence |
| `ChoiceOutput.InTestMeaning` | pylib/yapps/parsetree.py:164-198 | a membership test, also in complement form, accepts the members and rejects the rest of `full` |
| `ChoiceOutput.Output` | pylib/yapps/parsetree.py:515-565 | the loops, with the list that shrinks while it is iterated over, emit the specified statement |
| `ChoiceOutput.Selects` | pylib/yapps/parsetree.py:515-565 | if the branches form a statement, then for every token it runs the first alternative whose FIRST holds it, or raises an error, rather than doing nothing, if there is none |
| `ChoiceOutput.WellFormedStatement` | pylib/yapps/parsetree.py:547-565 | the branches form a statement if and only if no alternative with two or more tokens follows one with an unconditional branch, and some alternative has a token if any is expected |
| `ChoiceOutput.AcceptedText` | pylib/yapps/parsetree.py:547-559 | Python accepts the whole text if and only if they do, or a single stray else follows a bare alternative that ends in a statement that takes one (while, for, try, or if without else) |
| `ChoiceOutput.DisjointIsFine` | pylib/yapps/parsetree.py:515-565 | disjoint FIRST lists never lead to such an alternative |
| `ChoiceOutput.Malformed` | pylib/yapps/parsetree.py:527-533 | a choice whose text is no statement |
| `ChoiceOutput.ParserChooses` | pylib/yapps/parsetree.py:515-565 | with the computed lists and disjoint alternatives, the emitted parser runs the alternative of the derivation on the next token, even if it derives nothing |
| `TypeStrings.TemplateSplit` | pylib/simplerpc/marshal.py:78-94 | the loop computes the specified split |
| `TypeStrings.SplitPrinted` | pylib/simplerpcgen/rpcgen.py:147-206 | splitting the inside of a printed type gives exactly its printed arguments, at any depth |
| `TypeStrings.MapText` | pylib/simplerpcgen/rpcgen.py:147-180 | the printed text of a map: prefixes, angle brackets, a comma and a blank between arguments |
| `TypeStrings.TypeOfPrinted` | pylib/simplerpc/marshal.py:97-187 | the dispatch on a printed type string finds the type that was printed |
| `TypeStrings.Keywords` | pylib/simplerpc/marshal.py:135-151 | i8, i16, i32 and i64 stand for integers of one, two, four and eight bytes, v32 and v64 for the variable-length ones, and string for strings |
| `TypeStrings.Containers` | pylib/simplerpc/marshal.py:152-181 | pair, map, unordered_map, vector, list, set and unordered_set of types that have a meaning have the expected one |
| `TypeStrings.PyReadObj` | pylib/simplerpc/marshal.py:135-187 | the loops of read_obj compute the specified outcome |
| `TypeStrings.ReadsEncoded` | pylib/simplerpc/marshal.py:135-187 | read_obj on any encoding: the object it stands for and exactly what follows, or a TypeError, with the exact condition |
| `TypeStrings.AsInC` | pylib/simplerpc/marshal.py:157-166 | unless a map has a key twice, Python reads what C++ reads |
| `TypeStrings.FirstAndLast` | pylib/simplerpc/marshal.py:157-166 | Python and C++ build the same map if and only if the first and the last entry of every key have the same value |
| `TypeStrings.ReadsBack` | pylib/simplerpc/marshal.py:97-187 | reading along a printed type undoes writing along it if and only if no non-empty set or map has elements or keys that cannot be hashed |
| `TypeStrings.Unreadable` | pylib/simplerpc/marshal.py:173-181 | a printed type and a value of it that can be written but not read back |
| `Merge.MergedEnumerator.Next` | base/basetypes.h:178-187 | returns the least of all that are still to come, and removes it once |
| `Merge.MergedEnumerator.Exhausted` | base/basetypes.h:175-177 | has_next is false exactly when all sources are exhausted |
| `Merge.MergeAll` | base/basetypes.h:154-188 | the merged sequence is sorted and has exactly the elements of all sources, with multiplicities |
| `LogOrder.LogKeeps` | rlog/log_service_impl.cc:34-45 | after every call there is a gap before what is buffered, and nothing is lost |
| `LogOrder.StaleIsPrinted` | rlog/log_service_impl.cc:41-45 | a stale id or id 0 is printed on arrival and changes nothing else |
| `LogOrder.PrintedInOrder` | rlog/log_service_impl.cc:24-47 | the printed ids are exactly 1 up to done, and every other id that has arrived is buffered |
| `LogOrder.AnyOrder` | rlog/log_service_impl.cc:24-47 | however 1 to N arrive, each once, the output is the pieces that arrived, in the order 1 to N |
| `LogOrder.LogCounts` | rlog/log_service_impl.cc:34-45 | a call loses no piece, except a second one for an id that is still buffered |
| `LogOrder.PrintReady` | rlog/log_service_impl.cc:41-45 | the loop computes the specified output |

## Left out

- UDP: UdpBuffer, UDP requests and the UDP connection, beyond framing.
- UnboundedBuffer: repeats Marshal line for line.
- Sockets, epoll and kqueue: a descriptor is an oracle that delivers or accepts any number of bytes per call.
- Storage: reference counts of raw blocks, destructors and `delete` of chunks; blocks are garbage collected here.
- Memory of a block: a field of the block rather than a separate array; `read` and `peek` return bytes instead of filling the caller's buffer.
- Malformed peers: negative sizes, non-canonical or oversized integers, a frame shorter than its header; excluded by preconditions where the code does not handle them.
- i32 overflow of write_cnt_, and the zero-length `write` that the code asserts against.
- Doubles: written as their memory image like an i64; their formatting and arithmetic are not modelled. Unsigned integers behave like signed ones of the same width.
- Handlers: a handler is where a request goes; what it computes is the reply it sends later, at most once per request.
- Taking bytes out of a buffer whose bookmark is outstanding: the lock that is held from begin to end rules it out.
- Servers.ServerConnection.HandleRead: a wake-up that has to send an error reply while a handler thread is in the middle of a reply waits for the output lock; the wait, and replies that come between two error replies of one wake-up, are not modelled.
- Finer races: begin_request is atomic with respect to close, and the destructor of Server, which loops over a snapshot of raw pointers, is not modelled.
- The callbacks of futures; and timed_wait stores its code in one step with the end of the wait.
- Priority queues: RunLater's is the sorted list of its entries, MergedEnumerator's an unordered list whose least element is searched for.
- Wall-clock arithmetic: deadlines are real numbers, and a timed wait may wake up at any time (the code's absolute time omits whole seconds, so it wakes up early and tries again).
- Several poll threads: a connection belongs to the one its descriptor selects, so one thread is modelled.
- Registered structs in type strings, and doubles there: the dispatch reports no type for them.
- Text under the branches of an emitted choice, except whether it ends in a statement that takes an else; the scanner, and the rest of the generated code.
- Statistics, logging, aggregate_qps, Python extension glue, generated services and benchmarks.
