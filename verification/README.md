# Verification of the servers, queues and pools

This project models the parts of the repository that carry invariants, in Dafny, and proves what they are
for. Each file follows one component; the classes have the fields and the loops of the C++ classes, and every
method is proved against a function on values, about which the lemmas are stated.

- **Reactor calculator** (`Text.dfy`, `ReactorProtocol.dfy`, `ReactorServer.dfy`, `ReactorMain.dfy`). The
  epoll event loop over a table of connections. For any number of rounds, any batches the kernel may report,
  any cuts in the input and any partial sends, each live client has been sent, or has pending, exactly the
  encoded answers to the complete messages it sent, and its in-buffer is the unfinished message. Write interest
  is on exactly while bytes are pending. The table, the epoll registrations and the open descriptors have the
  same keys, and each event acts on the connection that was registered when the wait returned.
- **Queues and pools shared by threads** (`Threads.dfy`, `Modular.dfy`, `RingQueue.dfy`, `BlockQueue.dfy`,
  `ThreadPool.dfy`, `Singleton.dfy`, `UdpServer.dfy`). Each is a step relation over any number of threads, one
  atomic statement a step, in any order. `ThreadPool.dfy` covers both thread pools, which differ in whether
  push signals after the unlock or before it. Condition waits may wake spuriously, a signal wakes any non-empty set
  of the waiters (POSIX.1-2017, System Interfaces, `pthread_cond_wait` and `pthread_cond_signal`), and a woken
  thread competes for the mutex with all others. A class per component executes the same statements on its
  fields, and its `Interleave` or `Start` method is proved to reach the state of the abstract run.
- **Length-prefixed frames** (`NetCal.dfy`). `Encode`, `Decode` with its unsigned subtraction narrowed to an
  `int`, and the service loop that takes at most one frame a read.
- **Process pool** (`ProcessPool.dfy`, `Descriptors.dfy`). Descriptor tables across `fork`, round-robin
  dispatch, and a shutdown whose waits all return.
- **Slot-table servers** (`SlotServers.dfy`). `poll` and `select` servers that change their table while they
  scan it.
- **Separator split** (`CutString.dfy`). `cutString` and exactly when it undoes a join.

Where something else than the obvious property is true, the exact condition is proved: received text is what
the client sent if and only if no byte is NUL; a stream of requests splits back if and only if no operator is
the separator `X`; a frame decodes if and only if its narrowed surplus is at least the payload length; the
blocking queue is free of deadlock if and only if its capacity is positive; `cutString` undoes a join if and
only if every piece closes at its own separator and the last one is not empty; joining its pieces loses a
separator if and only if the scan ends behind one at the end of the text; the calculator has a defined answer
if and only if a check on the operands holds.

Kernel answers are parameters. A handler gets the list of results its successive calls will see (data, end of
file, `EINTR`, other errors, how many bytes fit); when the list is used up, the next call would block. A new
descriptor is any number that is not in use.

## Model

| member | source | states |
|---|---|---|
| ReactorProtocol.SpliteMessage | Reactor/reactor/Protocol.hpp:25-41 | The loop appends exactly the complete messages of the buffer to `out` and leaves exactly the unfinished tail, for every buffer |
| ReactorProtocol.MessagesRebuild | Reactor/reactor/Protocol.hpp:25-47 | Every message closed by `X`, followed by the tail, is the input again; no message and no tail contains `X` |
| ReactorProtocol.SplitUnique | Reactor/reactor/Protocol.hpp:25-47 | Messages and tail are the only way to read a stream as closed separator-free messages and a separator-free rest (if and only if) |
| ReactorProtocol.FramedSplits | Reactor/reactor/Protocol.hpp:25-47 | Splitting encoded separator-free messages gives them back, whatever unfinished text follows |
| ReactorProtocol.SplitIncremental | Reactor/reactor/Protocol.hpp:25-41 | Splitting early and prefixing the tail to later input is splitting the whole at once |
| ReactorProtocol.ChunkingIsInvisible | Reactor/reactor/Protocol.hpp:25-41 | For any list of chunks, append-and-split after each chunk yields the messages and tail of one split of everything |
| ReactorProtocol.Request.Serialize | Reactor/reactor/Protocol.hpp:52-61 | The text of a request, built up field by field, is its printed form |
| ReactorProtocol.PrintedRequest | Reactor/reactor/Protocol.hpp:52-61 | The text holds, position by position, the first operand, a blank, the operator, a blank, the second operand, and nothing else |
| ReactorProtocol.Request.Deserialized | Reactor/reactor/Protocol.hpp:62-77 | Succeeds exactly if the text has a blank and then sets all three fields from it; on failure no field changes |
| ReactorProtocol.ParseRequestIs | Reactor/reactor/Protocol.hpp:62-77 | A text is a request if and only if it has a blank; the operands are the numbers before its first and behind its last blank, the operator is the character behind the first |
| ReactorProtocol.Response.Serialize | Reactor/reactor/Protocol.hpp:98-107 | The text of a response is its code, a blank and its result |
| ReactorProtocol.PrintedResponse | Reactor/reactor/Protocol.hpp:97-107 | The text holds the code, one blank and the result, and nothing else |
| ReactorProtocol.Response.Deserialized | Reactor/reactor/Protocol.hpp:109-117 | Succeeds exactly if the text has a blank and then sets both fields from it; on failure neither changes |
| ReactorProtocol.ParseResponseIs | Reactor/reactor/Protocol.hpp:109-117 | A text is a response if and only if it has a blank; code and result are the numbers before and behind the first one |
| ReactorProtocol.RequestRoundTrip | Reactor/reactor/Protocol.hpp:52-77 | Parsing a printed request restores it for all operands and every operator character, blank and minus included |
| ReactorProtocol.ResponseRoundTrip | Reactor/reactor/Protocol.hpp:97-117 | Parsing a printed response restores it |
| ReactorProtocol.RequestStream | Reactor/reactor/Protocol.hpp:25-61 | A stream of encoded requests splits back into them if and only if no operator is `X` |
| ReactorProtocol.ResponseStream | Reactor/reactor/Protocol.hpp:25-117 | A client that splits and parses a stream of encoded responses gets every one of them, in order |
| Text.AtoiToString | Reactor/reactor/Protocol.hpp:52-77 | `atoi` undoes `to_string` for every integer, whatever text that does not begin with a digit follows |
| Text.AtoiReads | Reactor/reactor/Protocol.hpp:70-71 | `atoi` skips blanks, takes at most one sign and reads the digits up to the first other character |
| Text.AtoiNothing | Reactor/reactor/Protocol.hpp:70-71 | Without digits there, `atoi` gives 0 |
| Text.ChunksSurvive | 10-23/NetCal/Protocol.hpp:173-178 | Chunks appended as C strings keep every byte if and only if none is NUL, and never add one |
| ReactorServer.OwedGrows | Reactor/reactor/TcpServer.hpp:184-191 | More input never changes an answer already owed; the new answers are those to the messages completed by the old tail and the new bytes |
| ReactorServer.ReadKeepsUpToDate | Reactor/reactor/TcpServer.hpp:177-191 | Appending bytes, splitting and answering keeps: sent bytes plus out-buffer are the answers to all complete messages received, in-buffer is the tail |
| ReactorServer.SendKeepsUpToDate | Reactor/reactor/TcpServer.hpp:194-204 | Handing any number of pending bytes to the kernel keeps the same |
| ReactorServer.SentStaysOwed | Reactor/reactor/TcpServer.hpp:143-192 | What was sent is always a prefix of what is owed, also when the read ends the connection |
| ReactorServer.ReadsAreFaithful | Reactor/reactor/TcpServer.hpp:151-182 | The text one receive loop keeps is all the bytes delivered if and only if none of them is NUL |
| ReactorServer.ReadIs | Reactor/reactor/TcpServer.hpp:151-182 | What a receive loop keeps is the text of all data before the first end of file, block or failure, interruptions passed over |
| ReactorServer.StaysOpenIff | Reactor/reactor/TcpServer.hpp:151-176 | The connection stays if and only if some recv would block and every one before it gave data or was interrupted |
| ReactorServer.SendIs | Reactor/reactor/TcpServer.hpp:196-218 | Of the pending bytes all go that the sends before the first refusal have room for; the connection ends if and only if there is such a refusal with bytes left, or none pending, that is neither a block nor an interruption |
| ReactorServer.AcceptIs | Reactor/reactor/TcpServer.hpp:102-132 | All clients accepted before the first failure other than an interruption join |
| ReactorServer.EventSends | Reactor/reactor/TcpServer.hpp:251-266 | A writeable, failed or hung-up connection that survives its reads sends at least what its first send has room for |
| ReactorServer.EventDrains | Reactor/reactor/TcpServer.hpp:194-224 | It sends everything owed if the sends before the first refusal have room for it |
| ReactorServer.EventReceives | Reactor/reactor/TcpServer.hpp:251-261 | A readable, failed or hung-up connection receives all data before the first end of file or failure; without readiness nothing is received and nothing sent |
| ReactorServer.TcpServer.constructor | Reactor/reactor/TcpServer.hpp:65-80 | The table holds the listening connection only, registered for reading, with nothing received or sent |
| ReactorServer.TcpServer.AddConnection | Reactor/reactor/TcpServer.hpp:82-96 | A fresh connection with empty buffers is registered for reading and entered under its descriptor; nothing else in either table changes |
| ReactorServer.TcpServer.Excepter | Reactor/reactor/TcpServer.hpp:226-241 | Table, epoll registration and open descriptor go together; nothing happens if the connection is gone already |
| ReactorServer.TcpServer.Accepter | Reactor/reactor/TcpServer.hpp:98-133 | Every waiting client up to the first real failure gets a fresh connection under an unused descriptor; existing entries stay and the invariant holds |
| ReactorServer.TcpServer.AcceptOne | Reactor/reactor/TcpServer.hpp:123-131 | Whatever unused descriptor the kernel picks, one entry is added, fresh and registered for reading, and the invariant holds |
| ReactorServer.TcpServer.ReceiveAll | Reactor/reactor/TcpServer.hpp:151-182 | The loop keeps the text of every chunk up to the point where reading would block, retries on `EINTR`, and removes the connection if and only if an end of file or another failure comes before that point |
| ReactorServer.TcpServer.SplitAndServe | Reactor/reactor/TcpServer.hpp:184-191 | All complete messages are answered in order into the out-buffer, the tail stays, and write interest is on exactly if bytes are pending |
| ReactorServer.TcpServer.Callback | Reactor/reactor/main.cc:37-57 | The encoded answer is appended and write interest switched on, or nothing at all happens when there is no answer |
| ReactorServer.TcpServer.Recver | Reactor/reactor/TcpServer.hpp:143-192 | The connection has received exactly the delivered bytes, is in the table afterwards if and only if some recv would block before an end of file or another failure, and the invariant of every connection holds again |
| ReactorServer.TcpServer.SendAll | Reactor/reactor/TcpServer.hpp:196-218 | The bytes taken by any schedule of partial sends leave the front of the out-buffer in order; a fatal error removes the connection |
| ReactorServer.TcpServer.DispatchRead | Reactor/reactor/TcpServer.hpp:251-261 | A client that `epoll` reports readable, failed or hung up is read, and no other; it leaves the table exactly if the read ended it |
| ReactorServer.TcpServer.DispatchWrite | Reactor/reactor/TcpServer.hpp:251-266 | A client that `epoll` reports writeable, failed or hung up is sent to, unless the read removed it, and no other; it leaves the table exactly if the send ended it |
| ReactorServer.TcpServer.Sender | Reactor/reactor/TcpServer.hpp:194-224 | All pending bytes go that the sends before the first refusal have room for, the connection stays unless that refusal is fatal, and write interest is on exactly if bytes are still pending |
| ReactorServer.TcpServer.DispatchEvent | Reactor/reactor/TcpServer.hpp:246-267 | One event acts on its own connection only: by its three read flags it receives all that is there, by its three write flags it sends all there is room for, if the connection has survived the read |
| ReactorServer.BatchStep | Reactor/reactor/TcpServer.hpp:246-267 | One more event with a descriptor of its own extends the batch effect: earlier events keep their effect and unreported connections stay as they were |
| ReactorServer.TcpServer.LoopOnce | Reactor/reactor/TcpServer.hpp:243-268 | Every event of a batch has its effect on the connection registered when the wait returned, even if a descriptor is closed and given to a new client in between; connections without an event are untouched; the new table is the surviving connections and, untouched, exactly as many new clients as a reported listener had waiting |
| ReactorServer.TcpServer.Dispather | Reactor/reactor/TcpServer.hpp:281-289 | The run is a chain of rounds, each with the effect of its batch. After any number of them, for each live client: sent bytes plus out-buffer are the encoded answers to all complete messages received, the in-buffer is the unfinished one, read interest is on, write interest is on if and only if the out-buffer is not empty, and the received text is the raw bytes if and only if they hold no NUL |
| ReactorServer.ReportedIsDispatched | Reactor/reactor/TcpServer.hpp:243-289 | In every round the batch the kernel reports, of distinct registered descriptors, is the one dispatched |
| ReactorServer.EveryRound | Reactor/reactor/TcpServer.hpp:143-289 | In every round of every run, what was sent on a connection, ended ones included, is a prefix of the answers to what had been received on it |
| ReactorMain.DivisionTruncates | Reactor/reactor/main.cc:19-30 | Quotient and remainder rebuild the dividend, and the remainder has its sign and is smaller than the divisor |
| ReactorMain.DivisionFits | Reactor/reactor/main.cc:19-30 | For 32-bit operands the quotient fits 32 bits if and only if they are not the smallest integer and -1 |
| ReactorMain.DefinedIff | Reactor/reactor/main.cc:8-31 | A check on the two operands, one case per operator, holds if and only if C++ defines the result, which is then the mathematical one and fits an int |
| ReactorMain.Undefined | Reactor/reactor/main.cc:8-30 | The largest int plus 1, and the smallest int divided by -1 or its remainder, have no result |
| ReactorMain.calculator | Reactor/reactor/main.cc:4-35 | For every request whose result C++ defines: code 1 if and only if `/` by 0, 2 if and only if `%` by 0, 3 if and only if the operator is unknown, with result 0; otherwise the result obeys the law of its operator and is an int |
| ReactorMain.LawfulIff | Reactor/reactor/main.cc:4-35 | The laws of the codes and operators have exactly one solution |
| ReactorMain.NetCal | Reactor/reactor/main.cc:37-48 | A message that does not parse has no answer; any other whose result is defined is answered with the printed result |
| ReactorMain.AnswerIs | Reactor/reactor/main.cc:37-48 | A message has an answer if and only if it has a blank, and the answer reads back as the lawful result of the request it parses to |
| ReactorMain.UnparsableIsSilent | Reactor/reactor/main.cc:41-42 | A message without a blank adds nothing to the output, wherever it comes |
| ReactorMain.AnswerSettledIff | Reactor/reactor/main.cc:37-57 | The answer to a request is settled by the code if and only if its result is defined |
| ReactorMain.AnswersToRequests | Reactor/reactor/main.cc:37-57 | The answers to a list of printed requests with defined results are the encoded results, in order |
| ReactorMain.CalculatorEndToEnd | Reactor/reactor/main.cc:4-57 | The output for a stream of requests with defined results and without operator `X` splits and parses into the lawful int result of each request, with nothing left over |
| ReactorMain.StreamPrefix | Reactor/reactor/Protocol.hpp:25-61 | The beginning of a request stream, cut anywhere, splits into the first requests and an unfinished one |
| ReactorMain.RunCalculator | Reactor/reactor/main.cc:59-65 | From the fresh server on, whatever batches are reported: a live client whose bytes so far begin an encoded stream of requests with defined results (operators neither `X` nor NUL) has been sent, or has pending, exactly the encoded results of its complete requests in order, whatever an overflow of another client is answered with |
| RingQueueModel.StepKeepsInv | importent-code/RingQueue/RingQueue.hpp:31-50 | Every statement of every thread stays inside the ring and keeps: the two token counts, one holder a mutex, both indices equal to the access counts modulo the size, unread slots holding what was written |
| RingQueueModel.OccupiedKept | importent-code/RingQueue/RingQueue.hpp:31-50 | Items written and not read are conserved: data tokens plus producers that wrote and did not post plus consumers that claimed and did not read |
| RingQueueModel.FreeKept | importent-code/RingQueue/RingQueue.hpp:31-50 | Free slots are conserved: space tokens plus producers that claimed and did not write plus consumers that read and did not free |
| RingQueueModel.ContentsKept | importent-code/RingQueue/RingQueue.hpp:35-46 | No slot is overwritten before it is read |
| RingQueueModel.RefinesBoundedFifo | importent-code/RingQueue/RingQueue.hpp:31-50 | The write appends to a queue that is not full, the read takes the front of one that is not empty, and no other statement changes the queue |
| RingQueueModel.SlotsDisjoint | importent-code/RingQueue/RingQueue.hpp:33-47 | A producer about to write and a consumer about to read, under different mutexes, never touch the same slot |
| RingQueueModel.ItemNotStranded | importent-code/RingQueue/RingQueue.hpp:31-50 | While an item is queued and there is a consumer, some thread can step that is not just about to begin another push |
| RingQueueModel.SlotNotStranded | importent-code/RingQueue/RingQueue.hpp:31-50 | While a slot is free and there is a producer, some thread can step that is not just about to begin another pop |
| RingQueueModel.DeadlockFree | importent-code/RingQueue/RingQueue.hpp:31-50 | With a producer and a consumer some thread can always step |
| RingQueueModel.PushAlone | importent-code/RingQueue/RingQueue.hpp:31-40 | A push that finds a free slot and is not disturbed appends its item in six statements |
| RingQueueModel.PopAlone | importent-code/RingQueue/RingQueue.hpp:41-50 | A pop that finds an item and is not disturbed takes the front one in six statements |
| RingQueueModel.ItemKept | importent-code/RingQueue/RingQueue.hpp:31-35 | The item a push began with is the one it writes: no other thread and no later statement changes it |
| RingQueueModel.EveryRun | importent-code/RingQueue/RingQueue.hpp:15-50 | In every run of any threads: the values read are a prefix of the values written, never more than the capacity waits, concurrent slots differ, and nobody is deadlocked |
| RingQueueModel.RingQueue.constructor | importent-code/RingQueue/RingQueue.hpp:15-25 | An empty ring with all space tokens and no data token |
| RingQueueModel.RingQueue.Push | importent-code/RingQueue/RingQueue.hpp:31-40 | The next statement of push changes the fields exactly as the step relation says; a thread that would block stays |
| RingQueueModel.RingQueue.Pop | importent-code/RingQueue/RingQueue.hpp:41-50 | Likewise for pop, which hands out exactly the value the read takes |
| RingQueueModel.RingQueue.Interleave | importent-code/RingQueue/RingQueue.hpp:11-60 | Any interleaving of pushes and pops on the object reaches the state of the abstract run, and the invariant holds |
| BlockQueueModel.StepKeepsInv | importent-code/BlockQueue/BlockQueue.hpp:22-43 | Every statement, signal and spurious wakeup keeps mutual exclusion, FIFO contents within the capacity, and both wakeup invariants |
| BlockQueueModel.PushKeepsItemsCovered | importent-code/BlockQueue/BlockQueue.hpp:22-32 | While a consumer waits, each queued item has a thread that will take it or wake somebody who will |
| BlockQueueModel.PopKeepsPlacesCovered | importent-code/BlockQueue/BlockQueue.hpp:33-43 | While a producer waits, each free place has a thread that will fill it or wake somebody who will |
| BlockQueueModel.NoLostWakeup | importent-code/BlockQueue/BlockQueue.hpp:22-43 | When the mutex is free: a waiting consumer means no more items than woken consumers, a waiting producer no more free places than woken producers |
| BlockQueueModel.ItemNotStranded | importent-code/BlockQueue/BlockQueue.hpp:22-43 | While an item is queued and there is a consumer, some thread can step that is not just about to begin another push, without any spurious wakeup |
| BlockQueueModel.PlaceNotStranded | importent-code/BlockQueue/BlockQueue.hpp:22-43 | While a place is free and there is a producer, some thread can step that is not just about to begin another pop, without any spurious wakeup |
| BlockQueueModel.DeadlockFree | importent-code/BlockQueue/BlockQueue.hpp:22-43 | With capacity at least one, a producer and a consumer, some thread can always step, without any spurious wakeup |
| BlockQueueModel.NoRoomDeadlocks | importent-code/BlockQueue/BlockQueue.hpp:22-43 | With capacity zero there is a run after which every thread waits |
| BlockQueueModel.DeadlockFreeIffRoom | importent-code/BlockQueue/BlockQueue.hpp:16-43 | All runs are free of deadlock if and only if the capacity is positive |
| BlockQueueModel.PushedIsHandedIn | importent-code/BlockQueue/BlockQueue.hpp:22-32 | The items queued are those the pushes hand in, in the order in which they get to their insertion |
| BlockQueueModel.PushAlone | importent-code/BlockQueue/BlockQueue.hpp:22-32 | A push that finds the mutex free and room for its item, and is not disturbed, appends it in five statements |
| BlockQueueModel.PopAlone | importent-code/BlockQueue/BlockQueue.hpp:33-43 | A pop that finds the mutex free and an item, and is not disturbed, takes the front one in five statements |
| BlockQueueModel.EveryRun | importent-code/BlockQueue/BlockQueue.hpp:16-43 | In every run items leave in the order they came, none lost or doubled, never more than the capacity, and no wakeup is lost |
| Threads.Woken | importent-code/BlockQueue/BlockQueue.hpp:31-42 | A signal wakes only waiters, and at least one if there is any |
| BlockQueueModel.BlockQueue.constructor | importent-code/BlockQueue/BlockQueue.hpp:16-21 | An empty queue with a free mutex |
| BlockQueueModel.BlockQueue.Push | importent-code/BlockQueue/BlockQueue.hpp:22-32 | The next statement of push changes the fields exactly as the step relation says |
| BlockQueueModel.BlockQueue.Pop | importent-code/BlockQueue/BlockQueue.hpp:33-43 | Likewise for pop, which hands out the front item |
| BlockQueueModel.BlockQueue.Interleave | importent-code/BlockQueue/BlockQueue.hpp:12-64 | Any interleaving on the object reaches the state of the abstract run |
| ThreadPoolModel.StepKeepsInv | importent-code/PthreadPool/threadpool.hpp:45-80 | Every statement and spurious wakeup, with the signal after the unlock or before it, keeps mutual exclusion, FIFO order, each worker with its own task, and every queued task covered by a woken worker or a signal still to come |
| ThreadPoolModel.WorkerKeepsOwnTask | importent-code/PthreadPool/threadpool.hpp:52-60 | What a worker runs is the task it took last |
| ThreadPoolModel.NoLostWakeup | importent-code/PthreadPool/threadpool.hpp:45-75 | With the mutex free and a worker waiting, there are no more queued tasks than woken workers and pushers between unlock and signal |
| ThreadPoolModel.TaskNotStranded | importent-code/PthreadPool/threadpool.hpp:45-75 | While a task is queued, some thread can step that is not just about to begin another push |
| ThreadPoolModel.ProgressUsesWork | importent-code/PthreadPool/threadpool.hpp:45-80 | Every such step strictly decreases a measure of the work left |
| ThreadPoolModel.QueueDrains | 10-16/ThreadPool/threadPool.hpp:84-110 | In a pool with a worker, under every schedule that begins no new push, spurious wakeups or none, and wherever push signals: the queue has been empty, or at most a bounded number of statements were executed and some thread can execute another |
| ThreadPoolModel.PushedIsHandedIn | importent-code/PthreadPool/threadpool.hpp:69-75 | The tasks queued are those the pushes hand in, in the order in which they get to their insertion |
| ThreadPoolModel.PushAlone | importent-code/PthreadPool/threadpool.hpp:69-75 | A push that finds the mutex free, and is not disturbed, appends its task in four statements, wherever it signals |
| ThreadPoolModel.TaskAlone | importent-code/PthreadPool/threadpool.hpp:50-61 | A worker that finds the mutex free and a task, and is not disturbed, takes and runs the front one in five statements |
| ThreadPoolModel.EveryRun | importent-code/PthreadPool/threadpool.hpp:36-80 | In every run the tasks taken followed by those still queued are the tasks pushed, in order, no wakeup is lost, and no queued task is stranded |
| ThreadPoolModel.ThreadPool.constructor | importent-code/PthreadPool/threadpool.hpp:35-39 | An empty queue with a free mutex |
| ThreadPoolModel.ThreadPool.Routine | importent-code/PthreadPool/threadpool.hpp:45-62 | The next statement of a worker changes the fields exactly as the step relation says |
| ThreadPoolModel.ThreadPool.Push | importent-code/PthreadPool/threadpool.hpp:69-75 | Likewise for push, which signals after it has unlocked, or before it, as `pushtask` of `10-16/ThreadPool/threadPool.hpp` does (lines 104-110) |
| ThreadPoolModel.ThreadPool.Interleave | importent-code/PthreadPool/threadpool.hpp:11-86 | Any interleaving on the object reaches the state of the abstract run |
| SingletonModel.StepKeepsInv | 10-16/ThreadPool/threadPool.hpp:54-69 | Every statement of every caller keeps: one holder of the lock, at most one pool built, and every answer equal to the pointer |
| SingletonModel.PointerStays | 10-16/ThreadPool/threadPool.hpp:54-69 | Once set, the pointer never changes |
| SingletonModel.OnePoolForAll | 10-16/ThreadPool/threadPool.hpp:54-69 | For any number of callers coming any number of times, at most one pool is ever built and any two calls, finished at any time, return it |
| SingletonModel.CallReturns | 10-16/ThreadPool/threadPool.hpp:54-69 | A caller that runs alone has the pool, an existing one if there is one, within seven statements |
| SingletonModel.NeverStuck | 10-16/ThreadPool/threadPool.hpp:54-69 | Some caller can always step |
| SingletonModel.PoolHolder.constructor | 10-16/ThreadPool/threadPool.hpp:54-69 | No pool, a free lock, and every caller before its first test |
| SingletonModel.PoolHolder.GetThreadPool | 10-16/ThreadPool/threadPool.hpp:54-69 | The next statement changes the fields as the step relation says; a call that returns gives the one pool that was built |
| UdpServerModel.StepKeepsInv | importent-code/UdpSocket/UdpServer.hpp:99-155 | Every statement of either thread keeps the ring invariant, the link between datagrams, ring contents, table and copies, and the mutex |
| UdpServerModel.PushLinked | importent-code/UdpSocket/RingQueue.hpp:42-53 | Each statement of the ring's push keeps the lines in the order of the datagrams |
| UdpServerModel.PopLinked | importent-code/UdpSocket/RingQueue.hpp:55-63 | Each statement of the ring's pop keeps the link between lines read and copies of the table |
| UdpServerModel.RecvTables | importent-code/UdpSocket/UdpServer.hpp:99-130 | The table is always the one built from the datagrams entered so far, one by one; copies stay |
| UdpServerModel.CastTables | importent-code/UdpSocket/UdpServer.hpp:132-147 | The copy of the table made for line k is the table of that moment, with the sender of line k in it; older copies stay |
| UdpServerModel.BroadcastOrder | importent-code/UdpSocket/UdpServer.hpp:106-155 | In every interleaving line k sent is that of datagram k received, and goes to exactly the table of the datagrams entered when the copy for it was made, which are more than k and never fewer than for an earlier line |
| UdpServerModel.TableOf | importent-code/UdpSocket/UdpServer.hpp:99-104 | The table holds exactly the senders of the datagrams entered, each with the address of one of them |
| UdpServerModel.EverySenderHears | importent-code/UdpSocket/UdpServer.hpp:106-155 | Line k is sent to the very address of each sender of lines 0 to k |
| UdpServerModel.ReceivedIsDelivered | importent-code/UdpSocket/UdpServer.hpp:111-128 | Every non-empty datagram that recvfrom delivers is received, in order, under its own name and line, and nothing else |
| UdpServerModel.LineParts | importent-code/UdpSocket/UdpServer.hpp:120-128 | From a line one reads back the address and the port of its sender and the text up to its first NUL |
| UdpServerModel.ReceiveAlone | importent-code/UdpSocket/UdpServer.hpp:106-130 | A datagram that finds room in the ring and nobody in the way has its line in the ring and its sender in the table after ten statements |
| UdpServerModel.BroadcastAlone | importent-code/UdpSocket/UdpServer.hpp:132-155 | A line in the ring, with nobody in the way, is sent after ten statements to everybody in the table of that moment |
| UdpServerModel.NameInjective | importent-code/UdpSocket/UdpServer.hpp:120-123 | The table name determines the client, as addresses hold no minus sign |
| UdpServerModel.UdpServer.constructor | importent-code/UdpSocket/UdpServer.hpp:31-39 | An empty table and ring, and both threads at the start of their loops |
| UdpServerModel.UdpServer.Recv | importent-code/UdpSocket/UdpServer.hpp:106-130 | The next statement of the receiving thread, inside the ring's push included, changes the fields exactly as the step relation says |
| UdpServerModel.UdpServer.Boardcast | importent-code/UdpSocket/UdpServer.hpp:132-155 | Likewise for the broadcasting thread |
| UdpServerModel.UdpServer.Start | importent-code/UdpSocket/UdpServer.hpp:48-76 | Any interleaving of the two threads on the object reaches the state of the abstract run |
| NetCal.Decode | 10-23/NetCal/Protocol.hpp:201-219 | The returned text and the remaining buffer, with the narrowed subtraction and the clipped `erase` and `substr` |
| NetCal.FrameShape | 10-23/NetCal/Protocol.hpp:224-231 | A frame is the decimal length, a separator, the payload and a separator, position by position |
| NetCal.DecodeIff | 10-23/NetCal/Protocol.hpp:201-231 | A frame followed by anything decodes to its payload and leaves the rest if and only if the length of payload and rest, narrowed to an int, is at least the payload length; otherwise nothing changes |
| NetCal.DecodeEncoded | 10-23/NetCal/Protocol.hpp:201-231 | So the round trip holds whenever payload and rest together fit an int, separators in the payload included |
| NetCal.DecodePartial | 10-23/NetCal/Protocol.hpp:201-231 | Every strict prefix of a frame decodes to nothing and stays in the buffer, also where the unsigned subtraction wraps |
| NetCal.DecodeNext | 10-23/NetCal/Protocol.hpp:201-231 | On the beginning of a stream of frames, however long the stream or the buffer, one decode takes the next frame if and only if it is complete and its narrowed surplus is at least its length; the latter always holds in a buffer whose size fits an int |
| NetCal.DecodeAny | 10-23/NetCal/Protocol.hpp:201-219 | For any buffer with a separator and a length of at least 0 before it, frame or not: nothing happens if fewer bytes are there than asked for, otherwise exactly the payload and its four bytes of separators and the length go |
| NetCal.DecodeNegative | 10-23/NetCal/Protocol.hpp:201-219 | A negative length takes all the rest for the payload; the buffer is emptied, except that after -2 and -1 the bytes are still there, but for one after -1 |
| NetCal.Conservation | 10-23/NetCal/CalServer.cc:49-59 | For streams and buffers of any length and any cuts: the frames taken are the first ones sent, at most one a read, and re-encoded they make up, with the buffer, all bytes received |
| NetCal.PackagesInOrder | 10-23/NetCal/CalServer.cc:49-59 | After any reads of any sizes, the packages taken are the non-empty payloads among the first k sent, k at most the number of reads, and the buffer holds the bytes after them |
| NetCal.EveryReadTakes | 10-23/NetCal/CalServer.cc:52-59 | Every read takes a frame if and only if with its bytes the next one is complete, its narrowed surplus permitting |
| NetCal.FramePerRead | 10-23/NetCal/CalServer.cc:49-59 | When each read brings one frame, every one is taken at once |
| NetCal.Calculator | 10-23/NetCal/CalServer.cc:49-78 | The loop sends one frame with the answer for each non-empty package it decodes, in order, until a read returns nothing |
| NetCal.AnswerDecodes | 10-23/NetCal/CalServer.cc:72-76 | Each of them decodes to the answer, with anything behind it |
| NetCal.ServiceAnswersInOrder | 10-23/NetCal/CalClient.cc:48-58 | Both ends: the client frames its payloads, the server reads them in any cuts and answers, the client reads the answers back in any cuts; what it has decoded are the non-empty answers to the first non-empty payloads it sent, in order |
| ProcessPool.Pool.CreateProcesses | 10-1/processpool/processpoll.cc:66-114 | For any number of children: no child holds a write end of any pipe, child i reads pipe i on descriptor 0, and the parent holds exactly one write end per child besides its own descriptors |
| ProcessPool.Pool.CreateOne | 10-1/processpool/processpoll.cc:71-113 | One pipe and fork, with whatever unused descriptors, keeps all that for one child more |
| ProcessPool.Pool.ChildTable | 10-1/processpool/processpoll.cc:80-101 | The child's table is the parent's without the earlier write ends and its own, with descriptor 0 on the pipe |
| ProcessPool.Pool.CtrlProcess | 10-1/processpool/processpoll.cc:128-153 | Pipe j receives exactly its share of the valid commands before the first 3, in order |
| ProcessPool.SelectedIs | 10-1/processpool/processpoll.cc:133-140 | A command is sent if and only if it is 0 to 2 and no 3 was typed before it |
| ProcessPool.Pool.Deal | 10-1/processpool/processpoll.cc:142-149 | The next command goes to the end of the pipe whose turn it is and to no other |
| ProcessPool.Pool.WaitPid | 10-1/processpool/processpoll.cc:165-165 | Called only when nobody can write to the child's pipe any more, it returns with that child gone and all its commands executed |
| ProcessPool.Pool.WaitCommand | 10-1/processpool/processpoll.cc:44-64 | The child executes, in order, the commands in its pipe that have a function |
| ProcessPool.ExecutableIs | 10-1/processpool/task.hpp:46-49 | Of a list of commands exactly 0, 1 and 2 have a function, each as often as it stands there and in order |
| ProcessPool.Pool.WaitProcess | 10-1/processpool/processpoll.cc:155-174 | After each close the pipe has no writer left, so the child sees end of file and the wait returns; in the end all children have exited and the parent's table is what it was |
| ProcessPool.RunPool | 10-1/processpool/processpoll.cc:179-191 | Whatever is typed, every child exits having executed exactly its share, and no descriptor of the pool is left |
| ProcessPool.ShareAt | 10-1/processpool/processpoll.cc:142-145 | Command k of child j is command k*n + j of those sent, and the number of its commands |
| ProcessPool.SharesPartition | 10-1/processpool/processpoll.cc:142-145 | The shares of all children together are the commands sent, each exactly once |
| SlotTable.ScanKeepsValid | 11-4/pollServer/pollServer.hpp:72-154 | After a pass slot 0 is still the listener and live descriptors are pairwise distinct |
| SlotTable.ScanIs | 11-4/pollServer/pollServer.hpp:72-154 | Slot by slot: a ready client whose recv returns nothing leaves, the client accepted on a ready listener takes the first free slot, and nothing else changes |
| SlotTable.SomebodySits | 11-4/pollServer/pollServer.hpp:105-121 | An accepted client is seated if and only if some slot is free, and in one slot only |
| SlotTable.ReadsWereReady | 11-4/pollServer/pollServer.hpp:72-90 | A pass reads, in ascending order and once each, exactly the slots that held a descriptor reported ready when the wait returned, never the listener and never a connection accepted in the pass |
| SlotTable.VisitStep | 11-4/selectServer/selectServer.hpp:90-108 | One round on the table being changed does what the whole pass, decided in advance, does to that slot |
| SlotTable.EveryTableValid | 11-4/pollServer/pollServer.hpp:41-61 | After any number of waits of any outcome the table is valid |
| SlotTable.EveryReadReported | 11-4/pollServer/pollServer.hpp:41-90 | Over any run, the pass after wait k reads exactly the clients that wait k reported ready in their slots; never the listener, never a client accepted in that pass |
| SlotTable.EveryPassTable | 11-4/pollServer/pollServer.hpp:41-154 | Over any run, the table after wait k, slot by slot: ready clients at their end leave, a client accepted on a ready listener takes the first free slot, and nothing else changes |
| PollServerModel.PollServer.constructor | 11-4/pollServer/pollServer.hpp:22-39 | The table holds the listener in slot 0 and nothing else |
| PollServerModel.PollServer.Poll | 11-4/pollServer/pollServer.hpp:46-46 | Descriptors and interest stay; a slot is reported exactly if it holds a ready, non-negative descriptor |
| PollServerModel.PollServer.Accepter | 11-4/pollServer/pollServer.hpp:91-122 | A new connection is in the first free slot from 1 on, or nowhere if there is none, and every other slot is as before; readiness reports are unchanged |
| PollServerModel.PollServer.Recver | 11-4/pollServer/pollServer.hpp:123-154 | The slot is read once and freed exactly if recv returns nothing or fails |
| PollServerModel.PollServer.HandleSlot | 11-4/pollServer/pollServer.hpp:74-89 | One round on the current table: empty and idle slots are passed over, the listener accepts, a client is read |
| PollServerModel.PollServer.HandlerEvent | 11-4/pollServer/pollServer.hpp:72-90 | The loop over the changing table has the effect and the reads of the pass decided at the moment poll returned, and keeps the table valid |
| PollServerModel.PollServer.PollOnce | 11-4/pollServer/pollServer.hpp:46-59 | One wait and its pass have the effect of one report on the table |
| PollServerModel.PollServer.Start | 11-4/pollServer/pollServer.hpp:41-61 | Over any waits, time-outs and errors included, the loop makes exactly the table and the reads that those lemmas speak of, and input is awaited exactly on the descriptors in the table |
| SelectServerModel.SelectServer.constructor | 11-4/selectServer/selectServer.hpp:21-31 | The table holds the listener in slot 0 and nothing else |
| SelectServerModel.SelectServer.Rebuild | 11-4/selectServer/selectServer.hpp:51-62 | The set holds exactly the descriptors of the table, and maxfd is the largest of them |
| SelectServerModel.SelectServer.Accepter | 11-4/selectServer/selectServer.hpp:109-142 | A new connection is in the first free slot from 1 on, or nowhere if there is none, and every other slot is as before |
| SelectServerModel.SelectServer.Recver | 11-4/selectServer/selectServer.hpp:143-172 | The slot is read once and freed exactly if recv returns nothing or fails |
| SelectServerModel.SelectServer.HandleSlot | 11-4/selectServer/selectServer.hpp:92-107 | One round on the current table, its descriptor looked up in the set |
| SelectServerModel.StillReady | 11-4/selectServer/selectServer.hpp:90-108 | Looking up a slot's current descriptor in the set gives the answer for the one it held when select returned |
| SelectServerModel.SelectServer.HandlerEvent | 11-4/selectServer/selectServer.hpp:90-108 | The loop over the changing table has the effect and the reads of the pass decided at the moment select returned, and keeps the table valid |
| SelectServerModel.SelectServer.SelectOnce | 11-4/selectServer/selectServer.hpp:49-79 | The set rebuilt, one wait and its pass have the effect of one report on the table |
| SelectServerModel.SelectServer.Start | 11-4/selectServer/selectServer.hpp:33-81 | Over any waits the loop makes exactly the table and the reads that those lemmas speak of |
| CutString.cutString | 10-25/Util.hpp:10-26 | The loop ends and appends exactly the pieces between the separators |
| CutString.PiecesSepFree | 10-25/Util.hpp:10-26 | No piece contains the separator |
| CutString.JoinPieces | 10-25/Util.hpp:10-26 | Joining the pieces gives the text back, without its last separator exactly when the scan ends behind a separator that ends the text |
| CutString.ScanEndOneCharacter | 10-25/Util.hpp:13-24 | For a one-character separator that is exactly when the text ends with it |
| CutString.SplitJoinIff | 10-25/Util.hpp:10-26 | Splitting a join returns the pieces if and only if each closes at its own separator and the last is non-empty and without separator |
| CutString.SplitJoinOneCharacter | 10-25/Util.hpp:10-26 | For a one-character separator: if and only if no piece contains it and the last is not empty |

## Left out

Behaviour the model does not have:

- Sockets, bind, listen, address conversion, `fcntl`, daemon setup, logging and pools of `Thread` objects: calls without logic of their own. `epoll_ctl` is taken to succeed, as the source asserts.
- A receive or send loop that never gets `EAGAIN`: a handler call sees finitely many results.
- The rest of `Sender` after a fatal send (`Reactor/reactor/TcpServer.hpp:220-223`) and the log line of `Recver` after a close (line 183), which use a deleted connection: the handler ends at the exception callback.
- Messages that were buffered but not split when a connection ends are dropped by the source (`Reactor/reactor/TcpServer.hpp:169-184`); the end-to-end results are about live connections, and for ended ones only say that what was sent was owed.
- `_lasttimestamp` and `ConnectAliveCheck` (empty in the source), and the removal of the listening socket.
- Fairness, real time and weak memory: steps are sequentially consistent.
- Negative capacities of `BlockQueue`, which the source compares as unsigned numbers, and a `RingQueue` of size zero, which divides by zero.
- The results of `sendto` and of `Send` (`10-23/NetCal/Protocol.hpp:190-195`), which the source ignores; a sent line or answer counts as sent.
- `calculatorHelper` and the JSON texts of `10-23/NetCal`: the payload and its answer are opaque strings, so an answer computed from the uninitialised fields of a request that does not parse is one of them. jsoncpp is not part of this model.
- Children that die early, partial reads of a 4-byte command, and a terminal whose input ends (the source would repeat command 0): the typed input is a list that ends like a 3. Pools of no children divide by zero in `ctrlProcess`, so there is at least one; standard input is open.
- Descriptors that do not fit an `fd_set`, `DebugPrint`, and the contents of what the slot-table servers read, which they only log.
- Shells, demos, the HTTP handler around `cutString`, the MySQL programs and the earlier copies of the same components in other directories.

Contracts that say less than the C++ types would need:

- Text.AtoiToString: `atoi` is on unbounded integers; beyond 32 bits C++ leaves it undefined, and `Defined` excludes requests with such operands.
- ReactorMain.RunCalculator: an undefined operation, also one of another client, may be answered in any way, but is taken not to end the process.
- ReactorServer.TcpServer.AddConnection: the descriptor must not be in the table, as accept guarantees, so that the source's `insert` always inserts.
- ReactorServer.TcpServer.Recver: chunks may be longer than the 1023 bytes the source's buffer takes at a time.
- NetCal.DecodeIff: payloads longer than an int are excluded, because their printed length overflows `atoi`; so they are in DecodeNext and Conservation.
- CutString.cutString: the separator must not be empty, for the source never leaves the loop on an empty one.
- UdpServerModel.EverySenderHears: addresses hold no minus sign, as dotted addresses never do.
