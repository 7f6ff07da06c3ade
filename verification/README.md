# The Redis dictionary proxy and its reactor, verified

This project models the proxy and the reactor library under it, and proves what they promise. Each module follows
one source file, in that file's own form: objects whose methods update their fields are classes, loops are loops,
and both are proved against specification functions.

- `DancingLinks`, `ExactCover`, `MatrixBuild`, `Sudoku`, `SudokuMatrix`, `BoardMatrix`, `SudokuSolver`: the
  dancing-links solver. Nodes live in one array with index links. A ghost layout says which row and column each node
  belongs to, and a view says which nodes are linked now; `Rep` ties the links to them. Covering is specified by the
  list of nodes it unlinks, so uncovering is that list undone backwards. An abstract exact cover sits above the
  links, moves and needs above that, and Sudoku on top.
- `Md5Spec`, `Md5Facts`, `Md5`: the digest of RFC 1321, what it comes down to bit by bit and byte by byte, and the
  incremental one with its buffer and split counter.
- `TimerQueue`, `EventLoop`: state machines over their atomic steps, with the heap of timers and the other threads
  as part of the state.
- `Buffer`, `Chunks`, `Framing`, `Adler32`, `ProtobufCodec`, `LengthHeaderCodec`, `HttpRequest`, `HttpServer`: the
  byte path. A codec is a function that says what stands in front of a stream; whatever does not change when more bytes arrive
  makes delivery independent of how the network cuts the stream.
- `TcpConnection`: the sending side, with tasks that other threads post to the loop.
- `Channel`, `EPollPoller`, `PollPoller`: the two pollers, with the interest set of the kernel.
- `Bits`, `Hiredis`, `ProxyServer`: the connection pool and the routing of replies.
- `BoundedQueue`, `Jenkins`, `LogStream`: the bounded blocking queue, the three paths of the Jenkins hash, and
  integer formatting.

Some promises turned out not to hold everywhere. The code is modelled as it is; a member shows a case that fails, and
the contract of the operation says exactly when it holds:

- A cancel that the loop executes before the insertion of its timer has no effect (`TimerQueue.CancelTooEarly`;
  `TimerQueue.CancelExactly` says that it takes effect exactly when the insertion is not still queued).
- A functor the loop thread queues before `loop` starts waits for the first poll to return
  (`EventLoop.Loop.QueuedBeforeLoop`, for every such functor; `EventLoop.Run` promises a wakeup for every queue that
  holds any other).
- A quit stored before `loop` starts is cleared (`EventLoop.Loop.QuitBeforeLoop`; `EventLoop.QuitNext` says that only
  that loses a quit, and `EventLoop.Loop.Leave` that a running loop is always left).
- A message another thread sends can be overtaken by a shutdown on the loop thread and is then never written, and a
  shutdown posted before a close shuts the write side over a backlog (`TcpConnection.Connection.Overtaken`,
  `TcpConnection.Connection.ShutOverBacklog`; `TcpConnection.ShutOverExactly` says exactly when). Neither happens while
  only the loop thread takes part (`TcpConnection.Connection.Run`).
- A shutdown by another thread that has passed its check when the connection is closed makes it disconnecting again
  (`TcpConnection.Connection.RevivedByShutdown`; `TcpConnection.Connection.DoSetDisconnecting` says exactly when it
  does).
- A request line that fails after a known method leaves the parser in a state it asserts against, while the
  connection still reads (`HttpServer.StuckAfterFailure`; `HttpServer.FailureKeepsMethod` and
  `HttpServer.HttpContext.ParseRequest` say for which lines).
- A channel of the poll poller that was disabled and is enabled again is never looked at
  (`PollPoller.PollPoller.EnabledAgain`; `PollPoller.LookedAtExactly` says which channels are), and one of the epoll
  poller that is disabled twice is registered again (`EPollPoller.EPollPoller.DisabledTwice`).
- A client of the proxy that has several commands on their way gets the first reply and no other, because its
  connection is shut down after it (`ProxyServer.FirstRepliesOnce`).

What the environment is assumed to do: the kernel takes at most what it is offered and nothing after the write side
is shut down, `epoll_wait` and `poll` report only what they were asked about, hiredis answers each accepted command
at most once, goes down only on a busy connection, and the Protobuf library decodes what it encoded (a hypothesis of
the round-trip lemmas). Clocks, answers of system calls, hash values of keys and schedules are parameters.

## Model

| member | source | states |
|---|---|---|
| SudokuSolver.SolveSudoku | 3thPartLibary/muduo/examples/sudoku/sudoku.cc:259-287 | For every 81-character puzzle the answer is NoSolution exactly when no grid completes the puzzle, or, said of the characters alone, when no text is a solution; otherwise it is such a text |
| SudokuSolver.SearchBoard | 3thPartLibary/muduo/examples/sudoku/sudoku.cc:273-285 | The search of one board is sound and complete, and leaves the board alone when it finds nothing |
| SudokuSolver.Solver.Solve | 3thPartLibary/muduo/examples/sudoku/sudoku.cc:91-129 | Recursive search over the linked matrix: a failed call restores every link, size, the stack and the board, and proves that no exact cover of the live columns exists; a successful one leaves on the stack the rows of an exact cover and writes them to the board |
| SudokuSolver.Solver.Cover | 3thPartLibary/muduo/examples/sudoku/sudoku.cc:214-225 | The nested loops unlink the column head and every other node of every row of the column, in the order of the column walk, as computed by the reference unlinking |
| SudokuSolver.Solver.Uncover | 3thPartLibary/muduo/examples/sudoku/sudoku.cc:227-238 | The reversed loops undo it: every node is exactly what it was before cover |
| SudokuSolver.Solver.CoverOthers | 3thPartLibary/muduo/examples/sudoku/sudoku.cc:115-118 | Choosing a row covers the columns of all its other nodes |
| SudokuSolver.Solver.UncoverOthers | 3thPartLibary/muduo/examples/sudoku/sudoku.cc:123-125 | Dropping the row uncovers them in reverse and restores the matrix exactly |
| SudokuSolver.Solver.HideNode | 3thPartLibary/muduo/examples/sudoku/sudoku.cc:220-222 | One node leaves its column and the size drops, as in the reference step |
| SudokuSolver.Solver.UnhideNode | 3thPartLibary/muduo/examples/sudoku/sudoku.cc:231-233 | One node comes back and the size grows, as in the reference step |
| SudokuSolver.Solver.GetMinColumn | 3thPartLibary/muduo/examples/sudoku/sudoku.cc:197-212 | The column returned is live and has at most one row, or has the fewest rows of all live columns |
| SudokuSolver.Solver.ReadMove | 3thPartLibary/muduo/examples/sudoku/sudoku.cc:98-104 | Walking a row from any of its four nodes yields the cell and the digit of its move |
| SudokuSolver.Solver.WriteSolution | 3thPartLibary/muduo/examples/sudoku/sudoku.cc:94-108 | The moves on the stack are written to the board, and nothing else |
| SudokuSolver.Solver.NewColumn | 3thPartLibary/muduo/examples/sudoku/sudoku.cc:140-152 | A fresh node linked to itself; the pool grows by one |
| SudokuSolver.Solver.PutLeft | 3thPartLibary/muduo/examples/sudoku/sudoku.cc:240-246 | The four assignments are insertion before a node in the horizontal ring |
| SudokuSolver.Solver.PutUp | 3thPartLibary/muduo/examples/sudoku/sudoku.cc:248-256 | The same in the vertical ring, and the size of the column grows by one |
| SudokuSolver.Solver.AppendColumn | 3thPartLibary/muduo/examples/sudoku/sudoku.cc:154-161 | The new column head is linked last before the root and entered in the table; the matrix stays well formed |
| SudokuSolver.Solver.NewRow | 3thPartLibary/muduo/examples/sudoku/sudoku.cc:163-180 | A new node is linked at the foot of its column; the matrix stays well formed |
| SudokuSolver.Solver.AddMove | 3thPartLibary/muduo/examples/sudoku/sudoku.cc:78-84 | Four nodes make one row, one for each of the four needs of the move, and the rows so far encode exactly the allowed moves so far |
| SudokuSolver.Solver.AppendColumns | 3thPartLibary/muduo/examples/sudoku/sudoku.cc:53-68 | There is a column for exactly the empty cells and the digits missing in each row, column and box, in at most 1 + 81 * 4 nodes |
| SudokuSolver.Solver.AppendDigit | 3thPartLibary/muduo/examples/sudoku/sudoku.cc:61-66 | One digit of one unit gets its column exactly when it is missing there |
| SudokuSolver.Solver.AppendRows | 3thPartLibary/muduo/examples/sudoku/sudoku.cc:70-88 | There is a row for exactly the moves the givens allow |
| SudokuSolver.Solver.constructor | 3thPartLibary/muduo/examples/sudoku/sudoku.cc:29-89 | The matrix built is well formed and complete, encodes the board, and never needs more than MAX_NODES nodes |
| SudokuSolver.MarkGivens | 3thPartLibary/muduo/examples/sudoku/sudoku.cc:39-51 | The three tables hold exactly the digits given in each row, column and box |
| SudokuSolver.FoundSolves | 3thPartLibary/muduo/examples/sudoku/sudoku.cc:91-110 | An exact cover of the encoded matrix, written back, is a solution of the board |
| SudokuSolver.NotFoundSolves | 3thPartLibary/muduo/examples/sudoku/sudoku.cc:91-129 | A board whose encoded matrix has no exact cover has no solution |
| SudokuSolver.SolutionIs | 3thPartLibary/muduo/examples/sudoku/sudoku.cc:273-285 | A grid completes the puzzle exactly when its text is 81 digits from 1 to 9 that agree with the givens and of which no two in one row, column or box are equal, said of the characters alone |
| DancingLinks.RingWithout | 3thPartLibary/muduo/examples/sudoku/sudoku.cc:216-217 | Unlinking a node other than the first leaves a circular doubly linked list of the others, in order |
| DancingLinks.RelinkUndoesUnlink | 3thPartLibary/muduo/examples/sudoku/sudoku.cc:236-237 | Relinking an unlinked node gives back every node exactly |
| DancingLinks.HideKeepsRep | 3thPartLibary/muduo/examples/sudoku/sudoku.cc:220-222 | Hiding one node keeps the whole matrix well formed: all rows, heads, columns and sizes |
| DancingLinks.UnhideUndoesHide | 3thPartLibary/muduo/examples/sudoku/sudoku.cc:231-233 | Unhiding restores every link and size |
| DancingLinks.HideAllKeepsRep | 3thPartLibary/muduo/examples/sudoku/sudoku.cc:218-224 | So does hiding any list of distinct nodes that are still linked |
| DancingLinks.UnhideLast | 3thPartLibary/muduo/examples/sudoku/sudoku.cc:229-235 | The last node hidden can be unhidden first, which is why the reversed loops work |
| DancingLinks.CoverKeepsRep | 3thPartLibary/muduo/examples/sudoku/sudoku.cc:214-225 | Covering a column keeps the matrix well formed and complete: the live rows are again exactly those all of whose columns are live |
| DancingLinks.CoverTrail | 3thPartLibary/muduo/examples/sudoku/sudoku.cc:218-219 | The nodes cover visits are distinct, still linked and outside the covered column |
| ExactCover.AddRow | 3thPartLibary/muduo/examples/sudoku/sudoku.cc:114-119 | An exact cover of the columns left after choosing a row becomes one of all columns with that row |
| ExactCover.RemoveRow | 3thPartLibary/muduo/examples/sudoku/sudoku.cc:112-119 | And an exact cover with that row becomes one of the columns left without it |
| ExactCover.CoverChoosesRow | 3thPartLibary/muduo/examples/sudoku/sudoku.cc:112-126 | Every exact cover contains a row of any live column, so branching on one column loses nothing |
| ExactCover.CoverEachKeepsRep | 3thPartLibary/muduo/examples/sudoku/sudoku.cc:116-118 | Covering the other columns of a row in turn keeps the matrix well formed and complete |
| MatrixBuild.PutBeforeRing | 3thPartLibary/muduo/examples/sudoku/sudoku.cc:240-246 | Insertion before the head of a ring appends the node to the list |
| MatrixBuild.PushHeadKeepsRep | 3thPartLibary/muduo/examples/sudoku/sudoku.cc:154-161 | Adding a column head keeps the matrix well formed |
| MatrixBuild.PushDataKeepsRep | 3thPartLibary/muduo/examples/sudoku/sudoku.cc:163-180 | Adding a node to a column keeps it well formed |
| MatrixBuild.JoinKeepsRep | 3thPartLibary/muduo/examples/sudoku/sudoku.cc:82-84 | Joining four lone nodes into a row keeps it well formed |
| Sudoku.CoverSolves | 3thPartLibary/muduo/examples/sudoku/sudoku.cc:94-109 | A set of allowed moves that meets every need exactly once fills the board to a solution |
| Sudoku.SolutionCovers | 3thPartLibary/muduo/examples/sudoku/sudoku.cc:53-88 | Every solution is such a set of moves |
| SudokuMatrix.ExactIsMoveCover | 3thPartLibary/muduo/examples/sudoku/sudoku.cc:70-88 | An exact cover of the linked matrix is a set of moves that meets every need exactly once |
| SudokuMatrix.MoveIsExactCover | 3thPartLibary/muduo/examples/sudoku/sudoku.cc:70-88 | And every such set of moves is an exact cover |
| SudokuMatrix.WriteBackFills | 3thPartLibary/muduo/examples/sudoku/sudoku.cc:94-108 | Writing the moves of the stack back fills exactly the empty cells with their digits |
| BoardMatrix.AllNeeded | 3thPartLibary/muduo/examples/sudoku/sudoku.cc:53-68 | After all columns are appended the table holds exactly the needs of the board |
| Md5.DigestPieces | ProxyServer/HashKit/md5.c:181-279 | For every message and every way of cutting it into updates the digest is that of the whole message by RFC 1321, sections 3.1 to 3.5 |
| Md5.Context.Update | ProxyServer/HashKit/md5.c:193-227 | The context afterwards stands for the old message followed by the new bytes: chaining words, buffered tail and counters |
| Md5.Context.Final | ProxyServer/HashKit/md5.c:229-279 | The result is the RFC 1321 digest of everything fed in, and the context is wiped |
| Md5.Context.Pad | ProxyServer/HashKit/md5.c:234-247 | Both padding cases: the tail, the bit 1 and zeros, in one block or two |
| Md5.Context.Finish | ProxyServer/HashKit/md5.c:221-226 | Whole blocks are compressed and the rest is kept, so that the context is valid again |
| Md5.Context.Body | ProxyServer/HashKit/md5.c:73-179 | Compressing a run of blocks chains the RFC 1321 compression over them |
| Md5.Context.Transform | ProxyServer/HashKit/md5.c:88-168 | The 64 unrolled steps and the final additions are the four rounds of section 3.4 |
| Md5.Context.Count | ProxyServer/HashKit/md5.c:199-203 | The split 29-bit and 32-bit counter goes on standing for the byte count modulo 2^61 |
| Md5.Context.Wipe | ProxyServer/HashKit/md5.c:278-278 | The chaining words, the buffer and the counters are zero |
| Md5.Context.constructor | ProxyServer/HashKit/md5.c:181-191 | A fresh context stands for the empty message |
| Md5.CounterAdds | ProxyServer/HashKit/md5.c:199-203 | Adding any size to the split counter, with its carry and its high part, adds it modulo 2^61 |
| Md5.CounterBytes | ProxyServer/HashKit/md5.c:249-257 | The eight bytes written at the end are the message length in bits modulo 2^64, low byte first |
| Md5.FastFIsF | ProxyServer/HashKit/md5.c:32-32 | The optimised F is that of RFC 1321 |
| Md5.FastGIsG | ProxyServer/HashKit/md5.c:33-33 | The optimised G is that of RFC 1321 |
| Md5.StepIsOperation | ProxyServer/HashKit/md5.c:40-43 | One STEP is the operation of section 3.4 |
| Md5.Round1 | ProxyServer/HashKit/md5.c:94-109 | Sixteen unrolled steps with their word order, shifts and constants are round 1 |
| Md5.Round2 | ProxyServer/HashKit/md5.c:112-127 | The same for round 2 |
| Md5.Round3 | ProxyServer/HashKit/md5.c:130-145 | The same for round 3 |
| Md5.Round4 | ProxyServer/HashKit/md5.c:148-163 | The same for round 4 |
| Md5.LastBlocks | ProxyServer/HashKit/md5.c:229-259 | Compressing the block or blocks that padding makes, after the blocks already compressed, is compressing the padded message |
| Md5.Signature | ProxyServer/HashKit/md5.c:285-293 | The signature of a key is its digest |
| Md5.HashMd5 | ProxyServer/HashKit/md5.c:295-306 | The hash is the first chaining word of the digest: its bytes, low first, are the first four of the digest |
| Md5Spec.PaddedWhole | ProxyServer/HashKit/md5.c:234-259 | A padded message is a whole number of blocks |
| Md5Spec.BlocksConcat | ProxyServer/HashKit/md5.c:87-171 | Compression of a concatenation continues where compression of the first part ended |
| Md5Facts.RotateMoves | ProxyServer/HashKit/md5.c:42-42 | The rotation moves bit i to bit i + s modulo 32, for every word, amount and bit |
| Md5Facts.FTable | ProxyServer/HashKit/md5.c:32-32 | F by its truth table |
| Md5Facts.GTable | ProxyServer/HashKit/md5.c:33-33 | G by its truth table |
| Md5Facts.HTable | ProxyServer/HashKit/md5.c:34-34 | H by its truth table |
| Md5Facts.ITable | ProxyServer/HashKit/md5.c:35-35 | I by its truth table |
| Md5Facts.WordOfBytes | ProxyServer/HashKit/md5.c:45-66 | A word is read from four bytes, the low one first |
| Md5Facts.InitBytes | ProxyServer/HashKit/md5.c:183-186 | The first chaining words are the bytes of section 3.3 |
| Md5Facts.PaddedExactly | ProxyServer/HashKit/md5.c:234-259 | The padded message is the message, 0x80, zeros and the bit length in eight bytes, in the fewest whole blocks |
| Md5Facts.LengthByte | ProxyServer/HashKit/md5.c:249-257 | Each byte of the length is that digit of the number of bits in base 256 |
| Md5Facts.DigestOfAbc | ProxyServer/HashKit/md5.c:181-279 | A known answer of RFC 1321, A.5: the digest of abc |
| TimerQueue.Run | 3thPartLibary/muduo/muduo/net/TimerQueue.cc:117-289 | Every run of adds, cancels, queued functors and expiries, with callbacks that add and cancel, has a history: one snapshot of the queue before and after each event, from the empty queue to the queue as it then is, each snapshot sound with both indexes of one size, and each event having exactly its effect on the snapshot before |
| TimerQueue.NeverAgain | 3thPartLibary/muduo/muduo/net/TimerQueue.cc:117-289 | In every history, a timer that is cancelled at some moment is in no batch that runs later |
| TimerQueue.CancelledNeverRuns | 3thPartLibary/muduo/muduo/net/TimerQueue.cc:150-194 | In every history, a cancel executed for an id that was given out, and whose insertion is not still queued, keeps its timer from every later batch |
| TimerQueue.CancelledInCallback | 3thPartLibary/muduo/muduo/net/TimerQueue.cc:150-194 | The same for a cancel inside a callback of a firing, at any moment of the firing, also for a timer made by an earlier callback of that firing |
| TimerQueue.CancelExactly | 3thPartLibary/muduo/muduo/net/TimerQueue.cc:130-170 | A cancel takes effect exactly when the id was given out and its insertion is not still queued; while it is, nothing at all changes |
| TimerQueue.FiredAfter | 3thPartLibary/muduo/muduo/net/TimerQueue.cc:172-259 | What a firing amounts to: exactly the timers due run, in order, none of them cancelled before; of these a timer is queued again, an interval later, exactly if it repeats and no callback of the batch cancelled it; of the other queued timers one stays exactly if no callback cancelled it; queued insertions stay queued |
| TimerQueue.HappenedExactly | 3thPartLibary/muduo/muduo/net/TimerQueue.cc:117-289 | In every history, what each event does, in terms of its fields: a timer made has its expiration, repeat flag and interval, an insertion is done when its functor runs, and a firing runs exactly the timers due, each once, in order |
| TimerQueue.Ordered | 3thPartLibary/muduo/muduo/net/TimerQueue.cc:261-289 | In every history, at every moment, the queue is ordered by expiration and, at one expiration, by address |
| TimerQueue.ProgressActed | 3thPartLibary/muduo/muduo/net/TimerQueue.cc:117-170 | Through every action of a callback, what the batch has cancelled so far is exactly what is noted, or freed, or gone |
| TimerQueue.RestoredBatch | 3thPartLibary/muduo/muduo/net/TimerQueue.cc:225-246 | Putting a batch back queues the repeating timers that were not noted, frees the others, and changes nothing else |
| TimerQueue.Queue.HandleRead | 3thPartLibary/muduo/muduo/net/TimerQueue.cc:172-194 | One expiry takes the queue through its moments, one callback and one action after another, to the restored batch, and amounts to the above, whatever the callbacks do |
| TimerQueue.Queue.RunBatch | 3thPartLibary/muduo/muduo/net/TimerQueue.cc:184-190 | The callbacks of the batch run in order on timers that stay alive, although they may add and cancel; there is a chain of moments, one for each call and each action, with exactly its effect; and what was cancelled is noted |
| TimerQueue.Queue.Callback | 3thPartLibary/muduo/muduo/net/TimerQueue.cc:117-170 | The actions of one callback take effect one after another, which extends the chain of moments, and what they cancelled is noted |
| TimerQueue.Queue.Reset | 3thPartLibary/muduo/muduo/net/TimerQueue.cc:225-259 | The timers of the batch are put back or freed as the recursion over the batch says, and the timerfd is armed in time again |
| TimerQueue.Queue.RestoreHead | 3thPartLibary/muduo/muduo/net/TimerQueue.cc:230-246 | A repeating timer that was not cancelled goes back with its new expiration, any other is freed once, with the invariants kept |
| TimerQueue.Queue.BeginRead | 3thPartLibary/muduo/muduo/net/TimerQueue.cc:172-182 | The timers due leave both indexes and become the batch, nothing is noted as cancelled, and the invariants hold |
| TimerQueue.Queue.GetExpired | 3thPartLibary/muduo/muduo/net/TimerQueue.cc:197-223 | The batch is the prefix of timers due by now; it leaves both indexes |
| TimerQueue.Queue.CancelInLoop | 3thPartLibary/muduo/muduo/net/TimerQueue.cc:150-170 | The whole new state after a cancel: a queued timer leaves both indexes and is freed, any other id is noted while callbacks run and changes nothing else, even at a reused address |
| TimerQueue.Queue.AddTimerInLoop | 3thPartLibary/muduo/muduo/net/TimerQueue.cc:137-148 | The timer enters both indexes at its place and nothing else changes, and the timerfd is armed in time |
| TimerQueue.Queue.NewTimer | 3thPartLibary/muduo/muduo/net/TimerQueue.cc:117-128 | A new timer gets a free address and a sequence number never used before, and nothing else changes |
| TimerQueue.Queue.Insert | 3thPartLibary/muduo/muduo/net/TimerQueue.cc:261-289 | Insertion enters both indexes, keeps them sorted and in agreement, and says whether the earliest expiration changed |
| TimerQueue.Queue.ResetTimerfd | 3thPartLibary/muduo/muduo/net/TimerQueue.cc:70-83 | The timerfd is armed for the expiration asked for, to fire then or 100 microseconds after it was set, whichever is later |
| TimerQueue.Queue.Perform | 3thPartLibary/muduo/muduo/net/TimerQueue.cc:117-170 | Any action of a callback has exactly its effect, with the invariants and the timers of the running batch kept |
| TimerQueue.ArmedFor | 3thPartLibary/muduo/muduo/net/TimerQueue.cc:41-55 | It fires no earlier than asked, no sooner than 100 microseconds from now, and at one of these two times |
| TimerQueue.DueExactly | 3thPartLibary/muduo/muduo/net/TimerQueue.cc:201-210 | The batch holds a timer exactly when it is due by now, and both parts stay sorted |
| TimerQueue.SameSize | 3thPartLibary/muduo/muduo/net/TimerQueue.cc:195-199 | Indexes that hold the same timers have the same size, as the source asserts |
| TimerQueue.InsertedSorted | 3thPartLibary/muduo/muduo/net/TimerQueue.cc:274-279 | Insertion keeps the queue sorted |
| TimerQueue.ErasedSorted | 3thPartLibary/muduo/muduo/net/TimerQueue.cc:159-160 | So does erasing |
| TimerQueue.ExpiredSame | 3thPartLibary/muduo/muduo/net/TimerQueue.cc:208-219 | Removing the batch from both indexes keeps them the same |
| TimerQueue.CancelSame | 3thPartLibary/muduo/muduo/net/TimerQueue.cc:156-163 | Cancelling a queued timer removes it from both indexes and frees it |
| TimerQueue.ExpiredOwner | 3thPartLibary/muduo/muduo/net/TimerQueue.cc:197-223 | When a batch is taken out, each of its timers has the batch as its one owner |
| TimerQueue.CancelCancellations | 3thPartLibary/muduo/muduo/net/TimerQueue.cc:150-170 | Cancelling keeps every cancelled timer out of the queue |
| TimerQueue.RestartCancellations | 3thPartLibary/muduo/muduo/net/TimerQueue.cc:234-239 | A restarted timer was not cancelled |
| TimerQueue.NoneCancelled | 3thPartLibary/muduo/muduo/net/TimerQueue.cc:172-194 | No timer of a batch was cancelled before the batch was taken |
| TimerQueue.CancelTooEarly | 3thPartLibary/muduo/muduo/net/TimerQueue.cc:117-170 | A cancel that is executed while the insertion of its timer is still queued has no effect: the timer runs |
| EventLoop.Run | 3thPartLibary/muduo/muduo/net/EventLoop.cc:101-263 | Every schedule of the loop and other threads leads exactly where its atomic steps lead one after another, and there: functors run once, in push order, and when the loop polls with no wakeup written or owed, every functor in its queue is one the loop thread pushed before it entered the loop; those of other threads, and those pushed while functors run, are always signalled |
| EventLoop.Loop.Settle | 3thPartLibary/muduo/muduo/net/EventLoop.cc:101-263 | No wakeup is lost and none is seen twice: with poll returning only when the wakeup descriptor is readable, no more pushes and no quit, whatever the order of the steps left to the loop and the other threads, the loop comes to rest in poll with every functor pushed run, exactly unless it is on its way into a poll with no wakeup written or owed and all that is queued was queued by the loop thread before it entered the loop |
| EventLoop.Loop.LoopStep | 3thPartLibary/muduo/muduo/net/EventLoop.cc:101-263 | A loop thread in its loop always has a step to take, with exactly its effect |
| EventLoop.Loop.Leave | 3thPartLibary/muduo/muduo/net/EventLoop.cc:101-145 | No quit is lost that is stored while the loop runs: with no more pushes, whatever the order of the steps left, the loop is left, although poll returns only when the wakeup descriptor is readable |
| EventLoop.Loop.QuitBeforeLoop | 3thPartLibary/muduo/muduo/net/EventLoop.cc:101-145 | A quit stored before the loop is entered is lost: the loop clears it and polls |
| EventLoop.QuitNext | 3thPartLibary/muduo/muduo/net/EventLoop.cc:107-107 | In every schedule, a step ends a quit that stands exactly when it is the loop thread entering the loop |
| EventLoop.QuitStands | 3thPartLibary/muduo/muduo/net/EventLoop.cc:107-107 | So in every schedule a quit stands as long as the loop is not entered after it |
| EventLoop.QuitExactly | 3thPartLibary/muduo/muduo/net/EventLoop.cc:101-145 | In every schedule, quit is set exactly when some quit step was taken and the loop was not entered after it, said of the steps alone |
| EventLoop.OwesExactly | 3thPartLibary/muduo/muduo/net/EventLoop.cc:138-176 | A thread owes its wakeup exactly when its last push or quit is later than its last wakeup |
| EventLoop.TakenExactly | 3thPartLibary/muduo/muduo/net/EventLoop.cc:101-263 | A push, a quit or an entry of the schedule is taken exactly when the steps before it allow it |
| EventLoop.PushedExactly | 3thPartLibary/muduo/muduo/net/EventLoop.cc:147-176 | At every moment exactly the functors whose push was taken are pushed, in that order, and one is early exactly when the loop thread pushed it outside the loop |
| EventLoop.SettleTurn | 3thPartLibary/muduo/muduo/net/EventLoop.cc:101-263 | While a functor is left, a turn of the loop thread uses up some of the finite work and neither strands nor rescues a functor queued too early |
| EventLoop.LeaveTurn | 3thPartLibary/muduo/muduo/net/EventLoop.cc:101-135 | With quit stored, a turn of the loop thread brings it nearer the end of the loop |
| EventLoop.Loop.Take | 3thPartLibary/muduo/muduo/net/EventLoop.cc:101-263 | Every atomic step has exactly its effect, keeps the invariants, and what was pushed or run stays so; a step its thread cannot take changes nothing |
| EventLoop.Loop.DoPush | 3thPartLibary/muduo/muduo/net/EventLoop.cc:162-167 | A push by another thread appends its functor and leaves exactly that thread owing a wakeup |
| EventLoop.Loop.DoWake | 3thPartLibary/muduo/muduo/net/EventLoop.cc:226-235 | The write makes the descriptor readable |
| EventLoop.Loop.DoLoopPush | 3thPartLibary/muduo/muduo/net/EventLoop.cc:162-176 | The loop thread owes itself a wakeup exactly when it pushes while functors are running; before the loop starts it issues none |
| EventLoop.Loop.DoLoopWake | 3thPartLibary/muduo/muduo/net/EventLoop.cc:172-175 | The wakeup owed is written |
| EventLoop.Loop.DoStoreQuit | 3thPartLibary/muduo/muduo/net/EventLoop.cc:138-145 | Quit is set, and exactly that thread owes a wakeup |
| EventLoop.Loop.DoStart | 3thPartLibary/muduo/muduo/net/EventLoop.cc:101-107 | The loop starts with quit cleared |
| EventLoop.Loop.DoTest | 3thPartLibary/muduo/muduo/net/EventLoop.cc:111-114 | The loop goes to poll exactly when quit is not set, and then a wakeup is written or owed unless all that is queued was queued by the loop thread before it entered the loop |
| EventLoop.Loop.DoPollReturns | 3thPartLibary/muduo/muduo/net/EventLoop.cc:114-128 | Poll reports the wakeup descriptor if it is readable |
| EventLoop.Loop.DoHandleRead | 3thPartLibary/muduo/muduo/net/EventLoop.cc:237-246 | Reading clears the descriptor, and the pending functors still get run before the next poll |
| EventLoop.Loop.DoSwap | 3thPartLibary/muduo/muduo/net/EventLoop.cc:248-256 | The swap takes all pending functors at once |
| EventLoop.Loop.DoRunNext | 3thPartLibary/muduo/muduo/net/EventLoop.cc:258-261 | One functor runs, the next in push order |
| EventLoop.Loop.DoBeginFunctors | 3thPartLibary/muduo/muduo/net/EventLoop.cc:250-251 | Running of functors begins, from when on a push of the loop thread owes a wakeup |
| EventLoop.Loop.DoEndFunctors | 3thPartLibary/muduo/muduo/net/EventLoop.cc:258-262 | It ends when the batch has run |
| EventLoop.Loop.QueuedBeforeLoop | 3thPartLibary/muduo/muduo/net/EventLoop.cc:162-176 | Any functor the loop thread queues before loop starts, with no wakeup written or owed, is pending while the loop polls with still none |
| Buffer.Buffer.constructor | 3thPartLibary/muduo/muduo/net/Buffer.h:48-56 | A new buffer is empty, with room to prepend |
| Buffer.Buffer.MakeSpace | 3thPartLibary/muduo/muduo/net/Buffer.h:315-334 | Either way of making room keeps the content, and the assertion that the content can move down holds |
| Buffer.Buffer.EnsureWritableBytes | 3thPartLibary/muduo/muduo/net/Buffer.h:173-180 | There is room afterwards, and the content stays |
| Buffer.Buffer.Append | 3thPartLibary/muduo/muduo/net/Buffer.h:160-165 | The content is followed by the data |
| Buffer.Buffer.Prepend | 3thPartLibary/muduo/muduo/net/Buffer.h:283-289 | The content is preceded by the data |
| Buffer.Buffer.Retrieve | 3thPartLibary/muduo/muduo/net/Buffer.h:96-107 | The first bytes go, the rest stay |
| Buffer.Buffer.RetrieveAll | 3thPartLibary/muduo/muduo/net/Buffer.h:131-135 | Nothing is left |
| Buffer.Buffer.RetrieveAsString | 3thPartLibary/muduo/muduo/net/Buffer.h:142-148 | What is returned and what stays make up the old content |
| Buffer.Buffer.RetrieveAllAsString | 3thPartLibary/muduo/muduo/net/Buffer.h:137-140 | The whole content is returned and none stays |
| Buffer.Buffer.AppendInt32 | 3thPartLibary/muduo/muduo/net/Buffer.h:194-198 | Four bytes in network order follow the content |
| Buffer.Buffer.PeekInt32 | 3thPartLibary/muduo/muduo/net/Buffer.h:240-246 | The first four bytes, from network order |
| Buffer.Buffer.ReadInt32 | 3thPartLibary/muduo/muduo/net/Buffer.h:215-220 | The integer read is the one whose network bytes stood in front |
| Buffer.Buffer.PrependInt32 | 3thPartLibary/muduo/muduo/net/Buffer.h:266-270 | Four bytes in network order precede the content |
| Buffer.Buffer.Shrink | 3thPartLibary/muduo/muduo/net/Buffer.h:292-299 | The content survives in a buffer with the room asked for |
| Buffer.Buffer.ReadFd | 3thPartLibary/muduo/muduo/net/Buffer.cc:28-60 | Exactly the bytes read are appended, whether they fit the writable part or spill over, up to its size and 65536 more |
| Buffer.Buffer.FindCRLF | 3thPartLibary/muduo/muduo/net/Buffer.h:79-83 | The place of the first line end, or none |
| Buffer.FindCrlf | 3thPartLibary/muduo/muduo/net/Buffer.h:79-83 | The place found is a line end and no earlier one is |
| Buffer.Int32RoundTrip | 3thPartLibary/muduo/muduo/net/Buffer.h:194-246 | Every 32-bit integer survives network order |
| Buffer.BytesRoundTrip | 3thPartLibary/muduo/muduo/net/Buffer.h:194-246 | And every four bytes are those of one integer |
| Buffer.NetworkIs | 3thPartLibary/muduo/muduo/net/Buffer.h:194-198 | Network order is the most significant byte first, of two's complement |
| Buffer.HostIs | 3thPartLibary/muduo/muduo/net/Buffer.h:240-246 | And four bytes in it stand for that signed number |
| Framing.Continue | ProxyServer/ProtobufCodec.cc:103-129 | For any framing whose frames and errors do not depend on later bytes: messages and rest of a stream in two parts are those of the first part and of what it left followed by the second |
| ProtobufCodec.Receive | ProxyServer/ProtobufCodec.cc:103-129 | For every stream and every chunking, the messages of the longest prefix of well-formed frames are delivered in order, and exactly the bytes after it stay unread |
| ProtobufCodec.Codec.OnMessage | ProxyServer/ProtobufCodec.cc:103-129 | One call delivers every whole message in the buffer, leaves the rest, and reports the error in front of it if there is one |
| ProtobufCodec.Codec.Round | ProxyServer/ProtobufCodec.cc:106-127 | One round consumes a frame of at least 14 bytes or stops with the buffer untouched |
| ProtobufCodec.FrontStable | ProxyServer/ProtobufCodec.cc:107-127 | A frame or an error in front does not depend on what follows; a frame has at least 14 bytes |
| ProtobufCodec.FrontExactly | ProxyServer/ProtobufCodec.cc:103-129 | What stands in front, from the bytes: fewer than 14 wait, a length outside 10 to 67108864 is invalid, a frame not complete waits, and a complete one is its message or its error |
| ProtobufCodec.ParseExactly | ProxyServer/ProtobufCodec.cc:146-183 | Every case of parsing, from the bytes and in the order of the tests: checksum, name length, unknown type, bad body, message |
| ProtobufCodec.EncodedExactly | ProxyServer/ProtobufCodec.cc:13-44 | The bytes of a frame: length, name length with the zero, name, zero, body, and the checksum of what stands between length and checksum, most significant byte first |
| ProtobufCodec.ChecksumIs | ProxyServer/ProtobufCodec.cc:36-39 | The checksum as one closed formula |
| ProtobufCodec.FillEmptyBuffer | ProxyServer/ProtobufCodec.cc:13-44 | Appends, checksum and prepended length leave exactly the frame of the message in the buffer |
| ProtobufCodec.ParseEncoded | ProxyServer/ProtobufCodec.cc:146-183 | Parsing the body of a frame gives back its message |
| ProtobufCodec.RoundTrip | ProxyServer/ProtobufCodec.cc:13-183 | A sendable message comes out of its frame, whatever follows |
| ProtobufCodec.RoundTripExactly | ProxyServer/ProtobufCodec.cc:13-183 | A message comes out of its frame exactly when it has a type name and its frame is within the limit |
| ProtobufCodec.AllReceived | ProxyServer/ProtobufCodec.cc:13-129 | A list of messages sent is the list received, in order |
| ProtobufCodec.OneByteDamage | ProxyServer/ProtobufCodec.cc:146-153 | A frame body changed in one byte, anywhere, is rejected with a checksum error |
| ProtobufCodec.SwapDamage | ProxyServer/ProtobufCodec.cc:146-153 | So is one with two unequal neighbours of the checksummed part swapped |
| Adler32.OneByte | ProxyServer/ProtobufCodec.cc:36-39 | Checksums of data that differ in one byte differ |
| Adler32.Swapped | ProxyServer/ProtobufCodec.cc:36-39 | So do those of data with two unequal neighbours swapped |
| Adler32.FoldConcat | ProxyServer/ProtobufCodec.cc:36-39 | The checksum sums of a concatenation continue those of the first part |
| Adler32.AdlerIs | ProxyServer/ProtobufCodec.cc:36-39 | The low half is one and the sum of the bytes, the high half their number and the sum weighted by place, both modulo 65521 |
| LengthHeaderCodec.Receive | sender/src/frame/codec.h:24-52 | For every stream and every chunking, the messages of the well-formed prefix are delivered in order and exactly the rest stays unread |
| LengthHeaderCodec.Codec.OnMessage | sender/src/frame/codec.h:24-52 | One call delivers every whole message, leaves the rest, and shuts down exactly when an invalid length stands in front |
| LengthHeaderCodec.Codec.Round | sender/src/frame/codec.h:30-50 | One round delivers a frame or stops with the buffer untouched |
| LengthHeaderCodec.Codec.TakeMessage | sender/src/frame/codec.h:42-45 | The message is what follows the header, and the frame leaves the buffer |
| LengthHeaderCodec.Codec.Send | sender/src/frame/codec.h:55-64 | Append and prepend make exactly the frame of the message |
| LengthHeaderCodec.EncodedFront | sender/src/frame/codec.h:24-64 | A message comes out of its frame exactly up to 65536 bytes; a longer one is an invalid length |
| LengthHeaderCodec.FrontStable | sender/src/frame/codec.h:30-50 | A frame or an error in front does not depend on what follows |
| LengthHeaderCodec.FrontExactly | sender/src/frame/codec.h:24-52 | What stands in front, from the bytes: the first four, most significant first, are the length, up to 65536 |
| LengthHeaderCodec.EncodedExactly | sender/src/frame/codec.h:55-64 | The bytes sent are those of the length and then the message |
| TcpConnection.Connection.Run | 3thPartLibary/muduo/muduo/net/TcpConnection.cc:97-381 | Every run of sends, shutdowns, queued functors, writable events and closes, with the steps of other threads in between, has a history, each event having exactly its effect on the moment before. In it, bytes taken by the kernel followed by the backlog are the accepted messages in order; a write side shut down before a disconnect has handed over everything; and while only the loop thread takes part the accepted messages are exactly those sent before the first shutdown or close, and in every state, also after a disconnect, a shut write side has handed over all of them |
| TcpConnection.ShutOverExactly | 3thPartLibary/muduo/muduo/net/TcpConnection.cc:207-226 | In every history, posted tasks of other threads included, a step shuts the write side over a backlog exactly when it runs a queued shutdown while writing is off though there is a backlog, which is only so after a close |
| TcpConnection.HighWaterExactly | 3thPartLibary/muduo/muduo/net/TcpConnection.cc:188-204 | In every history, posted messages included, high-water is queued exactly when the backlog rises from below the mark to it or above, once, with the size it then has |
| TcpConnection.HappenedExactly | 3thPartLibary/muduo/muduo/net/TcpConnection.cc:97-381 | In every history, what each event does in terms of its fields: checks pass exactly while connected and refused sends change nothing, and write-complete is queued exactly when a message is taken whole at once or the backlog comes to its end |
| TcpConnection.LocalNext | 3thPartLibary/muduo/muduo/net/TcpConnection.cc:97-381 | While only the loop thread takes part, an event accepts what it sends while connected, gives nothing up, and shuts the write side over no backlog |
| TcpConnection.Connection.Step | 3thPartLibary/muduo/muduo/net/TcpConnection.cc:97-381 | Every event has exactly its effect, keeps the invariants, and takes back nothing from the kernel or the accepted messages |
| TcpConnection.Connection.LoopStep | 3thPartLibary/muduo/muduo/net/TcpConnection.cc:97-381 | A step of the loop thread has exactly its effect: what goes to the kernel, to the buffer and to the queue of tasks, and what is given up |
| TcpConnection.Connection.OtherStep | 3thPartLibary/muduo/muduo/net/TcpConnection.cc:97-216 | A step of another thread has exactly its effect and changes neither what the kernel has nor what is accepted |
| TcpConnection.Connection.DoSendInLoop | 3thPartLibary/muduo/muduo/net/TcpConnection.cc:142-205 | What goes to the kernel, what is buffered, what is given up, and which callbacks are queued: write-complete when all was written at once, high-water exactly on an upward crossing |
| TcpConnection.Connection.TakeOn | 3thPartLibary/muduo/muduo/net/TcpConnection.cc:165-204 | A message that is not given up is accepted: the kernel has taken a prefix and the rest is buffered |
| TcpConnection.Connection.BufferRest | 3thPartLibary/muduo/muduo/net/TcpConnection.cc:188-204 | The rest is buffered, writable events are asked for, and high-water is queued exactly when the backlog rises from below the mark to it or above |
| TcpConnection.Connection.DoSend | 3thPartLibary/muduo/muduo/net/TcpConnection.cc:97-114 | A send is accepted only while connected; without a broken pipe it then always is |
| TcpConnection.Connection.DoPassSend | 3thPartLibary/muduo/muduo/net/TcpConnection.cc:97-100 | A send of another thread passes its check exactly while the connection is connected |
| TcpConnection.Connection.DoPostSend | 3thPartLibary/muduo/muduo/net/TcpConnection.cc:97-114 | Its post, at any later time: the message waits for the loop |
| TcpConnection.Connection.DoShutdown | 3thPartLibary/muduo/muduo/net/TcpConnection.cc:207-216 | The write side is shut down at once exactly when there is no backlog |
| TcpConnection.Connection.DoPassShutdown | 3thPartLibary/muduo/muduo/net/TcpConnection.cc:207-210 | A shutdown of another thread passes its check exactly while the connection is connected |
| TcpConnection.Connection.DoSetDisconnecting | 3thPartLibary/muduo/muduo/net/TcpConnection.cc:212-212 | Its store of the state, at any later time: a connection disconnected meanwhile is disconnecting again |
| TcpConnection.Connection.DoPostShutdown | 3thPartLibary/muduo/muduo/net/TcpConnection.cc:212-214 | And its post: the shutdown waits for the loop |
| TcpConnection.Connection.DoShutdownInLoop | 3thPartLibary/muduo/muduo/net/TcpConnection.cc:218-226 | The write side is shut down unless writing is on |
| TcpConnection.Connection.DoRunTask | 3thPartLibary/muduo/muduo/net/TcpConnection.cc:142-226 | The loop runs the functor at the head of its queue: a waiting message is accepted or given up, a waiting shutdown takes effect unless writing is on |
| TcpConnection.Connection.HandleWrite | 3thPartLibary/muduo/muduo/net/TcpConnection.cc:321-364 | The kernel takes a prefix of the backlog; when the backlog is gone write-complete is queued and a connection that is disconnecting shuts its write side |
| TcpConnection.Connection.HandleClose | 3thPartLibary/muduo/muduo/net/TcpConnection.cc:366-381 | Disconnected, and no longer writing |
| TcpConnection.Connection.ConnectDestroyed | 3thPartLibary/muduo/muduo/net/TcpConnection.cc:246-257 | A connected connection ends disconnected |
| TcpConnection.Connection.ConnectEstablished | 3thPartLibary/muduo/muduo/net/TcpConnection.cc:233-244 | The connection is connected with the invariants in force |
| TcpConnection.Connection.constructor | 3thPartLibary/muduo/muduo/net/TcpConnection.cc:39-68 | A new connection has sent nothing and owes nothing |
| TcpConnection.Connection.Overtaken | 3thPartLibary/muduo/muduo/net/TcpConnection.cc:97-114 | A message of another thread that passed the state check is never written when a shutdown on the loop thread overtakes it |
| TcpConnection.Connection.ShutOverBacklog | 3thPartLibary/muduo/muduo/net/TcpConnection.cc:218-226 | A posted shutdown run after a close shuts the write side over a backlog |
| TcpConnection.Connection.RevivedByShutdown | 3thPartLibary/muduo/muduo/net/TcpConnection.cc:207-216 | A shutdown that passed its check before a close and stores the state after it makes the connection disconnecting again, with a backlog and no writable events wanted |
| TcpConnection.FlowSent | 3thPartLibary/muduo/muduo/net/TcpConnection.cc:142-205 | Handing a prefix of a message to the kernel keeps the books balanced for the rest |
| TcpConnection.FlowWritten | 3thPartLibary/muduo/muduo/net/TcpConnection.cc:326-358 | Handing a prefix of the backlog to the kernel keeps them balanced |
| BoundedQueue.Queue.Run | 3thPartLibary/muduo/muduo/base/BoundedBlockingQueue.h:31-55 | Every interleaving of calls, steps, spurious wakeups and barging has a history, each event having exactly its effect on the moment before; what was put is what was taken followed by what is queued, and the queue never exceeds its capacity |
| BoundedQueue.Queue.Settle | 3thPartLibary/muduo/muduo/base/BoundedBlockingQueue.h:31-55 | With no more calls the threads come to rest in any order of steps, and then takers wait only for an empty queue and putters only for a full one |
| BoundedQueue.CallsExactly | 3thPartLibary/muduo/muduo/base/BoundedBlockingQueue.h:31-55 | In every history each thread that calls is in exactly one place, and what it calls and puts is what it was asked to |
| BoundedQueue.Queue.Go | 3thPartLibary/muduo/muduo/base/BoundedBlockingQueue.h:31-55 | Every step of a thread that is not waiting has exactly its effect, keeps the invariants and uses up some of the finite work left |
| BoundedQueue.Queue.Test | 3thPartLibary/muduo/muduo/base/BoundedBlockingQueue.h:34-37 | A putter waits exactly when the queue is full, a taker exactly when it is empty, and the mutex is released |
| BoundedQueue.Queue.Act | 3thPartLibary/muduo/muduo/base/BoundedBlockingQueue.h:38-52 | A put appends, a take removes and returns the first; there is always room, as the source asserts |
| BoundedQueue.Queue.Notify | 3thPartLibary/muduo/muduo/base/BoundedBlockingQueue.h:40-53 | If threads wait on the other condition exactly one of them is woken |
| BoundedQueue.Queue.Lock | 3thPartLibary/muduo/muduo/base/BoundedBlockingQueue.h:33-46 | Whoever gets the free mutex tests the queue, a newcomer or a woken thread |
| BoundedQueue.Queue.Unlock | 3thPartLibary/muduo/muduo/base/BoundedBlockingQueue.h:31-55 | The mutex is free again and a take returns what it popped |
| BoundedQueue.Queue.WakeUp | 3thPartLibary/muduo/muduo/base/BoundedBlockingQueue.h:36-49 | A wait may end by chance |
| BoundedQueue.Queue.Start | 3thPartLibary/muduo/muduo/base/BoundedBlockingQueue.h:31-44 | A thread that calls put or take wants the mutex |
| BoundedQueue.StrandedActed | 3thPartLibary/muduo/muduo/base/BoundedBlockingQueue.h:38-52 | A push or a pop by the holder of the mutex strands nobody |
| BoundedQueue.StrandedNotified | 3thPartLibary/muduo/muduo/base/BoundedBlockingQueue.h:40-53 | A notify leaves no more items (or free places) than woken threads while others wait |
| BoundedQueue.StrandedKept | 3thPartLibary/muduo/muduo/base/BoundedBlockingQueue.h:31-55 | Neither does any other step |
| BoundedQueue.NoDeadlock | 3thPartLibary/muduo/muduo/base/BoundedBlockingQueue.h:31-55 | When no thread can go, nobody holds the mutex and nobody waits for what is there |
| ProxyServer.Run | ProxyServer/ProxyServer.cc:49-132 | Every run of connects, disconnects, requests and replies has a history of the books and of which connections of every server are down, free and occupied. Each event that may happen has exactly its effect, a request going out on the first free connection of its server and on none exactly when none is free; every connection opened is always in exactly one of the three sets, and those with a command on its way are occupied; each reply sent went to the client whose command it answers, no command is answered twice, and of the replies sent to one client its connection took the first and no other |
| ProxyServer.FirstRepliesOnce | ProxyServer/ProxyServer.cc:57-62 | Every client that is sent replies gets one, which is the first, and never two |
| ProxyServer.ConnectionsExactly | ProxyServer/DAL/Hiredis.cc:172-300 | In every history and at every moment, from the events: a connection is up exactly if the last of its comings and goings says so, and occupied exactly if a request went out on it that has been neither answered nor lost since |
| ProxyServer.FlightExactly | ProxyServer/DAL/Hiredis.cc:252-300 | And the command on its way on it is that of the client whose request went out on it last, if it was accepted |
| ProxyServer.SentExactly | ProxyServer/ProxyServer.cc:49-63 | So in every history a reply is sent to the client whose request went out on the connection, and nothing else is ever sent |
| ProxyServer.FiledExactly | ProxyServer/ProxyServer.cc:96-132 | In every history a request files its client under the server number times 2^32 plus the first free connection, or under -1 when none is free; no other event files anybody |
| ProxyServer.OpenExactly | ProxyServer/DAL/Hiredis.cc:58-86 | A server has its connections exactly from when it was connected to |
| ProxyServer.MayHappenExactly | ProxyServer/DAL/Hiredis.cc:58-300 | And which events may happen at a moment is settled by the events before it |
| ProxyServer.ProxyServer.OnReply | ProxyServer/DAL/Hiredis.cc:288-300 | A reply on a connection goes to the client whose command occupies it; only that command is answered and only that connection is free again |
| ProxyServer.ProxyServer.CommandCallback | ProxyServer/ProxyServer.cc:49-63 | The reply goes to the client filed under the identifier, if there is one; its connection takes it unless it was shut down before, and is then shut down |
| ProxyServer.ProxyServer.RequestInLoop | ProxyServer/ProxyServer.cc:96-132 | The command occupies the first free connection of the server its key hashes to and the client is filed under it; exactly when none is free the client is filed under the identifier of none |
| ProxyServer.IssueKeeps | ProxyServer/ProxyServer.cc:96-132 | A command issued on a connection that had none, or on none, with its client filed, keeps all the books |
| ProxyServer.ReplyKeeps | ProxyServer/DAL/Hiredis.cc:288-300 | A reply to the command on a connection, sent to the client filed there, keeps all the books |
| ProxyServer.LossKeeps | ProxyServer/DAL/Hiredis.cc:200-216 | So does the loss of a command with its connection |
| ProxyServer.ProxyServer.OnDisconnect | ProxyServer/DAL/Hiredis.cc:200-216 | The command on the connection is lost, and no other, and the connection is down |
| ProxyServer.ProxyServer.OnConnect | ProxyServer/DAL/Hiredis.cc:58-86 | The connections 0 to nconns - 1 of the server are opened, all down, with every command and client in place |
| ProxyServer.ProxyServer.OnConnected | ProxyServer/DAL/Hiredis.cc:172-191 | A connection that comes up is free, and nothing else changes |
| ProxyServer.ProxyServer.Step | ProxyServer/ProxyServer.cc:49-132 | Every event has exactly its effect on the books and the connections and keeps the invariants |
| ProxyServer.FiledCommand | ProxyServer/ProxyServer.cc:96-132 | Filing a client under a new connection disturbs no other |
| ProxyServer.FiledNone | ProxyServer/ProxyServer.cc:108-108 | A client filed under the identifier of none disturbs no connection |
| ProxyServer.LinkedCommand | ProxyServer/DAL/Hiredis.cc:252-279 | A new command on a connection that had none keeps the books of all servers |
| Hiredis.Hiredis.Connect | ProxyServer/DAL/Hiredis.cc:58-86 | The connections 0 to nconns - 1 are opened, all down |
| Hiredis.Hiredis.UserConnectCallback | ProxyServer/DAL/Hiredis.cc:172-191 | A connection moves from the down to the free map when it comes up, and then it is free; otherwise nothing moves |
| Hiredis.Hiredis.UserDisconnectCallback | ProxyServer/DAL/Hiredis.cc:200-216 | A connection moves from the busy to the down map and its command is lost |
| Hiredis.Hiredis.SendCommand | ProxyServer/DAL/Hiredis.cc:252-279 | The first free connection moves to the busy map and carries the one command; -1 exactly when none is free, and then nothing changes |
| Hiredis.Hiredis.CommandDone | ProxyServer/DAL/Hiredis.cc:295-299 | A connection moves from the busy to the free map |
| Hiredis.Begin | ProxyServer/DAL/Hiredis.cc:261-261 | The first key of a map is its least |
| Hiredis.UniqueConIdInjective | ProxyServer/DAL/Hiredis.h:29-32 | The shifted and or-ed identifiers of two connections are equal exactly when server and connection are |
| Hiredis.NoneFreeId | ProxyServer/DAL/Hiredis.h:29-32 | With connection -1 the identifier is -1 for every server, which is that of no connection |
| Hiredis.UniqueConIdValue | ProxyServer/DAL/Hiredis.h:29-32 | For a valid pair the identifier is server * 2^32 + connection |
| Bits.BitOrApart | ProxyServer/DAL/Hiredis.h:29-32 | Or of words without a common bit is addition |
| Bits.BitXorBits | ProxyServer/HashKit/jenkins.c:12-17 | Exclusive or, bit by bit |
| HttpServer.Receive | 3thPartLibary/muduo/muduo/net/http/HttpServer.cc:67-124 | For every stream and every chunking, up to a complete request or the first failure: verdict, method, path, version, headers and unread bytes are those of parsing the whole stream at once |
| HttpServer.HttpContext.ParseRequest | 3thPartLibary/muduo/muduo/net/http/HttpServer.cc:67-124 | From the two states it may be entered in, the loop ends and does what the reference parser does; after a failure it may be entered again exactly when the bad line does not begin with a known method |
| HttpServer.HttpContext.TakeRequestLine | 3thPartLibary/muduo/muduo/net/http/HttpServer.cc:75-93 | A good request line is consumed, a bad one stays |
| HttpServer.HttpContext.TakeHeader | 3thPartLibary/muduo/muduo/net/http/HttpServer.cc:97-112 | A header is filed, a line without a colon ends the headers, and the line is consumed |
| HttpServer.HttpContext.ProcessRequestLine | 3thPartLibary/muduo/muduo/net/http/HttpServer.cc:30-63 | Verdict and request after a line, including what an error leaves behind |
| HttpServer.ParseLater | 3thPartLibary/muduo/muduo/net/http/HttpServer.cc:67-124 | Bytes that come later are read as if they had come at once |
| HttpServer.RequestRead | 3thPartLibary/muduo/muduo/net/http/HttpServer.cc:67-124 | A well-formed request is read back with its method, path, version and header map, and what follows stays |
| HttpServer.HeadersRead | 3thPartLibary/muduo/muduo/net/http/HttpServer.cc:95-112 | So are headers with spaces around their values; of two with the same field the later counts |
| HttpServer.RequestLineRead | 3thPartLibary/muduo/muduo/net/http/HttpServer.cc:30-63 | Every well-formed request line is read back |
| HttpServer.ReadAsText | 3thPartLibary/muduo/muduo/net/http/HttpServer.cc:67-124 | Each of the five methods in each of the two versions, written out as text with a path and a header, is read as exactly that method, version, path and header |
| HttpServer.LastCounts | 3thPartLibary/muduo/muduo/net/http/HttpServer.cc:95-112 | A field has the value of its last line, and no other field has one |
| HttpServer.NoColonEnds | 3thPartLibary/muduo/muduo/net/http/HttpServer.cc:97-112 | A header line without a colon, empty or not, ends the headers, and never fails |
| HttpServer.SpacesAre | 3thPartLibary/muduo/muduo/net/http/HttpRequest.h:127-143 | What is trimmed are the six white-space characters of ASCII |
| HttpServer.MethodsAsText | 3thPartLibary/muduo/muduo/net/http/HttpRequest.h:53-82 | The five names as text |
| HttpServer.OnlyRequestLines | 3thPartLibary/muduo/muduo/net/http/HttpServer.cc:30-63 | Nothing else is accepted: method, one space, a path without spaces, one space, HTTP/1.0 or HTTP/1.1 |
| HttpServer.FailureKeepsMethod | 3thPartLibary/muduo/muduo/net/http/HttpServer.cc:67-124 | A bad line that begins with a known method leaves the method set, and then the parser may not be entered again; any other may |
| HttpServer.StuckAfterFailure | 3thPartLibary/muduo/muduo/net/http/HttpServer.cc:67-124 | For every path: the bytes of GET, a space and the path with nothing after it fail, stay unread, leave the method set, and the parser may not be entered again |
| HttpServer.CrlfAt | 3thPartLibary/muduo/muduo/net/http/HttpServer.cc:75-97 | The first line end of a line without one is where it ends |
| HttpRequest.HttpRequest.AddHeader | 3thPartLibary/muduo/muduo/net/http/HttpRequest.h:127-143 | The two trimming loops leave the value without the spaces around it |
| HttpRequest.HttpRequest.SetMethod | 3thPartLibary/muduo/muduo/net/http/HttpRequest.h:53-82 | The method is set exactly for the five known names |
| HttpRequest.TrimBetween | 3thPartLibary/muduo/muduo/net/http/HttpRequest.h:127-143 | Trimming leaves what stands between the spaces |
| EPollPoller.EPollPoller.Run | 3thPartLibary/muduo/muduo/net/poller/EPollPoller.cc:101-162 | Every sequence of requests of any channels has a history, each request the source allows having exactly its effect on marks, channel map and kernel interest set and the others none; at all moments these agree |
| EPollPoller.MarksExactly | 3thPartLibary/muduo/muduo/net/poller/EPollPoller.cc:101-162 | In every history, what a channel wants is what its owner last asked of it, about reading and about writing, and its mark says that the kernel has it exactly if the requests say so |
| EPollPoller.KernelExactly | 3thPartLibary/muduo/muduo/net/poller/EPollPoller.cc:101-182 | And the kernel has the descriptor exactly then, with exactly what the channel wants |
| EPollPoller.TakenExactly | 3thPartLibary/muduo/muduo/net/poller/EPollPoller.cc:101-162 | Which requests pass the assertions of the source |
| Channel.WantedExactly | 3thPartLibary/muduo/muduo/net/Channel.h:63-69 | Whether a channel wants to read, and to write, is what was last asked of it about that |
| EPollPoller.EPollPoller.Ask | 3thPartLibary/muduo/muduo/net/poller/EPollPoller.cc:101-162 | A channel with events is registered with exactly them; one without is registered exactly when it was disabled while not registered |
| EPollPoller.EPollPoller.AskOne | 3thPartLibary/muduo/muduo/net/poller/EPollPoller.cc:101-162 | A request of one channel leaves the others alone |
| EPollPoller.EPollPoller.UpdateChannel | 3thPartLibary/muduo/muduo/net/poller/EPollPoller.cc:101-141 | Add, modify or delete as the mark says, and always one the kernel accepts |
| EPollPoller.EPollPoller.RemoveChannel | 3thPartLibary/muduo/muduo/net/poller/EPollPoller.cc:143-162 | The channel leaves the map and the kernel, and is new again |
| EPollPoller.EPollPoller.Update | 3thPartLibary/muduo/muduo/net/poller/EPollPoller.cc:164-182 | The interest set after a call the kernel accepts |
| EPollPoller.EPollPoller.Poll | 3thPartLibary/muduo/muduo/net/poller/EPollPoller.cc:56-99 | Every reported channel is found and marked, in order, and the room for events doubles when it was used up |
| EPollPoller.EPollPoller.DisabledTwice | 3thPartLibary/muduo/muduo/net/poller/EPollPoller.cc:106-121 | A channel disabled twice is registered again with nothing to report |
| PollPoller.PollPoller.Run | 3thPartLibary/muduo/muduo/net/poller/PollPoller.cc:71-140 | Every sequence of requests of any channels has a history, each request the source allows having exactly its effect on channels and slots and the others none; at all moments they are in bijection |
| PollPoller.LookedAtExactly | 3thPartLibary/muduo/muduo/net/poller/PollPoller.cc:71-140 | In every history, at every moment, a channel in the poller is looked at exactly when no request since it was added has disabled it or taken its last event, and it was not ignored before the run |
| PollPoller.LookingAsked | 3thPartLibary/muduo/muduo/net/poller/PollPoller.cc:71-140 | One request changes which channels are looked at for its own channel only: a new one is looked at, one without events or removed is not, and any other is as before |
| PollPoller.WantsExactly | 3thPartLibary/muduo/muduo/net/poller/PollPoller.cc:71-140 | In every history what a channel wants is what its owner last asked of it |
| PollPoller.TakenExactly | 3thPartLibary/muduo/muduo/net/poller/PollPoller.cc:71-140 | Which requests pass the assertions of the source |
| PollPoller.PollPoller.Ask | 3thPartLibary/muduo/muduo/net/poller/PollPoller.cc:71-140 | A channel is looked at exactly when it is new or was looked at and still has events; its slot and index, and where the last slot goes on removal, are exact |
| PollPoller.PollPoller.AskOne | 3thPartLibary/muduo/muduo/net/poller/PollPoller.cc:71-140 | A request of one channel moves at most one of the others, to the slot of the one removed |
| PollPoller.PollPoller.UpdateChannel | 3thPartLibary/muduo/muduo/net/poller/PollPoller.cc:71-109 | A new channel gets the last slot, a known one keeps its own, and no other slot changes |
| PollPoller.PollPoller.AddSlot | 3thPartLibary/muduo/muduo/net/poller/PollPoller.cc:75-88 | A new slot at the end, and the channel knows it |
| PollPoller.PollPoller.ChangeSlot | 3thPartLibary/muduo/muduo/net/poller/PollPoller.cc:91-107 | The slot has the events of the channel and is ignored when there are none |
| PollPoller.PollPoller.RemoveChannel | 3thPartLibary/muduo/muduo/net/poller/PollPoller.cc:111-140 | The last slot takes the place of the one removed and its channel knows |
| PollPoller.PollPoller.Poll | 3thPartLibary/muduo/muduo/net/poller/PollPoller.cc:30-49 | The active channels are exactly those of the slots that answer, in slot order |
| PollPoller.PollPoller.FillActiveChannels | 3thPartLibary/muduo/muduo/net/poller/PollPoller.cc:51-69 | Counting down the events loses none |
| PollPoller.PollPoller.EnabledAgain | 3thPartLibary/muduo/muduo/net/poller/PollPoller.cc:71-109 | A channel disabled and enabled again is not looked at |
| PollPoller.BijectiveRemoved | 3thPartLibary/muduo/muduo/net/poller/PollPoller.cc:111-140 | Swap with the last slot and removal keep the bijection |
| PollPoller.BijectiveUpdated | 3thPartLibary/muduo/muduo/net/poller/PollPoller.cc:91-107 | So does a change of one slot |
| PollPoller.AnsweringExactly | 3thPartLibary/muduo/muduo/net/poller/PollPoller.cc:54-68 | The slots listed are exactly those that answer, in order |
| Jenkins.HashJenkins | ProxyServer/HashKit/jenkins.c:49-204 | For every address, length and memory after the key, the hash is the one value that depends on the bytes of the key alone |
| Jenkins.HashWords | ProxyServer/HashKit/jenkins.c:60-103 | The path by 32-bit words computes it |
| Jenkins.HashHalfwords | ProxyServer/HashKit/jenkins.c:104-153 | So does the path by 16-bit halfwords |
| Jenkins.HashBytes | ProxyServer/HashKit/jenkins.c:154-199 | So does the path by bytes |
| Jenkins.WordsTail | ProxyServer/HashKit/jenkins.c:85-101 | All thirteen cases of the last block, with their masks |
| Jenkins.HalfwordsTail | ProxyServer/HashKit/jenkins.c:121-151 | All thirteen cases with their fall-throughs |
| Jenkins.BytesTail | ProxyServer/HashKit/jenkins.c:180-197 | All thirteen cases falling through |
| Jenkins.WordsRead | ProxyServer/HashKit/jenkins.c:64-101 | What a masked word contributes is the key padded with zeros |
| Jenkins.HalvesRead | ProxyServer/HashKit/jenkins.c:110-151 | What two halfwords contribute is the same |
| Jenkins.AddBytes | ProxyServer/HashKit/jenkins.c:162-194 | Adding four bytes one by one, from either end, adds their word |
| Jenkins.MixReversible | ProxyServer/HashKit/jenkins.c:10-18 | Mixing can be undone: it loses nothing of the state |
| Jenkins.LineUndone | ProxyServer/HashKit/jenkins.c:12-17 | Each line of the mixing can be undone |
| Jenkins.RotIs | ProxyServer/HashKit/jenkins.c:8-8 | A rotation as integers: the product, and what it loses at the top |
| Jenkins.MixIs | ProxyServer/HashKit/jenkins.c:10-18 | Mixing is the six lines one after another |
| Jenkins.FinalIs | ProxyServer/HashKit/jenkins.c:20-29 | So is the end, with its seven |
| Jenkins.StartIs | ProxyServer/HashKit/jenkins.c:31-56 | The start as a number, and the value of the empty key |
| Jenkins.WordAtIs | ProxyServer/HashKit/jenkins.c:64-101 | A word is the number its bytes stand for, least significant first, with what lies beyond the key left out |
| Jenkins.BlocksAre | ProxyServer/HashKit/jenkins.c:60-103 | Twelve bytes at a time are added and mixed in; the last one to twelve are added and brought to the end |
| Bits.BitAndMask | ProxyServer/HashKit/jenkins.c:87-98 | A mask of n ones keeps the remainder modulo 2^n |
| LogStream.Convert | 3thPartLibary/muduo/muduo/base/LogStream.cc:32-53 | For every signed or unsigned integer up to 64 bits the decimal text and a NUL are written, and nothing else changes |
| LogStream.ConvertHex | 3thPartLibary/muduo/muduo/base/LogStream.cc:56-72 | The same in base 16 |
| LogStream.PutDigits | 3thPartLibary/muduo/muduo/base/LogStream.cc:35-43 | The loop writes the digits backwards |
| LogStream.LastDigit | 3thPartLibary/muduo/muduo/base/LogStream.cc:40-42 | One truncating division yields the last digit of a number of either sign, without negating it |
| LogStream.Reverse | 3thPartLibary/muduo/muduo/base/LogStream.cc:50-50 | The text is reversed in place, and nothing else changes |
| LogStream.DecimalRoundTrip | 3thPartLibary/muduo/muduo/base/LogStream.cc:32-53 | The decimal text parses back to the value |
| LogStream.DecimalFits | 3thPartLibary/muduo/muduo/base/LogStream.cc:97-113 | With its NUL it has at most 21 characters, within the 32 asked for |
| LogStream.HexFits | 3thPartLibary/muduo/muduo/base/LogStream.cc:163-175 | An address with its prefix and NUL has at most 19 |
| LogStream.DigitsRead | 3thPartLibary/muduo/muduo/base/LogStream.cc:38-43 | The digits have no leading zero and stand for the number |
| LogStream.NumeralUnique | 3thPartLibary/muduo/muduo/base/LogStream.cc:38-43 | And they are the only such digits |
| LogStream.DigitsAsText | 3thPartLibary/muduo/muduo/base/LogStream.cc:24-29 | The digits are the ten decimal ones and then the letters from A |
| LogStream.KnownTexts | 3thPartLibary/muduo/muduo/base/LogStream.cc:32-72 | Known texts: 0, -120, 90, and 1AF for 431 |
| LogStream.LogStream.FormatInteger | 3thPartLibary/muduo/muduo/base/LogStream.cc:105-113 | The text is followed by the decimal text while there is room for any integer, and otherwise unchanged |
| LogStream.LogStream.FormatPointer | 3thPartLibary/muduo/muduo/base/LogStream.cc:163-175 | The same for an address |
| LogStream.LogStream.Append | 3thPartLibary/muduo/muduo/base/LogStream.h:38-46 | A text is appended when it leaves room, and otherwise not at all |

## Left out

- Buffer: the 8-bit and 16-bit integers, which repeat the 32-bit ones; a failed read, which changes nothing.
- Vector capacity and growth: a buffer is a sequence of bytes with its two indices.
- `TcpConnection.Connection.DoShutdown`: the check and the change of the state on the loop thread are one step; those of other threads are separate steps.
- `TcpConnection.Connection.Run`: the output buffer is its content; the operations of `Buffer` on it are not repeated there.
- The receiving side of a connection, its callbacks and its life time by shared pointers.
- `EventLoop.Run`: a functor is a number and runs in one step; what it does are later steps of the schedule.
- `TimerQueue.Run`: timer intervals are whole microseconds, and a timer whose expiration is not a valid time stamp is taken to be armed like any other.
- `ProxyServer.Run`: set and query differ only in the command text and are one event; the text of commands and replies and the sending of the reply through the codec are reduced to the pair of client and reply; a client that closes its connection itself is not part of this model, and may take less than its first reply.
- `ProxyServer.ProxyServer.OnDisconnect`: hiredis is taken to go down on a busy connection, as the source asserts; its own calls of pending callbacks with no reply are not part of this model.
- Reconnection to Redis: the source opens connections once.
- `HttpServer.HttpContext.ParseRequest`: the receive time and the body state, which is never entered; pipelined requests after the first are left in the buffer until the next call, as in the source, and are not followed further.
- The HTTP response and the keep-alive decision.
- `PollPoller.PollPoller.Ask`: a removed channel keeps its index in the source and cannot be added again; the model excludes it by the source's own assertion.
- `LogStream`: floating point numbers and `Fmt`, which call snprintf.
- `Jenkins.HashJenkins`: a big-endian machine, where only the path by bytes is compiled.
- `BoundedQueue.Queue.Notify`: pthread_cond_signal may wake more than one thread; the others are spurious wakeups of the schedule.
- The other hashes of HashKit, and ketama, modula and random, which are commented out.
- Sockets, timers and polls of the kernel, zlib, hiredis, Protobuf, YAML configuration, logging output: foreign calls.
- The rest of the sender, which does not compile and needs ZooKeeper.
