# libuv unix reactor core in Dafny

This project models the single-threaded bookkeeping at the heart of libuv's
unix event loop and proves properties of it:

- the intrusive doubly linked circular queue of `src/queue.h`, as index arrays
  `next`/`prev` over an arena of link slots, with a ghost abstraction giving
  every sentinel's contents as a sequence (`Queue.Arena`);
- the prepare/check/idle loop-phase watchers of `src/unix/loop-watcher.c`
  (`LoopWatcher.Watchers`, one class for the three queues the macro defines);
- the async wakeup handles of `src/unix/async.c`: the three-valued `pending`
  field changed only by compare-and-swap, each atomic step of a sender as a
  method of its own, the spin of the loop thread, the rotation of
  `async_handles` in `uv__async_io` with sends from other threads between
  its turns, and the eventfd lifecycle
  (`Async.Handles`, `Async.AsyncLoop`);
- the process-wide signal registry of `src/unix/signal.c`: the red-black tree
  ordered by `uv__signal_compare` as a sorted sequence (`SignalTree`), the
  16-byte `uv__signal_msg_t` and its framing (`SignalMsg`), the installed
  handler per signal number, start and stop, the handler's fan-out to the
  loops' signal pipes, the event reader's framing and dispatch, and loop
  cleanup (`Signal`, with the imperative operations on `Signal.Registry`);
- the epoll poller of `src/unix/epoll.c`: the registration drain with its
  ADD/MOD choice, interest-mask filtering and the ERR/HUP widening, skipping
  invalidated and unwatched descriptors, running the signal watcher last,
  re-polling after a full batch, the 32-bit timeout cap and the remaining-time
  arithmetic, and `uv__platform_invalidate_fd` editing the result array in
  place (`Epoll`, with the loop state in `Epoll.Loop`);
- child reaping and stdio bookkeeping of `src/unix/process.c`: the two queue
  walks of `uv__chld`, the wait-status decoding, `uv__process_init_stdio`,
  the flag mapping of `uv__process_open_stream`, and `uv__process_close`
  (`Process`, with the loop state in `Process.Processes`).

Kernel calls are oracles: their results are parameters (`waitpid` answers,
the eventfd that `eventfd()` returned, the `Wait` results of `epoll_wait`,
`uv_socketpair`'s pair). Callbacks are opaque identities that do not change
the loop; the passes that run them return the sequence of invocations.
Flag words and event masks are sets of bit positions. Every `.dfy` file is
verified together; the modules import each other and nothing else.

## Model

| member | source | states |
|---|---|---|
| Queue.Arena.Init | src/queue.h:55-60 | QUEUE_INIT makes `q` an empty queue (a self-cycle); no other queue and no ownership changes; the arena invariant (every `next`/`prev` pair inverse, every sentinel's contents linked in order) is kept. |
| Queue.InitStep | src/queue.h:55-60 | The two writes of QUEUE_INIT keep the arena invariant and give `q` the contents `[]`. |
| Queue.Arena.IsEmpty | src/queue.h:43-45 | QUEUE_EMPTY is true exactly when the sentinel's contents are empty. |
| Queue.Arena.Head | src/queue.h:47-49 | QUEUE_HEAD is the first element, or the sentinel itself for an empty queue. |
| Queue.Arena.Next | src/queue.h:26 | QUEUE_NEXT of a queued element is its successor in its queue, or the sentinel after the last one. |
| Queue.Arena.ForEach | src/queue.h:37-41 | Walking `next` from the sentinel visits exactly the queue's contents, each once, in order. |
| Queue.Arena.InsertHead | src/queue.h:103-110 | QUEUE_INSERT_HEAD: contents become `[q] + old`; `q` is owned by `h`; every other queue is unchanged; the invariant is kept. |
| Queue.InsertHeadStep | src/queue.h:103-110 | The four pointer writes of QUEUE_INSERT_HEAD keep the arena invariant with the new contents. |
| Queue.Arena.InsertTail | src/queue.h:112-120 | QUEUE_INSERT_TAIL: contents become `old + [q]`; `q` is owned by `h`; every other queue is unchanged; the invariant is kept. |
| Queue.InsertTailStep | src/queue.h:112-120 | The four pointer writes of QUEUE_INSERT_TAIL keep the arena invariant with the new contents. |
| Queue.Arena.Remove | src/queue.h:122-128 | QUEUE_REMOVE deletes exactly `q` from its queue, the others keep their order, and `q`'s own links are left stale (unchanged). |
| Queue.RemoveStep | src/queue.h:122-128 | The two writes of QUEUE_REMOVE keep the arena invariant with `q` removed at its index; a queued `q` is never a self-cycle. |
| Queue.Arena.Unlink | src/queue.h:122-128 | QUEUE_REMOVE on a queued link removes it as above; on a self-cycle it changes nothing. |
| Queue.Arena.Split | src/queue.h:78-88 | QUEUE_SPLIT: `h` keeps the elements before `q`, `n` receives `q` and everything after it, ownership follows. |
| Queue.SplitStep | src/queue.h:78-88 | The six pointer writes of QUEUE_SPLIT keep the arena invariant with the two halves. |
| Queue.Arena.Move | src/queue.h:90-101 | QUEUE_MOVE: `n` receives all of `h`'s elements in order and `h` is left empty; for an empty `h`, `n` is simply initialised empty. |
| Queue.Arena.Add | src/queue.h:62-75 | QUEUE_ADD: `h`'s contents become `h + n` and `n` is detached; `n`'s elements are now owned by `h`. |
| Queue.AddStep | src/queue.h:62-75 | The four pointer writes of QUEUE_ADD keep the arena invariant with the concatenated contents. |
| LoopWatcher.Watchers.Init | src/unix/loop-watcher.c:36-40 | init sets the callback to NULL, returns 0, and leaves the handle inactive. |
| LoopWatcher.Watchers.Start | src/unix/loop-watcher.c:42-49 | start on an active handle returns 0 and changes nothing; with a NULL callback returns UV_EINVAL and changes nothing; otherwise puts the handle at the head of the queue, stores the callback and makes it active. |
| LoopWatcher.Watchers.Stop | src/unix/loop-watcher.c:51-56 | stop on an inactive handle is a no-op returning 0; otherwise removes exactly that handle from the queue and makes it inactive. |
| LoopWatcher.Watchers.Close | src/unix/loop-watcher.c:72-74 | close has exactly the effect of stop. |
| LoopWatcher.Watchers.Run | src/unix/loop-watcher.c:58-70 | uv__run_* invokes every handle queued on entry once, front first, and the queue ends in the order it began. |
| LoopWatcher.Watchers.Requeue | src/unix/loop-watcher.c:62-66 | One turn of the run loop moves the front of the local queue to the tail of the loop queue. |
| LoopWatcher.StartThenStop | src/unix/loop-watcher.c:42-56 | Composing the queue contents `Start` ensures (head insert) with those `Stop` ensures (removal) returns the queue it started from. |
| Async.Code | src/unix/async.c:104-107 | The stored integers of the three `pending` states: 0 exactly for not pending, 2 exactly for pending and posted. |
| Async.Handles.Register | src/unix/async.c:54-56 | The handle part of uv_async_init: callback stored, `pending` 0, handle active. |
| Async.Handles.SendClaim | src/unix/async.c:68-79 | The cheap read and the 0 to 1 swap: the caller wins exactly when `pending` was 0, and only the winner changes `pending` (to 1). |
| Async.Handles.SendPost | src/unix/async.c:81-82 | The winner's write makes the wakeup readable. |
| Async.Handles.SendFinish | src/unix/async.c:85-87 | The winner's 1 to 2 swap always finds 1, so the abort is unreachable; `pending` becomes 2. |
| Async.Handles.Send | src/unix/async.c:67-90 | uv_async_send returns 0 at any moment of the loop thread; a pending handle (or one held by another sender) is left alone; a non-pending one ends pending (2) with the wakeup posted; no posted wakeup is lost. |
| Async.AsyncLoop.Send | src/unix/async.c:67-90 | A send from another thread, between passes or between two turns of a pass, leaves the handle pending and keeps both the resting invariant and the mid-pass invariant (a visited handle that is pending has the eventfd readable). |
| Async.Handles.SenderStep | src/unix/async.c:78-87 | One step of the in-flight sender, interleaved with the loop thread, keeps the handle state coherent and never loses a posted wakeup. |
| Async.Handles.Spin | src/unix/async.c:94-123 | uv__async_spin returns 2 exactly when the handle was pending, otherwise 0 (never 1); afterwards `pending` is 0 and no sender is in flight, whatever sender steps it waited for. |
| Async.Handles.Drain | src/unix/async.c:142-158 | The eventfd read loop consumes the whole count: no wakeup is left posted. |
| Async.AsyncLoop.Start | src/unix/async.c:219-248 | uv__async_start does nothing once the eventfd exists; otherwise a failed eventfd returns its error and changes nothing, and a successful one is watched with no separate write end. |
| Async.AsyncLoop.Stop | src/unix/async.c:261-274 | uv__async_stop leaves both descriptors at -1 and the watcher stopped, so a second call changes nothing. |
| Async.AsyncLoop.Init | src/unix/async.c:47-62 | uv_async_init returns the eventfd error unchanged with nothing registered, or appends the handle at the tail of `async_handles` with `pending` 0 and the callback, active. |
| Async.AsyncLoop.Io | src/unix/async.c:133-179 | uv__async_io during which no other thread sends leaves `async_handles` with the same handles in the same order, runs exactly the callbacks `Fired` names (handles pending on entry with a callback, in queue order), and leaves every `pending` at 0. |
| Async.AsyncLoop.BeginPass | src/unix/async.c:142-159 | The eventfd is drained and every handle moves, in order, to the local queue; the mid-pass invariant holds with nothing visited. |
| Async.AsyncLoop.PassDone | src/unix/async.c:160 | Once the local queue is empty, the mid-pass invariant is the resting invariant again: every pending handle has the eventfd readable, so a send that came after its handle's visit is seen by the next uv__async_io. |
| Async.AsyncLoop.Pass | src/unix/async.c:160-178 | The rotation with no send in between: all handles requeued in order, callbacks as `Fired`, each visited handle settled. |
| Async.AsyncLoop.Visit | src/unix/async.c:161-177 | One turn, with any sends before it: the front handle is requeued, spun on, and its callback runs exactly when it is pending at that turn and has a callback; only that handle's state changes, and the mid-pass invariant is kept. |
| Async.AsyncLoop.Requeue | src/unix/async.c:162-166 | The front handle of the local queue moves to the tail of `async_handles`. |
| Async.AsyncLoop.Close | src/unix/async.c:126-130 | uv__async_close waits for `pending` to settle to 0, then removes exactly that handle from the queue and stops it. |
| Async.FiredMembers | src/unix/async.c:171-177 | In a pass with no send in between, a handle's callback runs exactly when it was queued, pending on entry and has a callback. |
| Async.FiredOnce | src/unix/async.c:160-177 | No callback runs twice in one pass, however many sends preceded it. |
| Async.PassStep | src/unix/async.c:161-177 | Visiting the next handle extends the fired list, the settled state and the posted flag by that handle's contribution. |
| SignalMsg.LittleEndianRoundTrip | src/unix/signal.c:34-37 | Reading back the little-endian bytes of a number that fits gives the number. |
| SignalMsg.Encode | src/unix/signal.c:232-238 | The message the handler writes is 16 bytes. |
| SignalMsg.Decode | src/unix/signal.c:546-547 | Any 16 bytes read as a message give a 64-bit handle address and a 32-bit signal number. |
| SignalMsg.RoundTrip | src/unix/signal.c:232-238 | Decoding the bytes the handler wrote gives back the handle and the signal number. |
| SignalMsg.FrameEncodeAll | src/unix/signal.c:543-547 | Cutting the written bytes into 16-byte messages recovers exactly the messages written, in order. |
| SignalMsg.FrameConcat | src/unix/signal.c:543-547 | Framing distributes over byte strings made of whole messages. |
| SignalTree.Compare | src/unix/signal.c:575-602 | uv__signal_compare returns -1, 0 or 1, and 0 exactly for the same handle. |
| SignalTree.CompareAntisymmetric | src/unix/signal.c:575-602 | Swapping the arguments negates the comparison. |
| SignalTree.CompareTransitive | src/unix/signal.c:575-602 | The order is transitive, so with the two contracts above it is a strict total order. |
| SignalTree.Insert | src/unix/signal.c:466 | RB_INSERT keeps the tree sorted and adds exactly the new entry. |
| SignalTree.Remove | src/unix/signal.c:629 | RB_REMOVE keeps the tree sorted and removes exactly the entry, or changes nothing if it is absent. |
| SignalTree.RemoveInsert | src/unix/signal.c:629 | RB_REMOVE of an entry just inserted by RB_INSERT (line 466) gives the tree back. |
| SignalTree.NFind | src/unix/signal.c:199 | RB_NFIND's position: every entry before it is below the lookup key, the entry at it is not. |
| SignalTree.FirstIndex | src/unix/signal.c:193-199 | The lookup key (flags 0, NULL loop) finds the first entry whose number is not below `signum`. |
| SignalTree.FirstHandleLeast | src/unix/signal.c:189-205 | uv__signal_first_handle returns the least entry with the number, NULL exactly when there is none, and a one-shot first handle means all handles with that number are one-shot. |
| SignalTree.InsertFirst | src/unix/signal.c:466 | After an insertion the first handle of the number is the smaller of the new entry and the old first handle. |
| SignalTree.RemoveFirst | src/unix/signal.c:629-637 | Before a removal the first handle of the number was the smaller of the removed entry and the first one left. |
| SignalTree.MatchingMembers | src/unix/signal.c:223-225 | The entries the handler walks are exactly those registered with the number. |
| SignalTree.MatchingIsRun | src/unix/signal.c:223-225 | Those entries are the contiguous run that starts at the first handle, as the RB_NEXT walk visits them. |
| Signal.StopKeeps | src/unix/signal.c:612-654 | uv__signal_stop keeps the registry invariant (tree holds exactly the started handles under their keys, installed handler present exactly for numbers with handles, pipes well-formed). |
| Signal.StopKeepsExact | src/unix/signal.c:637-647 | uv__signal_stop keeps the installed handler one-shot exactly when the first remaining handle is one-shot. |
| Signal.StartKeeps | src/unix/signal.c:401-474 | uv__signal_start keeps the registry invariant, including the EINVAL paths (signum 0, handler registration refused). |
| Signal.StartCorrectedKeepsExact | src/unix/signal.c:448-463 | With the one-shot flag set from the request, start keeps the installed handler following the first handle. |
| Signal.StickyOneShotAsWritten | src/unix/signal.c:461-463 | As written, a handle started one-shot, stopped, and started persistent is still one-shot: the handler is installed persistent while the first handle is one-shot, and the first signal stops it. |
| Signal.Registry.constructor | src/unix/signal.c:56-58 | An empty tree, default dispositions, no handle and no loop pipe. |
| Signal.Registry.RegisterHandler | src/unix/signal.c:255-276 | sigaction succeeds exactly for catchable numbers and installs the requested kind; otherwise UV_EINVAL and nothing changes. |
| Signal.Registry.Init | src/unix/signal.c:363-379 | uv_signal_init: the loop's pipe is created if missing (its error is returned and nothing changes), then the handle is registered stopped with cleared counters; the invariant is kept. |
| Signal.InitKeeps | src/unix/signal.c:363-379 | uv_signal_init succeeds exactly when the pipe exists or can be created, and then leaves a stopped handle and the tree and handlers untouched. |
| Signal.Registry.Stop | src/unix/signal.c:605-654 | uv_signal_stop: a stopped handle is left alone; otherwise its entry leaves the tree, the handler is removed when no handle is left, re-registered one-shot when only one-shot handles are left after a persistent one, and `signum` becomes 0. |
| Signal.Registry.Install | src/unix/signal.c:401-474 | uv__signal_start: signum 0 is refused; the same number only replaces the callback; otherwise the handle is stopped, the handler is installed when no handle exists or a persistent start meets one-shot handles (failing with its error), the entry is inserted and the handle made active. |
| Signal.Registry.Start | src/unix/signal.c:387-389 | uv_signal_start is uv__signal_start as written with a persistent request; the invariant is kept. |
| Signal.Registry.StartOneShot | src/unix/signal.c:392-396 | uv_signal_start_oneshot is uv__signal_start as written with a one-shot request; the invariant is kept. |
| Signal.Registry.StartCorrected | src/unix/signal.c:461-463 | uv__signal_start with the flag set to the request rather than only ever set; the invariant is kept. |
| Signal.Registry.WriteMessage | src/unix/signal.c:231-246 | One write of the handler: appended and counted in `caught_signals` when the pipe has room, otherwise nothing changes. |
| Signal.Registry.Handler | src/unix/signal.c:209-252 | uv__signal_handler writes for the registered entries of the number in tree order, keeping the invariant. |
| Signal.Registry.FanOut | src/unix/signal.c:223-247 | The handler's loop over the run of matching entries performs exactly their writes, in order. |
| Signal.HandlerKeeps | src/unix/signal.c:209-252 | The entries registered for the number can be written for and the writes keep the invariant. |
| Signal.DeliverKeeps | src/unix/signal.c:223-247 | Any sequence of writes for registered entries keeps the invariant. |
| Signal.DeliverLength | src/unix/signal.c:223-247 | With room in the pipe, loop `l`'s pipe grows by 16 bytes per entry of `l`, and by at most one message per entry. |
| Signal.DeliverFanout | src/unix/signal.c:223-247 | With room in the pipe, the handler appends exactly one `{handle, signum}` message per entry of that loop, in tree order, keeping the pipe whole messages. |
| Signal.WholeBytes | src/unix/signal.c:545 | `end` is the byte count rounded down to a multiple of 16. |
| Signal.DispatchOne | src/unix/signal.c:548-560 | Handling one message keeps the tree sorted, the pipes and every handle's loop. |
| Signal.Registry.Dispatch | src/unix/signal.c:548-560 | One message: the callback fires exactly when the number still matches, `dispatched_signals` is counted, a one-shot handle is stopped; the invariant is kept. |
| Signal.DispatchKeeps | src/unix/signal.c:548-560 | Handling a message keeps the invariant and the installed handler following the first handle. |
| Signal.RunKeeps | src/unix/signal.c:547-560 | Handling any sequence of messages keeps the invariant and the installed handler following the first handle. |
| Signal.OneShotFiresOnce | src/unix/signal.c:551-559 | A one-shot handle's callback runs at most once however many messages name it, it is stopped once it has run, and its flag stays. |
| Signal.DispatchOneShot | src/unix/signal.c:551-559 | For one message, a firing one-shot handle is stopped and a stopped one-shot handle does not fire. |
| Signal.EventSpec | src/unix/signal.c:508-572 | uv__signal_event handles every message in the pipe in order and leaves the pipe empty, keeping the invariant. |
| Signal.Registry.Event | src/unix/signal.c:508-572 | The reader loop over a 512-byte buffer has exactly the effect of `EventSpec`. |
| Signal.Registry.ReadMessages | src/unix/signal.c:520-570 | One read into the buffer and the dispatch of its whole messages advance the handled prefix; a short read means the pipe is drained. |
| Signal.StopAllStops | src/unix/signal.c:344-349 | Stopping every signal handle on the loop's handle queue keeps the invariant, and keeps the disposition following the first handle of each number. |
| Signal.StopAllStopsQueued | src/unix/signal.c:344-349 | After the pass every signal handle on the queue is stopped. |
| Signal.StopAllKeepsStopped | src/unix/signal.c:344-349 | The cleanup pass never restarts a handle: a stopped or closed one stays stopped. |
| Signal.Cleanup | src/unix/signal.c:335-360 | When the queue holds every started handle of the loop (closed handles have left it), no tree entry of that loop is left and closing its pipe keeps the invariant. |
| Signal.Registry.LoopCleanup | src/unix/signal.c:335-360 | uv__signal_loop_cleanup stops every signal handle on the queue, in order, then forgets the loop's pipe; when the queue holds every started handle of the loop, no entry of that loop remains. |
| Epoll.Deliver | src/unix/epoll.c:386-405 | The delivered mask lies within the interest plus ERR and HUP, is empty exactly when the restricted mask is, and a bare ERR or HUP is widened with exactly the watcher's read/write/RDHUP/PRI interest. |
| Epoll.Invalidated | src/unix/epoll.c:64-68 | Every result slot for the descriptor gets fd -1; every other slot is unchanged. |
| Epoll.Loop.InvalidateFd | src/unix/epoll.c:53-83 | uv__platform_invalidate_fd edits the visible results in place as `Invalidated` says, leaves the rest of the array alone, and removes the descriptor from the interest list. |
| Epoll.DispatchCalls | src/unix/epoll.c:357-420 | Every callback of a batch is for a watcher other than the signal watcher, found through a live result, with a non-empty mask within interest and errors; results with fd -1 or no watcher run nothing; a batch with no events ran nothing. |
| Epoll.InvalidatedSilent | src/unix/epoll.c:361-363 | After invalidation the rest of the batch runs nothing for that descriptor's watcher. |
| Epoll.Loop.RunBatch | src/unix/epoll.c:340-420 | One batch: the results become visible to invalidation, are dispatched in order, and unwatched descriptors leave the interest list. |
| Epoll.Loop.Ctl | src/unix/epoll.c:194-203 | epoll_ctl ADD fails with EEXIST on a registered descriptor, MOD with ENOENT on an unregistered one; otherwise the mask is registered. |
| Epoll.Loop.Register | src/unix/epoll.c:160-205 | One drained watcher is registered with ADD when `events` is empty, else MOD, an EEXIST on ADD retried as MOD; then `events` becomes `pevents`. |
| Epoll.Loop.Drain | src/unix/epoll.c:149-206 | After the drain the watcher queue is empty, each drained watcher is a self-cycle with `events == pevents`, and the kernel watches each with its requested mask. |
| Epoll.Synced | src/unix/epoll.c:205 | Drained watchers end with `events == pevents`, the others untouched. |
| Epoll.RegisteredAt | src/unix/epoll.c:160-205 | After the drain each drained descriptor is registered with its watcher's mask and every other one is as before. |
| Epoll.Cap | src/unix/epoll.c:253-254 | The timeout handed to the kernel is capped at 1789569 on a 32-bit `long`, and otherwise unchanged. |
| Epoll.Loop.Poll | src/unix/epoll.c:107-463 | uv__io_poll returns at once when no descriptor is watched (the queue then being empty); otherwise drains the registrations and polls with the outcome `PollSpec` gives. |
| Epoll.Loop.Wait | src/unix/epoll.c:243-462 | The `for (;;)` loop has exactly the outcome `PollSpec` gives, and the loop time is that of the last wait. |
| Epoll.Loop.PollOnce | src/unix/epoll.c:247-461 | One turn: capped wait, time update, batch, then return, non-blocking re-poll, wait again, or wait for the time left, as `Round` says. |
| Epoll.PollCapped | src/unix/epoll.c:219-254 | Every timeout handed to the kernel is at least -1, and at most 1789569 on a 32-bit `long`. |
| Epoll.PollWaits | src/unix/epoll.c:243-254 | The poll waits once per turn, and stops before the waits run out only by returning. |
| Epoll.SignalLast | src/unix/epoll.c:411-437 | The signal watcher's callback runs at most once, after every other callback, and the poll returns right after it. |
| Epoll.RepollOnlyWhenFull | src/unix/epoll.c:439-446 | Only a full batch of 1024 results that ran events is followed by another wait, a non-blocking one. |
| Epoll.RepollBudgetBound | src/unix/epoll.c:439-445 | With `count` starting at 48 (line 221), once a turn has run events the poll waits at most 48 times counting that turn. |
| Epoll.QuietRound | src/unix/epoll.c:448-452 | A turn that runs no events keeps `count`, and with a zero timeout returns. |
| Epoll.TimeoutHonoured | src/unix/epoll.c:454-461 | With the elapsed time measured from the previous update, a poll that returns without a callback has waited the whole requested timeout. |
| Epoll.EarlyReturnAsWritten | src/unix/epoll.c:454-461 | As written, a request of three times the cap on a 32-bit `long` returns after two capped waits, with only two thirds elapsed; corrected, it waits all three. |
| Process.InitStdio | src/unix/process.c:124-158 | IGNORE returns 0 with `fds` untouched; CREATE_PIPE needs a named pipe (else UV_EINVAL) and returns uv_socketpair's result; an inherit flag with fd -1 returns UV_EINVAL, else sets `fds[1]` and returns 0; any other combination is UV_EINVAL; errors never change `fds`. |
| Process.ConflictingDispositions | src/unix/process.c:130-156 | A container asking for two dispositions at once is refused with UV_EINVAL. |
| Process.HandleFlags | src/unix/process.c:176-180 | A writable pipe for the child is readable for the parent and a readable one writable, and no other flag is set. |
| Process.OpenStream | src/unix/process.c:161-183 | Nothing happens unless the container creates a pipe and has a parent's end; otherwise the child's end is closed and the parent's end is opened with the swapped directions, returning uv__stream_open's result. |
| Process.CreatedPipeIsOpened | src/unix/process.c:134-182 | A created pipe, once set up, is opened on the parent's end with the child's end closed and the directions mirrored. |
| Process.OnlyPipesAreOpened | src/unix/process.c:166-167 | Containers that do not create a pipe are left alone by uv__process_open_stream. |
| Process.ExitStatus | src/unix/process.c:106-108 | The exit status is a byte, and 0 unless the child exited normally. |
| Process.TermSignal | src/unix/process.c:110-112 | The terminating signal is 0 exactly when the child was not killed by a signal. |
| Process.ExitedRoundTrip | src/unix/process.c:106-112 | A child that exited with a code is reported with that code and no signal. |
| Process.KilledRoundTrip | src/unix/process.c:106-112 | A child killed by a signal, with or without a core dump, is reported with that signal and exit status 0. |
| Process.StoppedIsNeither | src/unix/process.c:106-112 | A stopped-child status is reported as neither exited nor killed. |
| Process.NeverBoth | src/unix/process.c:106-112 | No status is reported with both a nonzero exit status and a signal. |
| Process.SplitMembers | src/unix/process.c:71-91 | The reaped processes are exactly those waitpid reports as exited; the kept ones exactly the others (running, or ECHILD). |
| Process.SplitPermutes | src/unix/process.c:71-91 | Reaped and kept together are a permutation of the queue. |
| Process.SplitDistinct | src/unix/process.c:71-91 | Both halves keep the queue's distinctness. |
| Process.CollectedStatus | src/unix/process.c:88 | Every reaped process stores the status waitpid reported; no other status changes. |
| Process.ReapedKnown | src/unix/process.c:88-90 | The reaped processes are distinct, each with a callback slot and a stored status. |
| Process.Exits | src/unix/process.c:103-114 | Each invocation is of the process's own callback with the decoded exit status and signal. |
| Process.ExitsOnce | src/unix/process.c:95-115 | Every reaped process with a callback has it invoked exactly once, and no other callback runs. |
| Process.Processes.Spawned | src/unix/process.c:377-525 | The bookkeeping of uv_spawn: link re-inited, SIGCHLD watcher started, a child whose exec succeeded queued at the tail and made active, pid and callback stored either way, the exec error returned. |
| Process.Processes.Link | src/unix/process.c:519-521 | QUEUE_INIT of the process link (line 378), then QUEUE_INSERT_TAIL onto `process_handles` when queued. |
| Process.Processes.Close | src/unix/process.c:568-573 | uv__process_close removes and stops the handle, and the SIGCHLD watcher stops exactly when no process is left queued. |
| Process.Processes.Chld | src/unix/process.c:53-117 | uv__chld: exited processes store their status and leave the queue in order, the others stay in order; each reaped one becomes a stopped self-cycle, its callback runs once with the decoded status; `pending` ends empty. |
| Process.Processes.SortAll | src/unix/process.c:69-91 | The first loop moves exactly the exited processes, in order, to `pending`, keeps the rest in order, and stores their statuses. |
| Process.Processes.Sort | src/unix/process.c:72-90 | One turn of the first loop advances the split by one process. |
| Process.Processes.ReleaseAll | src/unix/process.c:93-116 | The second loop makes every pending process a stopped self-cycle, runs the callbacks `Exits` names, and empties `pending`. |
| Process.Processes.Release | src/unix/process.c:96-101 | One turn of the second loop: the process leaves `pending`, becomes a self-cycle and is stopped. |

## Left out

- Callbacks are opaque and do not change the loop: a callback that starts, stops or closes handles during a pass is not modelled (the source itself calls mutation during QUEUE_FOREACH undefined).
- `QUEUE_DATA` pointer arithmetic is an identity: a handle is its link slot's index.
- Kernel and library calls are oracles supplied as parameters: `waitpid`, `eventfd`, `epoll_wait`/`epoll_pwait`, `uv_socketpair`, `uv__stream_open`, `uv__make_pipe`; `uv__close`, `uv__nonblock` and `sigaction` side effects beyond the modelled state are not modelled.
- Aborts on errors the source treats as impossible (waitpid errors other than ECHILD, an `epoll_ctl` failure other than EEXIST, failed pipe reads and writes, `pthread_sigmask` failures) are not modelled: the oracles cannot return them.
- EINTR retry loops around `waitpid`, `read` and `write` are collapsed into their final result.
- `uv_spawn` and `uv__process_child_init` (fork, exec, dup2, setuid, chdir, the exec-error pipe) are reduced to the queue and handle bookkeeping of `Process.Processes.Spawned`; `uv__process_close_stream`, `uv_process_kill` and `uv_kill` are not modelled.
- The SIGCHLD `child_watcher` is a boolean `watching`; its own signal-registry entry is not linked to the `Signal` model.
- Process.InitStdio: the `assert(0 && "Unexpected flags")` default case is modelled as the release-build UV_EINVAL return.
- Process.Processes.SortAll: statuses are written to a local map during the first loop and stored once after it; the resulting `status` map is the same as the source's per-process writes.
- Async.AsyncLoop.Io: its `calls` and all-idle results are stated for a pass during which no other thread sends; a pass with sends between turns is `BeginPass`, then `Visit` and `AsyncLoop.Send` in any order, whose contracts say what each turn runs.
- Async.AsyncLoop.Pass: the rotation as one loop covers only the pass with no send in between, for the same reason.
- Async.FiredMembers: describes the pass with no send in between; with sends, `Visit` states per turn that the callback runs exactly when the handle is pending at that turn.
- Async: another thread's send enters a pass only as a whole `uv_async_send` between two turns; a sender caught part way through is modelled only on the handle being spun on, where `Spin` drives it to completion.
- Async: memory ordering, `cpu_relax`, `sched_yield` and the 997-iteration inner loop of `uv__async_spin` are not modelled; each compare-and-swap is an atomic step and the eventfd is the flag `wakeupPosted`.
- Async: `uv__async_send`'s write and its EAGAIN handling, the pipe fallback of `uv__async_start` on non-Linux systems, and `uv__async_fork` are not modelled.
- Signal: the signal lock pipe, `pthread_atfork` re-initialisation, signal blocking around the lock, `uv__signal_global_init`/`uv__signal_cleanup` and `uv__signal_loop_fork` are not modelled; every operation is assumed to run alone.
- Signal: the kernel's SA_RESETHAND reset of a one-shot handler after it fires is not modelled; the installed-handler map only changes through sigaction.
- Signal: the catchable numbers are those of Linux with glibc (1 to 64 except SIGKILL, SIGSTOP, 32 and 33); the pipe capacity is Linux's default 65536 bytes.
- Signal: the partial-message path of `uv__signal_event` (a read ending inside a message, then `memmove` and spin) cannot happen because the handler writes whole messages; the model proves the pipe only ever holds whole messages and does not model a torn read.
- Signal: `uv__signal_close` and `uv_signal_stop` are the same stop as `Signal.Registry.Stop`; closing flags (`UV_HANDLE_CLOSING`) are not modelled.
- Epoll: the ENOSYS fallback between `epoll_wait` and `epoll_pwait`, SIGPROF blocking, idle-time metrics (`reset_timeout`, `user_timeout`), `uv__epoll_init` and `uv__io_check_fd` are not modelled.
- Epoll.Loop.Wait: the poll is observed over a finite sequence of waits; a poll that would go on waiting after the last one is reported as not returned.
- include/uv.h, src/uv-common.h and src/unix/internal.h are not part of this model; the constants taken from them (error codes, flag bits, poll bits) are stated with their Linux values.

## Findings

| source | as written | input that shows it | evidently intended | confidence | as-written member | corrected member |
|---|---|---|---|---|---|---|
| src/unix/signal.c:461-652 | `UV_SIGNAL_ONE_SHOT` is only ever set by a start and never cleared by stop or by a later persistent start | `uv_signal_start_oneshot(h, cb, SIGINT)`, `uv_signal_stop(h)`, `uv_signal_start(h, cb, SIGINT)`: `h` still sorts and dispatches as one-shot, the handler is installed persistent while the first handle is one-shot, and the first SIGINT stops `h` | a persistent start leaves the handle persistent (the flag follows the request) | medium, not executed | Signal.StickyOneShotAsWritten | Signal.StartCorrectedKeepsExact |
| src/unix/epoll.c:220, 457-461 | `base` is read once at entry, so each update subtracts the whole time elapsed since entry from the already reduced `real_timeout` | 32-bit `long`, `timeout = 3 * 1789569`, and two waits that each time out after 1789569 ms: after the second, `real_timeout` is 0 and the poll returns with only two thirds of the timeout elapsed | subtract only the time since the previous update (move `base` to the current loop time after each update), so the full timeout elapses | medium, not executed | Epoll.EarlyReturnAsWritten | Epoll.TimeoutHonoured |
