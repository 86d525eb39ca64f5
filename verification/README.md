# lua-lluv: stream buffers, handle lifetime, deferred calls, file reads, socket receive

lua-lluv binds libuv to Lua. Most of it passes calls on to libuv. This project models the parts that have
state of their own and proves what they promise, for every input, every run and every answer of libuv.

| files | what they model |
|---|---|
| `LuaStrings.dfy`, `Seqs.dfy`, `Wrappers.dfy` | Lua byte strings, `string.find` with a plain terminator or the pattern `\r*\n`, `split` |
| `LuaLists.dfy` | `List` of utils.lua: a deque over a sliding window of a sparse table |
| `ChunkLists.dfy`, `LineLaws.dfy`, `BufferOps.dfy` | what the operations of `Buffer` do to a list of chunks, and how that relates to one flat byte string |
| `Buffers.dfy` | the class `Buffer` of utils.lua, proved against those functions |
| `CofsFiles.dfy` | the positioned file reader of cofs.lua under any schedule of short or failing reads |
| `DeferLists.dfy`, `DeferLoops.dfy`, `BreadthFirst.dfy` | the C deque, the deferred-call rounds of a loop, and their order |
| `HandleMemory.dfy`, `HandleObjects.dfy` | lock mask, request counter, callback slots, registry reference of a handle, and a trace of what is done to its requests: as functions, and as the C objects that change in place |
| `HandleSystem.dfy`, `HandleInvariant.dfy`, `HandleLives.dfy`, `HandleTheorems.dfy` | one handle, libuv, Lua code and the garbage collector as a transition system, its invariant, the lives of requests, and what follows |
| `HandleLocks.dfy`, `HandleLeaks.dfy`, `HandleHistory.dfy` | exactly when a handle is locked, exactly when it leaks a reference, and which callbacks are called, read off the steps alone |
| `ReadBuffers.dfy` | the static read buffer of a loop and its heap replacements |
| `TcpSystem.dfy`, `TcpTheorems.dfy`, `TcpHistory.dfy`, `TcpEndings.dfy`, `TcpSocks.dfy` | `TcpSock:receive` as a coroutine woken by deliveries, timeouts, errors and interrupts, and what its answers must be, read off the events alone |

Code that changes fields step by step is a class whose methods change the same fields; each method is proved
against a function of the old state, and the theorems are about those functions. Ghost fields record runs.
A coroutine or callback is cut at its yields. Everything libuv, the operating system, the heap or `luaL_ref`
may answer is a parameter or a step of the environment: error codes, short reads, which reference number is
free, when the collector runs.

Where the code and its documentation or comments disagree, the model follows the code:

- A comment in `read_line` calls the search of the last chunk a shortcut (src/lua/lluv/utils.lua:538). For a
  plain terminator longer than one byte it also changes the answer: with terminator CR LF, the chunks
  "a CR" and "LF b CR LF" give the line "a CR LF b". `LineLaws.PlainReadLine` says exactly when this happens.
- The documentation says that a handle is locked while a callback is planned (doc/lluv.ldoc:621). For
  streams that is exact: READ is held exactly while the stream reads. `lluv_timer_stop` sets the START lock
  instead of clearing it (src/lluv_timer.c:87), so a timer holds START while it is active or stale, that is,
  after a successful `stop`, or an `again` that leaves it not running, until it starts, runs or fires again.
  `HandleLocks.LockedExactlyWhile` proves this over every run, `HandleLocks.StaleIsReachable` reaches it.

Behaviour that a caller may not expect, stated exactly:

- Starting a timer, a read or a listener overwrites the callback slot without releasing what it held
  (src/lluv_timer.c:59, src/lluv_stream.c:296, src/lluv_stream.c:133). Over every run a handle leaks a reference
  exactly when something is started while its slot is taken (`HandleLeaks.LeaksExactlyByOverwriting`).
- When a socket ends, the bytes it has buffered are handed over exactly if the coroutine is suspended in
  `receive` and is woken; otherwise no later call returns them (`TcpEndings.BytesAtTheEnd`).
- `receive` with `"*a"` never looks at the caller's prefix (`TcpEndings.AllIgnoresPrefix`).

## Model

| member | source | states |
|---|---|---|
| LuaStrings.Split | src/lua/lluv/utils.lua:13-26 | the loop of `split` yields the pieces between the leftmost matches of the separator, without an empty last piece |
| LuaStrings.SplitLosesOnlyTerminators | src/lua/lluv/utils.lua:13-26 | joining the pieces with the separator gives the string back, up to one separator at its end, and no piece contains the separator |
| LuaStrings.CrStarLfStopsAtFirstLf | src/lua/lluv/luasocket.lua:229 | the pattern `\r*\n` matches iff there is an LF; the match ends just after the first LF and begins at the run of CR before it |
| LuaStrings.SplitFirst | src/lua/lluv/utils.lua:447-462 | line, terminator bytes and tail account for the whole string, and there is no result exactly when there is no match |
| LuaLists.List.PushFront | src/lua/lluv/utils.lua:173-178 | the new element comes before the old sequence, and every slot outside the window is nil |
| LuaLists.List.PushBack | src/lua/lluv/utils.lua:180-185 | the new element comes after the old sequence |
| LuaLists.List.PeekFront | src/lua/lluv/utils.lua:187-189 | the first element; nil exactly when the list is empty |
| LuaLists.List.PeekBack | src/lua/lluv/utils.lua:191-193 | the last element; nil exactly when the list is empty |
| LuaLists.List.PopFront | src/lua/lluv/utils.lua:195-203 | takes the first element and leaves the others; nil and no change when empty |
| LuaLists.List.PopBack | src/lua/lluv/utils.lua:205-213 | takes the last element and leaves the others; nil and no change when empty |
| LuaLists.List.Size | src/lua/lluv/utils.lua:215-217 | the length of the sequence |
| LuaLists.List.Empty | src/lua/lluv/utils.lua:219-221 | whether the sequence is empty |
| LuaLists.List.Find | src/lua/lluv/utils.lua:223-231 | with a test function: the least position from `pos` on that passes, and the element there, or nil when none does; before the first position the function sees nil |
| LuaLists.List.FindValue | src/lua/lluv/utils.lua:232-239 | with a value: the least position from `pos` on that holds it, or nil when none does |
| LuaLists.List.CloseFromLeft | src/lua/lluv/utils.lua:253-257 | shifting the left part over a slot removes exactly that element and leaves the freed slot nil |
| LuaLists.List.CloseFromRight | src/lua/lluv/utils.lua:258-263 | shifting the right part over a slot removes exactly that element and leaves the freed slot nil |
| LuaLists.List.OpenToLeft | src/lua/lluv/utils.lua:279-284 | shifting the left part away inserts exactly one element at the position |
| LuaLists.List.OpenToRight | src/lua/lluv/utils.lua:285-291 | shifting the right part away inserts exactly one element at the position |
| LuaLists.List.Remove | src/lua/lluv/utils.lua:242-266 | returns the element at `pos` counted from the front, or at -`pos` from the end, and removes it, whichever side is shifted; nil and no change out of range |
| LuaLists.List.Insert | src/lua/lluv/utils.lua:268-294 | inserts before the element at `pos` counted from the front, or at -`pos` from the end, whichever side is shifted; refuses exactly 0 and positions out of range |
| LuaLists.Positions | src/lua/lluv/utils.lua:245-275 | the positions taken: for `remove` all but 0 from -size to size, for `insert` also size + 1; others change nothing |
| LuaLists.RemovedAt | src/lua/lluv/utils.lua:242-266 | what is left of the sequence, for the k-th element from the front and from the end |
| LuaLists.InsertedAt | src/lua/lluv/utils.lua:268-294 | the new sequence, before the k-th element from the front and from the end |
| LuaLists.RemoveUndoesInsert | src/lua/lluv/utils.lua:242-294 | `remove(pos)` after `insert(pos, v)` with a positive position restores the sequence and returns v |
| LuaLists.NegativeRoundTrip | src/lua/lluv/utils.lua:242-294 | with a negative position the round trip restores the sequence exactly when the element before the inserted one is equal to it |
| ChunkLists.CoalescedKeepsBytes | src/lua/lluv/utils.lua:527-530 | a read that finds no terminator joins the chunks it searched and changes no byte |
| LineLaws.CutAgainstFirstMatch | src/lua/lluv/utils.lua:538-570 | the cut is the first terminator of the flat bytes exactly unless that one straddles into a chunk that holds a whole plain terminator itself |
| LineLaws.PlainReadLine | src/lua/lluv/utils.lua:523-583 | every plain terminator, for `read_line` and `read_line_eol`: nil iff it occurs nowhere, and then no byte changes; otherwise line, terminator and rest rebuild the bytes, and the line ends at the first terminator iff that one does not straddle into a chunk with a terminator of its own |
| LineLaws.FastPathOvershoots | src/lua/lluv/utils.lua:538-557 | a concrete buffer whose line is not the first one of its bytes |
| LineLaws.ReadLineIsFlat | src/lua/lluv/utils.lua:506-575 | for one-byte terminators and `\r*\n`: line and remaining bytes are those of the flat byte string |
| LineLaws.ChunkingDoesNotMatter | src/lua/lluv/utils.lua:506-575 | buffers with equal bytes and different chunks give the same lines and leave the same bytes |
| LineLaws.RunIsPieces | src/lua/lluv/utils.lua:490-579 | over any interleaving of `append` and `read_line`, the lines returned followed by the pieces of what is left and to come are the pieces of the whole stream |
| LineLaws.LinesAreSplitOfStream | src/lua/lluv/utils.lua:13-26 | lines of any run, lines of a final drain, and the leftover if not empty are `split` of everything appended |
| BufferOps.ReadNTakesExactly | src/lua/lluv/utils.lua:602-638 | `read_n` returns the first n bytes iff that many are held; otherwise nothing changes |
| BufferOps.PrependUndoesReadN | src/lua/lluv/utils.lua:498-504 | `prepend` of the result of `read_n` restores the bytes |
| BufferOps.PrependUndoesReadLineEol | src/lua/lluv/utils.lua:581-583 | `prepend` of the result of `read_line_eol` restores the bytes, for every terminator |
| BufferOps.PutBackLineIsReadAgain | src/lua/lluv/utils.lua:498-504 | a line put back with its terminator is read again, and the same bytes remain |
| BufferOps.ReadTakesPrefix | src/lua/lluv/utils.lua:577-650 | every kind of read removes a prefix of the bytes, which is its result, plus one terminator for a plain line read |
| BufferOps.ReadMeans | src/lua/lluv/utils.lua:577-650 | what each pattern returns and leaves: everything, also of an empty buffer; the front chunk, nil iff there is none; n bytes iff held, zero bytes iff not empty; the line up to the first terminator |
| BufferOps.BytesAreConserved | src/lua/lluv/utils.lua:490-650 | over any run with reads of all kinds, `append` and `prepend`: bytes taken, then bytes held, are the tape of all bytes written, with prepended bytes where reading stood |
| BufferOps.FirstInFirstOut | src/lua/lluv/utils.lua:490-650 | without `prepend`, bytes taken, then bytes held, are the initial bytes followed by everything appended |
| Buffers.Buffer.constructor | src/lua/lluv/utils.lua:464-469 | an empty buffer with the given terminator |
| Buffers.Buffer.Reset | src/lua/lluv/utils.lua:471-475 | drops all chunks, `_size` is 0 |
| Buffers.Buffer.SetEol | src/lua/lluv/utils.lua:481-488 | changes the terminator and no byte |
| Buffers.Buffer.Append | src/lua/lluv/utils.lua:490-496 | adds a chunk at the back unless it is empty; `_size` stays the sum of the chunk lengths and no chunk is empty |
| Buffers.Buffer.Prepend | src/lua/lluv/utils.lua:498-504 | adds a chunk at the front unless it is empty; `_size` stays the sum of the chunk lengths |
| Buffers.Buffer.Empty | src/lua/lluv/utils.lua:652-654 | true iff no chunk is held iff `_size` is 0 |
| Buffers.Buffer.SearchLast | src/lua/lluv/utils.lua:538-557 | the fast path: a terminator in the last popped chunk gives the line specified, and one of at most one byte is always found there, so the assertion holds; otherwise nothing changes |
| Buffers.Buffer.SearchPopped | src/lua/lluv/utils.lua:536-570 | one turn of the search: fast path, then slow path; either the line is the one specified, or nothing popped so far holds a terminator |
| Buffers.Buffer.ReadLineWith | src/lua/lluv/utils.lua:506-575 | the whole loop computes the specified line and chunks, keeps `_size` right, and no assertion fails |
| Buffers.Buffer.ReadLine | src/lua/lluv/utils.lua:577-579 | the line without its terminator, as specified |
| Buffers.Buffer.ReadLineEol | src/lua/lluv/utils.lua:581-583 | the line with its terminator, as specified |
| Buffers.Buffer.ReadAll | src/lua/lluv/utils.lua:585-593 | returns all bytes in order and leaves none |
| Buffers.Buffer.ReadSome | src/lua/lluv/utils.lua:595-600 | returns the front chunk, nil iff there is none |
| Buffers.Buffer.GatherN | src/lua/lluv/utils.lua:614-637 | the loop of `read_n` takes exactly n bytes, puts the rest of a chunk back, and its assertion holds |
| Buffers.Buffer.ReadN | src/lua/lluv/utils.lua:602-638 | `read_n` as specified, zero bytes included |
| Buffers.Buffer.Read | src/lua/lluv/utils.lua:640-650 | dispatches on the pattern, and for each pattern returns and leaves what `ReadMeans` says |
| Buffers.Buffer.NextLine | src/lua/lluv/utils.lua:660-666 | appends, then reads a line; a terminator given here is a pattern |
| CofsFiles.File.ReadSome | src/lua/lluv/cofs.lua:155-179 | one read at the position: bytes of the file, and the position moves by their number; nil only at the end; an error exactly when the read fails, and then no move |
| CofsFiles.File.Gather | src/lua/lluv/cofs.lua:186-198 | the loop of `read_n` ends, whatever the schedule, with exactly the bytes asked for or up to the end; it fails exactly when a read fails, at that read, with its error and a prefix of the bytes |
| CofsFiles.File.ReadN | src/lua/lluv/cofs.lua:181-199 | up to one buffer a single, possibly short read; above it exactly the bytes from the position to the lesser of position + n and the end, nil if none |
| CofsFiles.File.ReadAll | src/lua/lluv/cofs.lua:201-203 | everything from the position to the end, nil if nothing; position and result agree |
| CofsFiles.File.Rewind | src/lua/lluv/cofs.lua:217-225 | moving the position back over what was read beyond the terminator gives the line at the start and the position after it |
| CofsFiles.File.ReadLine | src/lua/lluv/cofs.lua:205-227 | for every schedule of short reads: the line and the position depend on file and starting position only; it fails exactly when a read fails, with its error, and no terminator had been passed |
| CofsFiles.File.Lines | src/lua/lluv/cofs.lua:254-260 | iterating ends, and yields `split` of the rest of the file when no read fails, a prefix of it otherwise |
| CofsFiles.LineAtIsFirstPiece | src/lua/lluv/cofs.lua:205-227 | the line at a position is the first piece of the rest, the position moves on, and the remaining pieces are those from the new position |
| CofsFiles.KeptLinesTile | src/lua/lluv/cofs.lua:205-227 | lines read with their terminators are consecutive slices of the file: nothing skipped, nothing read twice |
| CofsFiles.KeptLineIsLine | src/lua/lluv/cofs.lua:223-225 | a line read with its terminator is the line without it, and the terminator if there is one; the position is the same |
| CofsFiles.BytesAtIs | src/lua/lluv/cofs.lua:181-203 | the bytes asked for are those from the position to the lesser of position + n and the end of the file |
| DeferLists.DeferList.PushBack | src/lluv_list.c:71-75 | the C deque appends to its sequence |
| DeferLists.DeferList.PushFront | src/lluv_list.c:65-69 | the C deque adds before its sequence |
| DeferLists.DeferList.PopFront | src/lluv_list.c:77-81 | takes the first element; returns 0 and changes nothing when empty |
| DeferLists.DeferList.PopBack | src/lluv_list.c:83-87 | takes the last element; returns 0 and changes nothing when empty |
| DeferLists.DeferList.PopAt | src/lluv_list.c:46-63 | takes the slot it is given and clears it, nothing when the deque is empty |
| DeferLoops.Loop.DeferCall | src/lluv_loop.c:128-137 | the call goes to the end of the queue; executed calls ++ queue stays every call ever pushed, in push order |
| DeferLoops.Loop.RunCall | src/lluv_loop.c:115-126 | a call that runs adds its own deferred calls behind the queue and loses none |
| DeferLoops.Loop.Round | src/lluv_loop.c:142-151 | one round begins exactly the calls queued at its start, in order, up to a failing one; what they defer stays queued behind |
| DeferLoops.Loop.DeferProceed | src/lluv_loop.c:139-154 | ends for every forest of callbacks, even if each defers more; begins the first LLUV_DEFER_DEPTH generations in order and leaves the next one; on a failure, begun ++ queue is still every call pushed |
| DeferLoops.BreadthConserves | src/lluv_loop.c:139-154 | generations run so far, then the generation queued, are the initial queue and everything those generations deferred |
| BreadthFirst.ProceedIsBreadthFirst | src/lluv_loop.c:18-20 | from any queue: begun are exactly the calls of depth at most LLUV_DEFER_DEPTH below it, once each, shallower ones first and left to right; left are exactly those one deeper, in order |
| BreadthFirst.ProceedStopsAtFirstFailure | src/lluv_loop.c:145-149 | from any queue: an error is returned iff some call within the depth fails, and the calls begun are the breadth-first enumeration up to the first such call |
| BreadthFirst.ProceedTwice | src/lluv_loop.c:139-154 | the next proceed takes up the generation left over: two in a row are the enumeration to twice the depth |
| HandleMemory.LockKeeps | src/lluv_handle.c:209-220 | locking sets that bit and no other, makes `self` live, and counts requests |
| HandleMemory.UnlockKeeps | src/lluv_handle.c:222-246 | no assertion of unlock fails, no other bit changes, REQ is cleared only with the last request, and `self` is released iff the mask becomes empty |
| HandleMemory.CleanupKeeps | src/lluv_handle.c:184-207 | cleanup closes the handle; its callback references and `self` are no longer registered, and nobody else's reference changes |
| HandleMemory.RequestNewKeeps | src/lluv_req.c:16-29 | a new request owns its references, they are the only ones made for it, and it holds the REQ lock |
| HandleMemory.RequestFreeKeeps | src/lluv_req.c:31-39 | freeing leaves no reference of that request registered, changes no other, and gives up one REQ lock |
| HandleMemory.StoppedReadKeeps | src/lluv_stream.c:303-322 | a stopped read has no callback slot and no READ lock, its callback is no longer registered, and no other lock changes; nothing happens if libuv refuses or nothing was started |
| HandleMemory.ReadDoneKeeps | src/lluv_stream.c:247-289 | a failed read empties the callback slot, its callback is no longer registered, READ is cleared and no other lock changes |
| HandleObjects.Handle.constructor | src/lluv_handle.c:90-118 | a new handle is open, unlocked and has no references |
| HandleObjects.Handle.Lock | src/lluv_handle.c:209-220 | the C function does what the specification says to mask, counter, `self` and registry |
| HandleObjects.Handle.Unlock | src/lluv_handle.c:222-246 | the same, with its four assertions holding |
| HandleObjects.Handle.Cleanup | src/lluv_handle.c:184-207 | the same; only live references are released |
| HandleObjects.Handle.TimerStart | src/lluv_timer.c:53-78 | stores the callback first and locks only if libuv agreed |
| HandleObjects.Handle.TimerStop | src/lluv_timer.c:80-91 | takes the START lock when libuv stopped the timer |
| HandleObjects.Handle.TimerAgain | src/lluv_timer.c:93-109 | takes the START lock when libuv restarted the timer |
| HandleObjects.Handle.OnTimer | src/lluv_timer.c:43-51 | unlocks only an inactive timer, and calls the callback in its slot, a live reference, once |
| HandleObjects.Handle.StartRead | src/lluv_stream.c:291-301 | stores the callback first and locks only if libuv agreed |
| HandleObjects.Handle.StopRead | src/lluv_stream.c:303-322 | releases callback and lock only when there is a callback |
| HandleObjects.Handle.Listen | src/lluv_stream.c:126-143 | stores the callback first and locks only if libuv agreed |
| HandleObjects.Handle.OnConnection | src/lluv_stream.c:107-124 | does nothing on a closed handle; otherwise calls the callback in its slot, a live reference, once |
| HandleObjects.Handle.OnRead | src/lluv_stream.c:247-289 | does nothing on a closed handle; otherwise calls the callback in its slot once, and an error releases callback and lock before that |
| HandleObjects.Handle.Close | src/lluv_handle.c:302-326 | closes iff the handle is open and not closing; then it holds the CLOSE lock, and a callback given is in the close slot as a live reference |
| HandleObjects.Handle.OnClose | src/lluv_handle.c:269-300 | cleans an open handle up, and then calls the close callback once if one was given; nothing otherwise |
| HandleObjects.Req.Free | src/lluv_req.c:31-39 | releases the three references, each live, and one REQ lock, and is noted |
| HandleObjects.NewRequest | src/lluv_stream.c:378-397 | whichever order the references are made in, the request owns them and holds a REQ lock |
| HandleObjects.ReturnReq | src/lluv_utils.c:425-444 | a refused request is freed at once, and then its error is deferred iff it has a callback, otherwise returned |
| HandleObjects.OnRequest | src/lluv_stream.c:43-75 | a completed request is freed first; then its callback is called iff the handle is open and a callback was given |
| HandleObjects.OrderOfRefs | src/lluv_stream.c:381-397 | making context, callback, lock and data references in the order of the source gives the specified state |
| HandleSystem.InitHolds | src/lluv_handle.c:90-118 | the invariant holds after creation, whether or not libuv's init succeeds |
| HandleInvariant.StepHolds | src/lluv_handle.c:184-326 | every enabled step keeps the invariant and, unless it is a step of others, every reference that belongs to others |
| HandleInvariant.SendHolds | src/lluv_stream.c:378-402 | accepted or refused at once, a request keeps lock, counter and ownership in agreement |
| HandleInvariant.CompleteHolds | src/lluv_stream.c:43-75 | completing a request keeps lock, counter and ownership in agreement |
| HandleLives.TraceWritten | src/lluv_stream.c:378-402 | what the C functions write to the trace in each step: only requests made, completed or reported write anything |
| HandleLives.LivesHold | src/lluv_req.c:16-39 | every step moves every request along one of its possible lives, in agreement with the live `lluv_req_t` and the defer queue |
| HandleTheorems.FreedOnlyAfterClose | src/lluv_handle.c:184-326 | in every reachable state, memory is freed only after the close callback ran or init failed |
| HandleTheorems.CollectedOnlyAfterClose | src/lluv_handle.c:302-326 | the collector cannot take an initialised handle before its close callback |
| HandleTheorems.UvFindsTheHandle | src/lluv_stream.c:43-124 | when libuv completes its requests before it closes, every callback finds the handle there and open: timer, read, connection, request and close callbacks |
| HandleTheorems.FinalizerStartsClose | src/lluv_handle.c:302-326 | the finalizer of an open handle leaves it closing and pinned, and until the close callback no step clears CLOSE |
| HandleTheorems.LocksAreSound | src/lluv_handle.c:209-246 | always: `self` is live iff the mask is not empty, REQ is set iff the counter is positive, the counter is the number of live requests, and no assertion ever failed |
| HandleTheorems.OthersKeepTheirReferences | src/lluv_handle.c:184-207 | no step of this handle releases a reference of somebody else |
| HandleTheorems.ActiveIsPinned | src/lluv_timer.c:43-109 | always: an active timer or reading stream holds its lock, is pinned and has a live callback, also when restarted in its own callback |
| HandleTheorems.ListeningIsPinned | src/lluv_stream.c:107-143 | always: a listening stream holds CONNECTION, is pinned and has a live callback, until it is closed |
| HandleTheorems.RequestReferences | src/lluv_req.c:16-39 | always: the references registered for requests are exactly those of the live requests |
| HandleTheorems.RequestsEndOnce | src/lluv_stream.c:344-402 | the trace of every request made is one of seven: alive; freed, then called; freed, then its error queued, and later called; freed without a callback, silently or with its error returned; or freed and dropped, only when the handle is closed under an impolite libuv |
| HandleTheorems.FreedIsReleased | src/lluv_req.c:31-39 | once the trace says freed, the request is not alive and no reference of it is registered |
| HandleTheorems.FreedBeforeCalled | src/lluv_stream.c:59-72 | wherever a callback is called in the trace, its request was freed before |
| HandleTheorems.PoliteCloseEndsAll | src/lluv_handle.c:269-300 | when a polite libuv has closed the handle, every request ever made has been freed, and every callback was called or waits in the defer queue |
| HandleTheorems.NoCallbackInsideSend | src/lluv_utils.c:425-444 | only completions and deferred calls write a call to the trace; the part of the trace that making a request writes contains none |
| HandleLocks.LockedExactlyWhile | src/lluv_timer.c:43-109 | over every run, until the handle is closing: a stream holds READ iff it reads; a timer holds START iff it is active, or stale after `stop` or an `again` that did not run |
| HandleLocks.StoppedTimerStaysPinned | src/lluv_timer.c:80-91 | after a successful stop the timer is inactive, START is set and the handle is pinned |
| HandleLocks.StaleIsReachable | src/lluv_timer.c:80-91 | a run reaches an inactive timer that is pinned by START alone |
| HandleLeaks.SetCallbackLeak | src/lluv_timer.c:59 | storing a callback loses a reference exactly when the slot was taken |
| HandleLeaks.StepLeak | src/lluv_handle.c:184-326 | one step: all references are in place after it iff they were before and the step is not a start whose slot is taken |
| HandleLeaks.LeaksExactlyByOverwriting | src/lluv_stream.c:291-301 | over every run, with timers, reads and listeners: no reference of the handle is leaked iff nothing was started while its slot was taken |
| HandleLeaks.ClosedLeavesNothing | src/lluv_handle.c:184-207 | without such a start, a closed handle leaves no reference registered, except of requests an impolite libuv has not completed |
| HandleLeaks.LeakIsReachable | src/lluv_stream.c:126-143 | starting twice reaches a leak, for each kind of start |
| HandleHistory.CallbacksAsGiven | src/lluv_handle.c:269-326 | over every run, from the steps: timer, read, connection and close callbacks, and those of refused starts, are called exactly when libuv or the defer queue asks, each the one given last, in order; the slots hold them as live references until then |
| HandleHistory.CloseCallbackOnce | src/lluv_handle.c:269-326 | over every run: the callback given to the call that closed the handle is kept, live, until libuv has closed it, and is then called exactly once; none is called if none was given |
| HandleHistory.CloseCallbackIsReachable | src/lluv_handle.c:302-326 | a run closes a handle with a callback, and it is called |
| HandleHistory.LocksAsTold | src/lluv_handle.c:209-260 | over every run, while open: MANUAL iff locked by hand last, CLOSE iff closing, and CONNECTION, until then, iff listening |
| HandleHistory.StepAgrees | src/lluv_utils.c:464-480 | every step keeps the agreement of slots, calls, defer queue and locks with what the steps tell |
| ReadBuffers.BuffersAreLentProperly | src/lluv_utils.c:126-153 | over any run: the static buffer is lent to at most one reader, BUFFER_BUSY is set iff it is lent, the heap holds exactly the other buffers lent, and no assertion fails |
| ReadBuffers.LentIsReleasedOnce | src/lluv_utils.c:140-153 | every lending of a buffer to a reader is taken back once or still held |
| ReadBuffers.ReleasedBeforeCallback | src/lluv_stream.c:253-284 | whenever a Lua read callback runs, every buffer its reader was lent has been released exactly once |
| ReadBuffers.AllocWrites | src/lluv_utils.c:126-138 | in every reachable state: a reader that asks gets the static buffer iff nobody has it, otherwise what the heap gives |
| ReadBuffers.ReadWrites | src/lluv_stream.c:247-289 | a read callback copies bytes out of the buffer it was lent, then gives it back, then calls the Lua callback once; an ignored read does not call, an error does not copy |
| ReadBuffers.EveryReportIsCalled | src/lluv_stream.c:247-289 | over any run the Lua callback of a reader is called exactly as often as libuv reports data or an error to it |
| ReadBuffers.Loop.Alloc | src/lluv_utils.c:126-138 | the buffer handed out is held by nobody else |
| ReadBuffers.Loop.Free | src/lluv_utils.c:140-153 | the reader's buffer is taken back, and the assertion holds |
| ReadBuffers.Loop.OnRead | src/lluv_stream.c:247-289 | bytes are copied while the buffer is held, it is released, then the callback runs |
| TcpTheorems.ReceiveConserves | src/lua/lluv/luasocket.lua:240-322 | over any run of one socket: bytes delivered = bytes taken for the answers in order ++ bytes buffered; each answer is accounted for by its bytes (a line ends at the first terminator, a count is met with the prefix counted in); every call returns once unless still suspended |
| TcpHistory.AnswersFitTheirCalls | src/lua/lluv/luasocket.lua:276-322 | over every run, from the events: the k-th answer belongs to the k-th call of `receive` and fits its pattern and prefix (prefix and then the message; the prefix alone iff it has the bytes already; nil and "closed" on a closed socket; else what is there, by the error that woke the call); an unanswered call is the last one, and the coroutine waits for exactly its arguments |
| TcpHistory.WaitsAsTold | src/lua/lluv/luasocket.lua:102-146 | over every run, from the events: the timer runs iff the coroutine waits on an open socket in a call that began with the timeout on; whether the socket is open, who will wake a waiting coroutine, and whether it waits in `send` |
| TcpHistory.TimeoutIsReachable | src/lua/lluv/luasocket.lua:102-105 | after `settimeout` and `receive` on an empty buffer, whatever the pattern, the call waits and the timer runs |
| TcpHistory.StepAgrees | src/lua/lluv/luasocket.lua:102-146 | every event keeps the agreement of socket, timer, coroutine and log with what the events tell |
| TcpTheorems.WaitsAreSound | src/lua/lluv/luasocket.lua:102-118 | no assertion fails, no nil field is called, only a suspended coroutine is resumed; at most one wait flag, only while suspended, and the timer runs only then |
| TcpTheorems.SuspendedReceiveIsWaiting | src/lua/lluv/luasocket.lua:309-321 | a suspended `receive` misses nothing that is already buffered, and somebody will wake it: the read, a close callback, unless the socket was closed by hand |
| TcpTheorems.AllIsTheRestOfTheStream | src/lua/lluv/luasocket.lua:289-307 | `receive("*a")` woken by the close callback returns exactly the bytes delivered and not yet taken, and leaves none |
| TcpTheorems.TimeoutGivesWhatIsThere | src/lua/lluv/luasocket.lua:296-320 | a timeout returns everything buffered with the error "timeout", and the socket stays open |
| TcpEndings.BytesAtTheEnd | src/lua/lluv/luasocket.lua:276-322 | from the end of a socket on, over every run: nothing more is delivered; the buffered bytes are answered exactly if the coroutine was suspended in `receive` and is woken (`"*a"` keeps them on errors other than "closed" and "timeout"), and are otherwise never returned; every other answer is nil and "closed" |
| TcpEndings.AllIgnoresPrefix | src/lua/lluv/luasocket.lua:289-307 | over every run, leaving out the prefixes of `receive("*a")` changes no answer and no byte left |
| TcpTheorems.LinesOverSocket | src/lua/lluv/luasocket.lua:276-322 | a client that asks only for lines gets, with what is still buffered, `split` of the delivered stream by `\r*\n`, however it was chunked |
| TcpTheorems.StepHolds | src/lua/lluv/luasocket.lua:102-146 | every event keeps the invariant behind these theorems |
| TcpTheorems.LineIsAccounted | src/lua/lluv/luasocket.lua:309-315 | a line taken from the buffer is what comes before the first `\r*\n` of the bytes taken |
| TcpSocks.TcpSock.Start | src/lua/lluv/luasocket.lua:102-111 | sets the flag and the timer; both assertions hold |
| TcpSocks.TcpSock.Stop | src/lua/lluv/luasocket.lua:113-118 | clears every flag and stops the timer if there is one |
| TcpSocks.TcpSock.OnIoError | src/lua/lluv/luasocket.lua:120-146 | the first error closes socket and timer and leaves one close callback to come; a later one does nothing |
| TcpSocks.TcpSock.OnClosed | src/lua/lluv/luasocket.lua:136-141 | wakes the coroutine with "closed" iff it is waiting |
| TcpSocks.TcpSock.OnRead | src/lua/lluv/luasocket.lua:240-249 | stores the bytes, and runs the coroutine iff it waits for a read |
| TcpSocks.TcpSock.OnTimer | src/lua/lluv/luasocket.lua:64-67 | stops the timer and wakes the coroutine with "timeout" |
| TcpSocks.TcpSock.Interrupt | src/lua/lluv/luasocket.lua:154-158 | wakes the coroutine with the given error iff it is waiting |
| TcpSocks.TcpSock.Receive | src/lua/lluv/luasocket.lua:276-322 | up to its first yield or its answer, the call does what the transition system says, and the answer given is the one logged |
| TcpSocks.TcpSock.TryRead | src/lua/lluv/luasocket.lua:309-315 | one turn of the loop: the message with its prefix, or another wait |
| TcpSocks.TcpSock.GiveUp | src/lua/lluv/luasocket.lua:289-320 | the answer to a timeout, a closed socket or another error, for `"*a"` and for the other patterns |
| TcpSocks.TcpSock.Send | src/lua/lluv/luasocket.lua:324-343 | up to its yield: the write flag is set, or the socket is gone |

## Left out

- DeferLists.DeferList.PopFront: the C function leaves the value on the Lua stack; here it is a result.
- LuaStrings.Split: an empty separator is excluded, because the source then never leaves its loop.
- Buffers.Buffer.ReadN: whole numbers from 0 on; a negative number stops the source at an assertion, and `math.floor` of a fraction is not modelled.
- Buffers.Buffer.ReadLine: terminators that are general Lua patterns; plain strings, one-byte strings and `\r*\n` are modelled.
- Buffers.Buffer.ReadLineEol: the same terminators.
- Buffers.Buffer.ReadLineWith: the same terminators.
- Buffers.Buffer.SearchLast: the same terminators.
- Buffers.Buffer.SearchPopped: the same terminators.
- Buffers.Buffer.NextLine: the same terminators.
- Buffers.Buffer.constructor: the same terminators.
- Buffers.Buffer.SetEol: the same terminators.
- CofsFiles.File.ReadLine: the terminator is not empty (the source uses LF or CR LF); the branch for an empty chunk is never reached, because `_read_some` returns nil instead.
- CofsFiles.File.ReadSome: `interrupt`, `attach`, and the other methods that yield (`open`, `write`, `stat`) are not modelled; the file does not change while it is read.
- DeferLoops.Loop.RunCall: a callback defers a number of calls and then returns or fails; it does not run the loop itself, close it, or raise memory errors.
- HandleObjects.Registry.MakeRef: the reference numbers go up; the transition system and the theorems allow any number that is not in use.
- HandleTheorems.LocksAreSound: `lock_counter` is an unbounded integer here, so an overflow of the C `int` is not covered.
- HandleTheorems.FreedOnlyAfterClose: the finalizers that `lua_close` runs at the end of the program are not covered, nor an object that is finalized twice.
- HandleTheorems.RequestsEndOnce: the trace tells when a callback is called, not what it does; stream requests and their deferred errors; the requests of fs, dns and loops without a handle are not modelled.
- ReadBuffers.ReleasedBeforeCallback: libuv hands a reader's own buffer, or none, to its read callback; that is an assumption about libuv.
- TcpTheorems.ReceiveConserves: one connected socket and one coroutine; `connect`, `accept`, `shutdown`, `attach` and `UdpSock` are not modelled.
- TcpSocks.TcpSock.Receive: a negative number without a prefix, and passing the partial result of one call as prefix to the next.
- TcpSocks.TcpSock.Send: what `send` returns when it is resumed; only its flag, its timer and its wake-ups are modelled.
- TcpSocks.TcpSock.OnIoError: `_raw_err` is never read again and is not modelled; `_err` is always "closed".
- `Queue`, `split_first`, `usplit`, `next_n`: thin wrappers around what is modelled.
- `DeferQueue`, `MakeErrors`, `class`, `corun`: depend on libraries outside the repository or have no state worth a model.
- The weak tables that map pointers to handles, metatables, the Lua stack and `lluv_lua_call`: registry and live references stand for them.
- tcp, udp, pipe, tty, poll, fs, dns, process, signal and fs_event wrappers: calls into libuv without state of their own.
