# A verified model of rnet

rnet is an edge-triggered TCP and Unix-socket server that runs several event
loops, an acceptor, and a pool of workers. This project models its four
connected cores and proves what every step, every call and every run of them
keeps:

- **Wake-up and commands** (`Commands`, `Wakers`, `LoopProtocol`, `Acceptors`).
  Any number of threads push into a loop's two queues and wake it through a
  coalescing flag. Every atomic access is a step of its own; results hold in
  every reachable state of every interleaving.
- **Connection lifecycle** (`Gfds`, `Tokens`, `Callbacks`, `Handlers`, `Batches`,
  `Deeds`, `EventLoops`). A class with the loop's own fields: slab, pool, counter, queues,
  poll events. Its methods are the source's methods, and each keeps one global
  invariant whatever sockets, poller, handlers and other threads do. What a piece
  of the loop's work does is a relation between what the loop looks like before
  and after it; a run of the loop is a chain of such deeds.
- **Byte streams** (`Chunks`, `Sockets`, `Codecs`, `Connections`). The connection
  object with its two input segments and its queue of output chunks; a ghost log
  of what was received, consumed, accepted and put on the wire balances through
  every loop and every error arm.
- **Framing and the echo pipeline** (`JsonFraming`, `AsyncEcho`). The
  length-prefixed codec driven through the real reading order of the loop, and
  the echo that travels loop, worker shard, command queue, loop.

`Balancers` and `Sizing` hold the arithmetic the cores rest on.

The kernel, the poller and the handlers act by scripts or by nondeterministic
choice, so "for every script" means every behaviour: short and blocked writes,
interrupted calls, failures, bytes that arrive while the loop reads, handlers
that make any list of calls and answer anything, commands that arrive between
any two looks at the queues. A socket read returns between one byte and a full
buffer, end of stream, would-block (only when nothing is there) or a failure;
readiness is edge triggered: input raises an edge, and the poller lowers it when
it hands over the event. Registering a socket reports input that is already
there.

## Where the code does not do what one would expect

Each of these is proved, with the exact condition where there is one.

- *The wire is not always a prefix of what was accepted.* An abrupt close throws
  the queue away and then calls `on_close`, which may still write. Closing keeps
  the prefix, whatever `on_close` does, if the close is graceful or no bytes are
  queued (`CloseConnection`, `FinishedWireIsPrefix`); in every other state, on a
  socket that takes everything, some write in `on_close` breaks it
  (`LateWriteBreaksPrefix`; `PrefixBreaks` is a run).
- *`flush` and the write loop can close a healthy socket.* A run of empty chunks
  makes them offer nothing, and a write of nothing counts as closure. A socket
  that takes everything is flushed exactly when the queue neither ends in an
  empty chunk nor holds 1024 empty chunks in a row (`Flush`, `ProcessWrite`,
  `FlushableIff`). One empty write behind queued output is enough to break it
  (`EmptyWriteBreaksFlush`, `EmptyWriteClosesHealthy`).
- *`next_message` is one read late.* It decodes the first segment only, and the
  chunk just read is stashed there after the handler returns. After n reads the
  messages of the first n - 1 are out; all are out exactly when the last read
  completed none (`DeliveryIsOneReadLate`, `AllDeliveredIff`).
- *A failed OS wake silences a loop for ever.* The flag stays up, so no later
  send wakes the loop (`FailedWakeIsForever`, `FailedWakeLosesWork`), though an
  interrupted poll finds what is queued (`InterruptFindsWork`); without such a
  failure no wake-up is lost (`NoLostWakeup`, `QuiescentWakeIff`).
- *A Low command can be processed before an earlier High one*, exactly if the loop
  takes it from the common queue and the High one was queued after the loop had
  found the urgent queue empty (`OvertakesIff`, `OvertakingHappens`).
- *The async echo drops what is read before the worker pool is up.* Output is a
  prefix of the input from that moment on (`EchoInOrder`, `EarlyBytesAreSkipped`).
- *A handle repeats after 2^32 creations* in the same place with the same
  descriptor (`SameHandleIff`, `WrapRepeatsHandle`); below that, bytes sent under
  a handle reach its own registration or nobody (`StaleHandleNeverDelivers`,
  `HandleFindsItsOwner`).
- *Loop numbers are cut to eight bits*: a command reaches the loop that made its
  handle exactly when that loop's position is below 256 (`RouteReachesOwner`), so
  behind any other loop the asynchronous echo never answers (`EchoComplete`).
- *Listening sockets outlive a shutdown asked for by `on_open` during accepting*,
  and no other: they are out of the loop's hands then and are put back
  (`ListenersOutlive`; `RunLoop` has the exact condition).
- *An accept error leaves the sockets behind it unannounced*: the accept loop ends
  and the edge is spent. All are accepted exactly when no error comes before any
  of them (`AcceptsAllIff`).
- *`on_close` runs at most once even if deregistration fails*, because the loop
  then ends; the connection stays in the slab (`CloseConnection`, `Shutdown`).

## Model

| member | source | states |
|---|---|---|
| `LoopProtocol.InvNext` | src/event_loop.rs:76-94 | every step of every sender and of the loop keeps the protocol invariant: one wake token, attention before sleep, order of the queues |
| `LoopProtocol.WakeTokenConserved` | src/poller.rs:89-98 | in every reachable state the flag is up exactly when one caller is committed, or an OS wake is pending, or its event is at hand, and there is at most one of these |
| `LoopProtocol.NoLostWakeup` | src/event_loop.rs:216-253 | a loop in its blocking poll with a command queued has been woken or another thread is on its way to do so, if OS wakes succeed |
| `LoopProtocol.QuiescentWakeIff` | src/poller.rs:89-94 | with all senders done, a sleeping loop with work has a wake pending if and only if no OS wake ever failed |
| `LoopProtocol.EveryScheduleGetsToWork` | src/event_loop.rs:216-253 | with all senders done, whatever the schedule, a loop with commands queued takes one within ten of its own uninterrupted steps |
| `LoopProtocol.NeverStuck` | src/event_loop.rs:216-253 | with all senders done and no failed wake, the loop always has a step of its own, and if it blocks in its poll while commands are queued, that step is to return from it with the wake event |
| `LoopProtocol.ComesToRest` | src/event_loop.rs:216-253 | with all senders done, nothing queued and no failed wake: within 13 of its own steps, each return from the poll bringing the wake event if one is pending, the loop is in its blocking poll with no wake pending, no event left to handle, and the flag down |
| `LoopProtocol.NextSendWakes` | src/event_loop.rs:76-94 | from there the next send of any command by another thread calls the poller's waker, and the poll returns with the command queued and the wake event at hand |
| `LoopProtocol.BackToItsPoll` | src/event_loop.rs:283-338 | the senders cannot keep the loop from its sockets: whatever they do, it is back in its poll within 1032 of its own steps, one ration of 256 commands or two if a wake event is at hand, unless a command ends it |
| `LoopProtocol.WakeIsCarriedOut` | src/event_loop.rs:327 | a `Wake` command taken from either queue makes the loop's thread call its own waker before anything else |
| `LoopProtocol.WhereAPushGoes` | src/event_loop.rs:76-94 | a send to a loop that has ended queues nothing; otherwise the command goes to the end of the common queue if it is Low, 1024 others wait in the urgent one and the sender does not bypass the overflow as the acceptor does, else to the end of the urgent one, and the sender goes on to the flag |
| `LoopProtocol.UrgentIsTaken` | src/event_loop.rs:283-292 | whatever the senders do meanwhile, a command with k others ahead of it in the urgent queue is taken within 6 + 5k steps of the loop if its polls are not interrupted, unless one of them ends the loop |
| `LoopProtocol.QueuedShutdownEndsTheLoop` | src/event_loop.rs:328-334 | so a queued `Shutdown` ends the loop within that bound |
| `LoopProtocol.FailedWakeIsForever` | src/poller.rs:89-94 | once an OS wake failed, in every continuation the flag is up and no wake is under way |
| `LoopProtocol.FailedWakeLosesWork` | src/event_loop.rs:89-93 | some run ends asleep with work queued, nobody about to wake the loop |
| `LoopProtocol.InterruptFindsWork` | src/event_loop.rs:232-237 | whatever became of the waker, an interrupted poll makes the loop look at its queues again, and with commands queued it does not block |
| `LoopProtocol.HighInOrder` | src/event_loop.rs:283-292 | the High commands processed are a prefix, in order, of those sent, and the rest is exactly what the urgent queue holds |
| `LoopProtocol.NothingLost` | src/event_loop.rs:76-94 | no command of either priority is lost or repeated: taken plus queued, as a multiset, is what was sent; each queue is worked off in the order of sending |
| `LoopProtocol.OvertakesIff` | src/event_loop.rs:285-292 | a step processes a Low command before an earlier High one if and only if it takes it from the common queue and the High one was queued before it, but after the loop had found the urgent queue empty |
| `LoopProtocol.OvertakingHappens` | src/event_loop.rs:285-292 | a run in which that happens |
| `Wakers.Waker.Swap` | src/poller.rs:89-94 | setting the flag keeps the token count equal to the flag |
| `Wakers.Waker.OsWake` | src/poller.rs:89-94 | handing the token to the poller keeps the balance; a failure leaves the waker deaf |
| `Wakers.Waker.Reset` | src/poller.rs:96-98 | the flag is down and the event handled, and the balance is kept |
| `Wakers.TokenGoesRound` | src/poller.rs:89-98 | after a handled event the flag is down, so the next caller, and only one, calls the poller's waker, whose success leads back to where the trip began and whose failure leaves the waker deaf |
| `Acceptors.ShutdownNeverLost` | src/acceptor.rs:16-21 | an acceptor in its poll after a shutdown was requested has been woken or a caller is on its way, in every interleaving |
| `Acceptors.WakeAlwaysStops` | src/acceptor.rs:82-88 | the first wake event handled ends the acceptor and the flag is never lowered |
| `Acceptors.ToldToStopStops` | src/acceptor.rs:70-95 | told to stop, with all callers done and no failed wake, the acceptor exits within two of its own steps wherever it is, and is not stuck before |
| `Acceptors.HowAPollEnds` | src/acceptor.rs:74-79 | a poll that fails ends the acceptor; after one that is interrupted it looks at the running flag again, so told to stop it exits even if the wake failed |
| `Acceptors.StopIsFinal` | src/acceptor.rs:70-95 | no step makes a stopped acceptor run again |
| `EventLoops.EventLoop.RunLoop` | src/event_loop.rs:196-281 | any number of polls with any outcome: its deeds, each done as `Done` says for its kind, lead from the state it started in to the state it ends in with nothing in between but arrivals; every turn is a lap of poll, waiting commands and all events in order; it ends only with the last deed; whenever it goes on the global invariant holds and no event is left over; after a shutdown everyone let in has had `on_close`; if the poller never fails, shutdown leaves an empty slab and counter zero; it still listens after a shutdown if and only if it did before and the last deed was an accept |
| `Deeds.WhyTheLoopEnded` | src/event_loop.rs:283-338 | however long a loop runs: if it goes on it has run no `Shutdown`; if it ended, the last deed says why: shut down by that command, or by a read or registration whose handler was the first to answer anything but to go on, and answered so; slab overflow only with a full slab; an OS error only if a poller call of that very deed was refused |
| `Deeds.FirstInFirstOut` | src/event_loop.rs:283-292 | over any deeds, both queues are worked off from the front, none skipped, and added to at the end |
| `Deeds.WhatCommandsDo` | src/event_loop.rs:294-335 | `Close` ends the one connection in its slot with one `on_close` and nothing thrown away; `Read` reads its socket at least once; `Write` writes its queue as the kernel allows; `AsyncWrite` adds its bytes to the output of the connection its handle leads to, which goes only if nothing was queued and its socket failed; `Register` makes a new handle; `Wake` calls the poller; `Shutdown` ends the loop with one `on_close` for everyone; nobody there, nothing done |
| `Deeds.WhatEventsCallFor` | src/event_loop.rs:243-252 | an event with the wake token runs 256 commands or all that were queued, one of listener i accepts in order what can be accepted, any other is for the connection of that slot, as `IoPlan` says |
| `Deeds.EveryEventIsSeen` | src/event_loop.rs:239-253 | a turn of the loop that goes on has run 256 of the commands that waited before its poll, or all, and then seen to every event in order, skipping none |
| `EventLoops.EveryPollRuns` | src/event_loop.rs:216-241 | after n polls that come back, n rations of 256 commands have been run, or everything that was queued at the start |
| `EventLoops.EventLoop.Round` | src/event_loop.rs:216-253 | one lap: the poll; then, if commands were waiting before it, 256 of them or all; then, for every event in order, exactly what it calls for: commands for the waker, for a listener the accepts of all that its event finds waiting, up to an error, write, read and align or a close for a connection; up to a deed that ends the loop |
| `EventLoops.EventLoop.ProcessCommand` | src/event_loop.rs:283-338 | runs 256 commands from the heads of the queues, or all that were queued; each has its effect: closed, read, written, registered, shut down as `RanAs` says, and nobody else is touched; only the last may end the loop |
| `EventLoops.EventLoop.Dequeue` | src/event_loop.rs:283-292 | the head of the urgent queue if there is one, else the common queue is not passed over; what arrives meanwhile only appends |
| `EventLoops.EventLoop.Execute` | src/event_loop.rs:294-335 | each command has exactly its effect on the connections, the handler turns and the records (`RanAs`): `AsyncWrite` the kernel's split on the connection its handle leads to, `Register` one newcomer, `Close` one `on_close`, `Read` and `Write` a batch and what it leads to, `Wake` nothing, `Shutdown` the end |
| `EventLoops.EventLoop.ProcessIo` | src/event_loop.rs:373-393 | an event is carried out as planned, each piece of work with its effect, up to a deed that ends the loop; a readable event of a live connection reads its socket at least once, unless the write before it ended the loop or the connection; nobody else is touched; the invariant is restored |
| `Deeds.IoPlanMeans` | src/event_loop.rs:373-393 | a connection is dropped if and only if the event says error or read-closed and neither readable nor writable; it is read if and only if readable, or error and writable; written if and only if writable, or error and readable; aligned if and only if not dropped; in the order write, read, align, each at most once |
| `EventLoops.EventLoop.AcceptProcess` | src/event_loop.rs:340-371 | every socket up to the first accept error is registered, in order, under ever larger numbers, if the listener is one of the loop's, up to one that ends the loop; the listeners are back however it ends |
| `Deeds.AcceptsAllIff` | src/event_loop.rs:345-367 | all that waits is accepted if and only if no error comes before any of it; the rest stays unannounced |
| `EventLoops.EventLoop.ListenersOutlive` | src/event_loop.rs:340-371 | a loop shut down by `on_open` while accepting still listens, though its slab is empty |
| `EventLoops.EventLoop.Register` | src/event_loop.rs:395-450 | `None`: exactly one new connection, in a vacant slot below 2^24, under a handle for loop, slot and next creation number, and every call of `on_open` has had its effect on it and on the queues; `Close`: the slab is as before; `Shutdown`: the loop ends; it is shut down only on that answer |
| `EventLoops.EventLoop.CloseConnection` | src/event_loop.rs:452-476 | first the output is flushed or thrown away, then exactly one handler turn, for `on_close`, makes all its calls; a graceful close puts all that was accepted on the wire if the socket keeps moving and the queue is flushable, an abrupt one throws the queue away; if none was thrown away the wire stays a prefix of what was accepted, and after an abrupt close what `on_close` writes to a willing socket goes out behind the hole; then slot, counter and pool updated; if and only if deregistration is refused, the slab is unchanged and the loop ends; an absent key changes nothing |
| `EventLoops.EventLoop.LateWriteBreaksPrefix` | src/event_loop.rs:459-466 | any abrupt close that throws bytes away, on a socket that would take everything: some write in `on_close` makes the wire no prefix of what was accepted |
| `EventLoops.EventLoop.PrefixBreaks` | src/event_loop.rs:459-466 | a run in which it happens: a socket is registered, `on_open` writes a byte that the socket does not take, the close is abrupt and one byte is written late |
| `EventLoops.EventLoop.Shutdown` | src/event_loop.rs:641-652 | every connection ever let in has had its one `on_close`; every connection that was live is closed gracefully, its output flushed as far as its socket and queue allow, even if the poller keeps a socket; unless the poller refused, slab empty and counter zero |
| `EventLoops.EventLoop.ReadSocket` | src/event_loop.rs:478-498 | unread input of the connection is noticed again: read dry, queued for another round, or the connection is gone; it goes if and only if its batch ended in end of stream, a failed read or the handler's wish, abruptly only after a failed read, and otherwise with all that it had accepted on the wire if its socket keeps moving and its queue is flushable; the loop is shut down if and only if the handler asked for it; its streams only grow |
| `EventLoops.EventLoop.ReadOnce` | src/event_loop.rs:515-551 | one socket read into a whole buffer; its outcome and the handler's answer decide the verdict; if it brought bytes, exactly one handler turn, offered them as the second segment, makes all its calls, and what is left is stashed if the handler goes on; otherwise nothing but the socket changes |
| `EventLoops.EventLoop.ProcessRead` | src/event_loop.rs:500-554 | the batch is a sequence of socket reads, each that brings bytes with one handler turn and all its calls, and ends at the first whose outcome or answer ends it, or when it is used up; fewer than a batch and a buffer of bytes; completed only if nothing is left to read; the second segment is empty unless the connection goes |
| `Batches.HowABatchEnds` | src/event_loop.rs:522-551 | a batch ends in an abrupt close if and only if the last read failed, in a graceful one if and only if it found the end of the stream or the handler asked to close, read dry if and only if it would block, in a shutdown if and only if the handler asked for that |
| `EventLoops.EventLoop.PrepareBuffer` | src/event_loop.rs:515-520 | the length set never passes the capacity, and the socket gets exactly one full buffer |
| `EventLoops.EventLoop.WriteSocket` | src/event_loop.rs:556-572 | what was noticed stays noticed; the batch that the kernel allows goes off the queue and onto the wire; a connection that stays has its interest aligned or a `Write` queued; one whose socket keeps moving and whose queue is flushable stays, written dry unless its batch was used up; nobody else is touched |
| `EventLoops.EventLoop.ProcessWrite` | src/event_loop.rs:574-635 | the wire only grows, nothing accepted is lost; on every socket: completed means an empty queue or a blocked write, yielding a whole batch written, closing a failed write, one that took nothing, or a queue that was not flushable |
| `Batches.HowAPumpEnds` | src/event_loop.rs:603-632 | the socket's last answer decides: blocked, the connection stays; failed or nothing taken, it is closed; moving, it is complete only if the queue is empty, and closed only if that was not flushable and the next write would offer nothing |
| `Batches.MovingSocketStays` | src/event_loop.rs:603-632 | a socket that never fails, never blocks and always takes something is closed only if the queue was not flushable, and a completed batch leaves the queue empty |
| `EventLoops.EventLoop.EmptyWriteClosesHealthy` | src/event_loop.rs:603-608 | an empty write behind less than a batch of queued output makes the write loop close a connection whose socket takes everything |
| `EventLoops.EventLoop.Reregister` | src/event_loop.rs:172-183 | the write interest becomes "output is queued" |
| `EventLoops.EventLoop.AsyncWrite` | src/event_loop.rs:296-316 | a handle that does not lead to a live connection of that very handle changes nothing; behind queued output the bytes are queued, otherwise the kernel decides: accepted once by that connection and split at the short write, or, only if the socket failed, the connection is closed abruptly |
| `EventLoops.EventLoop.HandleFindsItsOwner` | src/event_loop.rs:296-310 | below 2^32 creations a handle hits if and only if the registration it was given to is in the slab |
| `EventLoops.StaleHandleNeverDelivers` | src/event_loop.rs:296-310 | below 2^32 creations, over the whole history, bytes sent under a handle were accepted only by the registration that was given it |
| `EventLoops.EventLoop.SlabIsSound` | src/event_loop.rs:395-476 | every live slot has a socket, a handle that names loop and slot, a connection in no other slot nor the pool, and the counter is positive |
| `EventLoops.EventLoop.CloseNamesItsSlot` | src/connection.rs:405-408 | `close` called by the handler of the connection in slot k sends exactly one command, `Close(k)`, to the urgent queue or past 1024 to the common one, and does nothing else |
| `EventLoops.EventLoop.UnreadInputIsNoticed` | src/event_loop.rs:478-554 | between polls, which `Round` and `RunLoop` leave with no event at hand, unread input has an edge outstanding or a `Read` in the urgent queue |
| `EventLoops.EventLoop.OwedExactlyTheLive` | src/event_loop.rs:435-476 | while the loop runs, a registration has had no `on_close` if it is live and exactly one otherwise |
| `EventLoops.EventLoop.EveryoneSaidGoodbye` | src/event_loop.rs:641-652 | after a shutdown every registration has had exactly one `on_close` |
| `EventLoops.FinishedWireIsPrefix` | src/event_loop.rs:459-468 | a finished registration consumed a prefix of what it received, and, unless output was thrown away, put a prefix of what it accepted on the wire; `LateWriteBreaksPrefix` shows the exception is needed |
| `Handlers.EventLoopHandle.Trigger` | src/event_loop.rs:76-94 | one command at the end of one queue, Low overflowing at 1024, and then one call of the waker |
| `Handlers.RunOps` | src/connection.rs:131-408 | every call of a callback is made, in order, each with its effect on the connection and on the queues; both byte balances and the registration are kept, nothing of any stream is taken back, and commands are only added |
| `Callbacks.ReadsTakeTheFront` | src/connection.rs:131-296 | a single reading call takes as many bytes off the front of the joined input as it asks for, if they are there, all of them if it names no number, as many as fit into a buffer, or what the codec takes; nothing else changes |
| `Callbacks.SendsAndFlushes` | src/connection.rs:285-311 | `set_codec` installs that codec; `send` advances the codec and its encoding is accepted, unless nothing was queued and the socket failed; `flush` on a willing socket puts a flushable queue on the wire |
| `Callbacks.GivenIsAccepted` | src/connection.rs:313-403 | what a single writing call hands over is accepted whole, behind all that was accepted before, and nothing else changes; or nothing was queued and the socket failed, and it is not accepted |
| `Callbacks.SentIsQueued` | src/event_loop.rs:76-94 | a single command sent by a handler is the one command added, at the end of the queue its priority calls for, and nothing else changes |
| `Commands.OverflowIff` | src/command.rs:16-35 | `None`, `Register`, `Close` and `Wake` go to the common queue exactly when 1024 commands are in the urgent one, all others never |
| `Gfds.PackBitsRoundTrip` | src/gfd.rs:16-28 | shift, mask and or lose nothing: loop and slot are recovered |
| `Gfds.PackBitsBits` | src/gfd.rs:16-28 | bit for bit, the low 24 of the packed word are the slot's and the others the loop's |
| `Gfds.WordBits` | src/gfd.rs:16-28 | the number in a handle has, bit for bit, the same word |
| `Gfds.AccessorsInvertMake` | src/gfd.rs:41-48 | the accessors return the loop always, and the slot exactly when it fits in 24 bits |
| `Gfds.SameHandleIff` | src/gfd.rs:16-28 | two creations give the same handle if and only if descriptor, loop, slot mod 2^24 and creation number mod 2^32 agree |
| `Gfds.HandlesUnique` | src/gfd.rs:16-28 | below 2^32 creations a handle names its creation |
| `Gfds.WrapRepeatsHandle` | src/gfd.rs:19 | 2^32 creations later the same place gets the same handle |
| `Tokens.IsListenerToken` | src/poller.rs:14-20 | recognises exactly the listener range and inverts the numbering |
| `Tokens.DispatchIsUnambiguous` | src/event_loop.rs:243-252 | wake token, slots and listeners dispatch to themselves and to nothing else, a listener exactly when its index is below 1024 |
| `Tokens.RouteReachesOwner` | src/engine.rs:94-102 | a command for a live handle reaches its loop if and only if that loop's position is below 256 |
| `Connections.Connection.Reset` | src/connection.rs:76-103 | a recycled object has empty streams, no codec and the new handle and socket |
| `Connections.Connection.Peek` | src/connection.rs:213-246 | the first n bytes of the joined stream, or all of it; `None` exactly when too few bytes or no buffer to take them from |
| `Connections.Connection.NextContiguous` | src/connection.rs:131-175 | returns what `Peek` shows, in the same cases, and leaves exactly the rest |
| `Connections.Connection.NextVectored` | src/connection.rs:177-211 | at most two non-empty pieces that join to the prefix; leaves exactly the rest |
| `Connections.Connection.Discard` | src/connection.rs:248-283 | drops exactly that prefix, in the same cases |
| `Connections.Connection.Read` | src/connection.rs:411-443 | fills the buffer with as much of the stream as fits, leaves the rest of both |
| `Connections.Connection.NextMessage` | src/connection.rs:289-296 | decodes the first segment only; takes what the codec says, message or not, and leaves the codec in the state it says; nothing without a codec or a segment |
| `Connections.Connection.Receive` | src/event_loop.rs:524-527 | a chunk read becomes the second segment and is counted as received |
| `Connections.Connection.Stash` | src/event_loop.rs:538-546 | the second segment moves behind the first; the stream is unchanged |
| `Connections.Connection.WriteBytes` | src/connection.rs:313-343 | all bytes accepted; behind queued output they are queued and the socket is left alone, otherwise one write decides: split at the short write, queued whole if it blocks or is interrupted, or a failure and nothing accepted |
| `Connections.PutKeepsOrder` | src/connection.rs:313-343 | for all four writes: wire and queue joined grow by exactly the bytes written, at the end; the write fails if and only if nothing was queued and the socket fails, and then nothing has happened; behind a queue the socket is left alone; else the wire grows by what the kernel takes, all of it on a willing socket |
| `Connections.Connection.Write` | src/connection.rs:446-480 | the same from a borrowed buffer |
| `Connections.Connection.WriteVectoredBytes` | src/connection.rs:345-403 | the same for a list of chunks |
| `Connections.Connection.WriteVectored` | src/connection.rs:544-588 | the same for a list of slices |
| `Connections.Connection.Send` | src/connection.rs:298-311 | accepts exactly the encoding, or says which of codec, encoding and socket failed; the codec is left in the state it says |
| `Connections.Connection.WriteFront` | src/connection.rs:491-528 | one vectored write of at most 1024 chunks moves its bytes from queue to wire, in order |
| `Connections.Connection.Flush` | src/connection.rs:482-542 | moves bytes from queue to wire only; success if and only if the queue ends empty; on every socket the result says what it did last: blocked, failed, took nothing, or the queue was not flushable |
| `Connections.HowAFlushEnds` | src/connection.rs:489-540 | the socket's last answer decides: blocked, failed and nothing taken are reported as such, and on a moving one it succeeds if and only if the queue was flushable, or else stops where the next write would offer nothing |
| `Connections.MovingSocketFlushes` | src/connection.rs:489-540 | on a socket that never fails, never blocks and always takes something, `flush` succeeds if and only if the queue was flushable |
| `Connections.EmptyWriteBreaksFlush` | src/connection.rs:503-512 | an empty write behind queued output makes `flush` fail on any connection whose socket takes everything |
| `Connections.Connection.DropOutput` | src/event_loop.rs:462-464 | an abrupt close: the queue is thrown away and accounted for |
| `Connections.CloneUnsent` | src/connection.rs:372-389 | the splitting loop over chunks queues exactly the unsent part |
| `Connections.CopyUnsent` | src/connection.rs:559-573 | the splitting loop over slices queues the same |
| `Connections.PopWritten` | src/connection.rs:513-527 | the draining loop removes exactly the written bytes and never runs out of chunks |
| `Chunks.UnsentKeepsSuffix` | src/connection.rs:371-389 | what the splitting loops queue joins to the bytes that were not written, in non-empty chunks |
| `Chunks.DrainedKeepsSuffix` | src/event_loop.rs:609-624 | what the draining loop leaves joins to the bytes that were not written |
| `Chunks.DrainedStaysInside` | src/event_loop.rs:593-624 | a write within the offered window leaves the chunks behind it alone |
| `Chunks.SplitAgreesWithDrain` | src/connection.rs:371-389 | both loops agree on every short write, up to empty chunks |
| `Chunks.FlushableStep` | src/event_loop.rs:588-624 | whether the queue can be emptied is decided by the next window: stuck if that is all empty, else unchanged by any write that takes something, short or full |
| `Chunks.StuckIff` | src/event_loop.rs:588-601 | the next write offers nothing if and only if the next 1024 chunks, or all there are, are empty |
| `Chunks.FlushableIff` | src/event_loop.rs:588-624 | a queue can be emptied if and only if it neither ends in an empty chunk nor holds 1024 empty chunks in a row |
| `Codecs.RawRoundTripIff` | src/codec.rs:13-32 | the raw codec returns an encoded message if and only if it is not empty and nothing follows it: it keeps no boundaries |
| `JsonFraming.HeaderRoundTrip` | examples/json-codec.rs:28 | the big-endian header returns the length modulo 2^32 |
| `JsonFraming.HeaderIsBigEndian` | examples/json-codec.rs:28-52 | the header is the number to the base 256, most significant byte first, both ways |
| `JsonFraming.FrameRoundTripIff` | examples/json-codec.rs:23-55 | a frame decodes to its body, whatever follows, if and only if the body is shorter than 2^32 and parses |
| `JsonFraming.PartOfFrameWaits` | examples/json-codec.rs:24-31 | any proper part of a frame decodes to nothing and is left in the buffer |
| `JsonFraming.RejectedFrameIsDropped` | examples/json-codec.rs:33-37 | a frame whose body does not parse is taken off whole: the handler stops there with exactly what follows it in the buffer, and the stream holds the messages of what follows |
| `JsonFraming.DecodeIsStable` | examples/json-codec.rs:23-39 | more input never changes what a complete frame decodes to |
| `JsonFraming.MessagesAppend` | examples/json-codec.rs:23-39 | decoding a stream in two parts is decoding it at once |
| `JsonFraming.MessagesInvertEncodeAll` | examples/json-codec.rs:23-55 | decoding inverts encoding a list of messages and leaves nothing over |
| `JsonFraming.RejectedAreSkipped` | examples/json-codec.rs:23-55 | a stream of any frames and part of one more holds the bodies that parse, in order, and leaves that part |
| `JsonFraming.OnTraffic` | examples/json-codec.rs:74-85 | one run of the handler takes the complete frames up to and including the first rejected one and sends back each accepted body as its value is rendered, framed, in order; all of them if the socket does not fail |
| `JsonFraming.Serve` | src/event_loop.rs:522-546 | the loop and the handler over any list of chunks behave as `Feed` |
| `JsonFraming.DeliveryConserved` | examples/json-codec.rs:74-85 | for any bytes cut anyhow, delivered plus still decodable is the message list of the whole stream, at every point |
| `JsonFraming.EncodedMessagesArrive` | examples/json-codec.rs:41-55 | any messages, encoded and cut anyhow, arrive in order up to what is under way |
| `JsonFraming.DeliveryIsOneReadLate` | src/event_loop.rs:526-546 | after n reads exactly the messages of the first n - 1 chunks are delivered |
| `JsonFraming.AllDeliveredIff` | src/connection.rs:289-296 | all complete messages are out if and only if the last read completed none |
| `JsonFraming.SingleReadDeliversNothing` | src/event_loop.rs:526-546 | any one whole message that arrives in one read is not delivered by it, though the stream holds it |
| `AsyncEcho.OnTraffic` | examples/async-echo-rnet.rs:36-52 | the handler takes the whole stream and leaves none |
| `AsyncEcho.InvNext` | src/worker.rs:11-51 | every step of loops, workers, opens and closes keeps, with commands routed by the eight bits in the handle: accepted is a prefix of submitted; live behind a loop below position 256, accepted plus what is in flight is all of it; behind any other loop nothing is accepted |
| `AsyncEcho.EchoInOrder` | examples/async-echo-rnet.rs:36-52 | in every reachable state the output of a registration is a prefix of its input from the moment the pool was up |
| `AsyncEcho.EchoComplete` | examples/async-echo-rnet.rs:36-52 | for a live registration before the pool stops, of a loop at a position below 256: nothing in flight if and only if everything came back; of any other loop, nothing ever comes back |
| `AsyncEcho.EverythingIsUnderWayIff` | src/worker.rs:17-51 | for such a registration, what is back and on its way back is all that was read if and only if nothing was read before the pool was up or after it was shut down |
| `AsyncEcho.ClosedAcceptsNothing` | src/event_loop.rs:296-316 | once its loop closes it, or a write to it fails, a registration accepts nothing more in any continuation, whatever is on its way back to it |
| `AsyncEcho.EarlyBytesAreSkipped` | src/worker.rs:17-26 | a run in which input read before the pool was up is missing from the echo |
| `Balancers.RoundRobin.Select` | src/balancer.rs:46-54 | each selection adds one turn to the chosen worker and to nobody else |
| `Balancers.RoundRobinIsFair` | src/balancer.rs:46-54 | over any k selections without a wrap every worker is chosen k/n times, rounded down or up |
| `Balancers.LeastConnections` | src/balancer.rs:64-76 | the first worker with the fewest connections |
| `Sizing.Build` | src/options.rs:163-233 | read and write buffers get the least power of two that holds what was asked for and the floor, the batch likewise; what is not overridden stays |
| `Sizing.CeilIsLeast` | src/options.rs:327-329 | the least power of two that is at least 2 and at least n |
| `Sizing.CeilFitsIff` | src/options.rs:327-329 | it fits a 64-bit word if and only if n is at most 2^63 |
| `Sizing.NormalizeKeepsIff` | src/options.rs:317-325 | a buffer size is kept if and only if it is a power of two of at least 1024 |
| `Sizing.RebuildChangesNothing` | src/options.rs:163-233 | building again from built options changes nothing; all sizes are positive powers of two |
| `Sizing.BuiltSizes` | src/options.rs:163-233 | an override wins over the base; a buffer size of 0 becomes 65536, one up to 1024 becomes 1024, a larger one stays below its double; a batch of 0 becomes 2^20, one up to 2 becomes 2, a larger one stays below its double |

## Left out

- Real sockets, the poller's internals, socket options, core affinity, address parsing and logging: operating-system and library calls. The socket and poller assumed instead are described above.
- Timers and `on_tick`: the loop is modelled with the ticker off.
- JsonFraming.FrameRoundTripIff: JSON itself is not modelled; parsing is an arbitrary predicate on bodies and printing an arbitrary function of them, so a body and its echo may differ.
- EventLoops.EventLoop.Register: the slab may offer any vacant key, not the one its free list would; with 2^24 live connections the loop stops, as in a build with debug assertions, where other builds would make handles that name the wrong slot.
- EventLoops.EventLoop.Execute: `Close` carries a slot, not a handle, so no claim is made that it closes the tenant it was meant for; stale `Read` and `Write` commands only cause a spurious attempt.
- EventLoops.EventLoop.ProcessIo: the write interest is right after an event, an asynchronous write and a completed write, not at all times; `on_open` and `Read` commands may leave output queued without it.
- Handlers.EventLoopHandle.Trigger: the call of the waker is counted; what it does, and `Ok(false)` when it fails, is the subject of `LoopProtocol`.
- EventLoops.EventLoop.AsyncWrite: the wake flag and the OS waker are not part of this class; they are the subject of `LoopProtocol`, where queues hold the same commands. `Wake` only shows up as a poller call that may fail.
- LoopProtocol.HighInOrder: nothing is claimed about the order among Low commands, which overflow to the other queue may change.
- AsyncEcho.EchoInOrder: shard queues are unbounded, so a submitter blocked on 10000 queued closures is not modelled; registrations are named by their creation, which a handle does below 2^32 creations.
- JsonFraming.OnTraffic: a failed send is reported and skipped, as in the source; that the log line is printed is not modelled.
- Acceptors.ShutdownNeverLost: accepting and registering sockets is not a step of this model; the acceptor's choice of a loop is in `Balancers` and the command it sends in `LoopProtocol`, whose senders may bypass the overflow as the acceptor does.
- The unsafe slice transmutes and thread-local slice lists of vectored writes: the slices are modelled as the first 1024 chunks; `write_vectored_bytes` offers all of its chunks, as in the source.
- Selection by source address, which the source leaves unimplemented.
