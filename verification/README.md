# Formal model of the annety networking library

annety is a C++ library for event-driven TCP servers: a reactor with one event loop
for each thread, timers, buffered connections, a framing codec, and supporting string,
path and threading code. This project models its core in Dafny and proves properties of
the model. `dafny verify dfyconfig.toml` checks all of it.

| file | models |
|---|---|
| `StringReplace.dfy` | the in-place replacement algorithm of `src/StringUtil.cc` |
| `Crc32.dfy`, `CrcTables.dfy` | the checksum routines and their tables |
| `ByteOrder.dfy`, `ByteBuffer.dfy` | byte order, the byte queue, network integers, `read_fd` |
| `Codec.dfy` | length-header frames and the receive loop |
| `TimerPool.dfy`, `TimerRequests.dfy` | the timer pool, with callbacks that add and cancel timers; the life of a requested timer |
| `TcpConnection.dfy`, `TcpTraces.dfy` | sending, draining, shutdown and closing of a connection; what becomes of every call on it |
| `EventLoop.dfy` | the functor queue and the wakeup descriptor |
| `BlockingQueue.dfy`, `ThreadPool.dfy` | the bounded queue; the worker pool and `joinall` |
| `Pollers.dfy` | channels and the poll and epoll pollers |
| `FilePath.dfy`, `PathComponents.dfy`, `PathExtensions.dfy` | the path algebra, and what it means for the text |

Code that updates an object is a class whose methods are proved against functions on
plain values; the theorems over whole runs are about those functions. The three
components whose point is interleaving (event loop, blocking queue, thread pool) are
transition systems whose steps are stays inside a lock or single system calls; beside
each stands a class whose methods are those critical sections and loops, proved to be
steps of the system.

System calls are parameters: what the kernel wrote, read or reported, which waiters a
signal woke, when a callback ran what. User callbacks are arbitrary sequences of calls
on the object that runs them.

Where code and names or comments disagree the model follows the code:

- The class named `Crc32c` uses the reflected polynomial 0xedb88320, the CRC of PNG and
  Ethernet, not the Castagnoli polynomial of that name.
- `encode` limits the payload alone while `decode` limits payload and checksum together,
  and `encode` does not look at the signed range of the header. `Codecs.RoundTripBound`
  and `Codecs.FrameFate` state exactly which payloads come back, which are refused and
  which are cut short.
- `shrink` on a fixed buffer leaves `writable_bytes` promising memory that is not there
  (`ByteBuffers.ShrunkOverruns`, `ByteBuffers.ByteBuffer.ReadFdSafe`).
- `decode` waits for a frame even when the checksum bytes that have arrived are already
  wrong (`Codecs.CompletableExactly`, `Codecs.WaitsInVain`).
- A functor that the owner queues before `loop()` can wait while the loop sleeps
  (`EventLoops.EarlyPostCanWait`, `EventLoops.NoLostWakeup`).
- A channel that is disabled twice is added to the kernel again with an empty event mask
  (`Pollers.DisabledTwiceIsWatched`).
- Three separators before a name are the root "//", and four are "/"
  (`PathComponents.ComponentsAreRuns`).
- `get_components` treats "./" and "." differently, which `append_relative_path`
  inherits (`FilePaths.ComponentsOfStripped`, `FilePaths.RelativeRejoins`).

## Model

| member | source | states |
|---|---|---|
| StringReplace.ReplaceMatchesAfterOffset | src/StringUtil.cc:480-631 | For every string, capacity, offset, matcher and replacement, whichever of the strategies runs: true exactly when the pattern, or a listed character, occurs at or after the offset; REPLACE_ALL leaves the text after the offset cut at the pattern as early as possible each time and joined by the replacement, REPLACE_FIRST replaces the first occurrence only, and without one nothing changes |
| StringReplace.Find | src/StringUtil.cc:442-470 | A found position is a match and no earlier position from the start is one; not found means no position matches |
| StringReplace.PiecesRejoin | src/StringUtil.cc:480-631 | What replacement means, without searching: one list of pieces joined by the pattern is the input and joined by the replacement is the output |
| StringReplace.PiecesAreCut | src/StringUtil.cc:442-454 | Each piece followed by the pattern holds the pattern at its end only, and the last piece nowhere |
| StringReplace.CutUnique | src/StringUtil.cc:480-631 | There is only one such list of pieces, so the result of REPLACE_ALL is determined by the text |
| StringReplace.FoundMeans | src/StringUtil.cc:442-470 | A search succeeds exactly when the text holds the pattern, or a listed character, at or after the position |
| StringReplace.GoalMeans | src/StringUtil.cc:480-631 | The specified replacement is the one described by the text alone |
| StringReplace.CharactersAreMapped | src/StringUtil.cc:456-470 | For a character set, replacement is the character-by-character map |
| StringReplace.ReplacedLength | src/StringUtil.cc:541-552 | The result is longer by the number of matches times the difference of the lengths, the quantity the code precomputes |
| StringReplace.FindInSuffix | src/StringUtil.cc:606-630 | A search depends only on the unread suffix, so moving text underneath it does not change the matches still to come |
| StringReplace.EqualLength | src/StringUtil.cc:512-521 | The in-place strategy for equal lengths yields the specified replacement |
| StringReplace.CountMatches | src/StringUtil.cc:544-552 | The counting loop finds the exact number of matches and the exact expansion |
| StringReplace.GrowFresh | src/StringUtil.cc:554-577 | Building a new buffer when the capacity is too small yields the specified replacement |
| StringReplace.ShiftTail | src/StringUtil.cc:579-594 | Growing in place moves the text after the first match by the expansion and keeps the rest |
| StringReplace.CopyFits | src/StringUtil.cc:596-615 | Writing the replacement never reaches unread text: the gap between read and write offset is what the remaining matches need |
| StringReplace.MoveLoop | src/StringUtil.cc:606-630 | The moving loop terminates with the specified replacement, in the same storage |
| StringReplace.ReplaceChars | src/StringUtil.cc:633-662 | The output is the input with every listed character replaced, and the result tells whether there was one |
| Codecs.DecodeAcceptsFrames | include/codec/LengthHeaderCodec.h:71-137 | Decoding succeeds with a payload and a size exactly when the buffer starts with the frame of that payload and that payload is one the decoder takes |
| Codecs.DecodeStable | include/codec/LengthHeaderCodec.h:71-137 | A verdict on a buffer, good or bad, is not changed by bytes that arrive later |
| Codecs.WaitsExactly | include/codec/LengthHeaderCodec.h:98-106 | decode asks for more exactly while the header is incomplete, or is the header of an acceptable frame longer than what has arrived |
| Codecs.RefusesExactly | include/codec/LengthHeaderCodec.h:98-133 | decode refuses exactly when the header has arrived and no acceptable frame with it is longer than, or at the front of, what has arrived; a header of no acceptable frame is refused at once |
| Codecs.CompletableExactly | include/codec/LengthHeaderCodec.h:98-133 | While decode waits, more bytes can still complete a message exactly when the part of the checksum that has arrived is right |
| Codecs.WaitsInVain | include/codec/LengthHeaderCodec.h:106-133 | Concrete case: with a wrong first checksum byte decode goes on waiting for a frame it will refuse |
| Codecs.ParseIsFrames | include/codec/Codec.h:55-78 | Messages and remainder of the greedy parse are exactly the unique way to split the bytes into acceptable frames and a remainder with no further frame |
| Codecs.ParseResumes | include/codec/Codec.h:55-78 | Parsing what was left together with new bytes continues the parse of all bytes; after a bad frame nothing more is delivered |
| Codecs.RoundTripBound | include/codec/LengthHeaderCodec.h:71-201 | encode takes the payload and decode gives it back, whatever follows, exactly when the payload is non-empty and with its checksum within both the configured maximum and the signed range of the header |
| Codecs.FrameFate | include/codec/LengthHeaderCodec.h:71-201 | What decode makes of the frame of any payload: the payload, exactly when it is within those bounds; else a proper prefix of it, exactly when the length wraps around in the header to an acceptable smaller one and the checksum, if any, matches there; else it is refused |
| Codecs.ThreeParts | include/codec/LengthHeaderCodec.h:180-200 | A frame is the big-endian length of payload and checksum, the payload, and the checksum |
| Codecs.AcceptedButRefused | include/codec/LengthHeaderCodec.h:170-178 | Concrete case: eight bytes under a limit of ten are encoded and then refused, because only decode counts the checksum |
| Codecs.AcceptedButCut | include/codec/LengthHeaderCodec.h:150-168 | Concrete case: 300 bytes behind a one-byte header are encoded and their first 44 delivered as a message |
| Codecs.ExchangeExact | include/codec/LengthHeaderCodec.h:71-201 | Over whole lists: what was to be sent is what is parsed, with nothing left and no error, exactly when every payload is non-empty and within the bounds |
| Codecs.StreamRoundTrip | include/codec/LengthHeaderCodec.h:71-201 | The frames of a list of payloads parse to that list with an empty remainder exactly when each payload is within those bounds |
| Codecs.AlteredFrameRefused | include/codec/LengthHeaderCodec.h:107-132 | A frame whose payload was altered within at most four adjacent bytes, header and checksum intact, is always refused |
| Codecs.LengthHeaderCodec.ComputeCrc | include/codec/LengthHeaderCodec.h:113-120 | Either routine, chosen by payload size, computes the same checksum |
| Codecs.LengthHeaderCodec.DecodeFrom | include/codec/LengthHeaderCodec.h:71-137 | Returns -1, 0 or 1 as the specification says; only on 1 is exactly one frame consumed and its payload appended |
| Codecs.LengthHeaderCodec.EncodeInto | include/codec/LengthHeaderCodec.h:146-201 | Returns 0 for an empty payload, -1 above a positive maximum, else 1 with exactly one frame appended |
| Codecs.LengthHeaderCodec.AppendFrame | include/codec/LengthHeaderCodec.h:180-200 | Header, payload and checksum are appended in this order |
| Codecs.LengthHeaderCodec.Recv | include/codec/Codec.h:55-78 | The receive loop terminates and delivers exactly the greedy parse of the buffer, leaving its remainder |
| Codecs.LengthHeaderCodec.Session | include/codec/Codec.h:55-78 | However a byte stream is cut into arrivals, the messages delivered, the bytes left and the shutdown flag are those of one parse of the whole stream |
| Codecs.LengthHeaderCodec.SendAll | include/codec/Codec.h:81-98 | Sending payloads one after the other puts on the wire the frames of those encode takes, up to the first it refuses |
| Codecs.LengthHeaderCodec.Exchange | include/codec/Codec.h:55-98 | Encoding, cutting the bytes into arrivals in any way and receiving them delivers the list, leaves nothing and reports no error exactly when every payload is non-empty and within the bounds |
| Crc32.Crc32Short | include/Crc32c.h:41-55 | The nibble-table routine computes the bit-by-bit CRC of section 3.4 of RFC 2083, whether char is signed or not |
| Crc32.Crc32Long | include/Crc32c.h:58-69 | The byte-table routine computes the same CRC |
| Crc32.Crc32Update | include/Crc32c.h:71-82 | The incremental routine computes the same register update |
| Crc32.UpdateConcat | include/Crc32c.h:71-82 | Updating over a concatenation is updating piece by piece |
| Crc32.Table16Entries | src/Crc32c.cc:20-25 | Each of the 16 entries is four bit steps of its index |
| Crc32.Table256Entries | src/Crc32c.cc:27-92 | Each of the 256 entries is eight bit steps of its index |
| Crc32.LongStepIsStep8 | include/Crc32c.h:58-69 | One byte-table step is eight bit steps |
| Crc32.TwoShortSteps | include/Crc32c.h:41-55 | Two nibble-table steps are eight bit steps |
| Crc32.UpdateFourInjective | include/Crc32c.h:71-82 | Four bytes are determined by the register before and after them |
| Crc32.CrcDecidesBurst | include/Crc32c.h:41-69 | Strings that agree outside at most four adjacent bytes and have the same CRC are equal |
| Crc32.CheckValue | include/Crc32c.h:41-69 | The published check value: "123456789" gives 0xcbf43926 |
| ByteOrder.HostToNetIsBigEndian | include/ByteOrder.h:76-99 | On either kind of host the converted integer lies in memory most significant byte first |
| ByteOrder.MostSignificantFirst | include/ByteOrder.h:76-99 | Each byte of the big-endian form counts multiples of the power of 256 of its place, the first byte the highest |
| ByteOrder.NetToHostReadsBigEndian | include/ByteOrder.h:50-73 | On either kind of host converting back reads the big-endian value |
| ByteOrder.UnsignedOfBigEndian | include/NetBuffer.h:38-56 | Reading the bytes of an integer gives it back modulo the width |
| ByteOrder.SignedOfBigEndian | include/NetBuffer.h:38-123 | Appending an integer and reading it back signed wraps it around as two's complement does |
| ByteOrder.SignedRoundTrip | include/NetBuffer.h:38-123 | A signed integer survives append and read exactly when it is in the range of its width |
| ByteBuffers.ByteBuffer.constructor | include/ByteBuffer.h:65-67 | A new buffer is empty and well formed for every limit; a negative limit other than -1 acts as a huge one |
| ByteBuffers.Replay | include/ByteBuffer.h:65-220 | Every sequence of append, ensure, direct write, integer, read_fd, read, take, shrink and reset calls answers as a plain byte queue does and ends with the contents of that queue; an unlimited buffer refuses and loses nothing |
| ByteBuffers.BytesConserved | include/ByteBuffer.h:65-220 | Over any such run bytes taken out followed by bytes left are the bytes at the start followed by the bytes put in |
| ByteBuffers.ReplayPair | include/ByteBuffer.h:75-96 | Two buffers with such calls on either, swaps and both kinds of move between them answer as two byte queues do |
| ByteBuffers.PairConserved | include/ByteBuffer.h:75-96 | Over any such run of two buffers no byte is lost or made up |
| ByteBuffers.ByteBuffer.ReadFd | src/NetBuffer.cc:11-45 | However the bytes split between the buffer and the side array, a buffer with room gains exactly the bytes received, a full one as many as it has room for, and a failed read changes nothing |
| ByteBuffers.ByteBuffer.ReadFdSafe | src/NetBuffer.cc:11-27 | Whatever arrives is stored inside the vector exactly when the buffer is unlimited or its vector is as long as its limit |
| ByteBuffers.ShrunkOverruns | include/ByteBuffer.h:215-220 | Concrete case: a fixed buffer after shrink promises a tail its vector does not have |
| ByteBuffers.FixedCapacity | include/ByteBuffer.h:190-207 | A new fixed buffer takes exactly as many bytes as its limit, and once read empty as many again |
| ByteBuffers.FreshRead | src/NetBuffer.cc:11-45 | One read into a new unlimited buffer takes at most 1024 and 65536 bytes, and keeps them |
| ByteBuffers.Receive | src/NetBuffer.cc:11-45 | How many bytes one read takes and keeps, and exactly when it would store past the vector |
| ByteBuffers.ByteBuffer.WriteTail | include/ByteBuffer.h:135-150 | Bytes stored at the write position and announced join the queue when they fit |
| ByteBuffers.ByteBuffer.MoveFrom | include/ByteBuffer.h:75-82 | The contents move and the source is left empty |
| ByteBuffers.ByteBuffer.MoveAssign | include/ByteBuffer.h:83-88 | The contents move; the source is left empty with the limit of the target |
| ByteBuffers.ByteBuffer.Swap | include/ByteBuffer.h:90-96 | Contents and limits change places |
| ByteBuffers.ByteBuffer.ReadableBytes | include/ByteBuffer.h:104-108 | The length of the queue of bytes |
| ByteBuffers.ByteBuffer.Peek | include/ByteBuffer.h:124-133 | The bytes at an offset of the queue |
| ByteBuffers.ByteBuffer.HasWritten | include/ByteBuffer.h:146-150 | Bytes stored after the writer join the queue |
| ByteBuffers.ByteBuffer.HasRead | include/ByteBuffer.h:152-159 | The queue loses that many bytes, or all of them |
| ByteBuffers.ByteBuffer.TakenAsString | include/ByteBuffer.h:176-187 | What is returned followed by what is left is what was there |
| ByteBuffers.ByteBuffer.MigrateData | src/ByteBuffer.cc:41-51 | Moving the bytes to the front keeps the queue |
| ByteBuffers.ByteBuffer.MakeWritableBytes | src/ByteBuffer.cc:13-39 | Room is made exactly when the limit allows it, and the queue is kept; otherwise nothing changes |
| ByteBuffers.ByteBuffer.Append | include/ByteBuffer.h:190-207 | A fixed buffer refuses exactly when the length exceeds the limit less the writer position, and then changes nothing; otherwise the bytes join the queue |
| ByteBuffers.ByteBuffer.Shrink | include/ByteBuffer.h:215-220 | Shrinking keeps the queue and drops all slack |
| ByteBuffers.ByteBuffer.AppendInt | include/NetBuffer.h:38-56 | An integer is appended as its big-endian bytes |
| ByteBuffers.ByteBuffer.PeekUnsigned | include/NetBuffer.h:89-123 | The leading bytes are read as a big-endian number, in either byte order of the host |
| ByteBuffers.ByteBuffer.PeekInt | include/NetBuffer.h:89-123 | The leading bytes are read as a big-endian signed number |
| ByteBuffers.ByteBuffer.ReadInt | include/NetBuffer.h:59-82 | The number is returned and its bytes leave the queue |
| TimerPools.AlwaysQuiet | src/TimerPool.cc:61-201 | After any additions, cancellations and batches with arbitrary callbacks: both indexes list the same live timers under their stored expiry, every live timer is in one place, none is freed twice, cancelled timers are gone, and a non-empty pool has asked for its earliest expiry |
| TimerPools.BatchExact | src/TimerPool.cc:113-201 | A batch runs exactly the indexed timers with expiry at or before now, once each in nondecreasing expiry order, not those its callbacks add; afterwards each uncancelled repeater is indexed at now plus its interval and every other timer of the batch is freed |
| TimerPools.StaleIdCancelsNothing | src/TimerPool.cc:76-111 | Once a timer has been deleted, its identifier moves, marks and cancels no timer, after any events and between any callbacks, whoever uses its address now |
| TimerRequests.RequestRuns | src/TimerPool.cc:45-74 | A timer asked for with an expiry and an interval runs in no batch before its expiry and once in the first at or after it; then it waits for that time plus the interval if it repeats and was not cancelled, and else never runs again, over every run |
| TimerRequests.RequestIsListed | src/TimerPool.cc:45-74 | Whatever happens before its turn comes, the timer is listed with the expiry and interval it was asked for |
| TimerRequests.WaitsUntilDue | src/TimerPool.cc:151-172 | Until its expiry, and unless cancelled, a listed timer stays listed and does not run, whatever happens to others |
| TimerRequests.RunsWhenDue | src/TimerPool.cc:113-201 | The first firing at or after the expiry runs the timer exactly once and re-arms or deletes it |
| TimerRequests.FreedNeverRuns | src/TimerPool.cc:188-192 | A deleted timer never runs again |
| TimerPools.InitiallyQuiet | src/TimerPool.cc:15-29 | A new pool satisfies it |
| TimerPools.CallsKeep | src/TimerPool.cc:113-149 | It also holds, deadline aside, between any two callbacks of a running batch, and no timer of the batch is freed by them |
| TimerPools.MarkedNeverRunsLater | src/TimerPool.cc:76-111 | A timer cancelled while held never runs in a later batch, over every later run |
| TimerPools.CancelBetweenBatches | src/TimerPool.cc:76-111 | Cancelling a held timer between batches: it never runs again |
| TimerPools.CancelInsideBatch | src/TimerPool.cc:76-111 | Cancelling a timer of the running batch from any callback, its own included: it runs in no later batch |
| TimerPools.TimerPool.NewTimer | src/TimerPool.cc:45-53 | The new timer stores the expiry and interval asked for under a name no timer ever had, and is not held before it is added |
| TimerPools.TimerPool.SaveTimer | src/TimerPool.cc:268-295 | The two indexes still agree, and the result tells whether the timer comes before all others |
| TimerPools.TimerPool.AddTimerInOwnLoop | src/TimerPool.cc:61-74 | The pool holds the timer from then on, listed under its expiry, and the requested deadline is still the earliest expiry |
| TimerPools.TimerPool.CancelTimerInOwnLoop | src/TimerPool.cc:76-111 | Afterwards the timer is no longer held, or is in the running batch and marked |
| TimerPools.TimerPool.ResetFromList | src/TimerPool.cc:195-200 | The earliest expiry is requested when there is one |
| TimerPools.TimerPool.TakeExpired | src/TimerPool.cc:156-162 | The loop takes out exactly the expired entries, in order |
| TimerPools.TimerPool.FillExpiredTimers | src/TimerPool.cc:151-172 | Both indexes lose exactly the expired timers |
| TimerPools.TimerPool.RunCallbacks | src/TimerPool.cc:137-144 | Callbacks, with whatever they add and cancel, act as specified |
| TimerPools.TimerPool.Update | src/TimerPool.cc:174-201 | The update loop settles the whole batch and asks for the earliest expiry |
| TimerPools.TimerPool.HandleRead | src/TimerPool.cc:113-149 | One firing of the timer descriptor acts as specified, and does nothing when the read fails |
| TcpConnections.AlwaysValid | src/TcpConnection.cc:200-495 | Over every run with arbitrary partial or failed writes and calls from any thread: bytes on the wire followed by the output buffer are the accepted payloads in order; until disconnect write interest is on exactly when the buffer is non-empty; SHUT_WR before disconnect implies an empty buffer; a requested shutdown was issued or has a reason to wait; the close callback ran once if disconnected and never otherwise |
| TcpConnections.StepKeeps | src/TcpConnection.cc:200-495 | Every step keeps all of that |
| TcpConnections.RunOnward | src/TcpConnection.cc:256-436 | Over every run the state only moves forward, SHUT_WR is not taken back, and wire and log only grow |
| TcpConnections.ShutdownIssued | src/TcpConnection.cc:256-281 | In every run, while the connection is up and no shutdown functor is on its way, a requested SHUT_WR has been issued exactly when the output buffer is empty |
| TcpConnections.SendAllOrNothing | src/TcpConnection.cc:200-254 | A payload is wholly kept or, on a broken connection, wholly dropped |
| TcpTraces.LogIsProcessed | src/TcpConnection.cc:118-254 | Over every run the payloads that send_in_loop saw are exactly those that user code sent while connected and those whose functor was run, in that order |
| TcpTraces.GivenIsTaken | src/TcpConnection.cc:157-198 | Every payload given by another thread on a connected connection is taken off the queue once, or is still on its way |
| TcpTraces.TakenIsProcessed | src/TcpConnection.cc:195-212 | A payload taken off the queue before the connection is down is processed |
| TcpTraces.QueueInOrder | src/EventLoop.cc:200-244 | Functors are only added at the end of the queue and taken from its front |
| TcpTraces.RequestedExactly | src/TcpConnection.cc:256-281 | Shutdown has been requested exactly when some call asked for it on a connection that was up |
| TcpTraces.ForceCloseCloses | src/TcpConnection.cc:283-325 | force_close on a live connection puts one functor on its way, which takes it down with one close callback |
| TcpTraces.ClosingWritesNothing | src/Channel.cc:56-100 | An event that takes the connection down writes nothing |
| TcpTraces.EventKeepsStream | src/Channel.cc:56-100 | What a message callback sends goes behind what was waiting, and the write handler only moves bytes after it |
| TcpTraces.SendAnnounces | src/TcpConnection.cc:215-253 | send announces completion, or that the buffer crossed the high-water mark, exactly when it is so |
| TcpTraces.WriteAnnounces | src/TcpConnection.cc:463-495 | Draining announces completion exactly when it empties the buffer |
| TcpTraces.CloseQueuesDestruction | src/TcpConnection.cc:413-436 | Going down queues the destruction of the connection |
| TcpConnections.TcpConnection.SendInLoop | src/TcpConnection.cc:200-254 | The payload joins the end of wire plus buffer whole, or nothing is sent; the invariant is kept |
| TcpConnections.TcpConnection.HandleWrite | src/TcpConnection.cc:463-495 | Bytes only move from the buffer to the wire; emptying the buffer of a disconnecting connection issues SHUT_WR; the invariant is kept |
| TcpConnections.TcpConnection.HandleClose | src/TcpConnection.cc:413-436 | A live connection is closed once, and wire and buffer stay as they are |
| TcpConnections.TcpConnection.HandleRead | src/TcpConnection.cc:438-461 | The connection stays up exactly unless end of file was read; without data nothing is sent |
| TcpConnections.TcpConnection.HandleEvent | src/Channel.cc:56-100 | The connection goes down exactly on a hang-up without input or at end of file; the invariant is kept and nothing goes back |
| TcpConnections.TcpConnection.CallFromOutside | src/TcpConnection.cc:157-296 | Calls from other threads keep the invariant and only move the state forward |
| TcpConnections.TcpConnection.RunNext | src/TcpConnection.cc:158-325 | The functor at the front takes effect: a payload reaches send_in_loop, a shutdown is issued unless output waits, a force_close takes a live connection down; the invariant is kept and nothing goes back |
| TcpConnections.TcpConnection.Handle | src/TcpConnection.cc:200-495 | Every event keeps the invariant and nothing goes back |
| TcpConnections.TcpConnection.Drive | src/TcpConnection.cc:200-495 | A whole run of the object is the run of the specification, and so satisfies its invariant |
| EventLoops.NoLostWakeup | src/EventLoop.cc:91-128 | Under every interleaving functors run at most once and in queue order. A loop in poll has a readable wakeup descriptor, or a poster about to write it, whenever the queue holds more than posts the owner made before the loop started; up to the first swap and without quit exactly then, and after the first swap whenever the queue is not empty |
| EventLoops.AlwaysValid | src/EventLoop.cc:91-266 | The invariant behind it holds in every reachable state |
| EventLoops.NothingLost | src/EventLoop.cc:200-244 | Over every run the functors executed, taken and queued are together exactly those posted, in the order of posting |
| EventLoops.QuitIsSeen | src/EventLoop.cc:83-128 | After quit, from whichever thread, the loop does not stay in poll, and at the loop condition it stops |
| EventLoops.EventLoop.Perform | src/EventLoop.cc:200-213 | A post, wakeup or quit runs and loses no functor, and keeps the invariant |
| EventLoops.EarlyPostCanWait | src/EventLoop.cc:200-213 | Concrete run: a functor the owner queues before the loop starts can sit there while the loop sleeps |
| EventLoops.PassRunsQueue | src/EventLoop.cc:91-128 | One undisturbed pass of the loop runs everything queued and leaves nothing posted unrun |
| EventLoops.AsideKeeps | src/EventLoop.cc:200-213 | Posts, wakeups and quit, from any thread, do not touch functors already swapped out |
| EventLoops.EventLoop.SwapFunctors | src/EventLoop.cc:234-238 | Exactly the functors queued up to the swap are taken, and the queue is empty |
| EventLoops.EventLoop.RunNext | src/EventLoop.cc:239-241 | One functor runs, whatever it and others post meanwhile |
| EventLoops.EventLoop.RunFunctorsTaken | src/EventLoop.cc:239-241 | The loop ends and runs all functors taken, in order |
| EventLoops.EventLoop.DoCallingWakeupFunctors | src/EventLoop.cc:228-244 | Under any interference exactly the functors in the queue at the swap run, in order, and the invariant of the loop holds again |
| BlockingQueues.NeverStuck | include/synchronization/BlockingQueue.h:213-248 | For any producers, consumers and spurious wakeups: the size stays within the maximum, pops are a prefix of pushes, a sleeping consumer with nobody woken means an empty queue and dually for producers, and both sides are never asleep together with nobody woken |
| BlockingQueues.FirstInFirstOut | include/synchronization/BlockingQueue.h:213-248 | Over every run the items handed out, followed by the queue, are exactly the items push was called with, in the order in which the calls found room |
| BlockingQueues.AlwaysValid | include/synchronization/BlockingQueue.h:213-248 | While a consumer sleeps there are at least as many woken consumers as items, and dually for producers and free places, in every reachable state |
| BlockingQueues.NextKeeps | include/synchronization/BlockingQueue.h:213-248 | Every step keeps that |
| BlockingQueues.BoundedBlockingQueue.TryPush | include/synchronization/BlockingQueue.h:215-222 | One turn of the wait loop of push: wait exactly when full, else store at the end and signal |
| BlockingQueues.BoundedBlockingQueue.TryPop | include/synchronization/BlockingQueue.h:238-247 | One turn of the wait loop of pop: wait exactly when empty, else take the front and signal |
| BlockingQueues.BoundedBlockingQueue.EnterPush | include/synchronization/BlockingQueue.h:213-223 | The first turn is a step of the transition system and keeps the invariant |
| BlockingQueues.BoundedBlockingQueue.AgainPush | include/synchronization/BlockingQueue.h:213-223 | So is a turn after a wait |
| BlockingQueues.BoundedBlockingQueue.EnterPop | include/synchronization/BlockingQueue.h:236-248 | Likewise for pop, which hands out exactly what it records |
| BlockingQueues.BoundedBlockingQueue.AgainPop | include/synchronization/BlockingQueue.h:236-248 | So is a turn of pop after a wait |
| ThreadPools.JoinAllCompletes | src/ThreadPool.cc:65-81 | When joinall returns, every accepted task has been taken in order and has ended exactly once, the queue is empty and every worker has left |
| ThreadPools.EveryTaskIsQueued | src/ThreadPool.cc:95-118 | Every task given to run_task has been taken, in the order of the calls, or is still in the queue |
| ThreadPools.JoinAllProgresses | src/ThreadPool.cc:65-158 | While joinall waits and some worker has not left, some worker is awake |
| ThreadPools.JoinAllBounded | src/ThreadPool.cc:65-158 | joinall ends: while it waits, every step of any schedule uses up one of a number of steps fixed by the queue and the workers |
| ThreadPools.QueueIsAttended | src/ThreadPool.cc:95-158 | A non-empty queue always has an awake worker |
| ThreadPools.AlwaysValid | src/ThreadPool.cc:65-158 | In every reachable state accepted tasks are the taken ones followed by the queued ones, each taken task is with one worker or ended once, and there is one sentinel for each worker yet to leave |
| ThreadPools.NextKeeps | src/ThreadPool.cc:65-158 | Every step keeps that |
| ThreadPools.ThreadPool.PushTasks | src/ThreadPool.cc:108-116 | The pushing loop appends the tasks in order |
| ThreadPools.ThreadPool.RunUserTasks | src/ThreadPool.cc:95-118 | The locked part of run_task is the step of the transition system and keeps the invariant |
| ThreadPools.ThreadPool.StopWorkers | src/ThreadPool.cc:65-72 | One null task for each worker is queued behind all accepted tasks |
| ThreadPools.ThreadPool.FetchTask | src/ThreadPool.cc:129-145 | A worker inside the lock waits on an empty queue or takes the first task |
| ThreadPools.ThreadPool.FinishTask | src/ThreadPool.cc:156-157 | A finished task is recorded once and the worker is free |
| ThreadPools.ThreadPool.Leave | src/ThreadPool.cc:149-155 | A worker that took a null task signals and ends, and the rest stay attended |
| Pollers.AlwaysCurrent | src/Channel.h:62-86 | After any enable, disable and remove calls on any channels every control operation issued was legal (ADD when absent, MOD and DEL when present), the map holds exactly the Added and Deleted channels, and the kernel watches exactly the Added ones for their current events |
| Pollers.EventsAreWanted | src/Channel.h:62-86 | After any calls the read and write bits of every channel are what the last call about them on it asked for |
| Pollers.CallRegisters | src/PollPoller.cc:48-111 | A call puts its channel into the map; a removal takes it out of the map and out of the kernel set |
| Pollers.CallElsewhere | src/PollPoller.cc:48-111 | A call does not touch other channels |
| Pollers.CallKeeps | src/Channel.h:62-86 | One call keeps that |
| Pollers.WatchedWhenWanted | src/PollPoller.cc:48-87 | After a call a channel is watched exactly when it has events, if and only if it was Added before or has events now |
| Pollers.DisabledTwiceIsWatched | src/PollPoller.cc:56-71 | Concrete run: disabling an already disabled channel adds it to the kernel again, with no events |
| Pollers.ReadyExactly | src/PollPoller.cc:113-133 | The ready list holds exactly the entries with a result, none twice |
| Pollers.PollPoller.FindPollEvents | src/PollPoller.cc:171-183 | The first entry of the descriptor, or the end |
| Pollers.PollPoller.UpdatePollEvents | src/PollPoller.cc:135-169 | The vector keeps one entry with current events for each watched descriptor |
| Pollers.PollPoller.UpdateChannel | src/PollPoller.cc:48-87 | The new map, statuses and control operation are those of the common specification |
| Pollers.PollPoller.RemoveChannel | src/PollPoller.cc:89-111 | Likewise for removal |
| Pollers.PollPoller.Perform | src/Channel.h:62-86 | One call on a channel acts as specified and keeps map, statuses, vector and operations in agreement |
| Pollers.PollPoller.PerformAll | src/Channel.h:62-86 | Any calls on fresh channels: the operations issued and the final map are those of the common run |
| Pollers.PollPoller.FillActiveChannels | src/PollPoller.cc:113-133 | For every count: the first that many ready entries, each as its channel carrying its result |
| Pollers.PollPoller.Poll | src/PollPoller.cc:20-46 | The active list is exactly the channels with a result, without duplicates, and nothing else changes |
| Pollers.EPollPoller.UpdatePollEvents | src/EPollPoller.cc:162-184 | A legal control operation changes the kernel set accordingly |
| Pollers.EPollPoller.UpdateChannel | src/EPollPoller.cc:76-115 | The same specification as for poll |
| Pollers.EPollPoller.RemoveChannel | src/EPollPoller.cc:117-139 | Likewise for removal |
| Pollers.EPollPoller.Perform | src/Channel.h:62-86 | One call acts as specified; every kernel entry points to the channel in the map |
| Pollers.EPollPoller.PerformAll | src/Channel.h:62-86 | Any calls on fresh channels issue the same operations as the poll version |
| Pollers.EPollPoller.FillActiveChannels | src/EPollPoller.cc:141-160 | The reported channels, each registered in the map, carry their events |
| FilePaths.StripTrailingSeparators | src/FilePath.cc:615-637 | The loop yields the specified stripped path |
| FilePaths.StripFixes | src/FilePath.cc:615-637 | A path is left alone exactly when it is empty, "/", "//" or does not end in a separator |
| FilePaths.DoubleRoot | src/FilePath.cc:615-637 | Only "//" itself is stripped to "//" |
| FilePaths.StripFacts | src/FilePath.cc:615-637 | Stripping removes only separators from the end, and leaves nothing only of nothing |
| FilePaths.StripIdempotent | src/FilePath.cc:615-637 | Stripping twice is stripping once |
| FilePaths.DirnameFixes | src/FilePath.cc:277-314 | dirname leaves exactly ".", "/" and "//" alone |
| FilePaths.DirnameShrinks | src/FilePath.cc:203-214 | Any other path gets smaller in a measure in which "." is least, so the component loop ends |
| FilePaths.AppendSplits | src/FilePath.cc:466-509 | After appending a name basename is the name, dirname is the stripped path (or "." for an empty path), and there is nothing to strip |
| FilePaths.AppendComponents | src/FilePath.cc:466-509 | The components become those of the stripped path and then the name, exactly unless "." is appended to "" or "." |
| FilePaths.AppendAllComponents | src/FilePath.cc:262-266 | Appending names one by one adds exactly those components, unless the path is empty or "." and the first name is "." |
| FilePaths.AreAllSeparators | src/FilePath.cc:53-63 | True exactly when every character is a separator |
| FilePaths.GetComponents | src/FilePath.cc:190-230 | The loop ends on every path and yields the specified components |
| PathComponents.ComponentsAreRuns | src/FilePath.cc:190-230 | The components of any path are its root, "//" for two leading separators or for three before a name and "/" otherwise, and then its maximal separator-free runs in order, less a leading "." of a relative path that is followed by more or is the whole path |
| PathComponents.DirnameText | src/FilePath.cc:277-314 | The directory is "." when nothing is in front of the base name, a root when only separators are, and else the stripped text in front of it |
| PathComponents.BetweenIsSeparators | src/FilePath.cc:277-338 | The directory is a prefix of the path, and between it and the base name are separators only |
| PathComponents.AppendText | src/FilePath.cc:466-509 | append writes the stripped path, one separator unless the path is a root or there is nothing in front, and the name |
| FilePaths.ComponentsOfStripped | src/FilePath.cc:190-230 | Stripping keeps the components, exactly unless it turns a longer path into "." |
| FilePaths.ComponentsAreNames | src/FilePath.cc:190-230 | Every component but the first is non-empty and free of separators |
| FilePaths.AppendRelativePath | src/FilePath.cc:237-272 | True exactly when the components of the parent are a non-empty proper prefix of those of the child; then the others are appended in order |
| FilePaths.RelativeRejoins | src/FilePath.cc:237-272 | Appending them to the parent gives back the components of the child, exactly unless the parent strips to "." |
| FilePaths.DotParentLosesItself | src/FilePath.cc:237-272 | Concrete case: "././x" is below "./" but is not rebuilt from it |
| FilePaths.ExtensionRejoins | src/FilePath.cc:340-376 | remove_extension followed by extension is the path, exactly when there is no extension or no trailing separator to strip |
| PathExtensions.ExtensionText | src/FilePath.cc:84-125 | Of a base name with two dots or more, the extension is its last two parts exactly when they are "user.js", or one to four characters before gz, z, bz2 or bz in any case, and else its last part |
| PathExtensions.OneDot | src/FilePath.cc:68-90 | With one dot the extension starts there |
| PathExtensions.NoExtension | src/FilePath.cc:68-78 | A base name without a dot, "." and ".." have no extension |
| PathExtensions.ExtensionExamples | src/FilePath.cc:32-33 | Concrete parts that are one extension, and that are not |

## Left out

- Socket, file, signal, eventfd and timerfd wrappers: system calls only.
- The conversion of a deadline into a timerfd delay, which does not clamp zero or negative differences.
- `StringEofCodec`: its resume offset accumulates, so it does not refine a search of the whole buffer.
- The protobuf codec, dispatcher and RPC channel, which rest on the protobuf library.
- `Connector`, `Acceptor`, `TcpClient`, `TcpServer` and the destruction of servers: lifetimes decided by weak references and deferred resets.
- `start_read` and `stop_read`; with reads disabled the invariants of the connection do not all hold.
- A POLLHUP that comes with POLLPRI but without POLLIN, which makes the dispatcher close and then read.
- `force_close_with_delay`, which is `force_close` from a timer.
- `TimeStamp` and `TimeDelta` calendar conversions, logging, command line, flags, environment and the other string utilities: would only add easy members.
- The timer pool's destructor, and the emulation of the timer descriptor on systems other than Linux.
- `stop` of the thread pool, its bounded task queue, a pool without workers, null tasks given by users, and `run_task` concurrent with `joinall`.
- The unbounded variant of the blocking queue, and its accessors.
- Exceptions, memory exhaustion, overflow of `size_t`, and memory ordering weaker than the locks give.
- Sequence numbers of timers do not wrap around.
- Drive letters, other separators, case folding beyond ASCII, and the remaining operations of `FilePath`.
- Growth of the epoll event array, and failures of `poll` and `epoll_wait`, which report no events.
- Replacement text or matcher text that aliases the string being changed.
- Message callbacks that touch the input buffer of their connection while the codec loop runs.
- Codecs.LengthHeaderCodec.DecodeFrom: does not model the overflow of length plus header width, which only a 64-bit header without a payload limit could reach.
- ByteBuffers.ByteBuffer.ReadFd: requires the bytes that land in the tail to stay inside the vector, since beyond it the source has no defined behaviour; `ByteBuffers.ByteBuffer.ReadFdSafe` says when that is so.
- ThreadPools.JoinAllBounded: user tasks are taken to end; the length of a task is not modelled.
- ByteBuffers.Replay: a call that the assertions of the source forbid, or that would store past the vector, is answered as such and has no effect.
- ByteBuffers.ByteBuffer.PeekUnsigned: widths are arbitrary where the source has 1, 2, 4 and 8.
- TimerPools.TimerPool.HandleRead: the time and the success of the read are parameters; expiry 0 stands for the invalid time, which asks for no deadline.
- EventLoops.AlwaysValid: liveness of the scheduler is not modelled; `EventLoops.PassRunsQueue` states what one undisturbed pass does.
- BlockingQueues.AlwaysValid: says nothing about fairness between waiters.
- Pollers.PollPoller.Poll: results are taken to be non-negative, so that the kernel's count is the number of positive results.
- Pollers.PollPoller.Perform: a removal that the source's assertions forbid is skipped.
- FilePaths.ExtensionRejoins: `add_extension`, `insert_before_extension` and `replace_extension` are not modelled.
