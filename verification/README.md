# Minet, modelled and proved in Dafny

Minet is a small HTTP/1.1 server library in C++. This project models the parts of it where
correctness is hardest to see and proves what they keep over every input and every run:

- the lock-free bounded queue, as a state machine in which each atomic load, compare-and-swap and
  store is one step of one of any number of threads (`QueueProtocol`, `QueueInvariant`,
  `QueueTheorems`), what its slots hold (`QueueContents`), what its callers see (`QueueCalls`), and the same
  arrays and loops run without interleaving (`SequentialQueue`);
- the work-stealing pool: with whole operations on ideal queues (`ThreadPool`), with the atomic steps of the
  real queues and the proof that this pool refines the first (`ConcretePool`), and what follows for the
  capacity it is configured with (`PoolTheorems`, `TaskPlaces` for the task objects themselves, and
  `WorkerProgress` for what a worker comes to do), through the bit-smearing that chooses the queues' capacity
  (`Bits`);
- the push-driven request parser with its 16 states (`AsyncParser`), a grammar that does not know
  these states and the proof that the two describe the same language (`Grammar`), its answer to every character
  at every place (`FeedTable`), what the numbers mean (`Numbers`), and the request printer with the round trip
  (`Printer`);
- the streams and the buffered reader (`Streams`), the context builder that joins reader and parser
  (`ContextBuilder`), the pull-driven parser with its one character of push-back (`SyncParser`), when its
  body arrives intact (`BodyReading`), its agreement with the other parser (`ParserAgreement`), its own
  language (`PullGrammar`) and all its result codes (`PullCodes`);
- the buffered writer (`Writer`), the dispatcher's response through it (`Dispatcher`), and what a client reads in
  that (`ResponseReading`);
- the event loop of the Mayhem server with its workers and the kernel's descriptor table (`Mayhem`), and what it
  makes of the answers of `Parse` and `Submit` (`MayhemDecisions`).

Code that changes objects in place is modelled by classes and loops with the source's fields; each
method is proved to compute a function of the old state, and the theorems are about these functions.
The two concurrent parts and the event loop are state machines, because their meaning is the
interleaving of their steps. A thread that takes part in a run, the choice of the next step, spurious
failures, the sizes of short reads, the failures of writes, epoll's events, `accept`'s descriptors and the
iteration order of `unordered_map` are all parameters or free choices.

## What the proofs found in the code

- `Queue` accepts capacity 1 (`Queue.h:106`), where "published for ticket k" and "free for ticket k+1" are
  the same number: two pushes in a row both succeed and the first value is lost, and a pop that then runs
  alone loops for ever. The bound on the contents holds in every run if and only if the capacity is at
  least 2 (`SafeCapacity`).
- A pool configured with capacity 0 or 1 gets such queues and can lose a task whose `Submit` returned true;
  above 2^63 `MakePowerOfTwo` gives 0, which the queue's constructor refuses. Nothing is lost in any run if
  and only if the configured capacity is from 2 to 2^63 (`SafePool`).
- The header promises that `Feed` returns a negative value on an error (`Parser.h:49`); the code returns the
  positive state code (`AsyncParser.cpp:45-53`), as the model does. `AsyncHttpContextBuilder::Parse` tests
  for a negative result, so it never reports a malformed request: it reads on to the end of the stream, or to
  the first byte that is not positive as a `char`, which is lost.
- `strchr` (`AsyncParser.cpp:20`) also finds the terminating NUL, so NUL is a path character of the push-driven
  parser. The pull-driven one ends a word there and never reads the NUL again, so the two never agree on such
  a path.
- One header line ends the Mayhem server's event loop: at the end of a `Content-Length` line whose value `stoi`
  does not take (`Content-Length: x`), and nowhere else, an exception leaves the parser (`ThrowLanguage`,
  `BuilderLanguage`), and nothing between there and `_Serve` catches it.
- The pull-driven parser compares a promoted `char` with -1, so the byte 0xFF ends a word like the end of the
  input and is lost, as NUL is: `GET`, 0xFF, blank, and so on is read as a request (`PullLanguage`).
- The callers put the client's address into `Host` before parsing. A request without a Host header therefore
  comes back from print and parse with that address (`PresetHostReturns`).
- `BufferedStreamReader::Read(buffer, length)` takes the minimum with `length`, not with what remains: a
  refill larger than the rest is copied past the end of the caller's buffer. On a stream whose end is an
  error, `_tail` keeps its value and old bytes are delivered again. The read is exact for every splitting of
  the data if and only if `Fits` holds (`ExactIffFits`), with the sizes of the reads that break it otherwise;
  for a request read by the pull-driven parser this comes down to `BodySafe` (`BodyExactIffSafe`): pipelined
  bytes behind a body of more than one byte are enough.
- `BufferedStreamWriter::Flush` reports an error even when the stream took everything, so a write that meets
  a full buffer stops there. A response is delivered whole if and only if it has at most 1024 bytes and the
  stream takes the one write.
- The pull-driven parser does not initialise `ContentLength` (`_ParsePreamble` is never called), so on a
  request without that header it agrees with the other parser only if the object already holds 0.
- `CleanPath` calls `back()` on an empty string exactly on paths with no character other than a slash.
- When the event loop ends, the connections it was still monitoring stay open with no owner.

## Model

| member | source | states |
|---|---|---|
| `QueueTheorems.FifoDelivery` | minet/src/threading/Queue.h:138-210 | In every interleaving, each ticket is won by one Push and one Pop; the Pop that returned with ticket k delivered the value of the Push with ticket k; a ticket won but not delivered is in the hands of exactly one thread. |
| `QueueTheorems.ReturnsItsTicket` | minet/src/threading/Queue.h:170-210 | A Push that returned true has its value logged under the ticket it won, and a Pop that returned true hands over the logged value of the ticket it won. |
| `QueueTheorems.TicketsAreFinal` | minet/src/threading/Queue.h:153-174 | No step changes a logged or delivered value or takes a counter back; a counter moves only by one and only when a thread at its compare-and-swap wins a fresh ticket with its own value. |
| `QueueTheorems.RealTimeOrder` | minet/src/threading/Queue.h:142-174 | Calls made after others have returned get later tickets, in every continuation of every run. |
| `QueueTheorems.ExclusiveSlot` | minet/src/threading/Queue.h:149-207 | Two threads between their winning compare-and-swap and their releasing store are never at the same slot, although the Index test and the compare-and-swap are separate steps. |
| `QueueTheorems.IndexIsDetermined` | minet/src/threading/Queue.h:102-207 | Each slot's Index is the exact function of the stage of its current ticket (free, claimed by a Push, published, claimed by a Pop), and a published slot holds its ticket's value. |
| `QueueTheorems.NumbersStaySmall` | minet/src/threading/Queue.h:35 | Every Index is at most the enqueue counter plus the capacity, so nothing wraps before 2^64 minus capacity tickets. |
| `QueueTheorems.PushFalse` | minet/src/threading/Queue.h:149-162 | When Push gives up, its `next` equals the counter at that load and the ticket a lap earlier is unreleased; with no Pop in flight that is exactly a full queue. |
| `QueueTheorems.PopFalse` | minet/src/threading/Queue.h:187-199 | When Pop gives up, its `next` equals the counter and that ticket is unpublished; with no Push in flight that is exactly an empty queue. |
| `QueueTheorems.ExtraPassAdvances` | minet/src/threading/Queue.h:145-168 | Going round the loop again is a spurious failure or strictly raises the local `next` to the current counter. |
| `QueueCalls.PushFailsOnlyWhenFull` | minet/src/threading/Queue.h:145-168 | In every run, whatever action makes a Push return false is its own load of Index, with its `next` equal to the counter and the ticket a lap earlier unreleased; with no Pop in its critical section the queue is then full. |
| `QueueCalls.PopFailsOnlyWhenEmpty` | minet/src/threading/Queue.h:184-204 | Whatever action makes a Pop return false is its own load of Index, with its `next` equal to the counter and that ticket unpublished; with no Push in its critical section the queue is then empty. |
| `QueueCalls.LoopGoesOn` | minet/src/threading/Queue.h:153-168 | A compare-and-swap wins exactly if it is not spurious and `next` is the counter; otherwise, and after an Index above `next`, there is another pass with the present counter, which has moved on unless the failure was spurious. |
| `QueueCalls.LonePop` | minet/src/threading/Queue.h:179-210 | From every reachable state a Pop that nobody interferes with takes and returns the front value if that is published, and returns false otherwise; in a quiet queue it fails exactly when that is empty. |
| `QueueCalls.LonePush` | minet/src/threading/Queue.h:138-177 | From every reachable state a Push that nobody interferes with appends its value and returns true if its slot has been released, and returns false otherwise; in a quiet queue it fails exactly when that is full. |
| `QueueTheorems.SoloFinishes` | minet/src/threading/Queue.h:145-207 | From any reachable state a thread inside a call and running alone returns within six steps and two more passes. |
| `QueueTheorems.RefinesBoundedFifo` | minet/src/threading/Queue.h:138-210 | Every step of every run is invisible or one legal operation on a bounded first-in first-out sequence, and the value taken is the one that Pop delivers. |
| `QueueTheorems.ReachableInv` | minet/src/threading/Queue.h:102-210 | The inductive invariant over counters, Index values and stale local `next` holds in every reachable state. |
| `QueueTheorems.ReachableStep` | minet/src/threading/Queue.h:138-210 | Reachability is closed under every call and step, so the theorems speak of all states of all runs. |
| `QueueTheorems.CapacityOneLosesData` | minet/src/threading/Queue.h:106-174 | A concrete run with capacity 1 in which two Pushes succeed and the first value is overwritten. |
| `QueueTheorems.CapacityOneHangs` | minet/src/threading/Queue.h:184-204 | After that run a Pop that runs alone never returns, after any number of steps. |
| `QueueTheorems.SafeCapacity` | minet/src/threading/Queue.h:106 | The queue never accepts more than its capacity in any run if and only if the power-of-two capacity is at least 2. |
| `QueueInvariant.StepInv` | minet/src/threading/Queue.h:142-207 | Each atomic step of each thread, winning or not, keeps the invariant. |
| `QueueInvariant.WinnableTicket` | minet/src/threading/Queue.h:150-153 | A Push whose compare-and-swap succeeds finds its slot still free for its ticket, however stale the earlier Index test was. |
| `QueueInvariant.TakeableTicket` | minet/src/threading/Queue.h:189-191 | A Pop whose compare-and-swap succeeds finds its ticket still published with its value in place. |
| `QueueProtocol.SlotOfIsMod` | minet/src/threading/Queue.h:86-147 | For a power-of-two capacity the masked index is the remainder. |
| `QueueContents.NothingStaysBehind` | minet/src/threading/Queue.h:170-207 | In every reachable state a slot holds an object exactly while its ticket has been written and not yet moved out, and it is that ticket's value; no value is retained by the queue. |
| `SequentialQueue.Queue.constructor` | minet/src/threading/Queue.h:102-112 | A positive power of two, at least 2, gives a valid empty queue. |
| `SequentialQueue.Queue.Push` | minet/src/threading/Queue.h:138-177 | Run alone, Push fails exactly on a full queue and otherwise appends its value, whatever spurious failures occur. |
| `SequentialQueue.Queue.Pop` | minet/src/threading/Queue.h:179-210 | Run alone, Pop fails exactly on an empty queue and otherwise removes and returns the first value. |
| `Bits.MakePowerOfTwo` | minet/src/threading/Worker.h:22-38 | The least power of two not below max(x, 1) for every 64-bit x up to 2^63 and 0 above; at least 2 exactly for x from 2 to 2^63. |
| `Bits.LeastPowerOfTwo` | minet/src/threading/Worker.h:22-38 | The same for the function the method computes, with result 1 exactly for 0 and 1. |
| `Bits.MaskIsMod` | minet/src/threading/Queue.h:86 | Masking with p-1 is the remainder modulo a power of two p. |
| `Bits.PowerOfTwoTest` | minet/src/threading/Queue.h:106 | The constructor's bit test accepts exactly the positive powers of two. |
| `Bits.SmearAll` | minet/src/threading/Worker.h:31-36 | The six shift-and-or steps turn a 64-bit value into all ones below its highest bit. |
| `PoolTheorems.TaskConservation` | minet/src/threading/Worker.h:123-149 | Over all interleavings of the atomic steps of submitters and workers, for every configured capacity from 2 to 2^63: a task whose Push has won is once in exactly one of a queue, a worker's hand, or finished, and no other task is anywhere, even while workers stop; Submit's result says whether it has won. |
| `PoolTheorems.NothingIsLost` | minet/src/threading/Worker.h:123-149 | In all these runs the task object of a Submit that returned true is physically in a slot, with a worker that is taking or running it, or done. |
| `TaskPlaces.HeldOnce` | minet/src/threading/Worker.h:123-149 | In all these runs the object of any task is in at most one place, that is one slot of one queue, one worker's hand, or one record of a finished task; one whose Submit returned true is in exactly one. |
| `PoolTheorems.SafePool` | minet/src/threading/Worker.h:89 | For every 64-bit configured capacity: the queues' constructor accepts the computed capacity and no accepted task is ever lost, if and only if the configured capacity is from 2 to 2^63. |
| `PoolTheorems.TwoSubmits` | minet/src/threading/Queue.h:106-174 | The failing run: with a queue of capacity 1 two Submit calls return true, the first task is nowhere, and two tasks wait in a queue of one. |
| `PoolTheorems.BoundFails` | minet/src/threading/Worker.h:22-89 | At configured capacities 0 and 1 the bound on the waiting tasks fails. |
| `ConcretePool.StepRefines` | minet/src/threading/Worker.h:123-149 | Every atomic step of a Push or Pop inside the pool keeps the pool's invariant and is a stutter or one whole operation of the pool with ideal queues. |
| `ConcretePool.RunRefines` | minet/src/threading/ThreadPool.cpp:13-35 | Every run of the pool on the real queues, of any power-of-two capacity of at least 2, is a run of the pool on ideal bounded queues. |
| `ConcretePool.PushStepEffect` | minet/src/threading/Queue.h:138-177 | One step of a Push: undecided, or its value appended to a queue that was not full, or refused, once and for all. |
| `ConcretePool.PopStepEffect` | minet/src/threading/Queue.h:179-210 | One step of a Pop: still trying, or failed, or the next ticket taken and kept. |
| `PoolTheorems.OnlyNeighboursSteal` | minet/src/threading/ThreadPool.cpp:23-26 | A task chosen for worker j is run only by worker j or worker j-1 modulo the number of threads. |
| `PoolTheorems.QueuesAreFifo` | minet/src/threading/Worker.h:123-131 | What was taken from a worker's queue followed by what waits there is what was pushed, in order, and a Pop that returned true hands over the task of its place in it. |
| `PoolTheorems.PoolCapacity` | minet/src/threading/Worker.h:89 | For every configured capacity from 2 to 2^63 the waiting tasks never exceed the number of threads times the least power of two at or above it, and each queue keeps its own bound. |
| `PoolTheorems.FairSelection` | minet/src/threading/ThreadPool.h:75-79 | After n Submit calls from any threads, n at most 2^64, for any capacity, each worker was selected n/threads times or once more, exactly the first n mod threads of them. |
| `WorkerProgress.WorkersWork` | minet/src/threading/Worker.h:133-149 | From every reachable pool a worker at its check that runs alone comes in seven steps to run the front task of its own queue if that is published, in ten steps that of the queue of worker i+1 modulo the number of threads, or else to sleep and check again; stopped, it exits; a task that runs is then done. |
| `WorkerProgress.WorkerFinds` | minet/src/threading/ThreadPool.cpp:23-26 | The same step by step, with the queue it takes from left without its front task and the other workers where they were. |
| `WorkerProgress.RunningUntilStopped` | minet/src/threading/Worker.h:106-116 | A worker's flag is set exactly as long as its Stop has not come, and it leaves its loop only after that. |
| `WorkerProgress.SubmitDecides` | minet/src/threading/ThreadPool.h:75-79 | In every run call number n, not interfered with, puts its task at the end of the queue of worker n modulo the number of threads and returns true if there is room, and returns false otherwise. |
| `ThreadPool.TaskConservation` | minet/src/threading/Worker.h:123-149 | The same conservation for the pool with whole operations on ideal bounded queues, which the real pool refines. |
| `Http.MethodRoundTrip` | minet/src/common/Http.cpp:8-71 | Reading a printed method gives the method back, and only printed names are recognised. |
| `Http.StoiOfDecimal` | minet/src/utils/AsyncParser.cpp:308 | `stoi` undoes decimal printing for every non-negative int. |
| `Numbers.DecimalDigits` | minet/src/core/HttpContext.cpp:77 | Every character of a printed number is the digit of its weight, and there is no zero too many in front. |
| `Numbers.StoiExact` | minet/src/utils/AsyncParser.cpp:308 | `stoi` returns exactly on white space, a sign or none, digits whose place value fits 32 bits, and anything not beginning with a digit, and it returns that value. |
| `AsyncParser.AsyncHttpRequestParser.Feed` | minet/src/utils/AsyncParser.cpp:62-394 | The object with the source's fields and handlers moves to the state and gives the answer that the transition function says, on every character in every state. |
| `AsyncParser.AsyncHttpRequestParser.ParseVersion` | minet/src/utils/AsyncParser.cpp:151-233 | The position-by-position switch accepts exactly the next character of the version text, and the carriage return after all eight. |
| `AsyncParser.AsyncHttpRequestParser.ParseHeaderValue` | minet/src/utils/AsyncParser.cpp:298-330 | A value is collected and stored under its key, special headers in their own fields, an exception leaves the parser unchanged. |
| `AsyncParser.AsyncHttpRequestParser.ParseBody` | minet/src/utils/AsyncParser.cpp:366-384 | The body grows until it has the stated length, compared as a 64-bit size, and the last byte is accepted. |
| `AsyncParser.VerdictSettles` | minet/src/utils/AsyncParser.cpp:36-60 | Whatever character gives a verdict leaves the parser in the matching final state with the same code. |
| `AsyncParser.VerdictIsFinal` | minet/src/utils/AsyncParser.cpp:386-394 | After acceptance or rejection every further character gets the same answer and the request never changes. |
| `Grammar.ExactLanguage` | minet/src/utils/AsyncParser.cpp:67-384 | The answers are 0, .., 0, 1 on s if and only if s is method, path, version, header lines, an ending of key characters, and a body of exactly the last Content-Length bytes. |
| `Grammar.ProgressLanguage` | minet/src/utils/AsyncParser.cpp:67-384 | The answers are all 0 exactly on the proper beginnings that the grammar describes. |
| `Grammar.ThrowLanguage` | minet/src/utils/AsyncParser.cpp:298-345 | Fed one character at a time, the parser answers 0, .., 0 and then throws on exactly the texts that run up to the end of a Content-Length line whose value `stoi` does not take. |
| `FeedTable.FeedAnswers` | minet/src/utils/AsyncParser.cpp:62-384 | Behind every valid beginning of a request and for every character, the answer is that of a table with the characters and the state numbers 10 to 22 written out. |
| `FeedTable.CharacterClasses` | minet/src/utils/AsyncParser.cpp:16-30 | Paths consist of exactly the unreserved, gen-delim and sub-delim characters of section 2 of RFC 3986 and NUL; keys of ASCII letters, digits and hyphens; values of the codes 9 and 32 to 126. |
| `FeedTable.RejectedForEver` | minet/src/utils/AsyncParser.cpp:43-53 | After a wrong character every further answer is the number of the place where it stood. |
| `FeedTable.BodySizes` | minet/src/utils/AsyncParser.cpp:368 | A negative Content-Length asks for a body of that length modulo 2^64. |
| `Grammar.AcceptedMeaning` | minet/src/utils/AsyncParser.cpp:298-384 | An accepted message leaves exactly its meaning in the request: the last value of each special header, later map entries replacing earlier ones, and the body. |
| `Grammar.ReadsPartial` | minet/src/utils/AsyncParser.cpp:67-384 | After any beginning of a message the parser is in the one state and request that belong to that place in the grammar. |
| `Grammar.StoredLength` | minet/src/utils/AsyncParser.cpp:306-309 | The stored Content-Length is that of the last such header and 0 without one. |
| `Printer.ToString` | minet/src/core/HttpContext.cpp:63-96 | The pieces appended in the source's order give the text of the grammar's message for the request. |
| `Printer.PrintedInFull` | minet/src/core/HttpContext.cpp:63-96 | The printed text spelled out, header by header. |
| `Printer.RoundTrip` | minet/src/core/HttpContext.cpp:63-96 | For every header order and every host the caller has preset, printing and then feeding gives 0, .., 0, 1 and rebuilds the request, if and only if the request is printable and has a host if one was preset. |
| `Printer.PresetHostReturns` | minet/src/core/HttpContext.cpp:79-82 | A printable request without a host comes back with the preset host and nothing else changed. |
| `Printer.ParsedIsPrintable` | minet/src/utils/AsyncParser.cpp:298-384 | A request that comes out of the parser is printable if and only if its length is not negative and its host is empty or a header value; that host is the preset one or a header's. |
| `Printer.NegativeLengthIsLost` | minet/src/core/HttpContext.cpp:75-78 | A request with a negative Content-Length never survives the round trip, since printing leaves the header out. |
| `Printer.StorePrinted` | minet/src/core/HttpContext.cpp:71-86 | Storing all printed headers in any order rebuilds the special fields and the whole header map; a host that is not printed stays as preset. |
| `Streams.Stream.Read` | minet/src/io/Stream.cpp:96-112 | A read delivers exactly the next bytes, as many as asked for, as are left, and as this read allows; at the end it reports the end status and changes nothing. |
| `Streams.Stream.Close` | minet/src/io/Stream.cpp:119-123 | Closing always succeeds and leaves nothing to read. |
| `Streams.RefillKeeps` | minet/src/io/StreamReader.cpp:70-93 | A refill changes nothing in the bytes still to come, and finds the end exactly when there are none. |
| `Streams.RefillAmount` | minet/src/io/StreamReader.cpp:77-92 | A refill takes the bytes of one read of 1024. |
| `Streams.BufferedStreamReader.Flush` | minet/src/io/StreamReader.cpp:70-93 | The object does what the refill function says to buffer, pointers, end flag and stream, errors included. |
| `Streams.ReadsInOrder` | minet/src/io/StreamReader.cpp:22-37 | For any sizes of short reads, the bytes come one by one in order, and then end-of-file for ever. |
| `Streams.BufferedStreamReader.Read` | minet/src/io/StreamReader.cpp:22-37 | The object returns the next unread byte and moves to the state of the read function. |
| `Streams.BufferedStreamReader.ReadBulk` | minet/src/io/StreamReader.cpp:39-64 | For every state and every sizes of the coming reads: the number of bytes, the whole target, the reader afterwards, or the copy past its end, are those of the bulk function. |
| `Streams.ExactIffFits` | minet/src/io/StreamReader.cpp:46-61 | A bulk read is exact for all sizes of the stream's reads if and only if the buffer holds enough, or nothing follows, or at most one byte is asked for, or the bytes end cleanly before, or there are none and the buffer was never filled. |
| `Streams.UnfitFails` | minet/src/io/StreamReader.cpp:46-61 | The sizes of the reads that make it overflow or deliver wrong bytes in every other case. |
| `Streams.StaleEnd` | minet/src/io/StreamReader.cpp:84-92 | At an end that is an error the last refill is delivered again: more bytes than there were, or an overflow. |
| `Streams.OverflowExample` | minet/src/io/StreamReader.cpp:51-60 | Eight bytes that arrive as three and five overflow a read of five. |
| `ContextBuilder.AsyncHttpContextBuilder.Parse` | minet/src/core/HttpContext.cpp:142-169 | The result, the parser and the unread bytes depend only on the bytes, not on how the stream splits them. |
| `ContextBuilder.BuilderReadsMessage` | minet/src/core/HttpContext.cpp:142-169 | On a message of bytes 1 to 127 followed by any bytes, the builder reports 1, holds the meaning of the message and leaves the rest unread. |
| `ContextBuilder.BuilderLanguage` | minet/src/core/HttpContext.cpp:142-169 | On any bytes the builder reports a request if and only if they begin with a message of bytes 1 to 127, and throws if and only if they begin with such bytes up to the end of a Content-Length line that `stoi` does not take; otherwise the result is the status for the first byte that is not positive, which is lost, or end-of-file, and never a rejection. |
| `ContextBuilder.ErrorSwallows` | minet/src/core/HttpContext.cpp:147-151 | After a rejection everything up to the first byte that is not positive, or to the end, is consumed with that status. |
| `SyncParser.CleanPathMeaning` | minet/src/utils/Parser.cpp:14-26 | Defined exactly on paths with something other than slashes; puts a slash in front if there is none, removes trailing slashes and changes nothing else; idempotent. |
| `SyncParser.CleanPathInPlace` | minet/src/utils/Parser.cpp:14-26 | The loop computes that function. |
| `SyncParser.RequestParser.Next` | minet/src/utils/Parser.cpp:127-136 | Takes the next unread byte, the one pushed back first. |
| `SyncParser.RequestParser.Rewind` | minet/src/utils/Parser.cpp:138-142 | The byte pushed back is unread again, except NUL, which is lost; nothing is ever pushed back twice. |
| `SyncParser.RequestParser.NextToken` | minet/src/utils/Parser.cpp:144-192 | The token and the unread bytes are those of the token function, through the push-back and the reader. |
| `SyncParser.RequestParser.NextString` | minet/src/utils/Parser.cpp:199-245 | The same for header values: leading blanks are dropped and a colon does not stop the word. |
| `SyncParser.RequestParser.ParseStartLine` | minet/src/utils/Parser.cpp:254-320 | The request, the unread bytes and the status are those of the line function, error cases included. |
| `SyncParser.RequestParser.ParseHeader` | minet/src/utils/Parser.cpp:323-385 | The same for one header, with the store before the line end is seen and the exception of `stoi`. |
| `SyncParser.RequestParser.ParseBody` | minet/src/utils/Parser.cpp:387-397 | The body, the unread bytes, the code, or the copy past the end, exactly as the bulk read yields them, on every stream. |
| `SyncParser.RequestParser.Parse` | minet/src/utils/Parser.cpp:92-125 | All result codes, the request and the unread bytes for every stream: those of the head function on the bytes, and of the bulk read on the reader as the head leaves it. |
| `BodyReading.ParseIsExact` | minet/src/utils/Parser.cpp:92-125 | If nothing follows the body, or it has one byte, or it is cut short by a clean end, the outcome is that of the bytes alone, however the stream splits them. |
| `BodyReading.BodyExactIffSafe` | minet/src/utils/Parser.cpp:109-122 | The body arrives intact for all sizes of the reads if and only if that condition holds. |
| `BodyReading.UnsafeBody` | minet/src/utils/Parser.cpp:387-397 | The sizes of the reads that make the body overflow or arrive wrong in every other case. |
| `SyncParser.ParseHttpRequest` | minet/src/utils/Parser.cpp:86-90 | The same outcome through a fresh reader on any stream. |
| `ParserAgreement.LineIsRead` | minet/src/utils/Parser.cpp:254-320 | Of the request lines the other parser accepts, exactly those with GET or POST, no colon, no NUL but perhaps one at the end of the path, and a non-slash character are taken, with the path cleaned and without that NUL. |
| `ParserAgreement.NulPath` | minet/src/utils/Parser.cpp:181-191 | A path is cut at its first NUL, which is pushed back as nothing. |
| `ParserAgreement.HeaderIsRead` | minet/src/utils/Parser.cpp:323-385 | Of the header lines the other parser accepts, exactly those with a key and a non-blank value are taken; the value is stored without leading blanks. |
| `ParserAgreement.HeadersAreRead` | minet/src/utils/Parser.cpp:99-107 | A header block is taken exactly if each header is, and stores the trimmed headers in order. |
| `ParserAgreement.HeadIsRead` | minet/src/utils/Parser.cpp:92-107 | The head of every message of the other parser's language: taken exactly if it is common, with its full effect, and refused otherwise. |
| `ParserAgreement.TrimmingDoesNotMatter` | minet/src/utils/Parser.cpp:210-213 | Dropping the blanks in front of the values changes the stored request if and only if a last value of some key, Content-Length aside, begins with one. |
| `ParserAgreement.Agreement` | minet/src/utils/Parser.cpp:92-397 | On every message of the grammar the two parsers both accept to the last byte and store the same request up to path cleaning, for every splitting and end of the stream, if and only if the head is common, the path has no NUL, no value that counts begins with a blank, the length is 0 to 4096, and a length is stated or the object already held 0. |
| `PullGrammar.PullLanguage` | minet/src/utils/Parser.cpp:92-397 | On any bytes, and for any request object, the pull-driven parser returns 0 if and only if they begin with a sentence of a grammar that does not know its tokens: words that may end in one lost NUL or 0xFF, blanks in front of values, and a body of the stated length. |
| `PullGrammar.SentenceIsRead` | minet/src/utils/Parser.cpp:92-397 | A sentence followed by anything is accepted with its meaning, and what follows stays unread. |
| `PullGrammar.SentencesAreUnique` | minet/src/utils/Parser.cpp:92-397 | All sentences a text begins with are the same characters with the same meaning. |
| `PullGrammar.SentenceFromStream` | minet/src/utils/Parser.cpp:86-397 | A sentence with nothing behind it is read so from every stream, however that splits the bytes and ends. |
| `PullCodes.ResultCodes` | minet/src/utils/Parser.cpp:92-125 | On any bytes each of the results 0, 2, 3, 4, 5, the exception of `stoi` and the operation on an empty string occurs if and only if the bytes begin in the way stated for it. |
| `PullGrammar.WordBytes` | minet/src/utils/Parser.cpp:142-199 | The bytes of words and of values, by their codes. |
| `SyncParser.CutShort` | minet/src/utils/Parser.cpp:389-391 | A body cut short holds what came, then what stood there before, then NUL. |
| `Writer.BufferedStreamWriter.Flush` | minet/src/io/StreamWriter.cpp:66-85 | Delivered and buffered bytes together never change; everything is delivered or nothing; the result is 0 only for an empty buffer. |
| `Writer.BufferedStreamWriter.WriteChar` | minet/src/io/StreamWriter.cpp:35-43 | Accepts the character exactly if the buffer has room, otherwise flushes and refuses it. |
| `Writer.BufferedStreamWriter.Write` | minet/src/io/StreamWriter.cpp:45-64 | Accepts exactly the minimum of the length and the free space at entry, appends that prefix to what was accepted before, and ends in the state stated for each outcome of the flush. |
| `Dispatcher.WriteResponse` | minet/src/components/RequestDispatcher.cpp:21-69 | The client receives the whole response text in order if and only if it has at most 1024 bytes and the stream takes the write. |
| `ResponseReading.ResponseIsRead` | minet/src/components/RequestDispatcher.cpp:21-69 | The text read back: HTTP/1.1, a code that reads as the status, its phrase, the content type and every header of the map, one Content-Length that reads as the length of the body up to 2^31-1 bytes, an empty line and the body; with status 204 neither length nor body. |
| `ResponseReading.ToIntMeaning` | minet/src/components/RequestDispatcher.cpp:25 | The announced length is the body's up to 2^31-1, and the int congruent to it modulo 2^32 above. |
| `ResponseReading.StatusPhrases` | minet/src/common/Http.cpp:74-95 | The phrase of each of the six codes, and `Unknown` for all others. |
| `Dispatcher.Put` | minet/src/io/StreamWriter.cpp:12-20 | Up to 1024 bytes in all, nothing is sent and nothing lost; beyond that, something is lost, whatever the stream does. |
| `Mayhem.OneOwner` | minet/src/components/MayhemServer.cpp:91-156 | In every run each open connection has exactly one owner: epoll's list, the loop's hand, or one task that has still to close it. |
| `Mayhem.HandlesAreRight` | minet/src/components/MayhemServer.cpp:126-131 | The assertion never fails and no index is out of range: monitored descriptors are below MAX_FD and the handle used belongs to the connection the descriptor stands for. |
| `Mayhem.AtMostOnce` | minet/src/components/MayhemServer.cpp:106-152 | Each connection is submitted and closed at most once, each close hits the connection it means although descriptors are reused, and a connection is open or closed. |
| `Mayhem.TaskOwnsConnection` | minet/src/core/HttpContext.cpp:53-61 | A task's connection is open until the task's own first close; the second close makes no kernel call. |
| `Mayhem.WorkCloseInv` | minet/src/io/Stream.cpp:74-83 | The kernel call of a task's close keeps the invariant while its `_fd` is still set. |
| `Mayhem.ClearInv` | minet/src/io/Stream.cpp:79 | Clearing `_fd` keeps the invariant even if the descriptor is already in use again. |
| `Mayhem.ShutdownLeaks` | minet/src/components/MayhemServer.cpp:158-162 | When the loop ends, exactly the connections still monitored are left open without an owner. |
| `Mayhem.ApplyInv` | minet/src/components/MayhemServer.cpp:83-165 | Every action of loop, workers, kernel and Stop keeps the ownership invariant. |
| `MayhemDecisions.OnlyCompleteRequestsAreHandled` | minet/src/components/MayhemServer.cpp:132-142 | In every run a connection is in a task if and only if its last Parse was complete and Submit took it. |
| `MayhemDecisions.LoopDecides` | minet/src/components/MayhemServer.cpp:128-155 | In every run: after an unfinished Parse a connection stays monitored with its handle; after a failed one, or a complete one that Submit refused, it is closed or about to be and never in a task; a complete one goes on to Submit. |
| `MayhemDecisions.CompleteIsSubmitted` | minet/src/components/MayhemServer.cpp:132-145 | From every reachable Parse: a complete request leaves epoll's list and is submitted once; refused, the connection is closed and its handle dropped. |
| `MayhemDecisions.FailedIsClosed` | minet/src/components/MayhemServer.cpp:146-155 | A failed one is closed and its handle dropped; an unfinished one changes nothing. |
| `MayhemDecisions.NewConnection` | minet/src/components/MayhemServer.cpp:106-123 | A new connection below descriptor 1024 is monitored with its own handle, or closed if epoll refuses it; from 1024 on it is closed and accepting stops. |
| `MayhemDecisions.EventsAreHandled` | minet/src/components/MayhemServer.cpp:101-128 | Every readable event leads to Parse on the handle of that connection, every listening one to accepting, and others are passed over. |
| `MayhemDecisions.LoopStops` | minet/src/components/MayhemServer.cpp:91-99 | After Stop or a failed wait the loop ends at its next check. |
| `MayhemDecisions.TaskFinishes` | minet/src/core/HttpContext.cpp:53-61 | A task taken to its end needs five steps and leaves its own connection closed. |

## Left out

- Weak memory ordering, cache-line alignment and move constructors: atomics are sequentially consistent steps.
- Counters of the queue past 2^64 tickets: the model's numbers are unbounded, and `NumbersStaySmall` says up to where that is exact.
- Queues of capacity 1 and the pools that get them: outside the safety theorems, with `SafeCapacity` and `SafePool` as the exact conditions and the failing runs.
- The threads inside `Worker`, sleeping and joining: a worker's sleep and the flag set by Stop are steps; a task body is one step.
- The `Again` status of a non-blocking read: connection sockets stay blocking; `Writer` does model it for writes.
- Partial socket writes: the source asserts that they do not happen.
- A bulk read that overflows: the model stops at the copy past the end, as nothing can be said of what follows.
- Texts are sequences of characters that stand for bytes; locale-dependent classification is that of the "C" locale.
- `HttpResponse::ToString`: the same shape as the request printer.
- Descriptor 0 for a connection: `AcceptSocket` (`Network.cpp:57`) takes it for a failure and leaves it open without an owner; `Mayhem` assumes that `accept` never returns it, as when standard input is open.
- `Mayhem` leaves out the listening and epoll descriptors' own lifecycle, error logging, and what a handler does with the request.
- `BasicServer`, `ThreadedServer`, the handler table, dependency injection, configuration, JSON and logging: plumbing around the modelled parts.
