# Verification of the byte-stream library

A Dafny model of the parts of the library that move bytes: what the queues, generators, pumps and text
formats do, operation by operation, and what holds over whole runs of them. Code that changes fields step by
step is a class whose methods do the same steps; each method is proved to leave the state that a function of
the old state describes, and the lemmas are about runs of these functions. `dfyconfig.toml` lists all files.

| file | models |
|---|---|
| `Bytes.dfy` | concatenation, chunks of one size, lines |
| `Queue.dfy` | the chunk queue with its sticky done marker (`lib/queue.c`) |
| `AsyncIterator.dfy` | the FIFO of pending reads (`lib/asynciterator.c`) |
| `Generator.dfy`, `GeneratorRuns.dfy`, `GeneratorModes.dfy`, `GeneratorBytes.dfy` | the generator over both (`lib/generator.c`): its operations; order, stops and draining; buffering and continuous mode; conservation, sizes and callbacks in all modes |
| `Receive.dfy` | the WebSocket receive path of the client (`src/minnet-client.c`) |
| `HttpPump.dfy`, `HttpRuns.dfy`, `HttpBodies.dfy` | the HTTP send pump (`src/minnet-server-http.c`, `lib/session.c`), its runs, and the exact wire for any script of any generator |
| `WsSend.dfy` | the WebSocket send queue of the server (`lib/ws.c`, `lib/session.c`) |
| `Rpc.dfy` | request and response correlation, object ids (`js/rpc.js`) |
| `Scan.dfy`, `Buffer.dfy`, `Headers.dfy`, `HeaderFields.dfy` | scanners, growing buffer, header fields (`lib/utils.c`, `lib/buffer.c`, `lib/headers.c`) |
| `Url.dfy`, `UrlText.dfy`, `UrlPrint.dfy` | parsing, formatting and printing URLs (`lib/url.c`) |
| `Slices.dfy` | cutting a source text at its comments (`check-dep.js`) |

JavaScript values are nothing, null or bytes; promises are numbered and their settlements logged; the
connection is a log of what was written to it; events arrive in any order the code allows.

## Results that say no

Where the code does not do what one would expect, the model keeps the code, and a lemma says when.

- Data still queued when a generator is stopped or finished is never delivered, in any mode, though the queue
  is closed as if it were to be drained: `GeneratorRuns.StopFreezesDelivery`,
  `GeneratorRuns.FinishFreezesDelivery`, `GeneratorModes.StopLosesBufferedTail`.
- A second stop in continuous mode calls the callback again: `GeneratorModes.ContinuousCollectsAll`.
- A drained, closed queue that is made continuous gets a chunk behind its done marker, a chunk size of 0
  makes slicing endless, and a finish can leave reads pending in an iterator that asserts to have none; every
  other operation is sound: `Generators.StepIsSoundExactlyIf`.
- A synchronous generator that yields an empty chunk never gets its response through,
  `HttpRuns.SyncFinishesExactlyWithoutEmptyChunks`. A promised empty chunk that is not the end completes the
  transaction, so that the body is cut short exactly if bytes were to come behind it:
  `HttpBodies.BodyArrives`. Which scripts complete at all: `HttpBodies.OutcomeIs`, `HttpBodies.CompletesExactlyIf`.
- Empty WebSocket messages at the end of several that wait are left without a wake-up, until another message
  is enqueued: `WsSend.PumpEmptiesExactlyIf`.
- A failed RPC call never settles, because the log statement names an undeclared variable; nor does one
  whose answer arrives before its resolve function is kept: `Rpc.CallsGetTheirOwnResults`,
  `Rpc.DroppedAnswerIsLost`. With more than 2^32 calls an answer can reach the wrong call:
  `Rpc.CorrelatedExactlyIf`. A key that is an inherited name is taken for an object: `Rpc.FindsExactlyIf`.
- Removing or replacing a header works for the first field only, but for one odd case of a second one:
  `HeaderFields.UnsetRemovesExactlyIf`, `HeaderFields.SetReplacesExactlyIf`.
- A header with an empty value, or one that starts with white space, is not read back; the length of an empty
  one wraps around: `HeaderFields.RoundTripExactlyIf`, `HeaderFields.EmptyValueWraps`.
- A yield while a read waits overtakes what was enqueued: `GeneratorRuns.YieldKeepsStreamExactlyIf`. A stop in
  continuous mode without a callback drops the last chunk: `GeneratorBytes.StepConserves`.
- Parsing a URL without a path into one that had a path keeps that path: `UrlText.RoundTripOverExactlyIf`.
- The length allocated for a formatted URL is too short for a host that is filled in and for ports of more
  than five digits: `UrlText.FormatFits`. A printed URL can be cut without the result telling, and the
  measured length is not always enough: `UrlPrinting.CutUnnoticedExactlyIf`,
  `UrlPrinting.MeasuredSizeIsEnoughExactlyIf`.
- An unclosed comment at the start or directly behind a closed one is dropped from the filtered text, though
  the scanner does not take it for a comment: `Slices.FilterComments`.

## Model

| member | source | states |
|---|---|---|
| `Queues.Queue.constructor` | lib/queue.c:7-12 | an empty queue in normal mode |
| `Queues.Queue.FindLastChunk` | lib/queue.c:61-73 | scanning back from the end finds the last item that is not an empty done marker |
| `Queues.Queue.Next` | lib/queue.c:75-110 | gives out the front item and removes it, except that a done marker stays; an empty queue gives an empty block that is not done |
| `Queues.Queue.Add` | lib/queue.c:174-198 | appends one chunk and counts it, and refuses, saying so, once the queue is complete |
| `Queues.Queue.Put` | lib/queue.c:200-217 | in continuous mode the bytes go into the last chunk, in front of a done marker, otherwise into a chunk of their own; says which item took them |
| `Queues.Queue.Write` | lib/queue.c:219-233 | the same for plain data |
| `Queues.Queue.Append` | lib/queue.c:275-289 | the bytes go into the last chunk whatever the mode, and into a new one only if there is none |
| `Queues.Queue.PutLine` | lib/queue.c:235-273 | finishes an unfinished last line, then adds the remaining lines one by one; says which item took the last bytes |
| `Queues.Queue.AddLines` | lib/queue.c:260-270 | the loop of the former: what it adds is the lines of the data |
| `Queues.Queue.Close` | lib/queue.c:291-313 | adds the done marker once; the assertion of the source is its precondition |
| `Queues.Queue.ByteCount` | lib/queue.c:315-331 | the sum over the items is the length of all bytes held |
| `Queues.Queue.Continuous` | lib/queue.c:333-351 | switches the mode and makes sure there is a chunk to collect into |
| `Queues.StepMovesBytes` | lib/queue.c:75-351 | every operation: bytes given out, then bytes held, are the bytes held before, then the bytes accepted |
| `Queues.StepKeepsShape` | lib/queue.c:333-351 | every operation keeps "at most one done marker, last and without bytes", exactly unless it makes a queue continuous that holds only its done marker |
| `Queues.RunConservesBytes` | lib/queue.c:75-351 | over every run the shape is kept and no byte is lost, repeated or reordered |
| `Queues.ClosedQueueDrains` | lib/queue.c:291-313 | closing is idempotent; a closed queue gives each chunk once, in order, and then done for ever |
| `Queues.PutLineIsCanonical` | lib/queue.c:235-273 | on an open queue of lines, putting data leaves the lines of all bytes held, and exactly the new bytes are added |
| `Queues.PutLineComposes` | lib/queue.c:235-273 | putting a and then b leaves the same queue as putting a followed by b |
| `Queues.TookHolds` | lib/queue.c:200-289 | the item named took the bytes: it is the last chunk and ends in them; if none is named nothing changed |
| `Queues.TookLineHolds` | lib/queue.c:235-273 | putting lines names the last chunk if all the data went in, and no item otherwise |
| `Bytes.SplitLinesIsALining` | lib/queue.c:260-270 | cutting into lines loses nothing and cuts after each newline and nowhere else |
| `Bytes.LiningIsUnique` | lib/queue.c:260-270 | there is no other way to cut bytes into lines |
| `AsyncIterators.AsyncIterator.constructor` | lib/asynciterator.c:18-24 | no pending read, neither closing nor closed |
| `AsyncIterators.AsyncIterator.Next` | lib/asynciterator.c:56-87 | a read is queued with the next serial number, or settled at once as done when the iterator is stopped, which requires, as asserted, that no read is pending |
| `AsyncIterators.AsyncIterator.Emplace` | lib/asynciterator.c:121-138 | settles the oldest pending read with value and done flag; says whether there was one |
| `AsyncIterators.AsyncIterator.Yield` | lib/asynciterator.h:43-49 | the same, never done |
| `AsyncIterators.AsyncIterator.Cancel` | lib/asynciterator.c:104-119 | rejects all pending reads in order and closes; counts them |
| `AsyncIterators.AsyncIterator.Stop` | lib/asynciterator.c:89-102 | completes the oldest pending read and rejects the others, or marks the iterator closing |
| `AsyncIterators.AsyncIterator.Throw` | lib/asynciterator.h:51-58 | rejects all pending reads, if there are any |
| `AsyncIterators.StepAccounts` | lib/asynciterator.c:56-138 | every operation keeps the promise accounting and never takes a settlement back |
| `AsyncIterators.RunAccounts` | lib/asynciterator.c:56-138 | so does every run, which creates one promise for each call of next; a stopped iterator stays stopped |
| `AsyncIterators.PromisesAreAccounted` | lib/asynciterator.c:56-138 | over every run of a new iterator the k-th settlement settles the promise of the k-th call of next, all later calls are pending in order, none once it is stopped, no settlement is taken back, and the reads queued are numbered one after the other modulo 2^32 |
| `AsyncIterators.StopSettlesEveryRead` | lib/asynciterator.c:89-102 | stopping with pending reads completes the oldest with the value, rejects all the others with null, leaves none and closes; without one it only marks the iterator closing |
| `AsyncIterators.CancelRejectsEveryRead` | lib/asynciterator.c:104-119 | cancelling rejects every pending read with the error given and closes; throwing does the same if a read is pending, and otherwise nothing |
| `AsyncIterators.EmplaceSettlesOldest` | lib/asynciterator.c:121-138 | a value goes to the oldest pending read alone, with its flag, and changes nothing else |
| `AsyncIterators.NextAfterStopIsDone` | lib/asynciterator.c:67-72 | after a stop, whatever happens in between, next settles at once as done, and the iterator is closed and closing |
| `Generators.Generator.constructor` | lib/generator.c:193-227 | no queue yet, not started, no mode set |
| `Generators.Generator.CreateQueue` | lib/generator.c:21-32 | makes an empty queue if there is none, and changes nothing otherwise |
| `Generators.Generator.HandOne` | lib/generator.c:141-148 | one item moves from the queue to the oldest read, an empty block as undefined |
| `Generators.Generator.EnqueueBlock` | lib/generator.c:34-84 | a block enters the queue as its own chunk, or when buffering is merged into the last chunk, which is cut afresh; the size reported is that of the block, and of the chunk it is merged into when buffering, even if the queue refused it |
| `Generators.Generator.Reslice` | lib/generator.c:63-75 | the loop of the former: an overgrown chunk becomes its first piece in place and the chunking of the rest behind it |
| `Generators.Generator.Update` | lib/generator.c:130-166 | hands items over while both reads and items are left, holding back short chunks when buffering; counts the reads settled |
| `Generators.Generator.Next` | lib/generator.c:255-304 | asks the iterator, starts the executor or the callback, and hands over what the queue allows |
| `Generators.Generator.Callback` | lib/generator.c:120-128 | calls the callback once and forgets it |
| `Generators.Generator.Begin` | lib/generator.c:272-275 | the first step of a read: the executor once, or else the callback at the first read |
| `Generators.Generator.Write` | lib/generator.c:316-376 | hands data straight to a waiting read when nothing is queued in plain mode, and otherwise queues it and drains; reports the size of the data, and when buffering that of the chunk it is merged into besides |
| `Generators.Generator.DrainReads` | lib/generator.c:337-348 | the draining loop of the former |
| `Generators.Generator.Yield` | lib/generator.c:463-489 | goes straight to a waiting read, and to the queue only without one; reports success in any case |
| `Generators.Generator.Stop` | lib/generator.c:499-548 | closes the queue, hands over what continuous mode collected, and stops the iterator, unless it is closed |
| `Generators.Generator.EndQueue` | lib/generator.c:519-538 | the queue part of it: closed, and in continuous mode collected |
| `Generators.Generator.Collect` | lib/generator.c:525-537 | in continuous mode the last chunk is emptied into a call of the callback |
| `Generators.Generator.SetContinuous` | lib/generator.c:560-583 | continuous mode, and a new callback if one is given; the generator stays valid exactly if its queue does not hold just a done marker |
| `Generators.Generator.Finish` | lib/generator.c:594-612 | marks the generator closing and calls the callback with the front chunk, or updates and closes the queue; it stays valid exactly if no read is left pending, which depends on the reads and items there are |
| `Generators.Generator.CallWithFront` | lib/generator.c:599-606 | its part with a callback |
| `Generators.Generator.UpdateAndClose` | lib/generator.c:608-611 | its part without one |
| `Generators.Generator.Enqueue` | lib/generator.c:623-627 | queues without looking at the reads; reports the same size |
| `Generators.Generator.SetBuffering` | lib/generator.c:629-642 | buffering with a chunk size of 32 bits; the generator stays valid exactly if that is not 0 |
| `Generators.Generator.CloseQueue` | src/minnet-response.c:402-408 | closing the queue of a generator that was enqueued |
| `Generators.StepIsSound` | lib/generator.c:255-642 | every operation, in every mode, keeps the promise accounting, the queue shape and a usable chunk size |
| `Generators.StepIsSoundExactlyIf` | lib/generator.c:255-642 | and does so exactly if its condition holds: no switch of a drained queue to continuous mode, a chunk size other than 0, no read left pending by finish |
| `Generators.ClosingUpdate` | lib/generator.c:130-166 | once closing, items are handed over until reads or items run out: no read is left exactly if there is a done marker or there are no more reads than items |
| `Generators.DoneReachesAll` | lib/generator.c:130-166 | once only the done marker is queued, every pending read is completed by it |
| `GeneratorRuns.RunIsSound` | lib/generator.c:255-642 | the same over every run |
| `GeneratorRuns.PlainOrder` | lib/generator.c:255-354 | plain mode, every run of a new generator: what readers received, then what is queued, is what was accepted, in order; no read waits while data waits; until it is stopped, closed or finished everything written is accepted |
| `GeneratorRuns.PlainRunKeepsOrder` | lib/generator.c:255-548 | the same invariant from every state that has it |
| `GeneratorRuns.PlainStream` | lib/generator.c:316-489 | plain mode, every run of a new generator with reads and data waiting in any mixture, as long as no yield overtakes: what readers received, then what is queued, is what was accepted, in order, and until an end everything written is accepted |
| `GeneratorRuns.StreamStepExactlyIf` | lib/generator.c:255-627 | in plain mode every allowed operation keeps that order, except for a yield while a read waits and something else than its value is queued |
| `GeneratorRuns.WriteKeepsStream` | lib/generator.c:316-354 | a write never overtakes what is queued: it goes behind it, and the reads waiting are served from the front |
| `GeneratorRuns.YieldKeepsStreamExactlyIf` | lib/generator.c:463-489 | a yield keeps the order exactly if no read waits or nothing but chunks equal to its value is queued |
| `GeneratorRuns.WriteKeepsOrder` | lib/generator.c:316-354 | in plain mode write and yield do the same, and keep the order |
| `GeneratorRuns.EnqueueKeepsOrder` | lib/generator.c:623-627 | enqueuing keeps the order exactly when no read waits |
| `GeneratorRuns.EnqueuePastReaderIsOvertaken` | lib/generator.c:463-489 | a run in which an enqueued block is overtaken by a yielded one |
| `GeneratorRuns.OpenRunAcceptsAll` | lib/generator.c:316-489 | until a generator is stopped, closed or finished, every block handed in is accepted |
| `GeneratorRuns.StopFreezesDelivery` | lib/generator.c:499-548 | a stop is final in every mode: nothing queued then is ever delivered, no read stays pending, and every later next is done at once |
| `GeneratorRuns.FinishFreezesDelivery` | lib/generator.c:594-612 | so is a finish: after it nothing more is delivered, and with no read pending it delivers nothing itself |
| `GeneratorRuns.DrainAll` | lib/generator.c:130-166 | reading a closed queue n times settles the reads with its chunks in order and then with done; the iterator is closed exactly once the end was reached |
| `GeneratorRuns.EnqueuedThenClosedDrains` | src/minnet-response.c:402-408 | a generator that was only enqueued and then closed gives each chunk once, in order, and then done for ever |
| `GeneratorModes.BufferingIsFramingIndependent` | lib/generator.c:34-84 | buffering, every run of next and writes: chunks delivered, then chunks held, are the c-byte chunking of all bytes written, whatever the write boundaries; n calls of next have delivered exactly min(n, bytes / c) chunks, all full; no full chunk waits while a read waits |
| `GeneratorModes.BufferingStep` | lib/generator.c:316-354 | each step keeps that, from every state that has it |
| `GeneratorModes.UpdateIsDrain` | lib/generator.c:130-166 | until the generator closes, the two loops that hand chunks over do the same |
| `GeneratorModes.StopLosesBufferedTail` | lib/generator.c:499-548 | a stop while buffering: bytes that fill no chunk, and chunks not asked for yet, are never delivered |
| `GeneratorModes.ContinuousCollectsAll` | lib/generator.c:519-606 | continuous mode without readers: the first stop, and likewise a finish, gives the callback exactly the concatenation of all writes, whenever the callback was set; a second stop calls it again with nothing |
| `GeneratorBytes.StepConserves` | lib/generator.c:34-642 | every operation, in every mode and mixture of modes: bytes delivered, queued and handed to callbacks grow by exactly the bytes brought in, if and only if it is not a stop of a continuous generator with bytes and no callback, nor a block queued when a complete queue ends in a chunk larger than the chunk size |
| `GeneratorBytes.RunConserves` | lib/generator.c:34-642 | so over every run without these no byte is lost or doubled |
| `GeneratorBytes.ReportsWhatIsWritten` | lib/generator.c:34-84 | without buffering the sizes reported over a run add up to the bytes handed in |
| `GeneratorBytes.RechunkedReportsOpenChunk` | lib/generator.c:34-84 | while buffering, the size of the last chunk held is reported besides |
| `GeneratorBytes.StopEnds` | lib/generator.c:499-548 | a stop closes the queue there is; unless continuous it leaves the chunks and calls nobody |
| `GeneratorBytes.StopTwice` | lib/generator.c:516-517 | once the iterator is closed further stops change nothing |
| `GeneratorBytes.FinishEnds` | lib/generator.c:594-612 | a finish without a callback closes the queue and calls nobody |
| `GeneratorBytes.SwitchMovesNothing` | lib/generator.c:560-642 | turning on a mode moves no byte, settles no read and calls nobody; the chunk size is taken modulo 2^32 |
| `GeneratorBytes.ReadsCallBackOnce` | lib/generator.c:255-275 | any number of reads call the callback once, with the argument of the first read that finds no executor, and then it is gone |
| `GeneratorBytes.NewCallsBackOnce` | lib/generator.c:193-275 | so a new generator calls its callback at the first read, or at the second if it has an executor, and never again |
| `GeneratorBytes.ContinuousWriteIsRead` | lib/generator.c:316-354 | in continuous mode a write with a read waiting and nothing collected goes to that read |
| `GeneratorBytes.ContinuousCollectsBehind` | lib/generator.c:519-583 | continuous mode turned on over queued chunks: the stop hands the callback the last of them with all bytes written since, and leaves the others |
| `Bytes.ChunksAreAChunking` | lib/generator.c:63-75 | chunking loses nothing and all chunks but the last have the chunk size |
| `Bytes.ChunkingIsUnique` | lib/generator.c:63-75 | there is no other chunking of the same bytes |
| `Bytes.FullBlocksAreCounted` | lib/generator.c:63-75 | a chunking of n bytes has n / c full chunks |
| `Receive.Client.Receive` | src/minnet-client.c:392-438 | a callback: a single fragment is emitted directly, others are queued by mode, and a final one drains the queue |
| `Receive.Client.Drain` | src/minnet-client.c:408-437 | the loop emits every queued item in order, up to and with a done marker |
| `Receive.Reassembly` | src/minnet-client.c:392-438 | for every sequence of messages and every way to fragment each (section 5.4 of RFC 6455) the receiver emits exactly these messages, and holds at most one item between callbacks |
| `Receive.ReassemblesFrom` | src/minnet-client.c:392-438 | the same from every idle state, which it returns to |
| `Receive.RestOfMessage` | src/minnet-client.c:401-405 | in the middle of a message its bytes so far wait as one item, and are emitted together with the rest |
| `Receive.LineBuffering` | src/minnet-client.c:392-438 | in line-buffered mode what is emitted is the lines of each message, whatever the fragments, and nothing stays queued |
| `Receive.RawReads` | src/minnet-client.c:392-438 | raw reads, whatever their fragment flags, are emitted one by one as they come, and the queue is left alone |
| `Receive.RawLines` | src/minnet-client.c:392-438 | in line-buffered mode each raw read is emitted as its lines, and nothing stays queued |
| `Receive.BrokenOffMessages` | src/minnet-client.c:397-438 | messages broken off by the first fragment of another stay apart, and each is emitted as one of its own; a message of a single fragment goes past them |
| `Receive.DrainOfClosed` | src/minnet-client.c:408-437 | draining a closed queue emits its chunks, and once more the empty block of the marker, which stays |
| `HttpPump.HttpSession.SessionWantWrite` | lib/session.c:76-82 | a write is wanted, and nothing else changes |
| `HttpPump.HttpSession.ServeGenerator` | src/minnet-server-http.c:517-583 | one step of the generator: its chunk is queued, or its promise is awaited; entered only with no promise outstanding and an open queue, as asserted |
| `HttpPump.HttpSession.Settle` | src/minnet-server-http.c:424-433 | a settled promise is no longer counted, and is handled as resolved or rejected |
| `HttpPump.HttpSession.ServeResolved` | src/minnet-server-http.c:453-482 | a value is queued, done closes the queue, and either asks for a write |
| `HttpPump.HttpSession.ServeRejected` | src/minnet-server-http.c:395-419 | the text of the error is queued, the queue closed, a write asked for |
| `HttpPump.HttpSession.ServerWriteable` | src/minnet-server-http.c:767-817 | writes one chunk, and completes the transaction if nothing was queued or the queue is closed |
| `HttpPump.HttpSession.SendPieces` | src/minnet-server-http.c:787-800 | the loop over one chunk: pieces of 1024 bytes on HTTP/2, the FINAL flag on the last of a complete queue |
| `HttpPump.HttpSession.Refill` | src/minnet-server-http.c:1195-1202 | with nothing to send and nothing awaited the generator is stepped before writing |
| `HttpPump.HttpSession.Push` | src/minnet-server-http.c:1206-1211 | writing, and the second completion if the queue is empty after the first |
| `HttpPump.HttpSession.Advance` | src/minnet-server-http.c:1213-1220 | the generator is stepped after writing, unless a write is already wanted |
| `HttpPump.HttpSession.Writeable` | src/minnet-server-http.c:1155-1240 | the whole event, with the size that stays uninitialised when there is no queue as a parameter |
| `HttpBodies.SendPump` | src/minnet-server-http.c:1155-1240 | every run in scope: body bytes written are an in-order prefix of the script without loss or repetition, behind headers sent once; at most one promise is awaited; a write is wanted exactly when something is queued, and at most one chunk is; k chunks take at most k + 1 effective writeable events, and then everything was sent; pieces are at most 1024 bytes on HTTP/2; the length is announced, and right, exactly if the generator is asynchronous and its first promise was the end, on both protocols; FINAL is on the last piece exactly if it came with the end, and on no other |
| `HttpBodies.WireIsPredicted` | src/minnet-server-http.c:517-817 | every script of every generator, every run: until it completes, the headers and a prefix of the pieces were written, none of them final; once it completed, exactly the wire of the outcome, to the last byte and flag, and it completes only if the outcome says so |
| `HttpBodies.OutcomeIs` | src/minnet-server-http.c:517-817 | the outcome in plain terms: what arrives is what is in front of the first blank reply, or up to the first end, cut as the protocol wants; when the length is announced, when the last piece is final, and exactly which scripts complete |
| `HttpBodies.HeadersAndFlags` | src/minnet-server-http.c:640-666 | every script, every run, once completed: headers, bodies, completion; the length of the body that arrives is announced exactly if the generator is asynchronous and its first promise was the end; the last piece is final exactly if its reply ends the body, unless it was the first of a synchronous generator |
| `HttpBodies.BodyArrives` | src/minnet-server-http.c:1155-1240 | every script, every run: what was sent is a prefix of the bytes that arrive; once completed it is all of them, and the whole body exactly if no reply behind these has a byte |
| `HttpBodies.CompletesExactlyIf` | src/minnet-server-http.c:1155-1240 | if the outcome completes, then it does so with a fixed number of effective events, one at most for each reply that arrives and one more, and until then a write is wanted or a promise awaited; otherwise no number of events completes it |
| `HttpBodies.CourseStep` | src/minnet-server-http.c:1155-1240 | each event keeps to the course: what was sent and what is still to be sent make up the outcome |
| `HttpBodies.PiecesAreCuts` | src/minnet-server-http.c:787-800 | the writes of a chunk are its pieces of 1024 bytes on HTTP/2, the chunk whole otherwise, and only the last is final |
| `HttpRuns.OpenStep` | src/minnet-server-http.c:1155-1240 | each event keeps that, and each effective one brings the end nearer |
| `HttpRuns.GoodRun` | src/minnet-server-http.c:1155-1240 | so does every run from every state that has it |
| `HttpRuns.ServeStep` | src/minnet-server-http.c:517-583 | a step of the generator neither loses nor repeats a chunk, and leaves a write wanted or a promise awaited |
| `HttpRuns.SettleStep` | src/minnet-server-http.c:424-482 | nor does settling its promise |
| `HttpRuns.PiecesAre` | src/minnet-server-http.c:787-800 | the pieces of a chunk are its bytes in order, at most 1024 each on HTTP/2, none final but perhaps the last |
| `HttpRuns.SyncFinishesExactlyWithoutEmptyChunks` | src/minnet-server-http.c:574-580 | a synchronous generator gets through exactly when it yields something and no empty chunk; otherwise no number of events completes the transaction |
| `HttpRuns.OnlyEmptyPushCompletesTwice` | src/minnet-server-http.c:1206-1211 | pushing an empty queue would complete the transaction twice, any other at most once, and the pump only pushes a queue that is not empty |
| `HttpRuns.CompleteQueueIsWrittenAnyway` | src/minnet-server-http.c:1161-1166 | a complete queue is written whether or not that was asked for; for any other an event that was not asked for changes nothing |
| `HttpRuns.EmptyPromisedChunkCutsShort` | src/minnet-server-http.c:1195-1211 | the event in question: an empty chunk alone in the queue completes the transaction with the next promise outstanding |
| `HttpRuns.EmptyPromisedChunkLosesTheRest` | src/minnet-server-http.c:1195-1211 | a witness: a script whose second chunk is never sent |
| `WsSend.WsSession.Enqueue` | lib/ws.c:85-97 | a message joins the queue and asks for a write; a refused one changes nothing |
| `WsSend.WsSession.Writable` | lib/session.c:84-106 | one message is written, and another write asked for if bytes are left |
| `WsSend.NoLostWakeUp` | lib/session.c:84-106 | every run: messages written are a prefix of those enqueued, in order, the rest is queued, and unsent bytes imply that a write is wanted |
| `WsSend.WritablesFlush` | lib/session.c:84-106 | as many writeable events as messages wait send them all, in order, if they come |
| `WsSend.PumpEmptiesExactlyIf` | lib/session.c:84-106 | once a write is wanted, the events asked for send everything that waits exactly if that is one message at most or its last message is not empty; only empty messages are left behind |
| `WsSend.EmptyMessageIsStranded` | lib/session.c:102-103 | a witness: a run that leaves an empty message without a wake-up |
| `Rpc.IdSequencer.MakeId` | js/rpc.js:1 | the counter before the call, which then counts on modulo 2^32 |
| `Rpc.IdsAreDistinct` | js/rpc.js:1 | n successive ids are distinct exactly if n is at most 2^32 |
| `Rpc.RpcClient.StartCall` | js/rpc.js:452-455 | a call takes a fresh number and its message carries that, the method and the parameters |
| `Rpc.RpcClient.FinishCall` | js/rpc.js:457 | once the message is sent, the resolve function is kept under the id |
| `Rpc.RpcClient.ProcessMessage` | js/rpc.js:443-450 | a successful answer resolves the call kept under its id; one without success stops in the log statement |
| `Rpc.CallsGetTheirOwnResults` | js/rpc.js:397-458 | every run of at most 2^32 calls, handled and answered in any order: a call resolves only with what the endpoint produced for its own request, and never if that failed |
| `Rpc.RegisteredCallResolves` | js/rpc.js:443-458 | an arriving result resolves its call exactly if that call was registered, and touches no other |
| `Rpc.ResolvedStaysResolved` | js/rpc.js:443-458 | a promise resolves once: in every run, however long, a call that resolved keeps its value |
| `Rpc.OneCallTooMany` | js/rpc.js:1 | for every number above 2^32, a run of that many calls in which one resolves with the result of another |
| `Rpc.CorrelatedExactlyIf` | js/rpc.js:397-458 | so all calls of all runs of n calls get their own results exactly if n is at most 2^32 |
| `Rpc.DroppedAnswerIsLost` | js/rpc.js:443-458 | a call whose answer was consumed without resolving it stays pending in every continuation |
| `Rpc.FactoryEndpoint.New` | js/rpc.js:277-290 | an object gets the next id and is kept under it; a throwing constructor takes no id |
| `Rpc.FactoryEndpoint.Delete` | js/rpc.js:294-296 | removes the own property of that key and nothing else |
| `Rpc.HoldsLiveObjects` | js/rpc.js:271-296 | after any run exactly the ids given out and not deleted since have an object, and it is the one last made under the id |
| `Rpc.FindsExactlyIf` | js/rpc.js:338-340 | after any run a request under a key is not refused exactly if the key is the id of an object made and not deleted since, or a name every object inherits |
| `Rpc.NewOverwritesExactlyIf` | js/rpc.js:277-283 | after any run a creation overwrites a live object exactly if its id, which wraps, was given out before and not deleted since |
| `Rpc.NewNeverOverwrites` | js/rpc.js:271-296 | every run with fewer than 2^32 creations: the next id is not live, and from any point on live objects stay what they are and deleted ids do not come back |
| `Rpc.NewOverwritesAfterWrapping` | js/rpc.js:271-296 | without deletions that is after 2^32 creations |
| `Scan.FindInCharset` | lib/utils.c:152-155 | the inner loop finds a character of the set, and takes NUL for one |
| `Scan.ScanCharsetNSkip` | lib/utils.c:147-160 | the longest prefix of members |
| `Scan.ScanNonCharsetNSkip` | lib/utils.c:162-175 | the longest prefix of non-members |
| `Scan.ScanWhiteNSkip` | lib/utils.c:106-114 | the longest prefix of white space |
| `Scan.ScanPast` | lib/utils.h:95-104 | past the next run of members; at least one byte of a text that is not empty |
| `Scan.SameTextExactlyIf` | lib/headers.c:108-110 | two texts compare equal exactly if their lengths agree and at every place the characters are equal or the same letter of the alphabet in upper and lower case |
| `Buffers.ByteBuffer.Realloc` | lib/buffer.c:188-211 | the block moves to one of the size asked for; bytes written, read and write positions stay, and the assertion of the source is the precondition |
| `Buffers.ByteBuffer.Grow` | lib/buffer.c:224-228 | that many bytes more are available, and nothing else changes |
| `Buffers.ByteBuffer.Write` | lib/buffer.c:158-164 | the bytes follow those written before, in place; that they fit is asserted |
| `Buffers.ByteBuffer.Append` | lib/buffer.c:139-149 | the bytes follow, in a block grown to hold just them and a NUL only if these do not fit, and a NUL stands behind them |
| `Buffers.StepIsSane` | lib/buffer.c:139-228 | an operation keeps read <= write <= end exactly if the assertion in buffer_write holds |
| `Buffers.RunKeepsBytes` | lib/buffer.c:139-228 | over every run of append, grow and write the positions stay in order, earlier bytes stay in front, new ones follow in order and the read position does not move |
| `Buffers.RoomForAll` | lib/buffer.c:158-164 | the assertion holds all along a sequence of writes exactly if there is room for all of them together |
| `Headers.HeadersNext` | lib/headers.h:31-34 | the item with the delimiters behind it |
| `Headers.HeadersNameLen` | lib/headers.h:36-39 | the longest prefix of name characters |
| `Headers.HeadersLength` | lib/headers.h:26-29 | the item up to its delimiters |
| `Headers.HeadersValue` | lib/headers.h:41-49 | past the name, the key delimiters and white space |
| `Headers.HeadersFindB` | lib/headers.c:96-117 | the number of the first item of that name, letter case aside, -1 if there is none |
| `Headers.HeadersAt` | lib/headers.c:119-137 | position and length, without delimiters, of the item with that number |
| `Headers.HeadersSize` | lib/headers.c:273-282 | the number of items |
| `Headers.HeadersGetLen` | lib/headers.c:139-155 | position and length of the value of the first item of that name; the length wraps if the value starts behind its item |
| `Headers.ItemsJoin` | lib/headers.c:101-114 | the scan cuts a block into items without losing a byte, and each has at least one byte |
| `HeaderFields.HeadersFromObj` | lib/headers.c:62-94 | appends one line for each property, growing before each; the assertion in buffer_write holds while the delimiters fit what is reserved and what was free |
| `HeaderFields.WriteField` | lib/headers.c:81-86 | grows, then name, delimiter, value, delimiter, in that order behind what was there |
| `HeaderFields.FieldFitsExactlyIf` | lib/headers.c:81-86 | that assertion holds exactly if both delimiters fit four bytes and what was free before |
| `HeaderFields.HeadersUnsetB` | lib/headers.c:208-225 | cuts out the bytes from the item number on, and clears all bytes behind what is left; nothing changes if no item has the name |
| `HeaderFields.CutOut` | lib/headers.c:215-217 | what lies behind the item moves onto its place |
| `HeaderFields.HeadersSet` | lib/headers.c:227-242 | unsets, then appends the field as a line; the read position does not move, and is behind the text exactly if it exceeds its new length |
| `HeaderFields.ItemsAreLines` | lib/headers.c:62-117 | the items found in serialised fields are the lines written |
| `HeaderFields.RoundTrip` | lib/headers.c:62-155 | fields with good names and values, written with any colon and white space as key delimiter and any CR, LF or NUL as item delimiter, are found again: a name that differs at most in letter case gives the value of the first field of that name (section 3.2 of RFC 7230) |
| `HeaderFields.RoundTripExactlyIf` | lib/headers.c:62-155 | looking up a name that is spelled like the one of a field but for the case of letters gives the value of the first such field exactly if that value is not empty, does not start with white space, and starts with a colon only if the reader stops within the key delimiter |
| `HeaderFields.EmptyValueWraps` | lib/headers.c:139-155 | for an empty value the position is that of the next line, and the length wraps around to 2^64 minus that of the item delimiter |
| `HeaderFields.MissingIsNotFound` | lib/headers.c:96-117 | a name that no field has is not found |
| `HeaderFields.SetAddsMissing` | lib/headers.c:227-242 | setting a new name adds a field |
| `HeaderFields.UnsetRemovesExactlyIf` | lib/headers.c:208-225 | unsetting the first field of a name leaves exactly the other fields if and only if that field is the very first, or the second and its line is the first line without its first byte |
| `HeaderFields.SetReplacesExactlyIf` | lib/headers.c:227-242 | setting it replaces it in exactly the same cases |
| `HeaderFields.ItemsSplit` | lib/headers.c:101-114 | the scan cuts a text into the same items wherever delimiters end |
| `HeaderFields.UnsetLaterFieldGarbles` | lib/headers.c:212-218 | a witness: unsetting the second of two fields damages the first |
| `Urls.FindProtocol` | lib/url.c:52-61 | the protocol of that name, letter case aside, and raw for any other |
| `Urls.ParseRest` | lib/url.c:139-159 | host, port and path behind a protocol; the path stays what it was if there is none |
| `Urls.UrlParse` | lib/url.c:126-160 | protocol up to the first "://", host up to a colon or slash, port as strtoul reads it or the default, the rest as path; a path there was stays if the text has none |
| `Urls.UrlFormat` | lib/url.c:198-227 | the formatted text and NUL, in the memory allocated for it |
| `UrlText.ProtocolsAreNamed` | lib/url.c:41-61 | tls, https, http, wss and ws are known by their names, letter case aside |
| `UrlText.PortIsFilledIn` | lib/url.c:131-153 | a protocol and a host without a port: the port is 80 for ws and http, 443 for wss and https, and 0 for any other; an empty host is none |
| `UrlText.BareHost` | lib/url.c:134-155 | a host alone, or nothing, and a path: no protocol, and the port is -1 |
| `UrlText.HostThenNumber` | lib/url.c:146-150 | behind a colon the port is the number strtoul reads, as an int, except that the largest number counts as 0; the path is what it leaves |
| `UrlText.StrToUlReads` | lib/url.c:146 | strtoul: white space and one sign are skipped, all digits taken; what is too large becomes the largest number, and a minus negates modulo 2^64 |
| `UrlText.StrToUlReadsNothing` | lib/url.c:146 | without digits it takes nothing and gives 0 |
| `UrlText.ToIntIs` | lib/url.c:148 | an unsigned long becomes the int that is the same modulo 2^32 |
| `UrlText.PortIsLeftOutExactlyIf` | lib/url.c:215-220 | behind a protocol the port is left out exactly if it is the well-known one or negative |
| `UrlText.AnyHostIsFilledIn` | lib/url.c:215 | a missing host is written as 0.0.0.0 if there is a protocol or a port that is not negative, and otherwise only the path is written |
| `UrlText.RoundTrip` | lib/url.c:126-227 | for a protocol without "://", a host without colon and slash, a port that is not negative and a path that is absent or starts with a slash, parsing what was formatted gives the URL back, default ports included |
| `UrlText.RoundTripOverExactlyIf` | lib/url.c:157-159 | into a URL that was used before it comes back exactly if it has a path, or that one had none |
| `UrlText.PathDecidesRoundTrip` | lib/url.c:126-227 | with such a protocol and host the URL comes back exactly if the port is not negative and the path is absent, starts with a slash, or follows a port that is not the well-known one and does not start with a digit |
| `UrlText.BareRoundTrip` | lib/url.c:131-137 | without a protocol it comes back, for every port, exactly if the path does not contain "://" and is absent, or not empty and does not start with a digit |
| `UrlText.DecimalReadBack` | lib/url.c:146-150 | strtoul reads back what %u printed, and stops behind it |
| `UrlText.DecimalIs` | lib/url.c:185 | numbers are written in base ten, the last digit last |
| `UrlText.ValueIs` | lib/url.c:146 | and read in base ten, zeros in front included |
| `UrlText.RoomLeft` | lib/url.c:198-225 | how many bytes of the length computed are left over, or missing, for every URL |
| `UrlText.FormatFits` | lib/url.c:198-225 | text and NUL fit the length computed exactly if a host is given and its port is left out or has at most five digits, or if neither is written |
| `UrlText.GoodUrlFits` | lib/url.c:198-225 | every URL of the round trip fits whose port has at most five digits |
| `UrlPrinting.StrLCpy` | lib/url.c:17-39 | copies at most siz - 1 characters and a NUL and touches nothing else; the result is the source length |
| `UrlPrinting.Put` | lib/url.c:167-191 | one part behind the text so far, cut so that all of it and NUL stay below the size; or its length |
| `UrlPrinting.PrintProtocol` | lib/url.c:166-172 | protocol and separator, giving up when there is no room for more |
| `UrlPrinting.PrintHost` | lib/url.c:166-177 | the same with the host |
| `UrlPrinting.PrintPort` | lib/url.c:182-187 | colon and port behind the text so far, or the digits counted |
| `UrlPrinting.UrlPrint` | lib/url.c:162-196 | with a buffer: the text attempted is written as far as the size allows, with NUL, and nothing else; without: its length is measured |
| `UrlPrinting.NothingBehindSize` | lib/url.c:162-196 | the buffer afterwards, for every size and URL: untouched exactly if the size is 0 or there is no part to print, and otherwise as much of the attempted text as leaves room for NUL, NUL, and what was there behind |
| `UrlPrinting.GivesUpAtFirst` | lib/url.c:166-181 | the result counts the parts up to the first that does not fit, and none behind it; they are the front of the whole text |
| `UrlPrinting.FullReadBackExactlyIf` | lib/url.c:126-196 | what was printed in full parses to the same URL exactly if the port was printed and the path is absent, or not empty and does not start with a digit; or the port is 0, the protocol has no well-known one, and the path is absent or starts with a slash |
| `UrlPrinting.FullIsFormatExactlyIf` | lib/url.c:162-227 | printing and formatting give the same text, for a protocol and a host, exactly if both write the port or neither does |
| `UrlPrinting.AbsentPrintsEmpty` | lib/url.c:166-193 | a protocol is printed in front with its separator; an empty or absent one is left out, and an absent host or path is printed as an empty one |
| `UrlPrinting.MeasuredIs` | lib/url.c:179-187 | where a port is printed measuring falls short by the digits beyond five, and by nine for a negative one |
| `UrlPrinting.MeasuringAgrees` | lib/url.c:182-187 | measuring reports what printing returns, for every size, exactly for ports of at most five digits |
| `UrlPrinting.ReserveHoldsPort` | lib/url.c:179-187 | the seven bytes reserved hold the port and NUL for exactly these ports |
| `UrlPrinting.PrintsAllExactlyIf` | lib/url.c:162-196 | the whole text is printed exactly if it and NUL fit and seven bytes are left behind the host for a port |
| `UrlPrinting.CutUnnoticedExactlyIf` | lib/url.c:166-181 | the text is cut although the result is below the size exactly if the separator or the reserve for the port did not fit |
| `UrlPrinting.MeasuredSizeIsEnoughExactlyIf` | lib/url.c:251-256 | a buffer of the measured length and one byte is enough exactly if there is no port, or port and path use up the reserve |
| `Slices.GetComments` | check-dep.js:276-285 | all comments in order |
| `Slices.CommentsAreComments` | check-dep.js:276-285 | each starts at the first opening mark behind the one before and ends behind the first closing mark; afterwards no opening mark is closed |
| `Slices.CommentsAreUnique` | check-dep.js:276-285 | no other list of ranges has these properties |
| `Slices.MissingRange` | check-dep.js:287-294 | the gaps before, between and behind the ranges |
| `Slices.MissingIsComplement` | check-dep.js:287-294 | for sorted disjoint ranges in the text a position is in a gap exactly if it is in no range; gaps are sorted, disjoint and not empty |
| `Slices.RangePoints` | check-dep.js:296-305 | all points in order, without a point that repeats the one before |
| `Slices.RepeatsAreLeftOut` | check-dep.js:296-305 | each point more is there unless it repeats the point before it |
| `Slices.NoRepeats` | check-dep.js:296-305 | so no point repeats the one before it, the points are the same, and the last stays the last |
| `Slices.RangeSlice` | check-dep.js:307-314 | the ranges between rising points; leaving repeats out changes none |
| `Slices.CutsStartAtPoints` | check-dep.js:307-314 | between points in order a range starts at the front and at each point inside the text, and nowhere else |
| `Slices.SliceIs` | check-dep.js:316-318 | slices take the text between two indices; negative ones count from the end, none leads outside, and nothing lies between an index and one that is not behind it |
| `Slices.GetRanges` | check-dep.js:316-318 | what the given function makes of each slice and its position |
| `Slices.SlicingLosesNothing` | check-dep.js:307-318 | joining the slices gives the text back exactly if the points never step back |
| `Slices.FilterComments` | check-dep.js:320-326 | what is yielded is the text of the ranges missing from the comments, exactly if the text behind the last comment does not start with an opening mark; if it does, only that text is left out |
| `Slices.ClosedTextHasPlainTail` | check-dep.js:276-326 | which is so if every opening mark has a closing mark behind it |

## Left out

Stated weaker than the code allows, or under a condition of its own:

- Generators.Generator.Next: the executor and the callbacks are called and logged, but do not call back into the generator while it runs; a push from inside the executor over a queue that is not empty is not covered.
- Generators.Generator.Write: the callback a chunk may bring, to be called when it is dequeued, is not modelled; nor in Generators.Generator.Yield.
- Generators.Generator.Yield: see Generators.Generator.Write.
- Generators.Generator.Collect: the deferred callback of the item itself is not modelled.
- Queues.Queue.Next: the callback stored with an item and its binary flag are not modelled.
- GeneratorRuns.PlainOrder: enqueuing past the reads, closing the queue and finishing are covered only while no read is pending; `GeneratorRuns.PlainStream` covers them otherwise, and there a read and data may wait at the same time.
- Urls.UrlFormat: writes only into what was allocated; `UrlText.FormatFits` says when that is enough, and what the code overwrites otherwise is not modelled.
- UrlPrinting.UrlPrint: printing with a buffer is modelled where the port and NUL, which are written without a limit, fit the size; `UrlPrinting.ReserveHoldsPort` says for which ports they always do.
- UrlPrinting.PrintPort: likewise.
- HeaderFields.HeadersFromObj: the precondition is the assertion of buffer_write for all lines together.
- HeaderFields.CutOut: memcpy on ranges that overlap, which C leaves undefined, is taken for a copy in ascending order.
- HttpPump.HttpSession.ServeGenerator: an exception counts as done, as in the code, but the value 1 it returns, on which libwebsockets closes the connection, is not modelled.
- HttpPump.HttpSession.ServeResolved: a promise of a Response, which replaces the generator, is not modelled.
- HttpPump.HttpSession.ServeRejected: the response of status 500 that replaces the one given is not modelled.
- HttpPump.HttpSession.Push: the FILE_COMPLETION callback between the two completions, which goes to lws_callback_http_dummy, is not logged; "completed once" does not count it.
- HttpPump.HttpSession.Writeable: failing header writes and redirects are not modelled.
- HttpBodies.SendPump: for scripts of non-empty chunks, all synchronous and at least one, or all promises; `HttpBodies.WireIsPredicted` and the lemmas behind it cover all scripts.
- HttpBodies.WireIsPredicted: a synchronous script ends with its first end, because a generator that is over is asked again but gives nothing more; the same holds for `HttpBodies.OutcomeIs`, `HttpBodies.HeadersAndFlags`, `HttpBodies.BodyArrives` and `HttpBodies.CompletesExactlyIf`.
- Headers.HeadersFindB: names are compared as a whole; strncasecmp stops at a NUL in both, which a field name taken from C strings does not contain.
- HeaderFields.RoundTripExactlyIf: for the delimiters of header lines; a script may set others.
- Slices.SlicingLosesNothing: for points that are not negative, as those of comments and functions are; slice counts a negative one from the end of the text.

Not modelled:

- Update of linked lists and of byte blocks in place: items and blocks are sequences held in fields, so aliasing between blocks, reference counts, deferred callbacks on items (queue_next calls one twice), the `binary` flag and failing allocations do not show.
- The counters of bytes and chunks read and written: they are not what they say, since a block is emptied before its size is added.
- queue_read, which nothing calls and which subtracts the consumed length twice, and queue_peek.
- generator_push and generator_throw, whose promise shares memory with the callback.
- The response body queue, file and POST paths, promise-of-Response handlers and plain handlers of the HTTP server.
- libwebsockets, TLS, sockets and timeouts: writing always succeeds and writes all.
- headers_object, headers_write, headers_tobuffer and headers_appendb; the last takes an item number for an offset like headers_unsetb.
- The lazy evaluation of JavaScript generators: each becomes the list of what it yields. Strings are sequences of characters without encoding, and C strings contain no NUL.
- RPC codecs, proxies and serialisation of values, messages without a method, and handler results that bring an `id` of their own, which would replace the request's.
- Ring buffers, polling, form parsing, fetch, URL objects and queries, and the class registration code: binding plumbing over foreign code.
