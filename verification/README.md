# Protocols of a collection of Go experiments, modelled and verified in Dafny

The repository holds Go experiments. Seven of its files contain real protocols, state machines or
conservation arguments; this project models those and proves, for every input, every run and every
interleaving, what they keep.

| part | Dafny files |
|---|---|
| HTTP connection service: parsers, state machine, theorems over runs, windows and reads, whole exchanges, patience, buffers in place | `HttpParsers`, `HttpService`, `HttpTheorems`, `HttpFragments`, `HttpReads`, `HttpExchange`, `HttpPatience`, `HttpConnection` |
| HTTP server counters: workers, services, closing order of the channels, dropped connections, the way to the end | `ServerCounts`, `ServerConservation`, `ServerArrivals`, `ServerBounds`, `ServerProgress`, `ServerLink` |
| TCP connection engine: connectors, acceptors, handles, start switch, shutdown, address pools, `conns` map | `EngineModel`, `EngineSafety`, `EngineAddresses`, `EngineIndices`, `EngineMap`, `EngineClientMap` |
| the same engine: who can move, the end of every shutdown, whole runs, engines that get stuck; QPS plan | `EngineProgress`, `EngineShutdown`, `EngineRuns`, `EngineListenRun`, `EngineClientWitness`, `EngineStuck`, `QpsControl` |
| poll descriptor: compare-and-swap wait flags, what they exclude and what they let happen | `PollDesc`, `PollProgress` |
| splice pump: value-level specification, what its runs deliver, the object | `SpliceModel`, `SpliceRuns`, `SplicePipe` |
| event-driven splice proxy: value-level specification, the objects | `EventSides`, `EventProxy` |
| field splitter, integer reader, line parser, line generator, what they make of any line | `FieldSplit`, `LineFile`, `LineLaws` |
| sharded hash tally: routing, carriers as shared objects, cells, the total | `HashTally`, `TallySystem`, `TallyRouting`, `TallyOwnership`, `TallyBuffers`, `TallyTotals`, `TallyReuse`, `TallyWitness` |
| bytes and sums shared by these | `Bytes`, `Sums` |

How the system's parts appear:

- Read, Write, Accept, Dial, splice and epoll are an adversary: parameters carry any legal result or
  error. The kernel contract of splice is that a successful call moves at most what was requested,
  EAGAIN moves nothing, zero bytes from the source mean end of file, and draining a pipe that holds
  bytes moves at least one byte or fails.
- Concurrent code is a step system: one action is one atomic operation, or one operation under the
  lock; a run is any sequence of enabled actions of any goroutines.
- Code that changes objects, buffers or arrays in place is a class or a method with loops, proved
  against a value-level specification about which the theorems are stated.
- Counters are unbounded unless the width matters: `AtoIntOfBytes` and the parser's sum wrap at 64
  bits, result cells wrap at 16 bits, and `uint64(ptr) + 1` is computed in 64 bits.

What the proofs brought out about the code, each with the lemma that shows it:

- Every answer of `httpURIParser` other than 0 makes the service read on, so its answer 2 ("error")
  never ends a request (`ShortLineReadsOn`). Its last test `ptr >= buflen` cannot succeed and has
  no counterpart here.
- The header buffer is reused every 124 bytes, so what the service sees after `k` bytes is a window
  that depends on `k` alone. A stream is answered if and only if it starts with an accepted method and
  some window of the part that is read shows the header end (`AnsweredExactlyWhenNoticed`). Up to 128
  bytes that is the parser's verdict on all bytes (`ShortStream`); beyond, a proper header end can be
  missed (`RetainedTailHidesHeaderEnd`).
- A worker of the HTTP server that leaves its loop drops the batch it has not started
  (`DroppedConnection`); the accepted count is the arrivals if and only if every worker left with an
  empty batch (`AcceptedAreArrivals`).
- In client mode the engine returns an address index to its pool before it deletes the map entry, so a
  late delete can remove a newer connection's entry (`ClientModeLosesEntry`), and the shutdown sweep then
  misses that connection (`ClientSweepMissesHandle`). A run keeps every live handle in the map if and
  only if it has no late delete (`MappedExactlyWithoutLateDelete`).
- In client mode an address whose dial fails with an error that asks for a retry is never used again
  (`DroppedIsLost`). A connector whose addresses are all lost that way, or with handles that wait for
  the start switch, waits for ever, and not even a request to close ends it (`StuckMeans`,
  `TooFewAddresses`, `RetryLosesTheAddress`, `StuckForever`). In every other state somebody can move
  (`RestsExactlyWhenStuck`), so in listen mode every shutdown finishes (`ListenShutsDown`).
- `splice` with a limit reports an unexpected end of file if and only if the source ends before it
  (`SpliceSound`), even when every byte was delivered (`CleanEndIsUnexpected`), where `io.Copy` reports no
  error; both callers pass the largest 64-bit limit. After a hard errno from the source a successful flush leaves exactly one byte in the pipe
  (`LosesLastByte`), unless the pipe was empty at that errno.
- The event-driven proxy removes a connection that hangs up with whatever its pipe holds
  (`LosesPipeOnHangup`); everything was delivered if and only if that pipe was empty (`DeliveredExactly`).
- `SplitBytes` with n == 1 splits everywhere, and with n == 0 returns the previous result instead of an
  empty one; its comment promises otherwise (`SplitOnePiece`, `SplitBytes`).
- A last line without a line end is ignored by the parser (`UnfinishedLineIgnored`); all bytes are
  accounted for if and only if the file is empty or ends with LF (`AllBytesParsed`). A line of exactly
  nine fields is never read, because its ninth field still has the line end (`NineFieldsOnlyWarn`).
- A worker of the hash tally reads the size of a carrier after it has sent it, when another worker may
  already have it: with two workers the whole chunk of one can be missing from the total
  (`TotalFallsShort`). It is off by exactly
  what these reads were off (`TallyIsExact`), and exact when no carrier is handed out again between its
  send and that read (`TotalIsExact`), as with one worker (`OneWorkerTotal`).

## Model

| member | source | states |
|---|---|---|
| `HttpParsers.MethodParserMeaning` | fasthttpserver/fasthttpserver.go:539-562 | the method is accepted if and only if the bytes start with "GET /", "HEAD /" or "POST /" and number at least six; "need more" exactly below six |
| `HttpParsers.MethodParserStable` | fasthttpserver/fasthttpserver.go:539-562 | from six bytes on, no later byte changes the verdict |
| `HttpParsers.UriParser` | fasthttpserver/fasthttpserver.go:608-649 | the re-slicing loop ends and computes the specification `UriCodeOf` |
| `HttpParsers.UriCodeMeaning` | fasthttpserver/fasthttpserver.go:608-649 | 0 if and only if some terminator has no line shorter than six bytes at or before it; 2 if and only if such a line has no terminator before it; both on absolute positions |
| `HttpParsers.UriCodeStable` | fasthttpserver/fasthttpserver.go:615-645 | answers 0 and 2 are unchanged by appending any bytes |
| `HttpParsers.FoundHasTerminator` | fasthttpserver/fasthttpserver.go:628-639 | answer 0 implies LF LF or CR LF CR LF in the buffer |
| `HttpParsers.KeepAliveParse` | fasthttpserver/fasthttpserver.go:565-604 | the in-place lower-casing parser, whatever the compare buffer held, decides by case-insensitive occurrence in the part that fits: close wins, then keep-alive, then HTTP/1.1 |
| `HttpParsers.KeepAliveDecision` | fasthttpserver/fasthttpserver.go:587-604 | for every request, on plain occurrences of the three literals in any mix of case: "connection: close" decides for closing; without it "connection: keep-alive" decides for keeping; with neither the connection is kept if and only if "http/1.1" occurs |
| `HttpParsers.FoldedSearch` | fasthttpserver/fasthttpserver.go:574-583 | searching the lower-cased copy is the same as searching the original whatever the case |
| `HttpService.OnReadKeeps` | fasthttpserver/fasthttpserver.go:358-443 | one read keeps the live bytes a suffix of the request's stream, leaves room for the next read, and completes only a stream that deserves a response |
| `HttpService.ShortLineReadsOn` | fasthttpserver/fasthttpserver.go:417-441 | the parser's answer 2 on a stream with a known method, below 131072 bytes and without a read error, makes the service read on |
| `HttpService.OnWriteKeeps` | fasthttpserver/fasthttpserver.go:482-508 | one write keeps the shape of everything on the wire |
| `HttpService.IterateKeeps` | fasthttpserver/fasthttpserver.go:333-518 | every pass of the service loop keeps the request, counter and wire invariants, for any legal read and write |
| `HttpService.RunKeeps` | fasthttpserver/fasthttpserver.go:333-518 | so does every run |
| `HttpService.ClosedStays` | fasthttpserver/fasthttpserver.go:509-514 | the three closed states are final |
| `HttpTheorems.ReadingSound` | fasthttpserver/fasthttpserver.go:335-444 | in every reachable reading state the live bytes are a suffix of the request's stream and the slice offered to Read is not empty; a response is begun only for a stream with an accepted method and a header end; four states are never seen at the loop head |
| `HttpTheorems.PhaseTellsMethod` | fasthttpserver/fasthttpserver.go:352-442 | in every reachable reading state the phase is the header phase if and only if the method has been accepted |
| `HttpTheorems.WhereARequestCompletes` | fasthttpserver/fasthttpserver.go:401-457 | a read that completes the request in the method buffer only ends the pass; in the header buffer it also counts the request and starts the response |
| `HttpTheorems.ReportsAddUp` | fasthttpserver/fasthttpserver.go:449-455 | in every run what is held back is the number of requests modulo 1000, and everything else was reported |
| `HttpTheorems.ReadErrorCloses` | fasthttpserver/fasthttpserver.go:380-424 | a read error closes the connection unless the bytes that came with it complete the request |
| `HttpTheorems.WriteErrorCloses` | fasthttpserver/fasthttpserver.go:482-508 | a write error closes it, with exactly the bytes written before it on the wire |
| `HttpTheorems.WireOfEveryRun` | fasthttpserver/fasthttpserver.go:466-508 | the bytes written are complete keep-alive responses followed by a prefix of at most one more response |
| `HttpTheorems.QuietAfterClose` | fasthttpserver/fasthttpserver.go:342-348 | from any state that satisfies the invariant, nothing is read or written after a complete close response |
| `HttpTheorems.CloseIsFinal` | fasthttpserver/fasthttpserver.go:342-348 | the same for every reachable state and every continuation |
| `HttpTheorems.StepUsesBudget` | fasthttpserver/fasthttpserver.go:359-441 | a pass that stays in its read or write phase strictly lowers the phase's measure |
| `HttpTheorems.PhaseEnds` | fasthttpserver/fasthttpserver.go:359-508 | a read phase lasts at most 131074 passes, a write phase two more than the response has bytes |
| `HttpTheorems.ServerRepliesUsable` | fasthttpserver/fasthttpserver.go:62-63 | the two fixed responses of the server satisfy what the theorems assume of responses |
| `HttpFragments.ReadStaysInWindow` | fasthttpserver/fasthttpserver.go:431-436 | a read never crosses the end of the buffer, so it extends the window it starts in |
| `HttpFragments.NextStart` | fasthttpserver/fasthttpserver.go:431-436 | a full window is followed by one that keeps its last four bytes; otherwise nothing is dropped |
| `HttpFragments.OneRead` | fasthttpserver/fasthttpserver.go:378-443 | a read that brings bytes completes the request if and only if its window shows the header end and the method is accepted; otherwise it keeps exactly the next window's start |
| `HttpFragments.ParsersStable` | fasthttpserver/fasthttpserver.go:393-418 | the service's own tests are of the kind the argument needs: later bytes never revoke them |
| `HttpFragments.ServiceReads` | fasthttpserver/fasthttpserver.go:358-443 | an error-free read of the service is the read with those tests |
| `HttpFragments.LimitIsAll` | fasthttpserver/fasthttpserver.go:425-430 | a stream of at most 131072 bytes is read to its end however it is cut, of a longer one at least that much |
| `HttpFragments.FeedMeaning` | fasthttpserver/fasthttpserver.go:354-444 | from any half-read state, for any stable tests and any cut, reading decides the stream by its windows |
| `HttpReads.AnsweredExactlyWhenNoticed` | fasthttpserver/fasthttpserver.go:354-444 | for every stream of any length and every way to cut it into error-free reads, with at most two empty ones, the stream is answered if and only if it starts with an accepted method and one of the windows of the part that is read shows the header end; the buffer then holds the window the last read ended in |
| `HttpReads.CutDoesNotMatter` | fasthttpserver/fasthttpserver.go:354-444 | up to 131072 bytes whether a stream is answered does not depend on the cut |
| `HttpReads.ShortWindow` | fasthttpserver/fasthttpserver.go:402-418 | up to 128 bytes the window is everything read so far |
| `HttpReads.ShortStream` | fasthttpserver/fasthttpserver.go:402-418 | a stream of at most 128 bytes is noticed if and only if the parser finds the header end in all of it |
| `HttpReads.ShortRequest` | fasthttpserver/fasthttpserver.go:354-444 | a stream of at most 128 bytes with an accepted method is a request in the sense of the next row if and only if the parser answers 0 on it but not without its last byte |
| `HttpReads.FragmentationIndependence` | fasthttpserver/fasthttpserver.go:354-479 | however a request is cut into error-free reads, the run of the service ends with exactly its last window in the buffer, or with one more counted request and the response chosen by that window's keep-alive decision, whatever the writes do |
| `HttpReads.RetainedTailHidesHeaderEnd` | fasthttpserver/fasthttpserver.go:434-435 | every request line of 128 bytes without LF, followed by CR LF CR LF, deserves a response and gets none |
| `HttpExchange.FinishReply` | fasthttpserver/fasthttpserver.go:482-508 | from any point of a response, writes that take at least a byte each complete it |
| `HttpExchange.AnswerServed` | fasthttpserver/fasthttpserver.go:445-508 | once a request has been read its response goes out to the last byte, the one its last window asks for |
| `HttpExchange.ExchangeCompletes` | fasthttpserver/fasthttpserver.go:333-518 | a request cut in any way and answered by writes of any size gets, behind everything written before, exactly the response that its last window asks for |
| `HttpExchange.CloseRequestCloses` | fasthttpserver/fasthttpserver.go:342-504 | a request whose last window has "connection: close" in any mix of case puts the close response on the wire, and the next pass closes the connection |
| `HttpPatience.TwoEmptyWritesAreBorne` | fasthttpserver/fasthttpserver.go:482-508 | a response with at most two empty writes among its writes, wherever they come, is completed |
| `HttpPatience.ThirdEmptyWriteCloses` | fasthttpserver/fasthttpserver.go:496-508 | three empty writes at its start close the connection with nothing of it on the wire |
| `HttpPatience.TinyRunIsLegal` | fasthttpserver/fasthttpserver.go:355-482 | from every sound state a pass can read up to one byte and write one, for ever: there is always room in the buffer and always a byte to write |
| `HttpPatience.EveryRequestCanBeAnswered` | fasthttpserver/fasthttpserver.go:333-518 | for every request a run exists that puts its response on the wire |
| `HttpConnection.Service.constructor` | fasthttpserver/fasthttpserver.go:314-327 | a new service stands for the initial state of the machine |
| `HttpConnection.Service.BeginRequest` | fasthttpserver/fasthttpserver.go:335-351 | refines `Begin`: all request state is reset, or the connection is closed after a close response |
| `HttpConnection.Service.Fill` | fasthttpserver/fasthttpserver.go:358-380 | the bytes read land behind the live ones and nothing else changes |
| `HttpConnection.Service.SwitchToHeader` | fasthttpserver/fasthttpserver.go:409-414 | moving from the method buffer to the header buffer keeps the live bytes |
| `HttpConnection.Service.KeepTail` | fasthttpserver/fasthttpserver.go:431-436 | the overlapping copy leaves exactly the last four live bytes |
| `HttpConnection.Service.FinishRead` | fasthttpserver/fasthttpserver.go:416-444 | refines `CheckHeader` |
| `HttpConnection.Service.JudgeMethod` | fasthttpserver/fasthttpserver.go:393-415 | refines `Digest` while the method is unknown |
| `HttpConnection.Service.TakeRead` | fasthttpserver/fasthttpserver.go:356-444 | the read case of the loop refines `OnRead` |
| `HttpConnection.Service.ParseRequest` | fasthttpserver/fasthttpserver.go:445-476 | refines `Parse` then `Prepare`: one more request counted, full batches reported, keep-alive decided, response chosen |
| `HttpConnection.Service.Send` | fasthttpserver/fasthttpserver.go:482-508 | refines `OnWrite` |
| `HttpConnection.Service.BeforeWriting` | fasthttpserver/fasthttpserver.go:333-476 | refines `BeforeWrite`: what a pass does before it writes, if it does |
| `HttpConnection.Service.Pass` | fasthttpserver/fasthttpserver.go:333-518 | one pass over the real buffers is one `Iterate` of the value-level machine |
| `HttpConnection.Service.Serve` | fasthttpserver/fasthttpserver.go:333-518 | the whole loop over the real buffers is `Run`, so every theorem above holds of it |
| `HttpConnection.Service.Leave` | fasthttpserver/fasthttpserver.go:519-532 | with the last report, the reports sum to `totalrequest` |
| `ServerConservation.WorkerKeeps` | fasthttpserver/fasthttpserver.go:254-300 | accepting, launching and announcing a batch keeps all four balances |
| `ServerConservation.ServiceKeepsBalances` | fasthttpserver/fasthttpserver.go:449-455 | counting, reporting, taking and returning buffers keeps them too |
| `ServerConservation.ClosingKept` | fasthttpserver/fasthttpserver.go:208-212 | channels are closed only after the last send, and a channel seen closed has been emptied |
| `ServerConservation.NobodySendsOnClosed` | fasthttpserver/fasthttpserver.go:208-212 | in no state of any run can a worker or service step send on a closed channel |
| `ServerConservation.CounterKeeps` | fasthttpserver/fasthttpserver.go:662-688 | receiving moves an amount from a channel to its sum |
| `ServerConservation.CountsAddUp` | fasthttpserver/fasthttpserver.go:208-219 | in every interleaving no send meets a closed channel, and when the counter finishes accepted and closed equal the number of services, finished equals all their requests, and every pool buffer taken was returned |
| `ServerArrivals.ArrivalKept` | fasthttpserver/fasthttpserver.go:270-298 | every step keeps the arrivals equal to the services plus what workers have in hand |
| `ServerArrivals.AcceptedAreArrivals` | fasthttpserver/fasthttpserver.go:254-302 | when the counter finishes, the accepted count is the arrivals less the dropped batches, and all of them if and only if every worker left with an empty batch |
| `ServerArrivals.DroppedConnection` | fasthttpserver/fasthttpserver.go:254-302 | one worker, one arrival and a stop: a run that finishes with an accepted count of zero |
| `ServerBounds.ServerIsBounded` | fasthttpserver/fasthttpserver.go:254-300 | in every run no channel holds more than its 4096 items, no empty batch is announced, and every service holds one to three pool buffers until it gives all of them back |
| `ServerBounds.FullChannelWaits` | fasthttpserver/fasthttpserver.go:662-688 | a full requests channel holds its sender up, and one receive lets it go on |
| `ServerProgress.SomebodyLeadsOut` | fasthttpserver/fasthttpserver.go:208-219 | in every reachable state, until the counter has finished, somebody has a step that leads out: no full channel and no closing order blocks the shutdown |
| `ServerProgress.StepOut` | fasthttpserver/fasthttpserver.go:519-532 | each such step is one less to do, and changes neither the requests answered nor the number of services there will be |
| `ServerProgress.AlwaysCanFinish` | fasthttpserver/fasthttpserver.go:208-219 | from every reachable state a run ends with the counter finished; it has then counted as accepted and closed all services there were or being started, and as finished all requests answered |
| `ServerProgress.OneConnectionOneRequest` | fasthttpserver/fasthttpserver.go:254-300 | one connection with one request: a run ends with the three counts at one |
| `ServerLink.ServiceCountsLikeConnection` | fasthttpserver/fasthttpserver.go:449-455 | answering a request changes and reports a service's counters exactly as the connection's state machine does |
| `EngineSafety.LockKept` | tcpengine/tcpengine.go:508-556 | `maxLock` has exactly the holder that is between its lock and unlock |
| `EngineSafety.AliveKept` | tcpengine/tcpengine.go:598-644 | every step keeps the alive counter equal to the number of live handles and within a positive limit |
| `EngineSafety.SwitchKept` | tcpengine/tcpengine.go:415-476 | every step keeps the start switch closed at most once and `destroyed` behind the drain |
| `EngineSafety.AliveCountExact` | tcpengine/tcpengine.go:604-637 | in every run the counter is the number of started, not yet finished handles and never exceeds a positive limit |
| `EngineSafety.NoDoubleClose` | tcpengine/tcpengine.go:339-344 | in every run neither one-shot channel is closed twice, across all closing sites |
| `EngineSafety.SwitchClosedHere` | tcpengine/tcpengine.go:339-344 | the switch is closed by the steps at those sites and by no other, and a second time would panic |
| `EngineSafety.DestroyedIsFinal` | tcpengine/tcpengine.go:457-476 | once `destroyed` is closed no handle is live, none is in any continuation, and none is ever added |
| `EngineAddresses.PoolBound` | tcpengine/tcpengine.go:196-201 | distinct indices of one residue class number at most addresses / cpus + 1 |
| `EngineAddresses.Preload` | tcpengine/tcpengine.go:198-206 | every address index goes into the pool of its class, exactly once, and no send meets a full channel |
| `EngineAddresses.OwnKept` | tcpengine/tcpengine.go:509-577 | every step keeps exclusive ownership and the residue classes |
| `EngineAddresses.IndicesHaveOneOwner` | tcpengine/tcpengine.go:501-588 | in every client-mode run each address index has at most one owner among pool, connector and handles, in its own residue class |
| `EngineAddresses.PoolSendsNeverBlock` | tcpengine/tcpengine.go:514-520 | in every client-mode run every send into an address pool can proceed, including the one made under `maxLock` |
| `EngineIndices.OnlyDialsDrop` | tcpengine/tcpengine.go:561-577 | of all steps only a dial that does not connect drops an index, and only its own |
| `EngineIndices.PlacedKept` | tcpengine/tcpengine.go:509-577 | every client-mode step keeps every index in its pool, with a connector, with a handle, or dropped |
| `EngineIndices.IndicesConserved` | tcpengine/tcpengine.go:501-588 | in every client-mode run every preloaded index is in its pool, with its connector, with a handle, or was dropped by a dial that did not connect |
| `EngineIndices.DroppedIsLost` | tcpengine/tcpengine.go:565-577 | in every client-mode run a dropped index is in no pool and with nobody |
| `EngineMap.MapKept` | tcpengine/tcpengine.go:631-651 | every listen-mode step keeps keys unique and every unfinished handle in the map |
| `EngineMap.SweepReachesAll` | tcpengine/tcpengine.go:443-448 | in every listen-mode run with tracing, keys are unique, every live handle's connection is in the map under its key, and after the sweep every live handle's connection was swept |
| `EngineProgress.OnKept` | tcpengine/tcpengine.go:526-536 | every step keeps the switch closed once the work load is on, but for the worker about to close it |
| `EngineProgress.RestsExactlyWhenStuck` | tcpengine/tcpengine.go:501-588 | in every state of every run before the shutdown has finished somebody can move, a sleeping worker being woken below the limit only, if and only if the engine is not stuck: connectors waiting on empty pools and handles waiting for the switch; in listen mode somebody always can |
| `EngineShutdown.StepUses` | tcpengine/tcpengine.go:415-476 | once the engine is closing every step of anybody lowers the number of steps left |
| `EngineShutdown.ClosingIsBounded` | tcpengine/tcpengine.go:415-476 | so every run from a closing state has at most that many steps, whatever the interleaving and the network do |
| `EngineShutdown.ListenShutsDown` | tcpengine/tcpengine.go:590-656 | in listen mode a run from a closing state that nobody can extend has shut down: `destroyed` closed, all workers gone, no handle live |
| `EngineShutdown.ShutdownIsReached` | tcpengine/tcpengine.go:415-476 | from every reachable closing state a run leads to the shutdown, or in client mode to a stuck engine |
| `EngineShutdown.CloseShutsDown` | tcpengine/tcpengine.go:477-494 | in listen mode a request to close is possible in every reachable state, and from there a run shuts the engine down |
| `EngineShutdown.StuckForever` | tcpengine/tcpengine.go:556-560 | from a stuck engine on nothing but further requests to close ever happens |
| `EngineListenRun.ExitsAtLimit` | tcpengine/tcpengine.go:604-617 | at the limit, with the option to exit there, the acceptor closes the connection and the engine |
| `EngineListenRun.SwitchesOn` | tcpengine/tcpengine.go:604-631 | at the limit, without it, the first acceptor puts the work load on, closes the switch and sleeps |
| `EngineListenRun.AcceptsServesAndShutsDown` | tcpengine/tcpengine.go:590-656 | a whole life with a limit of one: two arrivals, one served and deleted, an Accept error, the shutdown; the run ends destroyed with an empty map |
| `EngineListenRun.ExitMaxSweepsTheFirst` | tcpengine/tcpengine.go:443-448 | with the option to exit at the limit the second arrival ends the engine and the sweep closes the first |
| `EngineClientMap.LateDelete` | tcpengine/tcpengine.go:821-825 | a handle's delete keeps every live handle mapped if and only if no live handle has its key |
| `EngineClientMap.StepKeepsMapped` | tcpengine/tcpengine.go:543-556 | of all steps of connectors, handles and shutdown only a late delete takes a live handle out of the map |
| `EngineClientMap.MappedExactlyWithoutLateDelete` | tcpengine/tcpengine.go:813-826 | every state of a client-mode run has all live handles in the map if and only if the run has no delete that comes while a live handle has the same index |
| `EngineClientMap.ClientSweepReachesAll` | tcpengine/tcpengine.go:443-448 | without a late delete the client-mode sweep reaches every live handle |
| `EngineClientWitness.ClientModeLosesEntry` | tcpengine/tcpengine.go:819-824 | with one connector and one address a client-mode run reaches a live handle without a map entry |
| `EngineClientWitness.ClientSweepMissesHandle` | tcpengine/tcpengine.go:443-448 | with one connector and two addresses a client-mode run ends in a shutdown whose sweep misses a live handle |
| `EngineStuck.StuckMeans` | tcpengine/tcpengine.go:556-577 | in a stuck engine every address of a connector that still waits was dropped by a dial that did not connect, or is with a handle that waits for the start switch |
| `EngineStuck.TooFewAddresses` | tcpengine/tcpengine.go:526-560 | one address and a limit of two or more: a run that gets stuck with one live connection |
| `EngineStuck.RetryLosesTheAddress` | tcpengine/tcpengine.go:568-577 | one address and no limit: a run that gets stuck after one dial that should be retried |
| `QpsControl.Plan` | tcpengine/tcpengine.go:829-848 | for every positive limit the search stops, within 501 ms, at the shortest delay for which a batch is at least one, with batch * split <= limit < (batch + 1) * split, and never divides by zero |
| `PollDesc.ActionMoves` | netsplice-echo-proxy/dada-funny/proxy_linux.go:28-102 | every atomic operation moves one goroutine and the two flags legally and never reopens a flag |
| `PollDesc.ApplyKeeps` | netsplice-echo-proxy/dada-funny/proxy_linux.go:28-102 | every atomic operation keeps the protocol invariant |
| `PollDesc.LockingIsExclusive` | netsplice-echo-proxy/dada-funny/proxy_linux.go:28-78 | in every interleaving each direction has at most one owner, the flag is 2 exactly while the owner waits, and the wake-up swap finds its 2 |
| `PollDesc.ClosedIsAbsorbing` | netsplice-echo-proxy/dada-funny/proxy_linux.go:80-102 | flag 3 and the error are never undone |
| `PollDesc.CloseReleasesAll` | netsplice-echo-proxy/dada-funny/proxy_linux.go:80-102 | once a Close has returned nobody is parked, and every later lock and park fails, in every continuation |
| `PollDesc.WaitsFailOnceClosing` | netsplice-echo-proxy/dada-funny/proxy_linux.go:60-81 | from the first operation of any Close on, no wait reports success |
| `PollProgress.LockTakenExactly` | netsplice-echo-proxy/dada-funny/proxy_linux.go:28-46 | in every reachable state a lock takes the direction if and only if nobody owns it and it is not closed |
| `PollProgress.UnlockFrees` | netsplice-echo-proxy/dada-funny/proxy_linux.go:48-58 | without a Close an unlock frees its direction and no other |
| `PollProgress.ParkParks` | netsplice-echo-proxy/dada-funny/proxy_linux.go:60-72 | without a Close the holder of a lock can always park |
| `PollProgress.WaitsSucceed` | netsplice-echo-proxy/dada-funny/proxy_linux.go:60-78 | in every run without a Close every wait that is resumed succeeds and has its lock back |
| `PollProgress.WaitAndRelease` | netsplice-echo-proxy/dada-funny/proxy_linux.go:28-78 | lock, park, wake, resume and unlock lead back to the start |
| `PollProgress.CloseReturns` | netsplice-echo-proxy/dada-funny/proxy_linux.go:80-102 | a Close that finds a writer parked signals it, gets the flag and returns with both directions closed |
| `SpliceModel.NeverAsksForNothing` | netsplice-echo-proxy/dada-funny/splice_linux.go:122-133 | in every sound state at the head of the loop the request is at least one byte and within limit and room, so zero bytes from the source mean end of file |
| `SpliceModel.ReadKeeps` | netsplice-echo-proxy/dada-funny/splice_linux.go:114-166 | a step from the source keeps taken == delivered + content and the counters exact up to the one hard errno |
| `SpliceModel.WriteKeeps` | netsplice-echo-proxy/dada-funny/splice_linux.go:171-201 | a step to the destination delivers the head of the pipe in order, makes progress when it succeeds, and keeps the accounting |
| `SpliceModel.FlushKeeps` | netsplice-echo-proxy/dada-funny/splice_linux.go:203-210 | a flush cannot succeed after a hard errno of the destination alone, and leaves one byte exactly when the source failed on a pipe that held some |
| `SpliceModel.SpliceSound` | netsplice-echo-proxy/dada-funny/splice_linux.go:39-79 | for every script of kernel answers: a prefix of what was taken is delivered, in order; after a successful flush all of it if and only if the source did not fail on a non-empty pipe, and all but one byte otherwise; success means end of file without a limit, exactly the limit with one; an unexpected end of file is reported if and only if there is a limit and the source ended before it |
| `SpliceRuns.WaitsLeaveNoTrace` | netsplice-echo-proxy/dada-funny/splice_linux.go:134-147 | a wait that succeeds is as if the call had not been made, and one that fails ends the step with everything as it was |
| `SpliceRuns.ErrnosAreReported` | netsplice-echo-proxy/dada-funny/splice_linux.go:158-201 | a hard errno is reported by the step and the flush that meet it |
| `SpliceRuns.SpliceReports` | netsplice-echo-proxy/dada-funny/splice_linux.go:56-72 | the result is the loop's error, or else the flush's, and says whether the flush succeeded |
| `SpliceRuns.PumpTakes` | netsplice-echo-proxy/dada-funny/splice_linux.go:57-66 | on rounds that bring bytes the loop takes exactly what they bring, each cut to the limit and to the room in the pipe, until the end of the source or the limit |
| `SpliceRuns.FlushSucceeds` | netsplice-echo-proxy/dada-funny/splice_linux.go:203-210 | with as many successful calls as there are bytes a flush succeeds |
| `SpliceRuns.SpliceDelivers` | netsplice-echo-proxy/dada-funny/splice_linux.go:39-79 | a source that sends and ends and a destination that takes: everything accepted is delivered and the result is success, or an unexpected end of file exactly when a limit was not reached |
| `SpliceRuns.LosesLastByte` | netsplice-echo-proxy/dada-funny/splice_linux.go:158-165 | a source that sends and then fails while the pipe holds bytes: the flush succeeds and the last byte is lost |
| `SpliceRuns.CleanEndIsUnexpected` | netsplice-echo-proxy/dada-funny/splice_linux.go:148-156 | a source that sends less than the limit and ends: everything is delivered and the result is an unexpected end of file |
| `SplicePipe.Pipe.constructor` | netsplice-echo-proxy/dada-funny/splice_linux.go:90-100 | a new pipe stands for the initial state |
| `SplicePipe.Pipe.ReadFrom` | netsplice-echo-proxy/dada-funny/splice_linux.go:114-166 | refines `ReadOf`: the bytes, the counters and the error of the specification |
| `SplicePipe.Pipe.WriteTo` | netsplice-echo-proxy/dada-funny/splice_linux.go:171-201 | the loop refines `WriteOf` |
| `SplicePipe.Pipe.Flush` | netsplice-echo-proxy/dada-funny/splice_linux.go:203-210 | the loop refines `FlushOf` |
| `SplicePipe.Splice` | netsplice-echo-proxy/dada-funny/splice_linux.go:39-79 | the whole function refines `SpliceOf`, so every theorem above holds of it |
| `EventSides.FillMeans` | netsplice-echo-proxy/dada-funny/proxy-main/proxy_linux.go:244-267 | takes exactly the bytes the answers bring while there is room, and asks for removal exactly on an error or the end before the pipe is full; `canRead` is set by a fill that brings nothing |
| `EventSides.FillEnds` | netsplice-echo-proxy/dada-funny/proxy-main/proxy_linux.go:244-267 | a fill that does not ask for removal has filled the pipe or exhausted the socket |
| `EventSides.DrainMeans` | netsplice-echo-proxy/dada-funny/proxy-main/proxy_linux.go:269-292 | moves exactly what the answers allow from the head of the other side's pipe, in order; `canWrite` is set by a drain that moves nothing |
| `EventSides.DrainEnds` | netsplice-echo-proxy/dada-funny/proxy-main/proxy_linux.go:269-292 | a drain that does not ask for removal has emptied the pipe or met a full socket |
| `EventSides.ReadableDelivers` | netsplice-echo-proxy/dada-funny/proxy-main/proxy_linux.go:132-145 | a readable event takes what the socket has and, if the other side is known to be writable, gives it at once |
| `EventSides.WritableDelivers` | netsplice-echo-proxy/dada-funny/proxy-main/proxy_linux.go:147-160 | a writable event gives exactly what the answers allow of the other side's pipe, and refills that pipe if it is known to be readable |
| `EventSides.ReadableRemoves` | netsplice-echo-proxy/dada-funny/proxy-main/proxy_linux.go:132-145 | exactly which failures of a readable event remove which connection |
| `EventSides.WritableRemoves` | netsplice-echo-proxy/dada-funny/proxy-main/proxy_linux.go:147-160 | the same for a writable event |
| `EventSides.EventSplits` | netsplice-echo-proxy/dada-funny/proxy-main/proxy_linux.go:132-160 | an event with both bits is its readable part and then, if nothing was removed, its writable part |
| `EventSides.DispatchKeeps` | netsplice-echo-proxy/dada-funny/proxy-main/proxy_linux.go:118-160 | any event keeps both directions lossless; a removed connection takes and gives nothing more |
| `EventSides.EventsKeep` | netsplice-echo-proxy/dada-funny/proxy-main/proxy_linux.go:108-165 | so does every event sequence |
| `EventSides.DeliveredExactly` | netsplice-echo-proxy/dada-funny/proxy-main/proxy_linux.go:108-165 | each side has been given a prefix of what the other sent, in order; what is missing after a removal is what the pipe held then, so all was delivered if and only if it was empty |
| `EventSides.BytesAreDelivered` | netsplice-echo-proxy/dada-funny/proxy-main/proxy_linux.go:132-160 | bytes readable on one side and then a writable event on the other: the event loop gives exactly those bytes |
| `EventSides.LosesPipeOnHangup` | netsplice-echo-proxy/dada-funny/proxy-main/proxy_linux.go:126-130 | bytes that arrive before the other side is writable are all lost when their sender hangs up |
| `EventProxy.Conn.MoveIn` | netsplice-echo-proxy/dada-funny/proxy-main/proxy_linux.go:244-267 | the loop refines `FillSide` |
| `EventProxy.Conn.MoveOut` | netsplice-echo-proxy/dada-funny/proxy-main/proxy_linux.go:269-292 | the loop refines `DrainSides` on both connections |
| `EventProxy.Pair.constructor` | netsplice-echo-proxy/dada-funny/proxy-main/proxy_linux.go:167-183 | two connections linked to each other, nothing forwarded yet |
| `EventProxy.Pair.OnReadable` | netsplice-echo-proxy/dada-funny/proxy-main/proxy_linux.go:132-145 | refines `Readable` on both linked connections |
| `EventProxy.Pair.OnWritable` | netsplice-echo-proxy/dada-funny/proxy-main/proxy_linux.go:147-160 | refines `Writable` |
| `EventProxy.Pair.Dispatch` | netsplice-echo-proxy/dada-funny/proxy-main/proxy_linux.go:118-160 | one event on the linked objects is `Dispatched` |
| `EventProxy.Pair.EventLoop` | netsplice-echo-proxy/dada-funny/proxy-main/proxy_linux.go:108-165 | the event loop on the linked objects is `AllDispatched`, so every theorem above holds of it |
| `FieldSplit.ScanSplits` | go-vs-php-file-parse/parser.go:324-340 | from any point of the scan on, the one-pass loop yields the reference split of the rest with a trailing empty piece dropped |
| `FieldSplit.SplitBytes` | go-vs-php-file-parse/parser.go:314-342 | for every n other than 0 the fast splitter equals the reference split; for 0 it returns the old result |
| `FieldSplit.SplitThenJoin` | go-vs-php-file-parse/parser.go:314-342 | joining the pieces gives the input back, less one final separator exactly when the last piece was empty |
| `FieldSplit.SplitBounded` | go-vs-php-file-parse/parser.go:314-342 | for n at least 2 at most n pieces, for n at least 2 or negative no separator in any piece but the unsplit n-th |
| `FieldSplit.SplitOnePiece` | go-vs-php-file-parse/parser.go:309-331 | n == 1 behaves like "all subslices"; it yields at most one piece if and only if no separator stands before the last byte |
| `FieldSplit.AtoIntOfBytes` | go-vs-php-file-parse/parser.go:285-303 | equals the number the digits denote, modulo 64-bit wrap-around, and fails exactly on a non-digit |
| `FieldSplit.ReadBack` | go-vs-php-file-parse/parser.go:285-303 | reading the decimal digits of any 64-bit integer gives it back |
| `LineFile.ParseLine` | go-vs-php-file-parse/parser.go:371-383 | one line refines `AddLine` on exact statistics, with the sum in 64 unsigned bits |
| `LineFile.Parser` | go-vs-php-file-parse/parser.go:358-393 | the loop refines `ParseOf` over the file contents, with the sum modulo 2^64 |
| `LineFile.HeldSum` | go-vs-php-file-parse/parser.go:379-383 | the sum held is the exact one if that fits in 64 bits, and off by a multiple of 2^64 otherwise; nothing else differs |
| `LineFile.FillLine` | go-vs-php-file-parse/parser.go:134-137 | the buffer becomes ten fields of four seed bytes and its last byte stays LF |
| `LineFile.AllBytesParsed` | go-vs-php-file-parse/parser.go:358-371 | a finished parse has accounted for the bytes up to the last LF, so for all of them if and only if the file is empty or ends with LF |
| `LineFile.UnfinishedLineIgnored` | go-vs-php-file-parse/parser.go:359-370 | a file of one byte without a line end leaves the statistics at zero |
| `LineFile.Generate` | go-vs-php-file-parse/parser.go:119-156 | fails exactly below 100 seed bytes; otherwise every slice is in bounds and the output is the specified lines, 50 bytes each |
| `LineFile.LineAccepted` | go-vs-php-file-parse/parser.go:371-383 | a line of ten four-digit fields is never rejected and adds the value of its ninth field |
| `LineFile.GeneratorAndParserAgree` | go-vs-php-file-parse/parser.go:116-156 | for every digit seed of at least 100 bytes and every number of lines the parser rejects nothing and reports that many lines, 50 bytes each, and the sum of the ninth fields |
| `LineLaws.PieceCount` | go-vs-php-file-parse/parser.go:314-342 | the reference split has one piece more than separators, up to the limit |
| `LineLaws.PieceIs` | go-vs-php-file-parse/parser.go:314-342 | piece `k` is what stands between separator `k` and the next |
| `LineLaws.RefusedExactly` | go-vs-php-file-parse/parser.go:285-303 | a number is refused if and only if some byte is neither a digit nor a leading minus |
| `LineLaws.InvalidExactly` | go-vs-php-file-parse/parser.go:371-378 | any complete line is counted with its bytes, and is invalid if and only if it has fewer than eight spaces |
| `LineLaws.NineFieldsOnlyWarn` | go-vs-php-file-parse/parser.go:378-383 | any line with exactly eight spaces only makes a warning, whatever its ninth field is |
| `LineLaws.NinthFieldIsRead` | go-vs-php-file-parse/parser.go:378-383 | with more spaces the field between the eighth and the ninth is added if it is a number, and makes a warning otherwise |
| `LineLaws.GeneratedInClosedForm` | go-vs-php-file-parse/parser.go:119-156 | line `j` of pass `m` over the seed copies it from `m` modulo the number of offsets plus 50 `j` |
| `HashTally.RoutedExactly` | hash-test/hash-test.go:264-269 | a counter gets every hash of its residue class as often as the chunk has it, and no other hash |
| `HashTally.RoutedAppend` | hash-test/hash-test.go:264-269 | a chunk is routed piece by piece, so its order is kept |
| `HashTally.RouteOne` | hash-test/hash-test.go:264-269 | a hash goes to the carrier of its residue class and no carrier index leaves its buffer |
| `HashTally.RouteChunk` | hash-test/hash-test.go:255-269 | after a chunk carrier `i` holds exactly the hashes of class `i`, in order |
| `HashTally.PartsMakeTheChunk` | hash-test/hash-test.go:264-290 | the parts of a chunk add up to its size |
| `HashTally.SendChunk` | hash-test/hash-test.go:285-290 | what is sent to each counter is its class; the chunk count is what the reads after the sends add up to in 64 bits, empty carriers with ptr == -1 included, and the number of hashes if the reads find what was sent |
| `HashTally.SeenWhatWasSent` | hash-test/hash-test.go:285-290 | reads that find the sizes of the parts add up to the parts |
| `HashTally.AddCarrier` | hash-test/hash-test.go:324-328 | the counter's loop adds the carrier to the table cell by cell modulo 65536 |
| `HashTally.AddLoadCounts` | hash-test/hash-test.go:324-328 | a cell grows by the number of its occurrences in the load, modulo 65536 |
| `TallyRouting.FillsRoute` | hash-test/hash-test.go:255-269 | a worker's routing steps over any chunk leave in its carrier for counter `i`, behind what it held, exactly the load that the routing loop leaves in carrier `i` |
| `TallyOwnership.OwnedKept` | hash-test/hash-test.go:254-290 | every operation keeps each carrier with one owner: pool, one slot of one worker, or once in its counter's channel, holding only hashes of its class |
| `TallyOwnership.QueuedUntouched` | hash-test/hash-test.go:322-328 | a carrier in a channel is written by nobody until its counter takes it |
| `TallyBuffers.NoBufferOverruns` | hash-test/hash-test.go:254-269 | in every run of any number of workers and counters no carrier holds more than the 1024 hashes its buffer has room for |
| `TallyTotals.ConservedKept` | hash-test/hash-test.go:254-328 | every operation keeps each hash tallied or in exactly one carrier on its way |
| `TallyTotals.CellsKept` | hash-test/hash-test.go:322-328 | every operation keeps every cell the number of its tallied occurrences modulo 65536 |
| `TallyTotals.SizesKept` | hash-test/hash-test.go:264-290 | every operation keeps the total, the sizes under way and what workers owe equal to the hashes made plus the accumulated error of the reads |
| `TallyTotals.ExecKeeps` | hash-test/hash-test.go:227-342 | so does every run of any number of workers and counters |
| `TallyTotals.TallyIsExact` | hash-test/hash-test.go:315-342 | after draining, in every run, every cell is the number of times its hash was made modulo 65536, and the total is off by exactly what the reads of carrier sizes were off |
| `TallyTotals.CountersNeverShareACell` | hash-test/hash-test.go:322-328 | in every run counter `k` changes only cells of its own residue class |
| `TallyReuse.TotalIsExact` | hash-test/hash-test.go:285-290 | the total is the number of hashes made in every run in which no carrier is handed out between its send and the read of its size |
| `TallyReuse.OneWorkerTotal` | hash-test/hash-test.go:254-290 | with at most one worker that is every run |
| `TallyWitness.TotalFallsShort` | hash-test/hash-test.go:254-290 | two workers and one counter, for any two chunks of 1 to 1024 hashes: a run that makes both and drains with the size of the first missing from the total |

## Left out

- Fairness: that parked goroutines are woken, that edge-triggered events arrive and that waiting workers get the lock depends on kernel and scheduler timing; proved are who can move, bounds on the steps left, and runs that reach their end.
- Deadlines, tickers, signals, pprof, statistics output and printing: they only cut runs short, and every run prefix is covered.
- Bytes that follow a header end in the same buffer are discarded by the service, as in the code; request bodies and pipelining are not otherwise modelled.
- HttpReads.FragmentationIndependence: requests of at most 131072 bytes; beyond that the outcome depends on where the last read ends, as `HttpReads.AnsweredExactlyWhenNoticed` states.
- HttpConnection.Service.Serve: the header and compare buffers are allocated rather than taken from a shared pool; that every buffer is returned once is stated in `ServerConservation.CountsAddUp` by counting.
- ServerConservation.CountsAddUp: how many requests a service answers, when it takes its buffers and when it stops are free choices, so the sums hold for every behaviour of the connections; `ServerLink` ties one answered request to the connection's counters.
- Splice locking: `SplicePipe.Splice` starts with both locks held and the pipe created; failed locks, a failed pipe2 and errors of the final close are not modelled.
- SplicePipe.Splice: counters are unbounded, so a limit near 2^63 does not overflow; a script of kernel answers that runs out counts as a descriptor closed while waiting.
- EventProxy.Pair.EventLoop: file descriptor numbers that the kernel reuses after a removal are not modelled, nor is a pair for which `Transfer` failed half way.
- Engine: AES work load, QPS token delivery, listener duplication, option parsing and `Close` errors; a sleeping worker may wake at any time it can have the lock, which covers every way the condition variable is signalled; where it matters that somebody wakes it (`EngineProgress`), only the ticker counts. A dial or an Accept may end at any time.
- EngineClientWitness.ClientModeLosesEntry: shown for one connector and one address; the missed sweep needs two addresses, since a connector with none left to dial from never leaves.
- FieldSplit.SplitBytes: the reuse of the result's backing array is not modelled; pieces are values, not slices that alias the input.
- LineFile.Parser: works on the file contents with the buffer size of the reader; refilling the buffer is not modelled.
- TallyTotals.TallyIsExact: channels are unbounded queues, chunk counts stay below 2^64, and how a hash is computed and the kill flag are not modelled; a worker stops only at the head of its loop, as in the code, and may start another chunk after a short one, which the code does not.
- TallyReuse.TotalIsExact: states a sufficient condition; it is not a necessary one, since an early reuse leaves the total right when the carrier was empty, or when a later error cancels it. The exact condition is in `TallyTotals.TallyIsExact`: the errors of the reads sum to zero.
- Not in scope: `summary`, the SVG drawing and the debugging exit of hash-test; `qps-http-app-server`; the `splicetest` copies of the modelled proxy; the affinity, cgo, memory and channel benchmarks.
