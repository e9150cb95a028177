# Verified model of the local identity and framing layer

This project models, in Dafny, the parts of the repository where state, bytes and time interact:

- **The session framing protocol.** One connection carries many exchanges as length-prefixed frames with control words (accept, decline, unsupported, the closing marker, the proof refusal). `Wire.dfy` holds the words, `SessionCall.dfy` the server's objects (the connection, the session, one exchange served as a connection, the replayed connection), `Framing.dfy` the headed write. `Link.dfy` is one connection as a state machine over two byte queues: every read takes any prefix of what is there, any write may be cut by a failing connection, and idle timeouts, retirement, expiry and lost answers are events that may happen at any moment. `LinkInvariant.dfy`, `ClientSteps.dfy`, `ServerSteps.dfy` and `ServerReplies.dfy` prove one inductive invariant of it, which ties both cursors of both ends to request and answer boundaries in every mode. `LinkRuns.dfy` draws pairing and boundaries from it, `Retirement.dfy` says exactly what a retired server still takes, `Exchanges.dfy` shows which requests can complete in every mode, `Sessions.dfy` that one connection carries any number of them, `Limits.dfy` that nothing over a limit passes, `World.dfy` puts any number of calls over any number of connections (attempts, pool reuse, the plain fallback) and proves at-most-once, `EmptyFrame.dfy` settles the one exception, and `Repeats.dfy` and `Attempts.dfy` prove that a call goes on after a closing marker, and exactly when it stops.
- **The refusal recognizers** of the Go and the C++ client (`Refusal.dfy`).
- **The client's pool** (`Pool.dfy`): ownership of connections, and what a key stands for.
- **The Authenticode verdict cache** and the age of the evidence behind an admitted frame (`Verdicts.dfy`, `Evidence.dfy`).
- **The per-mount probe limiter** (`Probes.dfy`) and **the Windows pipe listener** (`Pipes.dfy`).
- **The version resource reader** (`VersionInfo.dfy`, `VersionNames.dfy`).
- **Path identity** over a file system with links, absolute or relative, up and down (`Paths.dfy`), **the hold-everything-then-write scan** (`ModelTree.dfy`) and **the proof ladder against platform ceilings** (`Ceilings.dfy`).

Objects the source updates in place are classes; each of their methods is one region under the source's lock, so every interleaving of callers is some sequence of calls, and `Valid()` holds after each. Machines with several parties (a connection, the pool's calls, the cache's callers) are step functions over values, and the claims about them quantify over every sequence of events. The clock, the network, the operating system's answers and the sizes of reads and writes are parameters or events.

## What turned out not to hold

- *A call's frame reaches a handler at most once.* True of every call whose frame is not empty, false of empty ones: the session header is then the whole request, so the server may dispatch it before the client reads the answer, and where a failed check of the server, or a reset, keeps the client from reading that answer the call is repeated as a plain exchange. `EmptyFrames.TwiceIffEmpty` proves that a double dispatch exists exactly for empty frames, and `Worlds.OnceInLosslessRuns` that it takes a lost answer.
- *After `retire` returns, no header becomes a call unless it was one already.* A session is neither idle nor serving in two states: between having a header in hand (the one it opened with, or the next one) and handing out its call, and while it lets a header finish after an idle timeout. `Retirement.RetiredExactly` proves that a retired connection takes a further call exactly in those states, in the second one if it has not expired and the rest of the header is there; `Retirement.StartedIsServed` and `Retirement.BegunIsServed` are runs that do. A connection whose first request is still being read has no session to retire, and its request is handed out as any other; the condition says that too.
- *`replied` holds exactly when the whole reply is out.* It is set with nothing on the wire by one write after a length over 2^30-1 (`SessionCalls.RepliedWithoutReply`), and by an empty write after the header of an empty reply failed on the connection before its first byte (`SessionCalls.RepliedAfterFailure`); it is not set where a write failed after its last byte (`SessionCalls.OutWithoutReplied`). `SessionCalls.RepliedExactly` gives the exact condition over every sequence of writes on every connection, in terms of their sizes and failures. In all these cases the call is broken, so its session ends: `SessionCalls.SessionCall.FinishClose` proves that an unbroken call has put exactly one answer on the connection.
- *With no Translation entry the first string table is read.* The search compares table keys with the empty text, so a later table with an empty key wins (`VersionNames.SecondTableIsRead`); `VersionNames.ChosenAsPromised` gives the exact condition.
- *On Linux no proof exceeds the ceiling.* The ceiling comes from one probe at startup; a connection that has a pidfd although that probe failed is reported above it, and then meets a policy that `CanEver` refused (`Ceilings.AboveTheProbe`). `Ceilings.LinuxExceeds` states the exact condition.
- *Every mode carries every frame.* A one-way request of 2^30-1 bytes that asks for a session has the closing marker for its header, and no run dispatches it; `Exchanges.CompletesExactly` proves it is the only one.

Where documentation and code disagree, the code is followed: FRAMING.md has fewer than four pooled connections per endpoint and a repeat after an incomplete request write; the code keeps up to four and never repeats a call after a failed write.

## Model

| member | source | states |
|---|---|---|
| Wire.WordRoundTrip | listen/session.go:609-614 | decoding the four bytes of an encoded word gives the word back |
| Wire.BytesRoundTrip | listen/pool.go:117-124 | encoding a decoded word gives its four bytes back, so control words are told apart by their bytes |
| Wire.Be32Injective | listen/session.go:17-27 | words with equal bytes are equal: no control word looks like another |
| Wire.RequestHeaderFields | listen/pool.go:177-180 | a request header gives back its length and its one-way bit, and equals the closing marker exactly for a one-way frame of 2^30-1 bytes |
| Wire.ReplyHeaderFields | listen/session.go:758-773 | a reply header carries its length and the session bit, never the one-way bit, and is never the closing marker or the refusal word |
| Framing.WritePart | listen/framed.go:61-76 | whatever each write accepts, the connection carries exactly the counted beginning of the part; it succeeds exactly when each write took some of what was left without failing, and then all of it is out |
| Framing.WriteHeadedCount | listen/framed.go:50-79 | the same for a header and its frame, in one write or two, with the exact condition of success for each |
| SessionCalls.Session.IsRetiring | listen/session.go:455-462 | expiry makes a session retire for good |
| SessionCalls.Session.FinishCall | listen/session.go:522-551 | after a call the session waits exactly if it is unbroken, was told to continue and does not retire, sends the marker exactly if it retires instead, and ends otherwise |
| SessionCalls.Session.NextHeader | listen/session.go:561-596 | each way out of the idle read, exactly, by the bytes read, the timeout and retirement: a whole header is served, part of one is let finish after a timeout, nothing and a timeout or retirement sends the marker, anything else ends |
| SessionCalls.SessionCall.constructor | listen/session.go:493-494 | a call hands out the plain length of its header first and reads its body where the connection stands |
| SessionCalls.SessionCall.ReadStart | listen/session.go:674-709 | a read hands out the length, or asks the connection for no more than the request has left; one that comes after expiry breaks the call, and nothing else it does changes that |
| SessionCalls.SessionCall.ReadFinish | listen/session.go:710-732 | what was handed out is the length and then exactly the connection's bytes; a byte beyond the request, or one read after expiry, breaks the session |
| SessionCalls.SessionCall.Write | listen/session.go:734-796 | a write on any connection, failing or not, is one step of the reply translation, with its count, its error and the state it leaves; while the call is unbroken the connection carries the translation of everything offered and no more was offered than announced |
| SessionCalls.SessionCall.PutHeader | listen/session.go:745-776 | the write that completes the length puts the session header and the body at hand on the wire, its bit settled by retirement; failing after some bytes it leaves those on the wire and the whole length owed |
| SessionCalls.SessionCall.PutBody | listen/session.go:777-795 | body bytes go out as far as they were announced, and anything more breaks the call; a failing write counts what the connection took and does not mark the reply |
| SessionCalls.SessionCall.RefuseProof | listen/session.go:636-646 | a refusal puts its own bytes on the wire and ends the session |
| SessionCalls.SessionCall.FinishClose | listen/session.go:816-833 | a call stays unbroken only if its request was consumed to the last byte and answered; then the connection stands at the next request, and the call has put exactly one answer on it, carrying every byte the handler offered, however it wrote them |
| SessionCalls.WriteOnAgrees | listen/session.go:734-796 | one write of any size that does not fail on the connection keeps the wire equal to the translation of everything offered, and errs exactly when more was offered than announced or the length is too large |
| SessionCalls.ChunksAgree | listen/session.go:734-796 | the same for every sequence of writes, with one header whose bit was settled by the write that completed the length |
| SessionCalls.CleanChunks | listen/session.go:734-796 | for writes on any connection: none errs exactly when none failed and no more was offered than announced, and then the wire is the translation |
| SessionCalls.ReplyIsChunkIndependent | listen/session.go:734-796 | however a frame is split, the wire is a beginning of one answer carrying exactly its body, all of it exactly when the whole frame was offered |
| SessionCalls.BrokenReplyIsBeginning | listen/session.go:768-785 | up to and including the first write that fails on the connection, the wire carries a beginning of the handler's answer |
| SessionCalls.RepliedWithoutReply | listen/session.go:753-790 | two writes after which replied is set and nothing is on the wire |
| SessionCalls.RepliedAfterFailure | listen/session.go:758-790 | a header that fails before its first byte and an empty write: replied is set and nothing is on the wire |
| SessionCalls.OutWithoutReplied | listen/session.go:768-771 | a header that fails after its last byte: the answer is on the wire and replied is not set |
| SessionCalls.RepliedExactly | listen/session.go:744-796 | over every sequence of writes, failed ones included, replied means that the announced answer is on the wire exactly in the courses named by the writes' sizes and failures |
| SessionCalls.UnfailedTruthful | listen/session.go:744-796 | and without a failed write, exactly when no write follows a length no frame may have |
| SessionCalls.StopsAtError | listen/session.go:744-796 | for a handler that writes on only after success: a reply marked is on the wire, and one is on the wire unmarked exactly if its last write would have completed it and failed although the connection took all its bytes |
| SessionCalls.ReplayConn.Read | listen/session.go:402-412 | reads of any sizes hand out the replayed bytes and then the connection's, unchanged and in order |
| LinkInvariant.UpAt | listen/session.go:561-607 | bytes the server reads where request k begins are bytes of request k |
| LinkInvariant.WiredAt | listen/pool.go:248-279 | bytes the client reads where a complete answer begins are bytes of that answer |
| LinkInvariant.DialInv | listen/pool.go:181-190 | a new connection, opened and served either way, satisfies the invariant |
| ClientSteps.ClientKeeps | listen/pool.go:205-294 | every step of the client's exchange, of its plain exchange and of pool reuse keeps the invariant |
| ServerReplies.ServerStepAll | listen/session.go:285-606 | every step of the listener, the receiver and the handler keeps the server's half of the invariant |
| LinkRuns.ServerKeeps | listen/framed.go:479-530 | and leaves true everything the client relies on and has learned |
| LinkRuns.RunKeeps | listen/session.go:464-556 | the invariant holds after every run of every connection |
| LinkRuns.RepliesArePaired | listen/session.go:464-556 | in every run, the k-th reply the client returns is what the handler given the k-th frame replied, and a handler is only given the frame of its request |
| LinkRuns.RestsAtBoundaries | listen/session.go:533-556 | a waiting server has read exactly the requests it took and written exactly their answers; a pooled connection has read exactly the answers to the requests made on it |
| Retirement.RetiredRun | listen/session.go:443-453 | after retirement a connection takes at most the request it had begun to read, and none if it was waiting or serving |
| Retirement.BegunIsServed | listen/session.go:590-606 | a header being finished after an idle timeout becomes a call although the session was asked to retire |
| Retirement.StartedIsServed | listen/session.go:479-494 | a session asked to retire while it has a header in hand serves that call |
| Retirement.RetiredExactly | listen/session.go:309-347 | for the bytes the client has sent, some run of a retired connection records a further call exactly if a session header is in hand, or one is being finished, unexpired and all there, or there is no session yet and the first request is |
| Retirement.RetiredKeepsNothing | listen/session.go:762-776 | once a session is asked to retire, in every run of it no answer but one whose header is out already says that it continues |
| LinkRuns.MarkerAtBoundary | listen/session.go:517-588 | the closing marker is written only where no byte of a next request was read and every call was answered, and the server is over |
| LinkRuns.MarkersInRuns | listen/session.go:517-588 | in every run of every connection, wherever the marker was written: the server is over, it has read exactly the requests it took, and each was answered |
| LinkRuns.RetryMeansMarker | listen/pool.go:252-256 | in every run, a client is told to try again only by a marker the server wrote, and never in a plain exchange |
| LinkRuns.OverRun | listen/session.go:464-478 | a server that is over dispatches and writes nothing more in any run |
| Exchanges.EveryModeCompletes | listen/framed.go:264-304 | for every frame and reply, accepted, declined, unsupported or plain, some run gives the handler exactly that frame and the client exactly that reply, or for a one-way request the word that it was taken |
| Exchanges.CompletesExactly | listen/session.go:385-391 | a request can complete exactly unless it asks for a session with the closing marker for its header; such a request is given to no handler in any run |
| Exchanges.AskedMidway | listen/session.go:302-393 | a session request reaches its receiver with its length, accepted, declined with the length replayed, or answered unsupported |
| Exchanges.PlainMidway | listen/session.go:367-379 | a plain request reaches its receiver with its length, through a listener with sessions or without |
| Sessions.SessionGoesOn | listen/session.go:464-606 | for every sequence of requests and replies, one connection carries them all: each frame is given to a handler and each reply returned, in order, and both ends wait for the next |
| Sessions.SessionCarriesExactly | listen/session.go:489-494 | and it can exactly if none of them has the closing marker for its header |
| Limits.AdmitsExactly | listen/framed.go:102-112 | a receiver reads a frame exactly up to its limit, and ends the connection beyond it |
| Limits.MeasuresExactly | listen/framed.go:483-496 | a connection served once is refused over the limit, behind the answer to a session request if that is what was sent |
| Limits.AwaitsExactly | listen/pool.go:266-279 | a client reads a reply exactly up to its limit, and fails beyond it |
| Limits.LimitsHold | listen/framed.go:102-112 | in every run, no frame over the receiver's limit is given to a handler and no reply over the client's is returned |
| Worlds.WorldKeeps | listen/pool.go:175-283 | in every run each request is made for one call with its frame, and is the call's current or last one or was released to be repeated |
| Worlds.ReleasedIsVoid | listen/pool.go:216-256 | a request the client repeats, after a marker or an unanswered session request, was not given to a handler |
| Worlds.DispatchedAtHome | listen/pool.go:175-283 | the only request of a call a handler may have been given is its current or last one |
| Worlds.AtMostOnce | listen/pool.go:175-283 | in every run of all calls over all connections, a call's frame is given to a handler at most once, if it is not empty |
| Worlds.OnceUnlessLost | listen/pool.go:216-247 | the same for every frame, the empty one too, on connections whose answer to the session request was not lost |
| Worlds.OnceInLosslessRuns | listen/pool.go:216-247 | so in every run in which no client loses such an answer, every call is given to a handler at most once |
| Worlds.RepliedWasDispatched | listen/framed.go:280-304 | a call that returned a reply was dispatched with exactly its frame, and the reply is that handler's |
| Repeats.AnsweredAfterMarkers | listen/pool.go:252-256 | for every frame, reply and number of markers below three, some run gives a call so many markers, each on another connection, and then carries it out on a new one |
| Repeats.EndsAfterThreeMarkers | listen/pool.go:181-283 | and with three markers some run ends the call without an answer |
| Repeats.PlainAfterNoAnswer | listen/framed.go:280-304 | for every frame and reply, some run leaves a session request unanswered and carries the call out as a plain exchange |
| Attempts.EndsExactly | listen/pool.go:181-283 | in every run, a call that does not give up for want of a server and waits for nothing has ended without an answer exactly if it made three requests and each met a marker |
| Attempts.AtMostFour | listen/framed.go:264-304 | in every run, a call makes at most four requests: three on sessions and a plain exchange |
| EmptyFrames.TwiceIffEmpty | listen/server.go:139-147 | some run dispatches a call with this frame twice exactly when the frame is empty |
| EmptyFrames.FirstAttempt | listen/pool.go:205-218 | a run in which an empty request is accepted and dispatched and its answer lost |
| EmptyFrames.SecondAttempt | listen/framed.go:280-304 | and in which it is repeated as a plain exchange and dispatched again |
| Refusals.ProofRefusalBytes | listen/proof_refusal.go:43-56 | the six bytes sent disclose the attribute and proof of the error where both are in the vocabulary, and nothing else |
| Refusals.SentIsRecognized | listen/proof_refusal.go:58-69 | every refusal a server can send is recognized with its tokens, alone and behind an answer, whatever follows it |
| Refusals.RecognizesExactly | listen/pool.go:131-151 | and nothing else is: bytes are recognized exactly if they begin with a refusal some error makes a server send, alone or behind its answer to an opening header |
| Refusals.GoRefusalAfterWrite | listen/pool.go:131-151 | the Go client reports a refusal exactly for a complete one, and reads at most ten bytes |
| Refusals.CppRefusalAfterWrite | cpp/src/client.cpp:319-351 | the C++ client does so however the bytes are split into reads, and reads at most ten |
| Refusals.MarkerHolds | cpp/src/client.cpp:341-343 | the bytes of a marker gathered so far are checked as they arrive |
| Refusals.SameVerdict | cpp/src/client.cpp:319-351 | once they read after a failed write, both clients give the same verdict on the same bytes, however these arrive |
| Pools.KeyIsInjective | listen/pool.go:45-54 | for fields without NUL two callers share a key only for the same endpoint and expectation |
| Pools.NulCollides | listen/pool.go:45-54 | with a NUL in the endpoint a key without expectation equals one with |
| Pools.TakesLastFit | listen/pool.go:73-92 | what a call gets is the most recent connection that waited less than ten seconds and is intact; those above it, each too old or not intact, are closed, and those below it stay |
| Pools.FramePool.Pop | listen/pool.go:76-85 | a connection leaves the pool for exactly one call, and was dialed for that key |
| Pools.FramePool.Take | listen/pool.go:75-92 | take does what TakesLastFit says and touches no other key |
| Pools.FramePool.Put | listen/pool.go:94-115 | stale connections are closed and the returned one joins while fewer than four wait; every connection stays in a call, in the pool once, or closed |
| Pools.FramePool.Finish | listen/pool.go:196-204 | a connection returns to the pool exactly if the answer kept the session, no cancellation reached it and there is room, and is closed otherwise |
| Pools.FramePool.Dial | listen/pool.go:184-188 | a dialed connection is owned by one call and remembers its key |
| Pools.DropStale | listen/pool.go:96-101 | exactly the leading connections that waited too long are taken off |
| Verdicts.VerdictCache.LookUp | verdicts_windows.go:84-101 | a fresh entry is a hit, a stale one is dropped, and otherwise the caller waits for the verification in flight or starts one |
| Verdicts.VerdictCache.DropVerdict | verdicts_windows.go:160-164 | dropping an entry closes its handle |
| Verdicts.VerdictCache.Sweep | verdicts_windows.go:140-151 | every entry whose process is gone or whose age is out of bounds is dropped with its handle, and an oldest of the rest is found |
| Verdicts.VerdictCache.KeepVerdict | verdicts_windows.go:135-156 | the new entry replaces an old one and makes room by dropping an oldest |
| Verdicts.VerdictCache.Report | verdicts_windows.go:107-112 | a verification is in flight until it reports |
| Verdicts.RoomHandles | verdicts_windows.go:135-155 | making room leaves fewer than 256 entries and closes exactly the dropped handles |
| Verdicts.JoinHandles | verdicts_windows.go:156 | the new entry takes over the handle its caller held |
| Verdicts.StepKeeps | verdicts_windows.go:83-158 | every step of every caller, in any order, keeps the cache sound |
| Verdicts.SingleFlight | verdicts_windows.go:94-101 | at most one verification per key is in flight, in every run |
| Verdicts.ResultsAreVerified | verdicts_windows.go:94-121 | every result was found by a verification of that exact process instance, image and mode, and a waiter's is that of the caller it waited for |
| Verdicts.AgreesWithFresh | verdicts_windows.go:83-121 | where verifying a key has one answer, every result handed out is that answer |
| Verdicts.HitsAreFresh | verdicts_windows.go:86-93 | a hit is a verified finding for its key, younger than five minutes |
| Verdicts.FoundExactly | verdicts_windows.go:83-101 | a verdict is found exactly if there is an entry under five minutes old; else the caller waits for the verification in flight, or begins one |
| Verdicts.DropsOnly | verdicts_windows.go:124-158 | storing a verdict drops no entry but its own old one, those whose process is gone or whose time is up, and one oldest where there would be too many |
| Verdicts.StoredIsShared | verdicts_windows.go:83-158 | what one caller stores another finds, without a verification of its own |
| Verdicts.HandlesNameTheProcess | verdicts_windows.go:129-134 | in every run, the handle an entry holds was read to name a process started when the entry's key says |
| Verdicts.CacheIsBounded | verdicts_windows.go:123-158 | never more than 256 entries, and each open handle is held by exactly one entry or the caller about to store it |
| Evidence.BoundedAge | listen/session.go:73-75 | the option is the age exactly if it is positive and no more than the default, and the default is otherwise |
| Evidence.AdmittedWithinLifetime | listen/session.go:482-488 | in every run, a frame is admitted less than five minutes after the verification behind it, and less than five minutes, or the time the listener was given, after the binding |
| Evidence.AdmitsExactly | listen/session.go:433-439 | and exactly while none of these times is up |
| Evidence.HostKeeps | listen/session.go:648-653 | every step of the cache, of binding and of admission keeps that true |
| Probes.Limiter.StartProbe | localpath_statfs.go:96-127 | a probe starts while fewer than eight are outstanding on its mount; otherwise the caller is refused exactly if one is stuck, and else waits on a channel not yet closed |
| Probes.Limiter.EndProbe | localpath_statfs.go:131-147 | the probe is uncounted, every channel made for its mount is closed, and the mount is forgotten with its last probe |
| Probes.Limiter.MarkStuck | localpath_statfs.go:151-158 | a probe still running is counted stuck once |
| Probes.StartCounts | localpath_statfs.go:107-113 | counting a probe keeps every mount's counters equal to its probes |
| Probes.EndCounts | localpath_statfs.go:134-146 | so does uncounting it, and an entry exists exactly while probes are outstanding |
| Probes.StuckCounts | localpath_statfs.go:154-157 | so does marking it stuck |
| Probes.EndKeeps | localpath_statfs.go:140-146 | ending a probe closes exactly the channels its mount's callers wait on |
| Pipes.PipeListener.Arm | listen/listen_windows.go:207-234 | the waiting handle is armed by one accept, unless the listener is closed |
| Pipes.PipeListener.Connected | listen/listen_windows.go:236-283 | the armed handle is handed to a connection or closed, once, the next instance waits, and the port is closed |
| Pipes.PipeListener.Close | listen/listen_windows.go:285-300 | the waiting handle is closed unless an accept is pending on it |
| Pipes.PipeListener.NothingLeaks | listen/listen_windows.go:236-300 | once closed with no accept under way, every handle was handed out or closed |
| VersionInfo.BlockAt | version_windows.go:308-332 | a block lies within its limit, its value and its children within the block, in that order |
| VersionInfo.Children | version_windows.go:335-346 | child blocks lie within their parent, in order, none overlapping another |
| VersionInfo.Align4Clears | version_windows.go:304 | rounding up to four is adding three and clearing two bits |
| VersionInfo.ReadText | version_windows.go:350-360 | the loop reads the text up to its terminator, for every byte string |
| VersionInfo.ChildBlocks | version_windows.go:335-346 | the loop returns exactly the children |
| VersionInfo.RoundTrip | version_windows.go:308-346 | reading what a serializer of the format wrote recovers the whole tree |
| VersionNames.TextValue | version_windows.go:363-373 | for any bytes, the loop gives the text that VersionNames.TextIs describes |
| VersionNames.TextIs | version_windows.go:362-373 | the text is the units before the first NUL without the white space at either end, and nothing else is cut off |
| VersionNames.GatherTables | version_windows.go:384-398 | the scan gathers every string table and the first translation |
| VersionNames.TablesAre | version_windows.go:386-389 | the tables are those of every StringFileInfo block, in order |
| VersionNames.TranslationIs | version_windows.go:390-395 | the translation is the first usable one of the first VarFileInfo block that has any, its two words in order in four hexadecimal digits each, and empty without one |
| VersionNames.PickTable | version_windows.go:402-408 | the table picked is the first whose key matches, or the first |
| VersionNames.FoldsExactly | version_windows.go:402-407 | a key matches a translation letter by letter, in either case |
| VersionNames.ReadNames | version_windows.go:409-417 | the description is the text of the last FileDescription and the original name that of the last OriginalFilename, each empty without one |
| VersionNames.ParseVersionInfo | version_windows.go:379-418 | for every byte string: the two names of one string table of the tree the bytes hold |
| VersionNames.StoredSays | version_windows.go:379-418 | whatever tree is serialized, its bytes are read as what the chosen table's Strings say |
| VersionNames.StoredNames | version_windows.go:379-418 | the two texts stored in an ordinary resource are the two names read from its bytes |
| VersionNames.ChosenAsPromised | version_windows.go:375-408 | the table read is the promised one exactly when there is a translation, or the first table's key is empty, or no table's is |
| VersionNames.SecondTableIsRead | version_windows.go:402-408 | a resource with no translation that is read from its second table |
| Paths.Climb | pathidentity.go:182-193 | the climb stops at the deepest existing ancestor and keeps the rest as written |
| Paths.ResolveExisting | pathidentity.go:173-202 | the deepest existing part is resolved through links and the rest follows untouched, for the path itself or for the folders above it |
| Paths.ResolvedIs | pathidentity.go:173-202 | given the deepest existing part, the answer is its real location and the rest as written, and fails exactly if that part does not resolve |
| Paths.LastNameKept | pathidentity.go:165-185 | where only the folders above are asked for, the path's own name stays as written |
| Paths.ParentResolved | pathidentity.go:173-202 | and where the folder above resolves, its real location and that name are the answer |
| Paths.SelfResolved | pathidentity.go:173-202 | where the path itself is asked for and resolves, the answer is where it leads |
| Paths.RealExists | filekey_unix.go:31-34 | every entry exists, a link that leads nowhere too |
| Paths.FollowsLink | filekey_unix.go:13 | a link stands for its target, from the root or from the folder it lies in, and costs one of the links that may be followed |
| Paths.StepsUp | filekey_unix.go:13 | a step up leads to the folder above, and one that stays nowhere else |
| Paths.SelfLink | filekey_unix.go:13 | a link to itself leads nowhere |
| Paths.FindAbove | pathidentity.go:121-129 | the nearest ancestor with the folder's identity, if there is one |
| Paths.WithinRel | pathidentity.go:106-130 | inside with the remainder below the nearest ancestor of that identity, outside exactly when no ancestor has it, failed exactly when a question cannot be asked; in a tree whose folders are there, inside exactly if the folder's real location lies on the way to that of the path's own folder, with the way from there and the path's own name, link or not |
| Paths.AncestorsByIdentity | pathidentity.go:106-130 | an ancestor of the resolved path has the folder's identity exactly when it is the folder's real location |
| Paths.PlaceKeyIsStable | pathidentity.go:214-232 | the key of a place to be created is unchanged while everything missing on the way to it, and at last the place itself, is created |
| ModelTree.ClearedBits | go/privatedir/models_unix.go:112-113 | the mode written has no group or other write bit and every other bit as it was |
| ModelTree.OpenEntry | go/privatedir/models_unix.go:56-90 | an entry is held exactly when it passes both judgements, and what was opened joins the list or is closed |
| ModelTree.OpenBelow | go/privatedir/models_unix.go:98-108 | a folder's entries join the work list, or the tree is refused |
| ModelTree.Scan | go/privatedir/models_unix.go:91-108 | the scan succeeds exactly for a folder whose every entry is accepted, and then holds each entry of the tree exactly once |
| ModelTree.WriteModes | go/privatedir/models_unix.go:112-116 | modes are written as the scan found them, without those bits, and no other mode changes; it fails exactly when some entry's mode cannot be written |
| ModelTree.CloseAll | go/privatedir/models_unix.go:34-39 | every descriptor held is closed once |
| ModelTree.ProtectModels | go/privatedir/models_unix.go:27-118 | the tree is refused exactly unless every entry is the caller's own, a folder or a file of one name, and could be opened, stated and listed; a refusal leaves every mode unchanged, success clears exactly those bits on exactly the tree, it stops half way exactly when some entry's mode cannot be written, and every descriptor is closed |
| Ceilings.Check | peer.go:308-336 | the attributes reported are exactly those that fall short, in order, and none exactly when the peer meets the policy |
| Ceilings.CanEver | peer.go:390-403 | the attributes reported are exactly those the ceiling cannot reach, in order |
| Ceilings.ExceedsExactly | peer.go:376-403 | a peer meets some policy CanEver refuses exactly when one of its proofs is above the ceiling |
| Ceilings.OfLinux | identity_linux.go:140-322 | the steps that fill in a peer come to what the kernel's answers amount to; a recycled process leaves path, package and code unknown |
| Ceilings.LinuxDecides | identity_linux.go:200-322 | exactly when a Linux peer passes a policy: an exited or unchecked pidfd, or a late start, leaves path and package unknown, and a deleted executable's path is proven by the pid alone |
| Ceilings.LinuxExceeds | identity_linux.go:94-138 | for every answer of the kernel, a policy CanEver refuses is refused by Check too, exactly unless the probe failed and this connection has a live pidfd under which something was read |
| Ceilings.AboveTheProbe | identity_linux.go:94-138 | such a connection and a policy it meets |
| Ceilings.LinuxMeets | identity_linux.go:94-138 | on a kernel that is as the probe found it, CanEver accepts exactly the policies some peer meets |
| Ceilings.OfWindows | identity_windows.go:44-193 | the steps come to what the kernel's answers amount to: nothing is read out of an unpinned or recycled process, and code only with a path |
| Ceilings.WindowsDecides | identity_windows.go:70-193 | exactly when a Windows peer passes a policy: code counts as verified only where the verdict is that it is trusted, and every other verdict stays at its own rung below |
| Ceilings.WindowsExceeds | identity_windows.go:20-42 | for every answer of the kernel, a policy CanEver refuses is refused by Check |
| Ceilings.WindowsMeets | identity_windows.go:20-42 | CanEver accepts exactly the policies some peer meets |
| Ceilings.OfDarwin | identity_darwin.go:135-305 | the steps come to what the kernel's answers amount to: a moved or recycled process leaves path, package and code unknown |
| Ceilings.DarwinDecides | identity_darwin.go:150-305 | exactly when a macOS peer passes a policy: nothing but the user counts for more than the pid, and code counts as verified only where it is trusted |
| Ceilings.DarwinExceeds | identity_darwin.go:88-133 | with cgo or without, a policy CanEver refuses is refused by Check for every answer of the kernel |
| Ceilings.DarwinMeets | identity_darwin.go:88-133 | and CanEver accepts exactly the policies some peer meets |

## Left out

- Operating-system calls (sockets, /proc, WinVerifyTrust, the Security framework, impersonation, handle duplication) are answers given as parameters or events.
- Liveness: timers and deadlines are events that may happen, not when they happen; that some run completes each mode is proved, that every fair run does is not.
- Worlds.AtMostOnce: excludes empty frames, because EmptyFrames.TwiceIffEmpty shows they can be dispatched twice.
- The client's `sessionCall` loop and the receiver are step machines rather than methods, so that every interleaving with the server's steps is covered; their writes and reads of any size are events.
- A handler's stray reads beyond its request (waiting for the caller to hang up) are in SessionCalls.SessionCall.ReadFinish and not in the connection machine.
- A bound of MaxSessions on the listener's sessions is not an invariant of the source and is not claimed; nor is that a one-way call that succeeded was dispatched.
- Refusals.SameVerdict: compares what the clients make of the bytes, not when they begin to read them: the Go client looks at the kind of its write error and at its context, the C++ client at its own status and again at the server before and after each read; each condition is the one parameter `closedPeer`.
- ModelTree.Scan: one tree stands for both the listing of a folder, which the source takes by path, and the entries it opens through the folder's descriptor; a folder exchanged between the two is not part of this model.
- The C++ client's session call, `finish_single` and pool follow the protocol of the Go client and are not modelled a second time; its refusal recognizer is.
- Messages (`messageFrameCall`, XPC), the JavaScript, Bun and Rust wrappers, remote transports, commands and build scripts.
- The single-exchange memory of the pool (`isSingle`, `markSingle`) only decides whether a call opens plain; both openings are in the model at every call.
- The mount table (`mountOf`, `refreshMountTable`, `unalias`) names the mount of a path; the probe limiter's results hold for any such names.
- The image layout around a version resource hands the reader its bytes; the reader's results hold for any bytes.
- `Binding` and `bindingState`: of them the results on evidence use the time of the evidence alone.
- `ServerExpectation.check`: its failing is an event, on which the client gives up a connection or repeats a call.
- Path cleaning and making a path absolute are lexical and not modelled; Windows path identity (trimmed names, 8.3 aliases, name folding) is not part of this model.
- UTF-16 decoding of version texts: texts are code units; case folding is of ASCII letters, which is exact against hexadecimal digits.
- Error wording, reasons, notes and display strings.
