# A verified model of the chat system

The server accepts TCP connections, cuts them into length-prefixed JSON messages, hands each
message to a pool of worker threads, and there logs users in and out, stores their messages
in SQLite and passes them on.  This project models that behaviour in Dafny and proves what
the code relies on.  `dafny verify dfyconfig.toml` checks all of it.

Three kinds of model are used.

* Code that runs alone on its data is written as it is: classes and methods with the loops
  of the source (`Protocol`, `Sender`, `ChatClient`, `ThreadPool`, `RateLimiter`, `Database`,
  `EpollServer`, `MessageRouter`).  Each is proved against a function or a relation on values,
  and the lemmas are about that.
* Code that interleaves is a state machine whose steps are the regions between two lock
  operations (`LoginProtocol`, `SessionLifetime`, `WireIntegrity`, `ThreadPool`).  A run is
  any sequence of enabled steps; the theorems hold of every run.
* What the server is for, with one message handled at a time, is stated on values in
  `ChatSpec`; `MessageRouter` proves that the handlers, with their online index, reservations
  and pending logins, do exactly that.  `ChatBehaviour` says of each request what comes of it, for whom and what is
  stored, and `ChatTheorems` is about whole runs.

| file | what it is about |
|---|---|
| `Framing.dfy` | the wire format: a stream and the frames it stands for |
| `Protocol.dfy`, `ServerStream.dfy` | `recv_msgs` call by call, and over a whole stream |
| `ChatClient.dfy`, `BothEnds.dfy` | the client's own splitter, and the two ends together |
| `Sender.dfy`, `WireIntegrity.dfy` | `write_all` and `send_msg`; many senders on one socket |
| `ThreadPool.dfy` | the queue, its wake-ups, and its end |
| `SessionLifetime.dfy` | who holds a session, whose a descriptor is, which tasks are stale |
| `LoginProtocol.dfy`, `LoginSafety.dfy`, `LoginTheorems.dfy`, `LoginRace.dfy` | logging in, interleaved |
| `OnlineIndex.dfy`, `OnlineApart.dfy` | when the online index agrees with the sessions |
| `Passwords.dfy`, `RateLimiter.dfy`, `Database.dfy` | what the protocol relies on |
| `ChatSpec.dfy`, `EpollServer.dfy`, `MessageRouter.dfy` | the server one event at a time, as a specification and as the code that does it |
| `ChatTheorems.dfy`, `ChatBehaviour.dfy` | whole runs of it, and the outcome of each request |

What the outside world decides is a parameter or a choice of the run: what `recv` and `send`
answer, which descriptor `accept` returns, the clocks, salts, the hash function, the order in
which SQLite returns rows of equal time, and the JSON codec (any functions with
`parse(dump(x)) == x` and dumps that are not empty).

## What the proofs found

* **A disconnect during a LOGIN can give one name to two sessions.**  The disconnect callback
  erases the reservation, and the LOGIN erases it again when it ends; by then it may be
  somebody else's.  The exact condition is that the name the callback erases is still
  reserved (`LoginRace.StolenExactly`); without such an erasure there is at most one session
  of a name in every run (`LoginSafety.OneSessionPerName`).
* **The online index can be wrong in both directions.**  A name nobody carries can stay in it
  after a disconnect during a LOGIN (`LoginRace.NameOfNobody`), after two LOGINs of one session
  (`LoginRace.NameLeftBehind`) or a LOGOUT inside a LOGIN (`LoginRace.NameAfterLogout`), and a
  session can be missing from it after a LOGIN that overlaps the removal of the session carrying
  its name (`LoginRace.NameMissing`).  Which turns take the index away from the sessions is
  exactly known (`OnlineIndex.TurnExactly`); in a run without one the index agrees whenever
  nothing is at work (`OnlineIndex.OnlineIndexAgrees`).  A run with such a turn may agree again
  later.
* **Failing LOGINs that do not overlap are never rate limited.**  `is_rate_limited` erases the
  entry of an address that is not blocked, since its block end is still the clock's epoch
  (`RateLimiter.BlockedExactly`, `RateLimiter.OneAfterTheOtherIsNeverLimited`,
  `ChatTheorems.NobodyIsLimited`).  And a block can be cut short by one more failure
  (`RateLimiter.RecordedWhileBlocked`).
* **A user may register as `__room__`;** private messages to that user are then room history
  (`ChatTheorems.APrivateMessageInTheRoom`), and this is the only way
  (`ChatTheorems.RoomIsTheBroadcasts`).  The other side of such a conversation cannot ask for
  its history (`ChatTheorems.StoredIsDelivered`).
* **`send_ok` and `send_error` from a handler do not take `send_mutex_`.**  As long as none of
  them falls inside another frame the wire is sound (`WireIntegrity.WholeFrames`); one that
  begins inside the body of a text message tears it (`WireIntegrity.InterposedTears`,
  `WireIntegrity.BypassTearsFrames`).
* **`ChatClient::send_json` has no size limit:** a frame comes back out of the splitter exactly
  when its body is 1 byte to 16 MiB long (`Framing.FrameRoundTrip`).
* `docs/protocol.md` line 10 promises a limit of 256 KB; the code on both sides has 16 MiB,
  and so has the model.

## Model

| member | source | states |
|---|---|---|
| Framing.SplitSound | server/src/protocol.cpp:130-159 | The frames cut from any stream, and what is left, are that stream; every frame is 1 byte to 16 MiB; what is left is an unfinished frame, or starts with a refused length |
| Framing.SplitUnique | server/src/protocol.cpp:130-159 | There is only one such cut: framed bodies followed by an unfinished or refused rest split into exactly those |
| Framing.SplitAppend | server/src/protocol.cpp:126-172 | Splitting may be suspended anywhere: the cut of a longer stream is the cut so far followed by the cut of the rest with the new bytes |
| Framing.BadStaysBad | server/src/protocol.cpp:137-150 | Once a length is refused no later byte changes the frames before it or the refusal |
| Framing.FrameRoundTrip | client/src/chat_client.cpp:190-210 | A frame splits into exactly its body if and only if the body is 1 byte to 16 MiB, with a 32-bit length field |
| Framing.RestIsShort | server/src/protocol.cpp:145-155 | What is left after splitting is at most 16 MiB + 3 bytes and holds no complete frame |
| ChatClient.ShiftsAreHeader | client/src/chat_client.cpp:197-205 | The shifted and masked bytes of the client are the big-endian header the server writes with htonl |
| Protocol.DrainSocket | server/src/protocol.cpp:99-124 | The reading loop appends chunks until the kernel stops, and reports exactly when 32 MiB are reached |
| Protocol.TakeFrame | server/src/protocol.cpp:130-159 | One turn of the parsing loop: incomplete, refused (buffer cleared) or one legal frame taken from the front, each exactly when it should be |
| Protocol.DigestStep | server/src/protocol.cpp:157-171 | Taking one frame and parsing the rest is parsing the whole: failures count up, a success resets, the third failure ends |
| Protocol.DigestEnd | server/src/protocol.cpp:130-155 | With no complete frame the loop stops and keeps everything, with a refused length it clears the buffer and fails |
| Protocol.ParseFrames | server/src/protocol.cpp:126-172 | The loop over the mutable buffer yields the messages, the frames cut, the counter and the rest that the whole buffer stands for |
| Protocol.RecvMsgs | server/src/protocol.cpp:89-180 | One call refines the value-level step: result, buffer and failure counter, with FIN, read error and the 32 MiB limit; and it keeps the session valid, so that the buffer was never larger than 32 MiB + 4095 bytes |
| ServerStream.JudgeAppend | server/src/protocol.cpp:161-171 | Judging frames may be suspended: the counter carries all that later frames need |
| ServerStream.JudgeMeaning | server/src/protocol.cpp:161-171 | The counter is the length of the trailing run of unparsable frames and below 3; the connection ends if and only if three in a row failed somewhere; else every parsable frame is delivered in order |
| ServerStream.DigestAppend | server/src/protocol.cpp:126-172 | Parsing what is there and then the rest with more bytes equals parsing all at once, or both fail having cut the same frames |
| ServerStream.RunIsDigest | server/src/protocol.cpp:89-180 | Any sequence of calls equals one pass over all bytes received, as long as no drain reaches 32 MiB and none ends with FIN or an error |
| ServerStream.ChunkIndependence | server/src/protocol.cpp:89-180 | Two ways to split one stream into reads and calls fail both or neither, cut the same frames, and if they do not fail deliver the same messages and leave the same buffer and counter |
| ServerStream.StreamMeaning | server/src/protocol.cpp:89-180 | A run fails if and only if the stream has a refused length or three failures in a row; otherwise messages, rest and counter are those of the stream |
| ServerStream.SmallDrainsAreCalm | server/src/protocol.cpp:99-121 | Drains of less than 16 MiB - 3 bytes never meet the buffer limit |
| ServerStream.FillIsJoin | server/src/protocol.cpp:99-110 | Checking the size before each read stops short exactly when all the chunks together reach 32 MiB |
| ServerStream.KeptIsShort | server/src/protocol.cpp:130-179 | After a call that does not fail the buffer holds at most 16 MiB + 3 bytes and no complete frame, and the counter is below 3 |
| ServerStream.CloseEndsSession | server/src/protocol.cpp:111-117 | After FIN every complete frame is still parsed, and the next call at the latest returns nullopt |
| ServerStream.NulloptExactly | server/src/protocol.cpp:89-180 | A call returns nullopt if and only if 32 MiB were reached, recv failed, a length or a third failure ended it, or FIN came with nothing parsed |
| ChatClient.ProcessStep | client/src/chat_client.cpp:255-304 | One turn of the client's loop leaves the outcome of the whole loop unchanged, in each of its three cases |
| ChatClient.ChatClient.OnReadyRead | client/src/chat_client.cpp:249-253 | The new bytes are appended and everything complete is dispatched |
| ChatClient.ChatClient.ProcessFrames | client/src/chat_client.cpp:255-304 | The loop dispatches the objects of the cut, skips bodies that are no JSON object, and clears and disconnects on a refused length |
| BothEnds.SkippedLeavesNoTrace | client/src/chat_client.cpp:288-301 | A frame that does not parse, or parses to no object, neither disconnects the client nor changes what is dispatched from the frames before and after it |
| BothEnds.ObjectsGrow | client/src/chat_client.cpp:288-302 | One more frame is dispatched, after all before it, if and only if it parses and its value is an object |
| ChatClient.ChatClient.SendJson | client/src/chat_client.cpp:190-210 | Not connected: false and nothing written; else the frame of the body, with its length cut to 32 bits, is handed over, true exactly when all of it was taken |
| BothEnds.ProcessAppend | client/src/chat_client.cpp:255-304 | The client may be fed in pieces |
| BothEnds.ClientMeaning | client/src/chat_client.cpp:249-304 | However the stream is cut into readyRead signals, the client ends as if it had come at once |
| BothEnds.SplittersAgree | server/src/protocol.cpp:130-171 | On one stream, however each end receives it, the server's frames are a prefix of the client's; equal, with equal rests, if the server has not failed; the client rejects only if the server has rejected; and if only the server ended it was on three failures in a row |
| BothEnds.BodiesReadBack | server/src/protocol.cpp:51-72 | Dumped messages of legal size parse back to themselves, in order |
| BothEnds.ServerMessagesArrive | server/src/protocol.cpp:51-72 | The frames of any sequence of sent messages, delivered in any pieces, are dispatched by the client as exactly those messages in order, nothing left over |
| BothEnds.ClientMessagesArrive | client/src/chat_client.cpp:190-210 | The frames of the client's messages up to 16 MiB come out of recv_msgs as exactly those messages, counter 0 and buffer empty |
| BothEnds.ClientBodiesParse | client/src/chat_client.cpp:190-210 | Serialised client messages all parse, none counts as a failure |
| Sender.WriteAll | server/src/protocol.cpp:25-47 | The sending loop refines its value-level run for every script of partial writes, EAGAIN, timeouts and errors |
| Sender.SendMsg | server/src/protocol.cpp:51-72 | A message that cannot be dumped or is over 16 MiB leaves the wire alone and returns false; else header and body are written in turn |
| Sender.WriteRunMeaning | server/src/protocol.cpp:25-47 | What reaches the wire is a prefix of the data, all of it if and only if the result is true; a false result leaves the socket unusable, except for a zero-byte send |
| Sender.SendRunMeaning | server/src/protocol.cpp:67-71 | What send_msg puts on the wire is a prefix of one frame, the whole frame if and only if it returns true |
| Sender.SendRunExactly | server/src/protocol.cpp:25-72 | On a working socket exactly as many bytes of the frame go out as the kernel grants, header and body apart, before an error, an expired deadline or a zero-byte send, an EAGAIN in time costing nothing; true if and only if that is the whole frame; a failed socket takes nothing |
| Sender.TurnsAreSendMsg | server/src/protocol.cpp:67-71 | Sending in single send() turns, as the interleaved model does, is sending header and body with two loops |
| WireIntegrity.CallIsSendMsg | server/src/protocol.cpp:51-72 | A call of the interleaved model that nobody interrupts is send_msg, from whatever point it has reached: the same bytes, the same result, the mutex given back, and its frame logged if it returned true |
| WireIntegrity.WholeFrames | server/src/epoll_server.cpp:377-397 | For any interleaving of broadcast, send_to_fd and direct send_ok and send_error on one session, with arbitrary partial writes, retries and timeouts, in which no call writes inside another's frame: the wire holds whole frames and at most one truncated last frame, and each finished call's result says whether its frame is there |
| WireIntegrity.LockedRunsAreDisciplined | server/src/epoll_server.cpp:378-397 | If every call takes send_mutex_ (and no send takes zero bytes) no call ever writes inside another's frame |
| WireIntegrity.ReceiverSeesPrefix | server/src/protocol.cpp:25-72 | In such a run, whatever part of the wire has arrived splits into a prefix of the frames sent, never into anything else |
| WireIntegrity.MutexKeeps | server/src/epoll_server.cpp:378-380 | Of the calls that take send_mutex_ at most one is between its first and last byte, in every run |
| WireIntegrity.LoggedKeeps | server/src/protocol.cpp:25-72 | A call has returned true exactly when its whole frame was written, once |
| WireIntegrity.ArrivesExactly | server/src/protocol.cpp:67-71 | With a call inside its frame and nothing gone wrong so far, whatever anybody writes from there on: the receiver cuts that frame at its place if and only if the bytes that follow are the rest of it |
| WireIntegrity.NextExactly | server/src/protocol.cpp:130-159 | After whole frames the next body cut is a given one if and only if its frame stands there |
| WireIntegrity.InterposedTears | server/src/protocol.cpp:74-87 | A call that begins its frame while another is inside the body of a text message tears that message, whatever is written afterwards |
| WireIntegrity.BypassTearsFrames | server/src/protocol.cpp:74-87 | For every text message and every other message there is a run in which a handler sends the second without the mutex while a broadcast sends the first: both return true and the first is not what a receiver cuts |
| ThreadPool.EveryReachableState | server/src/thread_pool.cpp:15-58 | In every run tasks leave the queue in the order they came, accepted = queued + running + done, and while a task waits some worker is awake or a notify is still owed, and no worker has exited |
| ThreadPool.HandedIsAccepted | server/src/thread_pool.cpp:49-58 | In every run enqueue succeeds if and only if the pool has not been stopped, and the tasks accepted are those of the calls that succeeded, in order |
| ThreadPool.WorkIsBounded | server/src/thread_pool.cpp:15-34 | A pool that is not stopped and gets no new task comes to rest after a bounded number of steps, whatever the scheduling |
| ThreadPool.RestsWhenDone | server/src/thread_pool.cpp:20-33 | Where such a pool rests every accepted task has run exactly once, no notify is owed, and every worker waits for more |
| ThreadPool.ConservedKeeps | server/src/thread_pool.cpp:28-32 | Every step conserves tasks and their order |
| ThreadPool.WakeUpKeeps | server/src/thread_pool.cpp:20-26 | Every step, spurious wake-ups and a notify with nobody asleep included, keeps the wake-up invariant |
| ThreadPool.EveryStepDescends | server/src/thread_pool.cpp:38-47 | Once stop_ is set every step lowers a measure, spurious wake-ups included |
| ThreadPool.DrainIsBounded | server/src/thread_pool.cpp:38-47 | So a stopping pool takes at most that many steps, whatever the scheduling |
| ThreadPool.DrainEndsEmpty | server/src/thread_pool.cpp:24-26 | Where no step is left every worker has exited, the queue is empty and every accepted task has run exactly once |
| ThreadPool.ThreadPool.Enqueue | server/src/thread_pool.cpp:49-58 | Throws exactly when stopped and then changes nothing; else one step of the pool |
| ThreadPool.ThreadPool.Look | server/src/thread_pool.cpp:17-30 | One locked region of a worker: sleep, exit, or take the oldest task |
| ThreadPool.ThreadPool.Destroy | server/src/thread_pool.cpp:38-47 | Ends, with every worker exited and every accepted task done |
| SessionLifetime.StepKeeps | server/src/epoll_server.cpp:210-408 | Each step of accept, dispatch, removal, tasks and senders keeps the invariant on descriptors, table, event loop, generations, captured generations and senders |
| SessionLifetime.DescriptorsAreOwned | server/include/client_session.h:34-39 | In every run sessions not yet destroyed have different descriptors, each open and connected to that session, the table maps a descriptor to its owner, and every write so far, direct replies of running handlers included, reached the session it was meant for |
| SessionLifetime.SendReachesItsTarget | server/src/epoll_server.cpp:383-398 | send_to_fd(x->fd) while holding a reference to x takes hold of x itself if and only if x is still in the table, and else does nothing; never of a later connection on the same descriptor |
| SessionLifetime.StaleTasksNeverRun | server/src/epoll_server.cpp:288-336 | In every run no handler was started for a removed session; live generations differ and are below the counter; a queued task of a removed session is dropped when it starts |
| SessionLifetime.QueuedForRemoved | server/src/epoll_server.cpp:323-328 | Removal lifts a session's generation above every value captured for it |
| SessionLifetime.SameDescriptor | server/src/epoll_server.cpp:386-391 | A session found under the descriptor of a live session is that session |
| SessionLifetime.StartsExactly | server/src/epoll_server.cpp:291-304 | In every run a queued task can start, and becomes the running handler of its session, everything else unchanged, as long as the removal of that session has not raised its generation; it is dropped if and only if it has |
| SessionLifetime.AcceptWorks | server/src/epoll_server.cpp:210-252 | In every run a free descriptor can be accepted: the table gains a session under it with a generation above that of every other in the table |
| SessionLifetime.ReadWorks | server/src/epoll_server.cpp:257-265 | In every run an event on a descriptor in the table is read for the session it stands for |
| SessionLifetime.DispatchWorks | server/src/epoll_server.cpp:278-305 | Each message read becomes a queued task of the session under that descriptor, with its generation of the moment and a reference of its own |
| SessionLifetime.ReadEnds | server/src/epoll_server.cpp:306-307 | When the messages are dispatched the event loop lets go of the session, which stays open and in the table |
| SessionLifetime.HandlerWorks | server/src/epoll_server.cpp:299-304 | A running handler can reply, and the reply reaches the connection of its session; at its end exactly its own reference goes |
| SessionLifetime.FindWorks | server/src/epoll_server.cpp:400-408 | Whatever session is in the table can be taken hold of |
| SessionLifetime.SenderWorks | server/src/epoll_server.cpp:383-398 | Who has taken hold of a session can write, which reaches that session, and lets go of exactly its own reference |
| SessionLifetime.RemovalWorks | server/src/epoll_server.cpp:309-352 | From every state in which a descriptor is being read, remove_client can run to its end: the session leaves the table, its generation is raised, its own connection is shut down, the two locals are gone, and the descriptor is closed if and only if nobody else holds the session |
| LoginSafety.TurnAllowed | server/src/message_router.cpp:237-441 | Every step of a handler is one of the transitions the protocol allows, with the facts it has just read |
| LoginSafety.ReservationsNeverLeak | server/src/message_router.cpp:157-410 | In every run, disconnects at any point, each reserved name is held by a handler that has inserted it and will erase it; with no handler running the set is empty and the mutex free |
| LoginSafety.SafeKeeps | server/src/message_router.cpp:276-441 | Each step keeps the invariant joining router, sessions and users table, except a disconnect callback's erasure of a reservation still held |
| LoginSafety.OneSessionPerName | server/src/message_router.cpp:295-410 | Over any number of sessions, workers, messages of one session at once and disconnects at any point: as long as no disconnect callback has erased a reservation still held, at most one session carries any username, critical sections exclude each other by name, and every username in use is registered |
| LoginSafety.ApplyNobodyElse | server/src/database.cpp:112-134 | Who is about to set a username is the only one to carry it: LOGIN by its scan, REGISTER because the row was new |
| LoginSafety.ApplyScanned | server/src/epoll_server.cpp:400-408 | The sessions a scan has passed stay without the name while it is reserved, although each is read under its own mutex only |
| LoginTheorems.UsersOnlyGrow | server/src/database.cpp:112-134 | In every run user rows are only added, never changed |
| LoginTheorems.CredentialsPersist | server/src/message_router.cpp:381-384 | After a REGISTER inserted its row, in every later state of every run, a LOGIN for the name is granted exactly when its salted digest agrees |
| LoginTheorems.RegisterRuns | server/src/message_router.cpp:276-330 | A REGISTER of an idle session that is left alone ends with its row inserted, its session carrying the name and the name online if and only if the lengths are 1 to 32 and 1 to 128 and the name is neither reserved nor registered; else it changes no row, no name and nothing online; either way it leaves no reservation |
| LoginTheorems.LoginRuns | server/src/message_router.cpp:332-411 | The same for LOGIN, which needs besides that no session in the table carries the name, that it has a row, and that the password verifies against it |
| OnlineIndex.TurnExactly | server/src/message_router.cpp:207-441 | From any state in which the index agrees with the names that show, whatever else is at work, a turn of a handler keeps it so if and only if it does not stray: set a username over a name only this session shows, put into the index a name that does not show (or bring another one to light), take off a name another session shows (or hide another one) |
| OnlineIndex.StepExactly | server/src/epoll_server.cpp:210-352 | The same for every step of a run: accepting, removing and dispatching never break the index |
| OnlineIndex.OnlineIndexAgrees | server/src/message_router.cpp:152-155 | In every run without a stray turn, whenever nothing is at work, online_users_ is exactly the usernames of the sessions in the table, and no reservation or pending login is left |
| OnlineApart.ApartIsSteady | server/src/epoll_server.cpp:278-304 | No turn strays as long as handlers and removals of one session do not overlap, nor a LOGIN with the removal of a session carrying its name |
| OnlineApart.SerialIndexAgrees | server/src/epoll_server.cpp:293-297 | In particular the index agrees after each handler and removal when each runs to completion before the next begins |
| LoginRace.StolenExactly | server/main.cpp:97-104 | In every run where no callback has yet erased a reservation still held: when a callback is about to erase a name whose password somebody knows, two sessions of one name can come of it, without a further such erasure, if and only if the name is reserved at that moment |
| LoginRace.TwoSessionsOneName | server/main.cpp:97-106 | For every registered name and password there is a run, with a disconnect during a LOGIN, that ends with two sessions in the table under that name |
| LoginRace.NameOfNobody | server/main.cpp:97-106 | For every registered name and password: a run with a disconnect during a LOGIN that ends with nobody connected, nothing under way, and the name in online_users_ |
| LoginRace.NameMissing | server/src/message_router.cpp:419-429 | For every registered name and password: a run in which a LOGIN overlaps the removal of the session carrying its name and which ends with that name connected but not in online_users_ |
| LoginRace.NameLeftBehind | server/src/message_router.cpp:207-215 | For every two registered names and their passwords: a run without any removal in which one session sends a LOGIN for each, ends as the second, and leaves the first in online_users_ |
| LoginRace.NameAfterLogout | server/src/message_router.cpp:207-215 | For every registered name and password: a run without any removal in which a LOGOUT comes between the two updates of a LOGIN of the same session and the name stays in online_users_ |
| Passwords.Find | server/src/message_router.cpp:98-99 | The first colon, or the length |
| Passwords.VerifyHashed | server/src/message_router.cpp:87-111 | A salted record verifies an attempt if and only if the salted digests agree; so the registered password always, colons in it included |
| Passwords.VerifyLegacy | server/src/message_router.cpp:99-104 | A record without a colon verifies as a plain digest |
| RateLimiter.EntryAfter | server/src/message_router.cpp:180-200 | The counter, window start and block end after one more failure are those of the longer history |
| RateLimiter.RateLimiter.IsRateLimited | server/src/message_router.cpp:163-178 | Answers what the recorded history says, and forgets a history that is past its block end |
| RateLimiter.RateLimiter.RecordFailedLogin | server/src/message_router.cpp:180-200 | The history of the address, and of no other, grows by this failure |
| RateLimiter.RateLimiter.ClearLoginAttempts | server/src/message_router.cpp:202-205 | The history of the address, and of no other, is emptied |
| RateLimiter.HistorySince | server/src/message_router.cpp:163-205 | After any sequence of record, check and clear calls the entry stands for the failures recorded since the last call that erased it |
| RateLimiter.LimitedExactly | server/src/message_router.cpp:163-200 | After any sequence of calls: limited if and only if since the last erasing call five failures of one window were recorded, the last at most 300 s ago; so every block ends |
| RateLimiter.LimitedIsDeserved | server/src/message_router.cpp:163-205 | After any sequence of calls under a monotone clock a true answer means at least five failures were recorded within one minute since the entry was created or erased, the last at most 300 s ago |
| RateLimiter.BlockedExactly | server/src/message_router.cpp:171-200 | For any sequence of calls under a monotone clock: the address gets blocked at some point if and only if five failures of one window were recorded with no check and no success between them |
| RateLimiter.RecordedWhileBlocked | server/src/message_router.cpp:185-199 | A failure recorded during a block prolongs it if it falls within a minute of the start of the window, and otherwise ends it at once |
| RateLimiter.OneAfterTheOtherIsNeverLimited | server/src/message_router.cpp:171-175 | However many failing LOGINs follow one another, none is refused |
| RateLimiter.OverlappingAreLimited | server/src/message_router.cpp:163-200 | Five failures within a minute, all recorded after all were checked, do block the address |
| Database.SelectIsSymmetric | server/src/database.cpp:192-199 | The two participants of a conversation select the same rows |
| Database.RoomIsShared | server/src/database.cpp:187-191 | Everybody selects the same room rows |
| Database.SelectGrows | server/src/database.cpp:185-198 | One more stored row is added to a query if and only if the room is asked for and the row is the room's, or the row went from one of the two names to the other; otherwise the query is unchanged |
| Database.AnswerIsNewest | server/src/database.cpp:187-199 | What the nested SELECT returns is min(limit, matches) rows in ascending time, none left out newer than one returned |
| Database.NewestIsAnswer | server/src/database.cpp:187-199 | And each such window, ties in any order, is something it may return |
| Database.WindowMeaning | server/src/database.cpp:185-198 | Such an answer has as many rows as match, up to the limit, all of them matching, in ascending time, and no row left out is newer than one in it |
| Database.WindowHas | server/src/database.cpp:185-198 | A matching row is in the answer unless that is full of rows no older |
| Database.ClampMeaning | server/src/database.cpp:178-179 | Limits from 1 to 200 are kept, lower ones become 1 and higher ones 200 |
| Database.Database.RegisterUser | server/src/database.cpp:112-134 | Adds a row if and only if the name is not empty and not taken; never changes one |
| Database.Database.GetStoredHash | server/src/database.cpp:136-154 | The stored hash, the empty string for an unknown user |
| Database.Database.StoreMessage | server/src/database.cpp:158-175 | Appends the row |
| Database.Database.GetHistory | server/src/database.cpp:177-217 | Returns a newest window of the conversation, limit clamped to 1..200 |
| ChatSpec.SaneKeeps | server/src/message_router.cpp:237-441 | Every event keeps one connection per name and every name registered; REGISTER, which never asks who is online, relies on the second |
| ChatSpec.EnterNames | server/src/message_router.cpp:207-232 | Logging in adds exactly that name, once |
| ChatSpec.LeaveNames | server/src/message_router.cpp:413-441 | Leaving removes exactly that name |
| ChatTheorems.StepFair | server/src/message_router.cpp:207-535 | What an event sends is for who gets it and is true: a user list is the set of names connected, a history is of the reader's own conversation, a private message goes to the two named in it, a notice never to its subject |
| ChatTheorems.EverythingHeard | server/src/epoll_server.cpp:363-398 | In every run every message a connection was ever sent was sent by one event, before which it had heard less, at which it carried a name entitled to it, and since which it has stayed connected; before login only errors |
| ChatTheorems.StoredIsDelivered | server/src/message_router.cpp:456-519 | The row stored for an accepted message is what is sent, to everybody authenticated or to the two concerned and to nobody else; each of them finds it in that conversation's history if and only if it is not from another user called like the room |
| ChatTheorems.EverythingSaidIsKept | server/src/database.cpp:158-175 | In every run the stored rows are exactly the accepted broadcasts and private messages, in order |
| ChatTheorems.RoomIsTheBroadcasts | server/src/message_router.cpp:456-468 | The room's rows are exactly the accepted broadcasts in order if and only if no private message to somebody called like the room was accepted |
| ChatTheorems.RoomIsTheBroadcastsUnlessNamed | server/src/message_router.cpp:443-535 | So they are as long as no user is registered under that name |
| ChatTheorems.APrivateMessageInTheRoom | server/src/message_router.cpp:495-507 | A run in which they are not |
| ChatTheorems.RoomSelects | server/src/database.cpp:187-191 | A query of the room selects those rows, whoever asks |
| ChatTheorems.SendersAreRegistered | server/src/message_router.cpp:456-507 | In every run every stored message is from a registered user |
| ChatTheorems.RunUsers | server/src/database.cpp:112-134 | In every run no user is forgotten or changed and no reservation is left behind |
| ChatTheorems.RegisteredMayLogin | server/src/message_router.cpp:332-410 | After a granted REGISTER, in every later state, the verdict on a LOGIN for that name: limited, already in use, granted exactly on agreeing digests, wrong password otherwise |
| ChatTheorems.NobodyIsLimited | server/src/message_router.cpp:350-354 | In every run of one event at a time no LOGIN is answered RATE_LIMITED |
| ChatBehaviour.LoginDoes | server/src/message_router.cpp:332-411 | LOGIN: each refusal in the order of the checks, with its one error to the sender, nobody else hearing anything, and what becomes of the failures recorded for the address; on success the connection carries the name and hears LOGIN_OK, the newest 20 of the room and who is online, everybody else authenticated the list and a notice, and the failures are cleared |
| ChatBehaviour.RegisterDoes | server/src/message_router.cpp:276-330 | REGISTER: each refusal with its one error; on success the row is salt, colon and salted digest, and the welcome is that of LOGIN |
| ChatBehaviour.StrangerDoes | server/src/message_router.cpp:237-254 | Any other request before login is answered NOT_AUTHENTICATED and does nothing, PONG not even that |
| ChatBehaviour.BroadcastDoes | server/src/message_router.cpp:443-472 | A BROADCAST of 1 to 4096 characters appends exactly its row and is heard once by every authenticated connection; any other changes nothing and gives its sender exactly INVALID_MSG |
| ChatBehaviour.PrivateDoes | server/src/message_router.cpp:474-520 | A PRIVATE with a target of 1 to 32 characters and a content of 1 to 4096, to a name somebody carries, appends exactly its row and is heard by that connection and its sender; any other gives its sender exactly INVALID_MSG or TARGET_OFFLINE |
| ChatBehaviour.HistoryDoes | server/src/message_router.cpp:522-535 | HISTORY_REQ for a name gives the asker exactly one answer labelled with that name, holding the newest 50 at most of the conversation with it; without a name the room |
| ChatBehaviour.LogoutDoes | server/src/message_router.cpp:413-441 | LOGOUT keeps the connection, takes its name, is not answered, and the other authenticated connections hear the list and a notice |
| ChatBehaviour.MemberDoes | server/src/message_router.cpp:256-272 | After login PONG does nothing and every other kind, LOGIN and REGISTER included, is answered INVALID_MSG |
| ChatBehaviour.ConnectDoes | server/src/epoll_server.cpp:228-250 | A connection begins without a name and with nothing sent, and changes nothing else |
| ChatBehaviour.GoneDoes | server/src/epoll_server.cpp:309-339 | A connection that closes is gone with its name; the others hear of it if and only if it had one |
| ChatBehaviour.LoginAfterRegister | server/src/message_router.cpp:332-411 | After a REGISTER that was not refused, in every later state: a LOGIN for the name makes the connection that name, with the welcome, if and only if its address is not limited, the name is free and the salted digests agree; otherwise it hears exactly the one error that fits, and nobody else anything |
| ChatBehaviour.HistoryIsTheirs | server/src/database.cpp:191-196 | In every run every private history a connection was ever sent was sent by one event, when it carried a name, and every item of it is a row stored by then between that name and the name it is labelled with |
| ChatBehaviour.PrivateIsRead | server/src/message_router.cpp:495-535 | In every run a private message that was not refused is in the answer to each later HISTORY_REQ of its target for its sender, unless that holds 50 rows no older; the sender must not be called like the room |
| ChatBehaviour.BroadcastIsRead | server/src/message_router.cpp:456-535 | The same for a broadcast and everybody's HISTORY_REQ for the room |
| EpollServer.EpollServer.HandleNewConnection | server/src/epoll_server.cpp:228-250 | The table gains a fresh session without a name |
| EpollServer.EpollServer.Unlink | server/src/epoll_server.cpp:315-329 | The table loses that descriptor and no other |
| EpollServer.EpollServer.FindSession | server/src/epoll_server.cpp:400-408 | Finds a session of the name, and nothing only if there is none, in any order of the table |
| EpollServer.EpollServer.Targets | server/src/epoll_server.cpp:369-376 | Exactly the authenticated sessions but the excluded name, each once |
| EpollServer.EpollServer.Broadcast | server/src/epoll_server.cpp:363-381 | Each of those is sent the message once, nobody else anything |
| EpollServer.EpollServer.SendToFd | server/src/epoll_server.cpp:383-398 | False and nothing sent exactly when the descriptor is not in the table; else that session alone |
| MessageRouter.MessageRouter.IsUserOnline | server/src/message_router.cpp:152-155 | Between handlers the index answers what a search of the sessions would |
| MessageRouter.MessageRouter.FinishLogin | server/src/message_router.cpp:207-232 | Name, index and the five sends amount to one change: the newcomer gets LOGIN_OK, history and list, everybody else the list and a notice |
| MessageRouter.MessageRouter.HandleRegister | server/src/message_router.cpp:276-330 | Every refusal and the success, with the whole new state; index agrees and no pending login is left |
| MessageRouter.MessageRouter.HandleLogin | server/src/message_router.cpp:332-411 | The same for LOGIN, the limiter's history included |
| MessageRouter.MessageRouter.HandleLogout | server/src/message_router.cpp:413-441 | Everybody else learns of it; for a session in the table and for one just taken out |
| MessageRouter.MessageRouter.HandleBroadcast | server/src/message_router.cpp:443-472 | Stored for the room and sent once to everybody authenticated, or refused |
| MessageRouter.MessageRouter.HandlePrivate | server/src/message_router.cpp:474-520 | Stored, sent to the holder of the name and echoed to the sender, to nobody else; or refused |
| MessageRouter.MessageRouter.HandleHistoryReq | server/src/message_router.cpp:522-535 | The asker gets a newest window of at most 50 of the conversation asked for |
| MessageRouter.MessageRouter.Route | server/src/message_router.cpp:237-272 | Every request has exactly the effect of the specification and keeps the caches in step |
| MessageRouter.OnDisconnect | server/main.cpp:97-106 | Clears a pending reservation, then logs the session out |
| MessageRouter.RemoveClient | server/src/epoll_server.cpp:309-352 | The connection is gone, its name free, the others told |
| MessageRouter.ChatServer.OnMessage | server/main.cpp:92-96 | The server's state stays the end of a run of the specification, one event longer |
| MessageRouter.ChatServer.OnClose | server/main.cpp:97-106 | The same for a closed connection |
| MessageRouter.EnterSends | server/src/message_router.cpp:207-232 | Why the sends of finish_login, each over the table as it then is, amount to that one change |
| MessageRouter.LeaveSends | server/src/message_router.cpp:413-441 | The same for handle_logout, which clears the name before it broadcasts |
| MessageRouter.WhisperSends | server/src/message_router.cpp:508-519 | The two sends of handle_private reach the holder of the name and the sender; who writes to himself gets two |

## Left out

- Sockets, epoll, timers, pipes, signals, logging and the command line: they are choices of a run, as said above.
- SQLite, OpenSSL, nlohmann::json and Qt themselves: maps and sequences, an arbitrary digest function, an arbitrary codec. Database steps succeed, hashing succeeds, names contain no NUL byte, and a request's fields have the types the handlers expect.
- Integer widths of `generation` (64 bits) and `consecutive_parse_failures` (32 bits): unbounded here; the second stays below 4. The 32-bit length field of a frame is modelled.
- LoginSafety.OneSessionPerName: only for runs in which no disconnect callback has erased a reservation still held; LoginRace.StolenExactly shows that each such erasure of a name whose password is known can lead to two sessions, not that it always does.
- OnlineIndex.OnlineIndexAgrees: only for runs without a stray turn; OnlineIndex.TurnExactly says that such a turn breaks the agreement at once, not that it is still broken when the run ends.
- LoginProtocol: a handler that throws is not modelled; a rate-limited LOGIN is a step that may always be taken, since the limiter has no part in safety.
- WireIntegrity.WholeFrames: only for runs in which no call writes inside another's frame, see WireIntegrity.ArrivesExactly for what happens to a frame otherwise; a socket that failed stays failed; a zero-byte `send` in mid-frame, the one case in which write_all gives up without the socket being unusable, is excluded too.
- SessionLifetime: the path on which `epoll_ctl` ADD fails closes a descriptor that the session closes again; that path and the teardown order of the server are not modelled.
- EpollServer, MessageRouter: `sent` is what was handed to send_msg for a connection, whether it reached the wire is the business of Sender and WireIntegrity; the Chinese texts of errors and notices and the time stamps of lists and notices are left out; one clock reading serves a whole handler except in the limiter; generations and shared ownership are in SessionLifetime.
- Protocol.RecvMsgs: a parser either yields a value or fails; `recv_msgs` catches only `parse_error`, so that another exception of the JSON library, such as the one for a number out of range, leaves `recv_msgs` and ends the server, and so does the diagnostic at server/src/epoll_server.cpp:282 for a message that is no object. Neither is modelled.
- EpollServer.EpollServer.SendToFd: true says that the session was found; the result of `send_msg` itself is in Sender and WireIntegrity.
- MessageRouter.ChatServer.OnMessage: handlers run one at a time here; their interleaving is in LoginProtocol for names, reservations and the index, not for what is sent.
- RateLimiter: the calls of one address in any order; which orders the handlers of a whole run produce is modelled only for handlers that follow one another (ChatTheorems.NobodyIsLimited).
- ChatClient: connecting, disconnecting by the user, heartbeats and the dispatch of a message to signals; whether `socket_->write` takes all of a frame is a parameter.
- The user interface (QML, themes, models, settings) and the session list of the client.
