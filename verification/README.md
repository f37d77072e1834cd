# PWDTT: verified models

PWDTT is a tunnel client: WireGuard traffic is carried over TURN relays of VK calls, hidden as RTP.
This project models the parts of it where a mistake is hard to see, in Dafny, and proves what they
are for. Each module models one component in the form it has in the program: objects whose methods
change them are classes, algorithms in place work on arrays, loops are loops proved against
functions, and concurrent code is a state machine whose events are the atomic steps of its threads
and whose theorems hold in every run.

| module | component |
|---|---|
| `Obfs`, `ObfsWire`, `NonceRuns` | RTP obfuscation: nonces, wrap and unwrap (RFC 3550, section 5.1; RFC 8439, section 2.8); the bytes of a packet; wraps by many threads |
| `RoundRobin`, `Dispatcher` | the packet scheduler; worker list, queues and buffer pool |
| `SingleFlight`, `SingleFlightResults`, `HashOperations` | one probe per hash at a time; cancelation of bulk and manual checks |
| `Captcha` | the gate for captcha challenges and the wait for a token |
| `CredentialCache`, `CredentialReuse`, `AuthErrors` | credential caches, the global request gate; what is stored and reused; error bursts that invalidate a cache |
| `WorkerRetry`, `WorkerGroups`, `WorkerGroupRuns`, `WorkerGroupProgress`, `WorkerIds` | a worker's retries and bans; groups, configuration request; worker ids |
| `VkHash`, `HashRegistry`, `HashReplacement`, `HashPreflight` | VK hashes: normal form and generation, registry and profiles, what replacements leave behind, check before a connection |
| `SessionJournal` | a connection's journal in memory and on disk |
| `UiLog` | the log list of the interface |
| `SemVer`, `VersionText` | version order and the update offer; the texts that are versions |
| `Store` | settings and profiles on disk |
| `Slider`, `SliderRanking`, `SliderOrder` | tile geometry and candidate order of the slider captcha |
| `Wrappers`, `Finite`, `Strings`, `Arithmetic` | shared types and facts |

The network, clocks, random bytes and the file system are parameters: they may answer anything that
their interface allows. The AEAD, the JSON codec and the URL parser are functions with the one
property that matters (opening inverts sealing; decoding inverts encoding).

Where the code does not do what it is meant to, a lemma says exactly when:

- `Obfs.UnwrapInvertsWrap`: the padding count overflows its byte when PaddingMax is 256 or more and
  the random byte is 255; neither mode in use gets there.
- `Obfs.VideoModeCanOverflow`: in video mode a payload above 1592 bytes can exceed the peer's read
  buffer, although payloads of up to 1600 bytes are relayed.
- `SingleFlight.ForeignDeadlineExactly`: only cancellations are retried, so a caller whose context is live
  can return another caller's expired deadline. It can exactly when some other caller of its key may have
  one; probes before a connection have deadlines, checks by hand do not.
- `HashReplacement.OrphanLeftExactly`: a failed replacement can leave its new entry in the registry, in no
  pool and used by nobody. The condition is on the registry before the call and on the outside;
  `OrphansLeft` has three inputs: a server that does not list the hash, a profile that cannot be saved, and
  a rejected hash that cannot be cleaned up.
- `HashReplacement.CoveredExactly`: generation avoids every hash that profiles list exactly when all listed
  hashes have entries (the predicate `Covered`); `ListedIsGeneratedExactly` says it of one hash.
- `HashReplacement.GivenBackExactly`: the preflight can hand out the very hash it confirmed invalid. When the
  first replacement saved the profile but not the registry, the old hash is listed by nobody, and VK's answer
  to the second replacement may be that hash. The predicate `Forgets` is the exact condition, `GivenBack` has
  an input, and `HashPreflight.Prepare` says that there is no other way.
- `SliderOrder.SecondScoresFirstExactly`: slider candidates without a second score can be tried before some that
  have one, exactly with 13 to 20 candidates; `ThirteenthBeforeTwelfth` has scores in which the thirteenth is tried
  before the twelfth although the twelfth is better in every one.
- `SessionJournal.LogFile.Snapshot`: the warning that the file is empty is never given unless someone
  else changed the file.

## Model

| member | source | states |
|---|---|---|
| Obfs.NonceRepeatsExactly | core/obfs.go:73-98 | Two packets of one configuration and state carry the same nonce if and only if their counters agree modulo 2^48. |
| Obfs.NoncesDistinctForExactly2To48 | core/obfs.go:56-98 | Any 2^48 consecutive wraps, from any counter and across the 64-bit wrap-around, use pairwise different nonces; the next one repeats the first. |
| Obfs.UnwrapInvertsWrap | core/obfs.go:82-177 | For every 32-byte key, non-empty payload, padding draw and large enough destination, unwrapping the wrapped packet returns the payload if and only if the padding count fits its byte (it does not exactly when PaddingMax is 256 or more and the random byte is 255). |
| Obfs.AcceptedIsSealed | core/obfs.go:133-177 | Whatever unwrap accepts is header + seal(payload) + padding: no other ciphertext gets through. |
| Obfs.WrappedLooksLikeRtp | core/obfs.go:179-190 | The RTP test accepts a wrapped packet if and only if its payload type is 96 or 111 modulo 128. |
| Obfs.FitsReadBuffer | core/session.go:257-261 | A packet fits the 1680-byte read buffer for every padding draw if and only if the payload is at most 1652 minus the worst padding. |
| Obfs.VideoModeCanOverflow | core/obfs.go:38-54 | Payloads up to 1600 bytes always fit in audio mode; in video mode some padding overflows the peer's buffer if and only if the payload exceeds 1592 bytes. |
| Obfs.ObfsState.Wrap | core/obfs.go:82-131 | The state counter advances by one modulo 2^64 only on success, and the bytes written in place are the packet of the counter read; both error cases. |
| Obfs.UnwrapInto | core/obfs.go:133-177 | Writing in place, dst starts with the plaintext and keeps the rest; every error of the decoder in its order, leaving dst alone unless authentication was reached. |
| Obfs.BuildNonce | core/obfs.go:73-80 | The twelve bytes written are ssrc, sequence number, two zero bytes and timestamp. |
| Obfs.HeaderFields | core/obfs.go:111-115 | The receiver reads back from the header the sequence number, timestamp and SSRC the sender put in. |
| ObfsWire.PacketBytes | core/obfs.go:100-131 | Every byte of a packet: version 2 with padding, payload type without marker, sequence number, timestamp and source in network order, the sealed payload, the random padding and its count; and the nonce in terms of these bytes. |
| ObfsWire.BigEndian | core/obfs.go:73-80 | Integers go out with the most significant byte first. |
| ObfsWire.NextPacket | core/obfs.go:93-98 | Sequence number and timestamp begin where the state was set up; from packet to packet the one goes up by 1, the other by 960, and by 961 when the low half of the counter wraps. |
| ObfsWire.UnwrapOutcome | core/obfs.go:133-177 | Each error of the decoder has its exact condition on the bytes, in the order of the checks; otherwise the result is what the cipher opens. |
| ObfsWire.RtpTest | core/obfs.go:179-190 | The RTP test accepts exactly packets longer than a header, of version 2 and of one of the two payload types. |
| NonceRuns.RepeatsExactlyIn | core/obfs.go:82-98 | However the wraps of a state interleave, two of its packets carry one nonce, as a peer reads it off the wire, if and only if a multiple of 2^48 wraps lies between them; no two packets have one place in the order of wraps. |
| NonceRuns.NoRepeatIn2To48Wraps | core/obfs.go:56-98 | A run of up to 2^48 wraps by any threads, from any counter, never repeats a nonce. |
| NonceRuns.WrapsComeOut | core/obfs.go:82-131 | In every run each wrap that took a counter is in progress or came out as one packet, and a packet that comes out is read back as its payload unless its padding count overflows. |
| RoundRobin.RouteFirstWithRoom | core/dispatcher.go:130-173 | A packet is dropped if and only if no queue of the snapshot has room; otherwise it goes to the first worker with room in cyclic order; the chunk count stays below 12. |
| RoundRobin.NextTurn | core/dispatcher.go:136-173 | Index and count after one packet: the worker at hand goes on to twelve, a worker that takes over has one, and after a drop it is the next worker's turn. |
| RoundRobin.TriesAreRoute | core/dispatcher.go:140-173 | The tests of one packet, made one queue at a time, end with the worker, index and count that the routing function gives for the queues as each was found. |
| RoundRobin.AfterClosedForm | core/dispatcher.go:136-149 | Index and count after j packets, in closed form. |
| RoundRobin.Schedule | core/dispatcher.go:136-149 | With n workers that have room, the j-th next packet goes to worker (r + (k + j) div 12) mod n. |
| RoundRobin.EveryWindowIsFair | core/dispatcher.go:136-149 | Any 12n consecutive packets give each of the n workers exactly twelve. |
| Dispatcher.Dispatcher.Register | core/dispatcher.go:81-90 | The new worker list is the old one with the slot at its end. |
| Dispatcher.Dispatcher.Unregister | core/dispatcher.go:92-104 | The new worker list is the old one without the slot, in the same order. |
| Dispatcher.UnregisterUndoesRegister | core/dispatcher.go:81-104 | Unregistering a slot restores the list as it was before its registration. |
| Dispatcher.Dispatcher.Dispatch | core/dispatcher.go:130-173 | One packet changes exactly the queue that the routing function names, by one packet at its end, or none; index and count follow the routing function. |
| Dispatcher.OwnersAfter | core/dispatcher.go:18-31 | Every step of every thread keeps the number of owners of each pooled buffer, but for allocation and the pool forgetting one. |
| Dispatcher.EveryRunConserves | core/dispatcher.go:106-200 | In every run, with the load of the worker list and each test of a queue as steps of their own, each packet read went to exactly one session's queue, in read order, or to none, and no buffer has two owners. |
| Dispatcher.LostExactlyWhenFull | core/dispatcher.go:128-173 | A packet is lost if and only if every queue of the worker list loaded for it was full at its own test, and its buffer then returns to the pool; otherwise it is sent to the first that was not full. |
| Dispatcher.AttemptIsRoute | core/dispatcher.go:128-173 | The test that ends an attempt leaves the scheduler and the packet as the routing function says for the loaded list and the queues as found. |
| Dispatcher.TryAllIsRoute | core/dispatcher.go:128-173 | Tests with no other thread between them do what the dispatcher's method does for one packet. |
| Dispatcher.RunWithinCapacity | core/dispatcher.go:34-37 | In every run no worker queue holds more than 128 packets and the return channel no more than 512. |
| SingleFlight.AtMostOneProbePerKey | backend/vk_hash_operations.go:36-76 | In every interleaving of any callers, at most one of them is between registering a call for a key and closing it. |
| SingleFlight.ReturnsAreAccountedFor | backend/vk_hash_operations.go:45-75 | A caller returns what its own call recorded, exactly what the leader it followed recorded, or its own context's error; a foreign cancellation only when its own context has ended. |
| SingleFlight.RetriesBounded | backend/vk_hash_operations.go:48-56 | A caller starts over at most once per other caller. |
| SingleFlight.DoneClosesOnce | backend/vk_hash_operations.go:62-67 | No step closes a call's channel twice or changes a closed call's outcome, and only its leader closes it. |
| SingleFlight.NoOneWaitsForever | backend/vk_hash_operations.go:45-67 | The call a caller waits for is done, or the leader of that very call has a step to take on it. |
| SingleFlight.LiveSharesOnlyDeadlines | backend/vk_hash_operations.go:48-56 | In every run a live caller shares no context error but an expired deadline, and that was recorded by another caller of its key that may have one. |
| SingleFlight.DeadlineRunHappens | backend/vk_hash_operations.go:48-56 | For any two callers of one key there is a run in which one returns the other's expired deadline with a live context. |
| SingleFlight.ForeignDeadlineExactly | backend/vk_hash_operations.go:48-56 | A live caller can return a foreign deadline if and only if another caller of its key may have one. |
| SingleFlightResults.ProbeAnswerIsReturned | backend/vk_hash_operations.go:69-75 | In every run, what a caller's own probe answered is recorded for its followers and is what it returns. |
| SingleFlightResults.ResultIsShared | backend/vk_hash_operations.go:45-55 | A follower can return its leader's result, any that is not a cancellation, without a probe of its own. |
| SingleFlightResults.CanceledIsTriedAgain | backend/vk_hash_operations.go:48-53 | A live follower of a canceled leader can start over, probe for itself and return its own answer. |
| SingleFlightResults.EndedFollowerGivesUp | backend/vk_hash_operations.go:54-56 | A waiting caller whose context ends can return that error at once, with no effect on anybody else. |
| SingleFlightResults.EndedLeaderReturnsError | backend/vk_hash_operations.go:57-72 | A leader whose context has ended before the probe returns that error without a probe and frees the key. |
| HashOperations.OperationState.BeginBulk | backend/vk_hash_operations.go:78-99 | A second bulk check is refused and changes nothing; otherwise a fresh context is registered, canceled from the start exactly when its parent has ended. |
| HashOperations.OperationState.FinishBulk | backend/vk_hash_operations.go:91-99 | A late or repeated completion cancels its own context and leaves a newer bulk check registered. |
| HashOperations.OperationState.BeginManual | backend/vk_hash_operations.go:111-120 | The new operation is registered next to the others, with a fresh context that is canceled exactly when its parent has ended. |
| HashOperations.OperationState.FinishManual | backend/vk_hash_operations.go:120-125 | Exactly this operation is unregistered, and its context is canceled. |
| HashOperations.OperationState.CancelInteractive | backend/vk_hash_operations.go:128-143 | Every registered operation is canceled. |
| Captcha.GateAndCurrent | core/captcha_flow.go:54-130 | In every run the gate is held exactly while one connection is between begin and finish, and current is that connection's request while it is open and nil otherwise. |
| Captcha.ReturnedTokenIsFirstForOwnRequest | core/captcha_flow.go:155-191 | A returned token is the first one accepted for the request the connection opened itself, and is not blank; without one the context has ended. |
| Captcha.DeadRequestStaysDead | core/captcha_flow.go:107-130 | A request that ended without a token accepts nothing later, in any continuation. |
| Captcha.EveryPathFreesTheGate | core/captcha_flow.go:155-191 | From any reachable state a holder with an answer or an ended context can run on alone until the gate is free. |
| Captcha.BlankMeaning | core/captcha_flow.go:107-113 | A token is blank if and only if all its characters are white space, as the library trims it. |
| Captcha.SubmittedTokenIsReturned | core/captcha_flow.go:107-187 | In every reachable state, a token submitted for an open, live and unanswered challenge can be received, checked and returned by its connection, which frees the gate. |
| Captcha.FreeGateOpensChallenge | core/captcha_flow.go:54-76 | A connection with a live context that finds the gate free opens a fresh challenge of its own. |
| Captcha.ChallengeCanBeSolved | core/captcha_flow.go:54-187 | From every reachable state with a free gate, an arriving connection can open its challenge and return the token submitted for it. |
| Captcha.EndedChallengeIsReturned | core/captcha_flow.go:122-130 | In every reachable state, an open and unanswered challenge that is canceled, times out or loses its caller can be returned as that error, which frees the gate. |
| Captcha.EndedCallerLeaves | core/captcha_flow.go:54-66 | A caller whose context has ended returns that error without a challenge: on arrival, from the queue, or with the gate, which it gives back. |
| Captcha.BridgeReachesCurrent | core/captcha_flow.go:88-130 | What each bridge call does to the current challenge, written out; one for another id changes nothing. |
| Captcha.CaptchaCoordinator.Begin | core/captcha_flow.go:54-76 | Both context checks: a caller whose context ended gives the gate back and changes nothing; otherwise a fresh request with the given id is current. |
| Captcha.CaptchaCoordinator.Finish | core/captcha_flow.go:78-86 | The request ends and, if it is the current one, current is cleared and the gate given back. |
| Captcha.CaptchaCoordinator.Submit | core/captcha_flow.go:107-120 | A token is accepted if and only if the current challenge has that id, is live and unanswered and the token is not blank; then it is the answer and the one token added, otherwise nothing changes. |
| Captcha.CaptchaCoordinator.Active | core/captcha_flow.go:88-97 | A browser is given the current challenge if and only if the id is its own, it is live and none was launched; then it counts as launched. |
| Captcha.CaptchaCoordinator.Cancel | core/captcha_flow.go:122-130 | Only the current id is canceled. |
| CredentialCache.FetchesAreSerialAndSpaced | core/vk_auth.go:356-393 | In every run upstream fetches never overlap, each starts at least 3 s after any earlier one ended, and one thread holds the gate. |
| CredentialCache.RepliesMatchDirectFetching | core/vk_auth.go:297-354 | Every triple returned was fetched for the requested link, by the stream itself or less than 540 s before it was read from the cache. |
| CredentialCache.NoNeedlessFetch | core/vk_auth.go:324-341 | A stream past the second cache check has no usable entry for its link: waiters on a refresh reuse it. |
| CredentialCache.NothingLeftHeld | core/vk_auth.go:306-353 | Whoever holds the gate or a cache lock is on its way to releasing it; a stream that returned holds neither. |
| CredentialCache.CanceledStreamsUnwind | core/vk_auth.go:306-393 | A canceled stream that holds a cache's lock, in whatever stage, can run on alone, once its own request has failed, until it has released the gate and the lock. |
| CredentialReuse.AnswerIsStored | core/vk_auth.go:333-352 | In every run, what a stream stores is what its own request was answered: its link, that number of addresses, the moment of storing. |
| CredentialReuse.StoredStays | core/vk_auth.go:346-352 | In every run, the cache of the stream's ten holds exactly the stored triple until it is invalidated or stored into again. |
| CredentialReuse.StoredIsReused | core/vk_auth.go:306-331 | In every run, a stream of the same ten that asks for the same link less than 540000 ms after a storing with an address gets exactly the stored triple, at its first look or at its second, without a request. |
| CredentialReuse.StreamServesItself | core/vk_auth.go:297-393 | A live stream that finds gate and lock free and nothing for its link can go all the way alone: one request, no later than three seconds and the jitter after the last, its answer returned and stored, gate and lock free again. |
| AuthErrors.BurstIsLongest | core/vk_auth.go:258-269 | A burst is the longest end of the history of errors and successful allocations that consists of errors, each within 10 s of the one before. |
| AuthErrors.ErrorCounter.HandleAuthError | core/vk_auth.go:229-283 | Every third error since the last successful allocation or the last gap over 10 s, and no other, invalidates the cached credentials. |
| AuthErrors.ErrorCounter.AllocateSucceeded | core/session.go:205 | A relay allocated with the cached credentials ends the burst and leaves the credentials. |
| WorkerRetry.AttemptsCountWrapTimeouts | core/worker_group.go:255-365 | On an uninterrupted run of sessions on one address with n WRAP timeouts, the counter is n mod 3, the mode has changed n times, and the last session bans the address exactly when it was dead or was a third timeout. |
| WorkerRetry.NextAttemptChangesMode | core/worker_group.go:318-345 | After a WRAP timeout the next attempt on the same address uses another mode. |
| WorkerRetry.ModeAlternates | core/worker_group.go:400-405 | Two changes give the mode back, and one never does. |
| WorkerRetry.AddressesGoRound | core/worker_group.go:384-392 | The first n workers get the n open addresses in order, later ones go round, and an id below 1 counts as 1. |
| WorkerRetry.OpenInOrder | core/worker_group.go:236-242 | The open addresses are exactly those whose own check found no ban still running, in their order. |
| WorkerRetry.OverExactlyAtFatal | core/worker_group.go:347-350 | In every course the loop is over if and only if its last session ended with a fatal error, and no earlier one did. |
| WorkerRetry.RunWorker | core/worker_group.go:203-372 | The loop computes exactly the course of the specification, for any events around it: address, attempts and mode, its sessions, the blacklist; it ends if and only if the last session was fatal, and only that one was. |
| WorkerRetry.Pass | core/worker_group.go:222-371 | One pass: bans by others, the filter that forgets expired bans, the choice of address, the session and its consequences; it ends the loop exactly after a session with a fatal error. |
| WorkerRetry.CourseIsGood | core/worker_group.go:203-372 | Over every course of events: fewer than three attempts at every loop head, the state is the one the sessions so far imply, and no session starts on an address before an earlier ban by this worker is over. |
| WorkerRetry.SessionExactlyWhenOpen | core/worker_group.go:236-280 | A pass starts a session if and only if some address is not banned at the moment of its own check, and then on the one of the worker's turn among the open ones, in the mode the worker's state implies. |
| WorkerRetry.Blacklist.IsBanned | core/blacklist.go:27-45 | The answer is whether the ban lasts at that moment; an expired entry is deleted, and no answer changes from then on. |
| WorkerRetry.Blacklist.Ban | core/blacklist.go:49-53 | The address is banned until now plus the TTL, and no other entry changes. |
| WorkerRetry.HandleResult | core/worker_group.go:290-365 | The error switch: new attempts, mode and bans for each of the session results. |
| WorkerRetry.FilterBanned | core/worker_group.go:236-242 | The addresses kept, in order, are those not banned when each is checked, on a clock that goes on between the checks; the expired bans among them are forgotten. |
| WorkerGroups.StepKeepsInv | core/worker_group.go:58-382 | Every step of every group and worker keeps the invariant: holders of a request, values sent, and signals closed agree, and nothing panics. |
| WorkerGroupRuns.ConfigSentAtMostOnce | core/session.go:385-409 | In every interleaving at most one session holds a request for the configuration, at most one value is sent on configCh, and nothing is sent or closed on a closed channel. |
| WorkerGroupRuns.NoRequestAfterDelivery | core/worker_group.go:262-288 | After a delivery has been reported, no worker asks again in any continuation. |
| WorkerGroupRuns.GroupsAdvanceInOrder | core/main.go:311-350 | A group requests credentials only after every earlier group obtained its own, and spawns only after every earlier group spawned. |
| WorkerGroupProgress.AllGroupsStart | core/main.go:300-355 | When VK gives every group credentials, all groups can come to run, one after another, with the first group's workers at the top of their loops. |
| WorkerGroupProgress.ConfigCanBeFetched | core/worker_group.go:263-288 | From every reachable state in which nobody has the request, a worker at the top of its loop can take it, deliver the one value and report it. |
| WorkerGroupProgress.FailureGivesRequestBack | core/worker_group.go:263-288 | A failed attempt leaves the state as it was, with the request free. |
| WorkerGroupProgress.ConfigIsFetchedInTheEnd | core/worker_group.go:203-380 | From the start, after any number of failed attempts by any workers, one can still fetch the configuration. |
| WorkerGroupProgress.ValueIsTaken | core/main.go:276-292 | Once the configuration is taken from the channel, no run puts another one there. |
| WorkerGroupProgress.NothingOnClosed | core/worker_group.go:162-380 | In every run a configuration is delivered only to an open, empty channel, and the signals and the channel are closed once. |
| WorkerGroupProgress.ClosedAtTheEnd | core/main.go:345-352 | When the channel is closed all groups have exited and no worker of the first is left. |
| WorkerGroupProgress.LeavesExactly | core/worker_group.go:203-380 | When a group and a worker leave: at the end of the connection, with its workers gone, or for a reason of its own. |
| WorkerGroupProgress.EndIsReached | core/main.go:306-352 | When the connection ends, in every reachable state, all workers can leave, all groups exit and the channel be closed. |
| WorkerIds.NormalizeWorkers | core/main.go:203-214 | The worker count is the largest whole number of groups within the request and 108, and at least one group. |
| WorkerIds.AssignIds | core/main.go:311-335 | The running counter gives the i-th worker of group g the id 9g + i + 1. |
| WorkerIds.IdsArePartitioned | core/main.go:331-335 | Every worker id from 1 to the count has exactly one place in one group. |
| SessionJournal.Bounded | backend/session_log.go:120-129 | A text of at most 4080 bytes stays as it is; a longer one is cut where a rune starts, before the first rune whose re-encoded size does not fit; valid UTF-8 stays valid and loses at most three bytes to the boundary. |
| SessionJournal.CutKeepsRunes | backend/session_log.go:122-128 | Cutting valid UTF-8 where the range loop visits leaves valid UTF-8 on both sides. |
| SessionJournal.BoundedLogLine | backend/session_log.go:112-131 | The line is the bracketed time and level, INFO if none, and the message with its line ends escaped, whole up to 4080 bytes and else cut at a rune with the mark; one line end, at the end; at most 4096 bytes. |
| SessionJournal.EscapedMeaning | backend/session_log.go:117-118 | A message without line ends is itself; each CR and LF becomes its two-character escape. |
| SessionJournal.RunesAreUtf8 | backend/session_log.go:120-128 | A text begins with a rune of w bytes if and only if these encode a code point, as section 3 of RFC 3629 has it. |
| SessionJournal.RangeLoopMeaning | backend/session_log.go:121-127 | A range loop goes a rune at a time, or one byte where none begins, and hands out U+FFFD for that. |
| SessionJournal.SuffixIsLongest | backend/session_log.go:140-145 | The ring's specification is a suffix that fits, and every longer suffix does not. |
| SessionJournal.SuffixStep | backend/session_log.go:140-145 | Forgetting lines as new ones come keeps the same ring as trimming the whole history. |
| SessionJournal.PrefixIsLongest | backend/session_log.go:157-171 | The file's specification is a prefix that fits, and every longer prefix does not. |
| SessionJournal.PrefixStep | backend/session_log.go:154-171 | Stopping at the first line that does not fit keeps exactly the longest prefix that does. |
| SessionJournal.LogFile.Remember | backend/session_log.go:140-145 | The eviction loop leaves the longest suffix within 128 KiB and its byte sum. |
| SessionJournal.LogFile.Write | backend/session_log.go:133-181 | Every line joins the ring, and the file while it is open, whole and has room; each error and each warning has its exact condition, a failed or short write and a failed sync included. |
| SessionJournal.LogFile.Close | backend/session_log.go:183-208 | The second call does nothing; a failed sync or close is an error, a fault and a warning of its own. |
| SessionJournal.LogFile.Snapshot | backend/session_log.go:215-247 | The file's text if it is whole, unfaulted, readable and not empty, and else the ring's, before the last redaction; an intact file is the whole history; its warnings. |
| SessionJournal.ExportKeepsNewest | backend/session_log.go:215-247 | An export is always a suffix of the history that ends with the newest line, and it is everything when 128 KiB suffice. |
| SessionJournal.Prune | backend/session_log.go:72-110 | Journals go oldest first until ten are left, never the active one; one that cannot be deleted is skipped and makes the call fail. |
| SemVer.ParsedIsNormal | backend/update.go:359-457 | A parsed version renders to the very text between the v and the build metadata: numbers have one spelling. |
| SemVer.NormalIsParsed | backend/update.go:359-457 | Every well-formed version is read back from its text. |
| SemVer.VersionsAreOrdered | backend/update.go:459-516 | The comparison is antisymmetric and transitive on all versions. |
| SemVer.CompareIsPrecedence | backend/update.go:459-516 | On well-formed versions the sign of the comparison is the precedence of section 11 of Semantic Versioning 2.0.0, and zero means identical. |
| SemVer.EqualUpToMetadata | backend/update.go:359-506 | Two parsed texts compare equal if and only if they differ in nothing but build metadata, white space and a v. |
| SemVer.CompareVersions | backend/update.go:459-506 | The loop over identifiers computes the comparison of the specification. |
| SemVer.IdentifierList | backend/update.go:427-445 | The nested loops accept exactly the lists of valid identifiers. |
| SemVer.ParseVersion | backend/update.go:359-417 | The parser with its loop returns what the specification says, for every text. |
| VersionText.ParsedExactly | backend/update.go:359-457 | A text is read as a version if and only if it is that version's text, written out by its characters, with an optional v before it, optional metadata of identifiers behind it, and white space around. |
| VersionText.BadMetadataIsRefused | backend/update.go:367-373 | A text whose part behind the first plus is no list of identifiers is no version. |
| SemVer.OffersOnlyNewer | backend/update.go:246-267 | A release is marked available if and only if it has a file for the platform, both versions parse and the release has the higher precedence. |
| SemVer.NoDowngradeChain | backend/update.go:246-267 | Offers never lead back: after two accepted offers neither the version in use nor the first one is offered again. |
| VersionText.OfferExactly | backend/update.go:246-266 | For any spellings of two versions, the release is offered if and only if it has a file and the higher precedence, under its text without v and white space. |
| VersionText.PlainTagIsOffered | backend/update.go:246-266 | The same for a tag that is v and the version and a running version without v. |
| VersionText.RefusedExactly | backend/update.go:246-253 | A tag is refused if and only if it is no version without its v; over a running version that is none, nothing is offered. |
| VkHash.NormalizeIsNormalizer | backend/vk_hash.go:50-88 | Results are in normal form and the normal form is a fixed point, whatever the URL parser does. |
| VkHash.LinkNamesItsHash | backend/vk_hash.go:56-88 | A VK link and the hash in its path have one normal form, whatever follows the hash in the path. |
| VkHash.NormalMeaning | backend/vk_hash.go:20-88 | A normal hash is at least sixteen ASCII digits, letters, hyphens and underscores. |
| VkHash.PlainTextExactly | backend/vk_hash.go:50-88 | A text that is no link names a hash if and only if it is that hash with white space around, and perhaps a ? or # and anything more. |
| VkHash.LinksAreTold | backend/vk_hash.go:56-57 | A text with the scheme http or https, in any case of letters, is a link. |
| VkHash.OnlyLinksAreTold | backend/vk_hash.go:56-57 | No other text is. |
| VkHash.GenerateHashes | backend/vk_hash.go:133-189 | The result is the new hashes of the replies used, at most count + 4 replies are used, and each error has its exact reason. |
| VkHash.GenerateGoesOn | backend/vk_hash.go:149-188 | A reply is used only while hashes are missing and no wait was canceled, and all but the last gave a good link. |
| VkHash.GenerateStops | backend/vk_hash.go:149-188 | The loop stops for enough hashes, a canceled wait, four wasted replies, a failed call or a bad link, each with its error. |
| VkHash.FreshMeaning | backend/vk_hash.go:145-188 | Generated hashes are distinct, normal and outside the existing set, and no other good reply is missing. |
| VkHash.GenerableExactly | backend/vk_hash.go:133-189 | Some course of VK's replies makes generation return a given hash if and only if it is normal and outside the existing set. |
| HashRegistry.HashStore.Ensure | backend/vk_hash_manager.go:157-185 | An unknown hash gets one new entry, a known one at most joins the pool; ids and hashes stay unique and normal. |
| HashRegistry.UsedExactly | backend/vk_hash_manager.go:187-209 | A profile uses an entry if and only if it lists the hash in some spelling, or the entry is in the pool and the profile draws on it. |
| HashRegistry.HashStore.Delete | backend/vk_hash_manager.go:327-347 | The entry leaves the pool and is removed if and only if no profile lists its hash; nothing else changes, and nothing at all when it is unknown or cannot be saved. |
| HashRegistry.HashStore.Cleanup | backend/vk_hash_manager.go:806-822 | Removes exactly an entry that is neither in the pool nor used. |
| HashRegistry.HashStore.Candidates | backend/vk_hash_manager.go:870-899 | Registers unknown own hashes and returns the chosen candidates; on an error the registry is unchanged; the pool never changes. |
| HashRegistry.SelectCandidates | backend/vk_hash_manager.go:848-868 | Own entries then pool entries as the mode allows, the first of each hash. |
| HashRegistry.UniqueMeaning | backend/vk_hash_manager.go:852-860 | The kept entries have distinct hashes, come from the input and cover every hash of it. |
| HashRegistry.ChosenMeaning | backend/vk_hash_manager.go:848-899 | Candidates are distinct in id and hash, and are exactly the registry entries that the mode asks for. |
| HashRegistry.NewHashIsUnused | backend/vk_hash_manager.go:670-713 | A hash that generation returned belongs to no pool entry and, if all listed hashes are registered, to no profile. |
| HashRegistry.HashStore.Introduce | backend/vk_hash_manager.go:666-720 | A failed start of a replacement changes nothing; a successful one adds or finds one unused entry with another hash. |
| HashRegistry.HashStore.Verify | backend/vk_hash_manager.go:722-736 | Only a valid verdict goes on; otherwise the unused new entry is cleaned up; used entries and the pool stay; registry and error are those of the specification. |
| HashRegistry.HashStore.ReplaceInProfile | backend/vk_hash_manager.go:738-753 | Exactly the spellings of the old hash in the server's list become the new hash, if the profile can be saved. |
| HashRegistry.NoOldHashLeft | backend/vk_hash_manager.go:738-753 | The list keeps its length, holds no spelling of the old hash, keeps every other hash, and no other profile changes. |
| HashRegistry.CommittedMeaning | backend/vk_hash_manager.go:761-775 | The pool keeps its size, no entry with the old hash is in it, the new one has its place, and the old entry is gone if and only if no profile lists it. |
| HashRegistry.HashStore.Finish | backend/vk_hash_manager.go:738-783 | The last part of a replacement: the profile, the pool and the old entry, with its errors. |
| HashRegistry.HashStore.Replace | backend/vk_hash_manager.go:658-804 | Uninterleaved replacement: ids and hashes stay unique, used entries stay, the pool keeps its size; success puts a hash that no shown entry had, tested valid, in every place of the old one; a failure that is not of the disk changes no profile; registry, profiles and result are exactly those of the specification, for any course outside. |
| HashReplacement.OrphanLeftExactly | backend/vk_hash_manager.go:696-804 | A replacement leaves its new entry in no pool and used by nobody if and only if the new hash has no entry and is listed by nobody, and either the verdict fails and the cleanup cannot be saved, or the server lists the old hash and its profile cannot be saved, or it does not list it and the registry cannot be saved or the old hash is not in the pool. |
| HashReplacement.OrphansLeft | backend/vk_hash_manager.go:722-783 | Three inputs that leave such an entry. |
| HashReplacement.StartFails | backend/vk_hash_manager.go:658-700 | The exact conditions of the errors for no server, no such entry and no new hash. |
| HashReplacement.ResultExactly | backend/vk_hash_manager.go:696-783 | With an entry to replace and a new hash, what decides the result, in order, across registration, verdict, profile and registry; success gives the new hash. |
| HashReplacement.ListedIsGeneratedExactly | backend/vk_hash_manager.go:670-700 | Generation can return a hash that a profile lists if and only if the hash has no entry. |
| HashReplacement.CoveredExactly | backend/vk_hash_manager.go:670-700 | A new hash is listed by no profile, whatever VK answers, if and only if every listed hash has an entry. |
| HashReplacement.ShowsExactly | backend/vk_hash_manager.go:658-804 | Every entry that shows before a failed replacement shows after it, but for the old one exactly when its server alone listed it, it is not in the pool, and the profile was saved but the registry was not. |
| HashReplacement.ReplaceKeepsIds | backend/vk_hash_manager.go:658-804 | A replacement brings no id but its own. |
| HashReplacement.GivenIsNew | backend/vk_hash_manager.go:658-804 | A hash that a replacement gives belongs to no shown entry and was tested valid. |
| HashReplacement.GivenExactly | backend/vk_hash_manager.go:658-804 | A replacement of an entry in use can give a hash if and only if no shown entry has it. |
| HashReplacement.GivenBackExactly | backend/vk_hash_manager.go:1059-1076 | After a failed replacement of one hash, the replacement of another can give the first one back if and only if the first attempt forgot it. |
| HashReplacement.GivenBack | backend/vk_hash_manager.go:1059-1076 | An input at which that happens. |
| HashPreflight.Prepare | backend/vk_hash_manager.go:916-1087 | With auto-check on and a profile named the outcome is fixed in every case: fresh valid hashes; all unconfirmed ones after a fresh error on a second look or an error answer; the probed valid one; the probe's own error if and only if the last probe broke; cancellation; all unconfirmed ones; else up to two replacements, in order, and then the new hash, the cancellation, the deadline, the last error or 'none left'. No hash of a candidate confirmed invalid is given, unless the first of two replacements forgot it. |
| HashPreflight.UsableListIsSafe | backend/vk_hash_manager.go:1043-1057 | A list of candidates that is given repeats no hash and holds none of a candidate confirmed invalid by fresh cache or by this run's probes. |
| HashPreflight.ChosenAreDistinct | backend/vk_hash_manager.go:848-868 | Candidates from the registry meet what the preflight needs. |
| HashPreflight.Classify | backend/vk_hash_manager.go:951-971 | Fresh valid, possible and stale candidates, each in order, with the lifetimes of 14400000 ms and of 300000 ms after an error written out. |
| HashPreflight.ProbeStale | backend/vk_hash_manager.go:998-1037 | Exactly the probes there are to make: in order, on past invalid, canceled and unknown answers, up to a valid or failed check, a broken probe, the deadline or the end of the list. |
| HashPreflight.UseOrReplace | backend/vk_hash_manager.go:1039-1087 | Unconfirmed candidates are used unless the connection was canceled; replacements of the registry are tried only when none is left, and their results decide the outcome, with the deadline and the last error told apart. |
| HashPreflight.TryReplace | backend/vk_hash_manager.go:1059-1076 | The first confirmed candidates are replaced, in order, until one replacement succeeds, two were tried, none is left or the deadline has passed; the registry is that after these replacements. |
| HashPreflight.Decide | backend/vk_hash_manager.go:916-1057 | Up to the end of the probes the outcome and the probes made are fixed: what the cache settles, which probes follow, and what each answer of the last one means; undecided exactly when none of these settles it. |
| HashPreflight.GivenIsNoCandidate | backend/vk_hash_manager.go:1059-1076 | A hash that replacements give is no candidate's, unless the first of two attempts forgot the hash it was to replace. |
| HashPreflight.WentSafely | backend/vk_hash_manager.go:1059-1087 | A hash given after replacements is the last attempt's alone, was tested valid and is no candidate's but the forgotten one; no hash means that every attempt failed. |
| HashPreflight.ChosenShow | backend/vk_hash_manager.go:232-261 | After the connection's hashes have been saved with the profile and registered, every candidate is in the pool or used. |
| UiLog.GroupsByMessage | frontend/src/lib/stores/logStore.ts:24-35 | Two messages fall into one group if and only if they are equal or both are STATS samples. |
| UiLog.RecencyMeaning | frontend/src/lib/stores/logStore.ts:56-62 | The full order is the distinct items by last occurrence. |
| UiLog.ShownAfter | frontend/src/lib/stores/logStore.ts:48-69 | Keeping only 500 rows changes the display exactly as the full order would. |
| UiLog.CountSinceLastAbsent | frontend/src/lib/stores/logStore.ts:57-67 | A row's count is the occurrences of its item since it was last absent. |
| UiLog.DisplayIsLruOfHistory | frontend/src/lib/stores/logStore.ts:37-78 | The rows are the distinct items by last occurrence, cut to the newest 500, each with its latest text, time and count. |
| UiLog.LogStore.Push | frontend/src/lib/stores/logStore.ts:44-70 | After a push the list displays the history with the new line. |
| UiLog.LogStore.Clear | frontend/src/lib/stores/logStore.ts:72-75 | The list displays the empty history; ids go on. |
| Store.StepConserves | backend/store.go:46-166 | No operation, whatever fails, loses or doubles a copy of bytes that do not validate. |
| Store.RunConserves | backend/store.go:46-166 | The same over every run of loads, saves and listings. |
| Store.DamagedFileSurvives | backend/store.go:215-236 | After every run the bytes of a damaged file are at their path or in exactly one backup. |
| Store.FileChangesOnlyBySaving | backend/store.go:46-166 | A file that validates or is missing changes by no operation, whatever fails, but a save of its slot that gets through, and then holds the settings, or the profile with device and policy of the old file where it names none. |
| Store.DamagedFileIsReplacedOnlyBySaving | backend/store.go:46-166 | A damaged file stays or is moved away, and only a save that gets through puts another in its place, with the old bytes in the backup. |
| Store.BackupsStay | backend/store.go:46-166 | No operation touches a backup. |
| Store.DeviceSurvives | backend/store.go:124-130 | A saved device id survives every run that names no other one for the profile. |
| Store.SavedIsLoaded | backend/store.go:95-134 | A completed save is read back as given, with the device it had or got and the policy it had. |
| Store.FileStore.ReadJson | backend/store.go:215-236 | Each answer has its exact condition; what does not validate is moved byte for byte to a backup or nothing changes; each problem is noted once, and notes are never dropped. |
| Store.FileStore.AtomicWrite | backend/store.go:252-262 | A completed write changes the file at the path to the content; one that fails leaves every file but its temporary one alone. |
| Store.FileStore.LoadSettingsFile | backend/store.go:46-63 | Defaults for a missing, unreadable or damaged file; without acceptance the mode is audio. |
| Store.FileStore.SaveSettingsFile | backend/store.go:66-77 | A save that cannot read or quarantine the old file changes nothing. |
| Store.FileStore.LoadProfileFile | backend/store.go:95-110 | The decoded profile, or an error after quarantine. |
| Store.FileStore.SaveProfileFile | backend/store.go:114-134 | A blocked save changes nothing; otherwise empty device and policy come from the old file. |
| Store.FileStore.ListProfileFiles | backend/store.go:147-166 | Exactly the profiles that were read and validate, as their files hold them after the listing. |
| Slider.ApplySwaps | core/captcha_v2_slider.go:353-374 | Swapping in place yields the composition of the swaps, a permutation of the g*g tiles, or exactly the error of the first bad input. |
| Slider.SwappedIsPermutation | core/captcha_v2_slider.go:361-373 | Swaps keep every tile exactly once. |
| Slider.NextCandidate | core/captcha_v2_slider.go:342-374 | The next candidate adds exactly one transposition. |
| Slider.ReversedUndoes | core/captcha_v2_slider.go:365-372 | The swaps in reverse order put every tile back. |
| Slider.TilesPartition | core/captcha_v2_slider.go:376-385 | For any bounds and grid every pixel is in exactly one tile and tiles hold no other pixel. |
| Slider.EdgeStep | core/captcha_v2_slider.go:376-385 | Every tile side is its share of the image side rounded down, or one pixel more. |
| Slider.TilesInRows | core/captcha_v2_slider.go:376-385 | Tiles are numbered row by row, each beginning where its left and its upper neighbour end. |
| Slider.SamplesStayExactly | core/captcha_v2_slider.go:526-538 | In a non-empty image all samples stay in their source tile if and only if both sides have at least g pixels. |
| Slider.SampleInProportion | core/captcha_v2_slider.go:526-538 | A sample lies as far into its tile, in proportion and rounded down, as the pixel lies into its own. |
| Slider.SameSizeSample | core/captcha_v2_slider.go:526-538 | Between tiles of one size the sample is the pixel at the same place. |
| SliderRanking.RankGuesses | core/captcha_v2_slider.go:216-339 | Whatever the order of results, the outcome is all candidates once each by consensus rank, luma score and number. |
| SliderRanking.RankingIsDetermined | core/captcha_v2_slider.go:319-339 | There is only one such order: a permutation of all candidates that depends on the scores alone. |
| SliderRanking.SortedIsUnique | core/captcha_v2_slider.go:216-222 | Ties broken by number leave one sorted order. |
| SliderRanking.PositionIsRank | core/captcha_v2_slider.go:223-226 | A position in a sorted order is the number of better candidates. |
| SliderRanking.FirstTwelve | core/captcha_v2_slider.go:228-235 | Stage two is the candidates with fewer than twelve better lumas. |
| SliderOrder.SecondScoreExactly | core/captcha_v2_slider.go:216-235 | A candidate gets a second score if and only if fewer than twelve beat it in luma, ties going to the smaller number. |
| SliderOrder.BetterIsTriedFirst | core/captcha_v2_slider.go:289-339 | Among candidates with a second score, one at least as good in every score is tried first; among those without, luma and number decide. |
| SliderOrder.SecondScoresFirstExactly | core/captcha_v2_slider.go:316-339 | Candidates with a second score always come before the others if and only if there are at most 12 or at least 21 candidates. |
| SliderOrder.ThirteenthBeforeTwelfth | core/captcha_v2_slider.go:316-339 | With 13 to 20 candidates, scores in which the twelfth, better than the thirteenth in every score, is tried after it. |
| SliderRanking.ResultsAreComplete | core/captcha_v2_slider.go:243-287 | However workers interleave, every job has exactly one result. |
| SliderRanking.MapCandidates | core/captcha_v2_slider.go:205-214 | One permutation per candidate, or an error only for an empty grid or a swap out of range. |

## Left out

- TURN, DTLS, WireGuard, HTTP, JSON and URL libraries, sockets and timers: only their outcomes matter, and these are parameters.
- ChaCha20-Poly1305 and HKDF: functions of which only the round trip and the length are used.
- Regular expressions for redaction: journal and log lines are taken after redaction; the second redaction of an exported file is not modelled.
- Error texts and the order of error checks inside URL normalization: a hash is normal or it is not.
- HandleAuthError: calls by several streams at once, and allocations between its steps; in `CredentialCache` an invalidation can come at any moment.
- IsBanned: its two lock sections are one step, so nothing is said about a ban that another worker renews while an expired one is being deleted.
- FilterBanned: other workers ban before the first check or after the last one, not between two checks.
- RunWorker: waits and the pause flag do not show; the addresses of a group stay those of its credentials; a session error is taken to name the address the session ran on, as RunSession fills it in.
- HashStore.Replace: other operations on the registry do not interleave with it; the program reloads the registry after every wait.
- HashStore.Candidates: fresh ids are given by the caller in place of random UUIDs; source and creation time of an entry are not kept.
- Prepare: candidates are named by their position, which is their id as all ids differ; diagnostics are not kept. The profile has been saved with the connection's hashes, as the program does first, so candidates show in the registry; the checks that probes record change no hash and are answers of the outside.
- Snapshot: what other programs do to the file is any content of the read; nothing is claimed about the export then, except where its text comes from.
- Append: a file after a disk fault may hold anything, as the program writes on after a partial line.
- ListProfileFiles: a directory that cannot be read is a listing that visits no file; the note about it is not modelled.
- DeleteProfile: the one operation that destroys a file, on request.
- AtomicWrite: crashes of the machine between rename and flush are the file system's concern.
- RankGuesses: image scores are any numbers, texture scores are real numbers; sorting is the library's, of which only the result is used.
- VK request chains, OAuth, browser control, captcha pages, proof of work and cursor movement: network plumbing and heuristics.
- OS routes, firewall, autostart, installers and interface components: outside effects and single-branch code.
