# fty-common-messagebus: a Dafny model

This project models the two concurrent parts of fty-common-messagebus and proves what they keep over every
interleaving: the worker pool (`PoolWorker`), and the Malamute bus (`MessageBusMalamute`) with its synchronous
request/reply handshake, its subscription table and its wire codec. `dafny verify dfyconfig.toml` checks all of it.

## Layout

| file | content |
|---|---|
| Options.dfy, Counting.dfy | the optional value, counting |
| ByteStrings.dfy | string order of `std::map`, `c_str()` truncation, `std::to_string` |
| MessageCodec.dfy | messages, frames, `_toZmsg`, `_fromZmsg`, a declarative account of the format, round trips |
| PoolModel.dfy | the pool as a transition system: any number of workers, one mutex, one condition variable, clients, destructor |
| PoolInvariant.dfy | what every step keeps |
| PoolSafety.dfy | exactly-once, order, no lost wakeup, futures, over every reachable state |
| PoolProgress.dfy | before shutdown work completes in a bounded number of steps |
| PoolShutdown.dfy | from the destructor's critical section on: progress, end, joins |
| PoolSchedule.dfy | schedule independence and refinement of the synchronous pool |
| PoolWorker.dfy | `PoolWorker` as a class; each method takes exactly one step of the transition system |
| BusModel.dfy | the bus as a transition system: the thread in `request()`, the listener thread, all other calls |
| BusProtocol.dfy | correlation, spurious wakeups, accounting, against a broker that delivers anything |
| BusReplies.dfy | when a request can be answered, and when a reply is lost |
| BusRouting.dfy | from the arguments of a send to the listener called at the other end; refused requests |
| BusSteps.dfy | what each step of the handshake means for a caller |
| Subscriptions.dfy | the subscription table explained by the history of calls |
| Responder.dfy | `queryListener` of the example responder as a function |
| Rpc.dfy, RpcTheorems.dfy | a requester bus, a responder bus, the rest of the world and the broker: what a call returns |
| RpcDelivery.dfy | the same system: no reply is lost |
| RpcAsync.dfy | the same system: a request with a listener, end to end |
| MessageBusMalamute.dfy | `MessageBusMalamute` and `queryListener` as code |

## How the pool is modelled

A worker's program counter follows the main loop line by line: about to lock, evaluating the wait predicate, parked,
woken, at the head of the drain loop, running, re-locking, deciding, exited. `notify_one` wakes any one parked
worker if there is one; a parked worker may also wake spuriously at any time. A job is a finite sequence of atomic
steps on shared memory, so the bodies of jobs interleave with each other; `task` is the bound call whose value a
packaged task stores in its future. A work unit in the queue is named by its ticket, its position in the order of
submission. `scheduleWork` and the critical section of the destructor run under the mutex from beginning to end and
are one step each. Jobs may submit further jobs before termination. Jobs do not throw.

## How the bus is modelled

The listener is modelled as it is written, with the id test outside the lock: receive and decode, test the id, take
the lock and store and notify, clear the id and unlock, or look up the subscription and call. `request()` publishes
the id before it takes the lock. A request with a listener binds its reply queue in one step and is sent in a later
one. The steps of `request()`, the listener and any other API call interleave freely. A timeout is a step that may
happen whenever the requester waits, and also after it has been notified, until it has left the wait, since `wait_for`
goes by the clock. The single-bus results put no restriction on what is delivered; in the two-bus system the broker
keeps every envelope ever sent and may deliver it never, once or many times, in any order.

Assumptions, all visible in the definitions:

- One `request()` at a time per bus, not on the listener thread (`Begin` needs `Ready`).
- Map and string accesses shared between threads are atomic; lines 313-316 of `malamute.cc` act as one test, which
  is what they amount to when read at line 316 (or at 313 if the id is empty there).
- The frames delivered to a bus do not cut a metadata section off right after a key, where the code reads through a
  null frame (`Decodable`).
- In the two-bus system (`SysEnabled`): the responder makes no `request()` of its own, ids passed to `request()` are
  fresh, nobody else uses an id given to `request()`, the wait does not wake spuriously, no request starts while the
  listener is between testing and storing a reply to another id, and `queryListener` gets only messages on which it is
  defined.

Four of these are shown to be needed, each by runs from a fresh bus. A request that starts while the listener is
between lines 316 and 317 with another reply can return that reply, and this is the only way (`CorrelationExact`,
`ForeignReplyReturned`). One that starts between lines 316 and 320 can have its id wiped and wait in vain, and this is
the only way (`AnswerableExact`, `IdWiped`). The wait at line 241 has no predicate, so a spurious wakeup returns
whatever is stored (`SpuriousWakeupReturnsStale`); if it may happen, a request is safe exactly when the response stored
from before already carries its id (`SpuriousExact`), so never with a fresh id (`FreshIdNeverSafe`). A message that carries the id before the lock is taken at line 234
can be committed with nobody to wake, and this is the only way a reply is lost without a timeout (`ReplyNotLost`,
`EarlyReplyLost`); a fresh id rules it out (`NoLostReply`). As long as no request times out or fails its TO check, the
first two situations cannot arise (`PatientRunsSafe`). One more condition appears end to end: a request addressed to
the requester's own mailbox carries the awaited id and is returned as its own reply, unless the END key makes it lose
the id or the awaited id is wiped (`EndToEndExact`).

The interface documents `unsubscribe` as removing the given listener from the topic; the code ignores the listener
and removes whatever is bound to the name, and the model follows the code.

## Model

| member | source | states |
|---|---|---|
| ByteStrings.SortedKeysUnique | public_include/fty_common_messagebus_message.h:32 | a key set has only one strictly increasing listing, so iterating the metadata map is independent of insertion order |
| ByteStrings.LessMeaning | public_include/fty_common_messagebus_message.h:32 | keys are in dictionary order: one string comes before another if and only if, where they first part, it ends or has the smaller character |
| ByteStrings.ToStringMeaning | src/fty_common_messagebus_malamute.cc:232 | the TIMEOUT field is a decimal numeral, digits only and without leading zeros, that reads back as the timeout, sign included |
| ByteStrings.CStr | src/fty_common_messagebus_malamute.cc:159-160 | a string passed on with `c_str()` arrives cut exactly at its first NUL |
| MessageCodec.DecodeMeaning | src/fty_common_messagebus_malamute.cc:37-67 | decoding yields the one message the frames carry: first-wins pairs up to END in key position, the rest user data, all frames user data without START; END is never a decoded key |
| MessageCodec.DecodableExact | src/fty_common_messagebus_malamute.cc:45-56 | frames can be decoded if and only if they carry some message, that is, unless a section is cut off right after a key |
| MessageCodec.RoundTripExact | src/fty_common_messagebus_malamute.cc:37-83 | decode after encode, with any trailing frames appended to the user data, gives the message back if and only if END is not a metadata key, and what it gives otherwise |
| MessageCodec.RoundTrip | src/fty_common_messagebus_malamute.cc:37-83 | the same without trailing frames |
| MessageCodec.DecodeNormalises | src/fty_common_messagebus_malamute.cc:41-65 | decode, encode, decode equals decode on every decodable frame list |
| MessageCodec.EncodeInjective | src/fty_common_messagebus_malamute.cc:69-83 | on messages without the END key, equal frames mean equal messages |
| MessageCodec.EncodeExact | src/fty_common_messagebus_malamute.cc:69-83 | these are the frames of a message and no others: START, every key with its value once, in dictionary order of the keys, END, the user data |
| MessageCodec.InsertionOrderIrrelevant | src/fty_common_messagebus_malamute.cc:73-76 | metadata emplaced in different orders encodes to the same frames |
| MessageCodec.PopPairs | src/fty_common_messagebus_malamute.cc:46-56 | the popping loop leaves the metadata and the remaining frames that the parse of the section prescribes |
| MessageCodec.PopRest | src/fty_common_messagebus_malamute.cc:61-64 | every frame left becomes user data, in order |
| MessageCodec.FromZmsg | src/fty_common_messagebus_malamute.cc:37-67 | the whole decoder computes the specified message and empties the frame list |
| MessageCodec.AddPairs | src/fty_common_messagebus_malamute.cc:73-76 | appends each key and value in map order |
| MessageCodec.ToZmsg | src/fty_common_messagebus_malamute.cc:69-83 | the encoder produces, in a new frame list, START, the pairs in dictionary order of the keys, END and the user data |
| PoolInvariant.MutexStep | src/fty_common_messagebus_pool_worker.cc:36-51 | mutual exclusion: whoever is in a locked region holds the mutex, across every step |
| PoolInvariant.InvStep | src/fty_common_messagebus_pool_worker.cc:35-88 | every step of a worker, client or destructor keeps mutual exclusion, FIFO, exactly-once, futures, shutdown, wakeup and overtaking invariants |
| PoolInvariant.InvRun | src/fty_common_messagebus_pool_worker.cc:33-88 | they hold after every run |
| PoolSafety.ExactlyOnce | src/fty_common_messagebus_pool_worker.cc:39-47 | in every reachable state each accepted job is queued, running or completed, once in total, and nothing else is |
| PoolSafety.DrainedAtReturn | public_include/fty_common_messagebus_pool_worker.h:55-61 | when the destructor returns, completed equals accepted and nothing is queued or running |
| PoolSafety.ClosedAfterExit | src/fty_common_messagebus_pool_worker.cc:49-51 | once a worker has exited the queue stays empty and nothing is accepted or dequeued any more |
| PoolSafety.NoLostWakeup | src/fty_common_messagebus_pool_worker.cc:36-47 | before termination, if any worker sleeps, the workers awake and not running a job are at least as many as the queued jobs, so a queued job never coexists with all workers asleep or busy |
| PoolSafety.WorkAlwaysMoves | src/fty_common_messagebus_pool_worker.cc:36-47 | before termination, while jobs are queued or running, some worker can take a step without waiting for a wakeup |
| PoolProgress.LoadStep | src/fty_common_messagebus_pool_worker.cc:36-88 | every worker step before termination lowers the load, only submissions and spurious wakeups add to it, by at most the steps of the job and a constant |
| PoolProgress.WorkCompletes | src/fty_common_messagebus_pool_worker.cc:36-47 | in every run before termination the workers take a number of steps bounded linearly in workers, jobs submitted and spurious wakeups, and can take no more exactly when every job is complete, every future set and every worker asleep |
| PoolSafety.BoundedOvertaking | src/fty_common_messagebus_pool_worker.cc:39-47 | dequeuing follows submission, at most N dequeued jobs are incomplete, a completing job has overtaken at most N - 1 earlier ones |
| PoolSafety.SingleWorkerInOrder | src/fty_common_messagebus_pool_worker.cc:39-47 | with at most one worker jobs complete in order of submission |
| PoolSafety.FutureCorrect | public_include/fty_common_messagebus_pool_worker.h:74-82 | a future is set exactly when its job is complete, to the value of its own call; all are set when the destructor returns |
| PoolSafety.FutureSetOnce | public_include/fty_common_messagebus_pool_worker.h:74-82 | a stored value survives every later step and its job completes only once, so asking for the future late is harmless |
| PoolShutdown.ShutdownStepDecreases | src/fty_common_messagebus_pool_worker.cc:37-51 | after termination every worker or destructor step decreases a measure, nobody parks again, clients change nothing |
| PoolShutdown.ShutdownProgress | src/fty_common_messagebus_pool_worker.cc:60-71 | until the destructor returns some worker or the destructor can move |
| PoolShutdown.ShutdownTerminates | src/fty_common_messagebus_pool_worker.cc:60-71 | the number of such steps is bounded linearly in workers and queued jobs, and a run none of them can extend has returned with every job done |
| PoolShutdown.TerminateMeaning | src/fty_common_messagebus_pool_worker.cc:61-66 | the critical section sets the flag, wakes exactly the sleeping workers, starts joining and loses no job |
| PoolShutdown.DestructionCompletes | src/fty_common_messagebus_pool_worker.cc:60-71 | in any reachable state in which the destructor can take the lock: whatever follows its critical section, thread steps are bounded linearly, and they end exactly when the destructor has returned, with every job done and every worker exited |
| PoolShutdown.DestructorCanReturn | src/fty_common_messagebus_pool_worker.cc:60-71 | every reachable state has a continuation in which the destructor returns |
| PoolShutdown.LockReleased | src/fty_common_messagebus_pool_worker.cc:36-51 | whoever holds the lock can give it up within three steps of its own |
| PoolShutdown.JoinsInTurn | src/fty_common_messagebus_pool_worker.cc:68-70 | the destructor of a pool with workers has made as many joins as its position says, and returns only after one for each worker and the end of the loop |
| PoolSchedule.ScheduleIndependent | src/fty_common_messagebus_pool_worker.cc:35-52 | for any number of workers and any interleaving of the jobs' own steps, if steps of different jobs commute, the memory of a drained pool is that of the jobs in submission order |
| PoolSchedule.ZeroWorkersSynchronous | src/fty_common_messagebus_pool_worker.cc:80-83 | in every run of a pool without workers each job has been executed to its end, in order of submission, when it is accepted |
| PoolSchedule.RefinesSynchronousPool | test/pool_worker.cpp:33-51 | the N-worker pool completes the same jobs, stores the same values in the same futures and leaves the same memory as the zero-worker pool |
| PoolSchedule.CommutationExact | src/fty_common_messagebus_pool_worker.cc:39-47 | for any set of steps jobs may consist of, any two or more workers and any bound on job length, all drained runs agree with submission order if and only if the steps commute pairwise |
| PoolWorkerClass.PoolWorker.constructor | src/fty_common_messagebus_pool_worker.cc:55-57 | starts the given number of workers, all before their first lock |
| PoolWorkerClass.PoolWorker.Lock | src/fty_common_messagebus_pool_worker.cc:36 | taking the lock is the prescribed step, on entry, on wakeup and after a job |
| PoolWorkerClass.PoolWorker.EvaluateWait | src/fty_common_messagebus_pool_worker.cc:37 | goes on with the lock when terminated or jobs are queued, else sleeps without it |
| PoolWorkerClass.PoolWorker.WakeSpuriously | src/fty_common_messagebus_pool_worker.cc:37 | a sleeping worker may wake for no reason and then evaluates the predicate again |
| PoolWorkerClass.PoolWorker.DrainHead | src/fty_common_messagebus_pool_worker.cc:39-42 | takes the front job and unlocks, or leaves the drain loop |
| PoolWorkerClass.PoolWorker.RunJob | src/fty_common_messagebus_pool_worker.cc:44 | executes the next step of the job, or ends it and stores its future |
| PoolWorkerClass.PoolWorker.TestTermination | src/fty_common_messagebus_pool_worker.cc:49-51 | exits when terminated, else unlocks and loops |
| PoolWorkerClass.PoolWorker.ScheduleWork | src/fty_common_messagebus_pool_worker.cc:74-89 | throws and changes nothing after termination, else accepts the job at the end of the order: run on the spot without workers, queued with one wakeup otherwise |
| PoolWorkerClass.PoolWorker.Schedule | public_include/fty_common_messagebus_pool_worker.h:74-82 | accepts a job whose future is to hold `fn(args)`, throws and changes nothing after termination |
| PoolWorkerClass.PoolWorker.Offload | public_include/fty_common_messagebus_pool_worker.h:93-97 | accepts the job without a future |
| PoolWorkerClass.PoolWorker.BeginDestruction | src/fty_common_messagebus_pool_worker.cc:61-66 | with workers: the flag is set, joining starts at the first, every sleeper is woken and no other worker touched; without: returned at once; no job is lost |
| PoolWorkerClass.PoolWorker.JoinNext | src/fty_common_messagebus_pool_worker.cc:68-70 | joins the next exited worker, or returns after the last |
| BusProtocol.BusInvStep | src/fty_common_messagebus_malamute.cc:217-342 | who holds the mutex where, that an id is published while a reply is being committed, and that a pending request has an id, across every step |
| BusProtocol.ReplyAccounting | src/fty_common_messagebus_malamute.cc:306-342 | responses plus a pending id never exceed the requests that passed the id check, and the mailbox messages of the run, in order, are exactly those committed, given to a listener or skipped, then the one in hand |
| BusProtocol.CallsAccounted | src/fty_common_messagebus_malamute.cc:217-247 | every call of `request()` has exactly one outcome or is the pending one, and the stream messages of the run, in order, are exactly those given to a listener or skipped |
| BusProtocol.CorrelationSafe | src/fty_common_messagebus_malamute.cc:217-247 | over whole runs with timeouts, failed checks, late, duplicate and forged messages: if no request starts while the listener holds a foreign reply, every reply returned carries the caller's id |
| BusProtocol.CorrelationExact | src/fty_common_messagebus_malamute.cc:312-324 | a request gets its own reply in every continuation if and only if, when it starts, the listener is not between testing and storing a reply to another id |
| BusProtocol.ForeignReplyReturned | src/fty_common_messagebus_malamute.cc:313-318 | on a fresh bus, for any two requests with different ids and any reply to the first, a run in which the first times out and the second returns the first one's reply |
| BusProtocol.SpuriousWakeupReturnsStale | src/fty_common_messagebus_malamute.cc:241-246 | a spurious wakeup makes a fresh bus return the empty message |
| BusProtocol.SpuriousExact | src/fty_common_messagebus_malamute.cc:241-246 | when the wait may wake spuriously, a request gets its own reply in every continuation if and only if, when it starts, the response stored from before carries its id and the listener holds no foreign reply |
| BusProtocol.FreshIdNeverSafe | src/fty_common_messagebus_malamute.cc:241-246 | with an id no message taken so far carries, every request of every run has a continuation with a spurious wakeup in which it returns something else |
| BusProtocol.PatientRunsSafe | src/fty_common_messagebus_malamute.cc:219-247 | without timeouts and failed TO checks no request ever starts in that window, no id is left published, and every reply is the caller's own |
| BusReplies.AnswerableExact | src/fty_common_messagebus_malamute.cc:312-324 | until its own reply arrives a waiting request keeps its id published in every continuation if and only if the listener was not committing an earlier response when it started |
| BusReplies.IdWiped | src/fty_common_messagebus_malamute.cc:318-320 | on a fresh bus, for any two requests and any reply to the first, a run after which the second waits with its id wiped |
| BusReplies.ExpiryIsFinal | src/fty_common_messagebus_malamute.cc:241-243 | once the deadline has passed the request throws, whatever is delivered or committed |
| BusReplies.WipedNeverReturns | src/fty_common_messagebus_malamute.cc:313-324 | a request whose id is wiped can only time out, whatever is delivered |
| BusReplies.ReplyNotLost | src/fty_common_messagebus_malamute.cc:234-246 | in every continuation without expiry, a reply that reaches the listener at any time after the start of the request, also between the send and the wait, is matched, wakes the requester, is not overwritten and is what the request returns, if and only if it is not committed before the lock is taken |
| BusReplies.CommitFindsWaiter | src/fty_common_messagebus_malamute.cc:234-241 | a commit during a request neither expired nor answered finds it in the wait set and wakes it with the response, unless the lock has not been taken yet |
| BusReplies.ReplyComesNearer | src/fty_common_messagebus_malamute.cc:234-246 | until the request has returned, the requester or the listener can take a step that brings the reply nearer, and no other step takes it further away |
| BusReplies.FirstReplyReturned | src/fty_common_messagebus_malamute.cc:224-246 | from the start of the request: it can be answered until a message with its id is delivered, and the first such message is then on its way to be returned, if and only if it is not committed before the lock is taken |
| BusReplies.EarlyReplyLost | src/fty_common_messagebus_malamute.cc:224-234 | on a fresh bus, a run in which a message with the id is committed before the lock is taken and the request waits in vain |
| BusReplies.NotifiedTimesOut | src/fty_common_messagebus_malamute.cc:241-243 | a requester already woken by its own reply can still time out, and the reply is lost |
| Subscriptions.TableRefinesHistory | src/fty_common_messagebus_malamute.cc:135-215 | after any run a name is bound to exactly the listener of the earliest registration since the last removal of that name |
| Subscriptions.DeliveryFollowsHistory | src/fty_common_messagebus_malamute.cc:325-361 | so mailbox and stream deliveries under a name call exactly that listener, and skip exactly when the history leaves none |
| Subscriptions.ReplyReachesListener | src/fty_common_messagebus_malamute.cc:183-191 | binding a listener-bearing request sends nothing, and changes nothing if the queue cannot be bound; otherwise the envelope is sent by one later step, and throughout, before and after it, the queue is bound to the given listener and no message on it is skipped or misdirected until it is unsubscribed |
| Subscriptions.SentOnce | src/fty_common_messagebus_malamute.cc:189-190 | a bound request stays unchanged until it is sent, and is sent at most once |
| Subscriptions.StaysBound | src/fty_common_messagebus_malamute.cc:325-329 | a bound name reaches its listener in every continuation that does not remove it |
| BusRouting.RefusedRequest | src/fty_common_messagebus_malamute.cc:219-228 | a request without an id is refused and publishes nothing; one with an id but without TO is refused with the id published, and the next message with that id is swallowed as a response |
| BusRouting.AwaitedCommitted | src/fty_common_messagebus_malamute.cc:316-322 | unless a request holds the lock it can be committed at once, which uses the id up |
| BusRouting.AwaitedTaken | src/fty_common_messagebus_malamute.cc:312-325 | a delivered message whose id is published is taken as a response in every continuation, request pending or not, and given to no listener |
| BusRouting.UnawaitedDispatched | src/fty_common_messagebus_malamute.cc:306-342 | a delivered message whose id is not awaited goes to the listener bound to its subject and to no other, or is skipped, and changes nothing else |
| BusRouting.RequestRouted | src/fty_common_messagebus_malamute.cc:158-181 | it is one envelope to that mailbox under the queue that decodes to the message |
| BusRouting.RequestReachesListener | src/fty_common_messagebus_malamute.cc:158-181 | an asynchronous request delivered to the bus named by TO, or by the queue without TO, its id not awaited, calls exactly the listener bound to the queue there |
| BusRouting.ReplyRouted | src/fty_common_messagebus_malamute.cc:193-206 | a reply is one envelope to TO under the reply queue that decodes to the message; without an id nothing is sent |
| BusRouting.ReplyIsDispatched | src/fty_common_messagebus_malamute.cc:193-206 | a reply sent on a queue and delivered to the bus named by its TO, its id not awaited, calls exactly the listener bound to that queue there |
| BusRouting.AnswerRouted | examples/fty_common_messagebus_example_rep.cc:52-64 | the responder answers a query with an id by one envelope that carries the reply to the mailbox FROM under the subject REPLY_TO, and no other query |
| BusRouting.AnswerReachesListener | src/fty_common_messagebus_malamute.cc:183-206 | in every run from the binding on without an unsubscribe, the responder's answer is one envelope to this bus, and its delivery calls exactly the given listener with the reply to this request, if and only if REPLY_TO has no NUL or its part before the NUL is bound to that listener too |
| RpcAsync.AsyncCallCompletes | src/fty_common_messagebus_malamute.cc:183-191 | a well-addressed listener-bearing request to a responder that serves its queue has a run in which exactly its own listener is called with the reply to it |
| Responder.ReplyNotAnswered | examples/fty_common_messagebus_example_rep.cc:52-64 | a reply is never taken for a query and never has the END key |
| Rpc.IdSurvives | src/fty_common_messagebus_malamute.cc:37-83 | a message either arrives unchanged or, with the END key, loses its correlation id |
| Rpc.RequestFields | src/fty_common_messagebus_malamute.cc:230-235 | the request sent is the caller's message with TIMEOUT and REPLY_TO present: the caller's own values if set, else the timeout as a numeral and the client name; nothing else is added |
| Rpc.SysInvStep | src/fty_common_messagebus_malamute.cc:193-342 | every step of either bus or anyone else keeps: a message with the id of a call is that call's request or the responder's reply to it |
| RpcTheorems.EndToEnd | src/fty_common_messagebus_malamute.cc:217-247 | whatever a request returns, for a call that does not come back to the requester itself, is the responder's reply to exactly that call, metadata and user data included |
| RpcTheorems.CanCallExact | src/fty_common_messagebus_malamute.cc:217-232 | the states called callable are exactly those in which the system lets a call with an id and TO start |
| RpcTheorems.EndToEndExact | src/fty_common_messagebus_malamute.cc:238-246 | in every state of the system in which `request()` can be called, and for any message, the call returns nothing but the responder's reply in every continuation if and only if it is not addressed to the requester's own mailbox, or has the END key, or starts while the listener is clearing an earlier id |
| RpcTheorems.CallDuringClearSilenced | src/fty_common_messagebus_malamute.cc:318-320 | a call that starts while the listener is clearing an earlier id never returns anything, in any run of the system |
| RpcTheorems.CallCompletes | src/fty_common_messagebus_malamute.cc:217-247 | from any state in which a call can be made, the listener is not clearing an earlier id and the responder serves its queue, a well-addressed call has a run in which it returns the reply |
| RpcTheorems.FreshSystemServes | examples/fty_common_messagebus_example_rep.cc:90-92 | binding the responder's queue on a fresh system leads to such a state |
| RpcTheorems.SelfCallReturnsRequest | src/fty_common_messagebus_malamute.cc:313-324 | from any state in which a call can be made and the listener is not clearing an earlier id, one to the own mailbox without the END key has a run in which it returns its own request |
| RpcTheorems.CallsRecorded | src/fty_common_messagebus_malamute.cc:219-224 | the recorded calls are exactly those made, with their own message and timeout, one per id |
| RpcDelivery.ReachableInv | src/fty_common_messagebus_malamute.cc:217-342 | every reachable state of the system satisfies the invariants from which calls can be made |
| RpcDelivery.NoLostReply | src/fty_common_messagebus_malamute.cc:217-247 | from the start of any call, unless the listener is then clearing an earlier id, in every run of the system without expiry: it can be answered until a message with its id is delivered, and that message is then what it returns; unless the call comes back to the requester itself it is the responder's reply |
| RpcDelivery.FreshNeverEarly | src/fty_common_messagebus_malamute.cc:224-239 | with a fresh id no reply is committed before the lock is taken, because nothing carries the id before the send |
| RpcDelivery.ReplyAdvances | src/fty_common_messagebus_malamute.cc:234-246 | the system always allows a step of the requester that brings a reply under way nearer |
| MalamuteClass.MessageBusMalamute.Subscribe | src/fty_common_messagebus_malamute.cc:135-142 | binds the topic unless it is bound, throws without change when the consumer is refused |
| MalamuteClass.MessageBusMalamute.Unsubscribe | src/fty_common_messagebus_malamute.cc:144-156 | removes the name, throws without change when it is not bound |
| MalamuteClass.MessageBusMalamute.Receive | src/fty_common_messagebus_malamute.cc:208-215 | binds the queue, throws without change when it is bound |
| MalamuteClass.MessageBusMalamute.SendRequest | src/fty_common_messagebus_malamute.cc:158-181 | hands the broker exactly one envelope with the encoded message, to TO if present and not empty, to the queue otherwise, under the queue |
| MalamuteClass.MessageBusMalamute.BindReply | src/fty_common_messagebus_malamute.cc:184-189 | binds the reply queue to the listener before anything is sent; throws and changes nothing without REPLY_TO or when the queue is bound |
| MalamuteClass.MessageBusMalamute.SendBound | src/fty_common_messagebus_malamute.cc:190 | sends the bound request, once, after any steps of other threads |
| MalamuteClass.MessageBusMalamute.SendReply | src/fty_common_messagebus_malamute.cc:193-206 | hands the broker exactly one envelope with the encoded message, to TO under the reply queue; throws and sends nothing without a correlation id, with or without TO |
| MalamuteClass.MessageBusMalamute.RequestBegin | src/fty_common_messagebus_malamute.cc:219-232 | without an id nothing is published; with an id but no TO the call ends with the id left published; otherwise the id is published and the request prepared for its own TO and queue, and can be answered unless the listener is committing a response or holds a message with the id |
| MalamuteClass.MessageBusMalamute.RequestLock | src/fty_common_messagebus_malamute.cc:234-235 | from here to the wait no response can be committed; the caller's fields stay and REPLY_TO is present |
| MalamuteClass.MessageBusMalamute.RequestSend | src/fty_common_messagebus_malamute.cc:236-239 | hands the broker one envelope to the request's TO under its queue whose frames decode to the request, with commits still held off |
| MalamuteClass.MessageBusMalamute.RequestPark | src/fty_common_messagebus_malamute.cc:241 | a reply tested in the meantime can be committed from here on and will wake the requester with itself as the response |
| MalamuteClass.MessageBusMalamute.RequestExpire | src/fty_common_messagebus_malamute.cc:241 | the request throws in every continuation, whatever is delivered or committed |
| MalamuteClass.MessageBusMalamute.RequestResume | src/fty_common_messagebus_malamute.cc:241-246 | throws after a timeout, else returns the stored response, which carries the request's id in a tracked state |
| MalamuteClass.MessageBusMalamute.HandleMailbox | src/fty_common_messagebus_malamute.cc:306-310 | decodes the frames delivered by the popping loops and keeps the protocol invariant |
| MalamuteClass.MessageBusMalamute.TestId | src/fty_common_messagebus_malamute.cc:312-316 | takes the reply to a request that can be answered; in a tracked state takes nothing else while one is pending, in an undisturbed one nothing while none is |
| MalamuteClass.MessageBusMalamute.StoreResponse | src/fty_common_messagebus_malamute.cc:317-319 | a request sent and neither expired nor answered is woken with the message just tested, and cannot leave the wait before the id is cleared |
| MalamuteClass.MessageBusMalamute.ClearId | src/fty_common_messagebus_malamute.cc:320-322 | a woken requester can leave; nothing is taken as a response until the next request starts; responses do not outnumber requests and all delivered messages are accounted for |
| MalamuteClass.MessageBusMalamute.DispatchMessage | src/fty_common_messagebus_malamute.cc:325-341 | calls exactly the bound listener, skips exactly without one, and all delivered messages are accounted for |
| MalamuteClass.MessageBusMalamute.HandleStream | src/fty_common_messagebus_malamute.cc:344-361 | calls the bound listener with a stream message |
| MalamuteClass.MessageBusMalamute.MainloopTurn | src/fty_common_messagebus_malamute.cc:285-296 | dispatches by command; an unknown pattern changes nothing |
| QueryListenerCode.QueryListener | examples/fty_common_messagebus_example_rep.cc:40-68 | sends exactly the specified reply, or nothing for the old format or an empty id, and leaves the bus state alone |

## Left out

- Malamute, czmq and zsock calls, connecting, the actor, the poller and logging: foreign input and output, replaced by an envelope log, a frame list and an unconstrained broker.
- Ownership of frame memory in the codec: line 54 of malamute.cc destroys the wrong frame pointer; only frame contents are modelled.
- Frames that cut a metadata section off after a key, and `sendReply` with a correlation id but no TO field: the code reads through a null pointer, so these are preconditions.
- Jobs that throw, jobs that submit work after termination, and jobs that re-enter a pool without workers (the mutex is not recursive).
- Real time: a timeout is a step that may happen at any point until the requester has left the wait.
- C++ memory-model races on `m_syncUuid` and `m_subscriptions`: accesses are atomic in the model.
- RpcTheorems.EndToEnd: holds for runs as restricted by `SysEnabled`; without the restriction on when requests start or on spurious wakeups the property is false, and exactly when is said by `CorrelationExact` and `SpuriousExact`; with fresh ids, as here, a spurious wakeup is never safe (`FreshIdNeverSafe`).
- RpcDelivery.NoLostReply: says nothing of calls that start while the listener is clearing an earlier id; they never return (`CallDuringClearSilenced`).
- PoolSchedule.CommutationExact: exact for what clients may submit, given the steps jobs are made of; for one fixed list of jobs with several steps, commutation of the steps (`ScheduleIndependent`) is sufficient but not necessary.
- The value of a packaged task is that of its bound call, a pure function of its arguments; its effects on memory are the steps of the job.
- Publishing on the sticky topic, `Dispatcher`, `Message` accessors and `isOnError`: single lookups.
- `generateUuid` and `getClientId` (randomness and clock), the command-line tool, the other examples, packaging and build files.
