# A verified model of the ublk data plane

This project models the user-space half of ublk-go, a Go library that serves
Linux block devices from user space, and proves properties of the model with
Dafny 4.11. `dafny verify dfyconfig.toml` checks all of it.

## What is modelled

- **The io_uring wrapper** (`Ring`, over `Bits`): submission and completion
  queues kept in arrays with uint32 counters that wrap at 2^32, the split
  between the flush point and the kernel's head, and the cancel handshake.
  `SubmissionQueue` and `CompletionQueue` are the queues as values, with their
  properties over whole runs; `Drive` proves that the class, driven through any
  sequence of calls, does what they do.
- **The data plane** (`Protocol`): the worker thread in `worker.run`, the kernel
  and the closing thread as a step system. A run is any sequence of enabled
  labels; the theorems quantify over all runs.
- **Request execution** (`Requests`, `Disk`): descriptor to backend call to
  result, in int64/int32 arithmetic, and the byte-array disk it is judged by.
- **The worker as it runs** (`Worker`, over `Turns`): `init`, `run`, `handleIO` and
  the prepare functions as methods over the ring's arrays, the bytes of the
  mapped descriptors and the buffer pool, changed in place. A turn holds what
  the other threads do before the worker's next step and the answer to it. The
  worker ends up exactly where the step system does after the same turns, so the
  theorems hold of it. `Exits` says how `run` ends.
- **The control plane** (`Control`) and **the life of a device** (`Lifecycle`):
  every descriptor, mapping and control command from New to Close, over a
  concrete control ring on which any enter and any wait may fail.
- **Memory layout** (`Layout`), **settings** (`Settings`), and from settings to a
  running worker (`Startup`).

## The environment

The kernel consumes published entries only inside io_uring_enter, oldest first,
at most the requested number and possibly fewer. It posts one completion per
consumed entry with the same user data, in any order, at any time. It writes a
tag's descriptor and write payload before posting that tag's completion, and
copies read data out of the tag's buffer when it consumes the commit. It
dispatches only requests within the advertised limits. io_uring_enter may fail;
epoll_wait may be interrupted or fail.

The kernel reports how many entries an enter took whenever it took any, so an
enter that fails took none. `Control` uses this. `Ring.Submit` and the step
system do not: there an enter may also fail after taking entries. Control
commands are executed, and complete, in the order they were taken; when they
complete is open.

The backend is bound by the io.ReaderAt and io.WriterAt contracts only. It may
fail or come up short at any time, use the read buffer as scratch space, and
leave the range of a failed mutation in any state. Backend calls return.

A write to the eventfd succeeds.

## Main results

- Every tag is in exactly one place at all times (`Tokens.TokensAreConserved`).
  Hence the silent drop in `prepareCommitAndFetch` is dead code, no submission
  slot is reused early even after short enters, and the completion queue cannot
  overflow, which settles the concern in TODO.md.
- Every run is linearizable against a byte array, for every backend within its
  contract (`DataPlane.EveryRunIsLinearizable`); with a backend that never fails
  every request is answered in full and the disk is exactly that array
  (`DataPlane.FaultFreeRunsAreAnArray`).
- After `Cancel`, at most `depth` more requests are served, at most one more
  Submit starts, and the worker returns within a bounded number of its own steps
  (`Shutdown.BoundedShutdown`, `Shutdown.CloseReturns`).
- `run` returns exactly for the reasons the code gives, over every run: a failed
  epoll_wait, a failed enter, a failed completion, or Cancel (`Exits.RunEndsIff`);
  without any of these it goes on (`Exits.HarmlessTurnsGoOn`).
- When the worker has returned, every request it served has been replied to
  exactly if it did not stop in mid-batch and no enter of the run fell short
  (`LostResults.AllRepliedIff`).
- For every failure point of `New`, failed control enters and waits included,
  and any number of `Close` calls, everything acquired is released exactly once;
  the kernel has executed one DEL_DEV for each ADD_DEV that succeeded exactly
  under a condition on enters, waits and results (`Lifecycle.Life`,
  `Control.BalancedIff`). New succeeds exactly if nothing was refused and every
  command read a success (`Lifecycle.New`).
- From accepted settings to replies: `Startup.StartAndRun`.

## Where the code falls short

Each of these is proved with the exact condition.

- The worker ignores how many entries an enter took, and never catches up with
  what one left behind (`LostResults.NeverCatchesUp`). The last results are then
  never delivered (`LostResults.AllRepliedIff`, `LostResults.NoReplyAfterReturn`),
  at every depth (`LostResults.ShortEnterLosesAResult`). With every tag left
  behind the worker waits for nothing until Cancel (`LostResults.StrandedIff`,
  `LostResults.ShortEnterStrandsTheWorker`).
- `run` returning at a failed completion that is not the first of its batch
  leaves served results unflushed: `Shutdown.EverythingFlushedIff`. Some run does
  so exactly when the depth is at least two: `LostResults.AbortedBatchLosesResultsIff`.
- On a ring whose unconsumed and staged entries fill it, `nextSQE` hands out the
  slot of an unconsumed entry: `SubmissionQueue.AliasesIff`,
  `SubmissionQueue.ShortEnterCanLoseAnEntry`. The worker ring never gets there,
  nor does the control ring.
- A refusal rewinds the flush point and changes the next flush count exactly
  when the kernel lags behind it: `SubmissionQueue.ReloadChangesFlushCountIff`.
- After a failed enter or a failed wait on the control ring every later command
  reads the answer of an earlier one (`Control.PairedIff`), and the ADD_DEV
  fallback then records the wrong encoding (`Control.EncodingMatchesIff`). The
  clean-up of a failed New can create a device that nothing deletes
  (`Control.StopCanMakeADevice`), a failed wait can leave one of two devices
  behind (`Control.FailedWaitMakesTwoDevices`), and Close can report success for
  a DEL_DEV that the kernel never saw (`Control.DelCanBeLeftBehind`).
- A read that the backend serves in full with io.EOF, as io.ReaderAt allows at
  the end of its source, is answered with -EIO: `Requests.FullReadFailsIff`.
- Sizes above 2^63 bytes pass validation although offsets then wrap:
  `Settings.AcceptedDeviceIsValidIff`, `Settings.HugeSizesAreAccepted`.
- `Ring.Close` unmaps again when called twice: `Lifecycle.CloseTwice`. The library
  never calls it twice on one ring.
- STOP_DEV is sent even when ADD_DEV failed: `Control.WholeLife`, kept by
  `Lifecycle.Device.Retire`.

Where the code and its documentation differ, the model follows the code: the
architecture notes have Close trigger the char device's release before it
cancels the worker; `shutdown` cancels and waits first and closes the char
descriptor afterwards.

## Model

| member | source | states |
|---|---|---|
| Bits.RoundUp2IsLeast | ublk/uring/uring.go:417-422 | up to 2^31 the rounded ring size is the least power of two that holds v entries |
| Bits.RoundUp2HoldsIff | ublk/uring/uring.go:417-422 | the rounded size holds v entries exactly for v up to 2^31 |
| SubmissionQueue.AliasesIff | ublk/uring/uring.go:278-291 | an entry handed out shares its slot with an unconsumed one exactly when unconsumed plus staged entries fill the ring |
| SubmissionQueue.StageWithRoom | ublk/uring/uring.go:278-291 | with room, handing out an entry appends it and disturbs no unconsumed entry |
| SubmissionQueue.FullnessIsExact | ublk/uring/uring.go:278-291 | if every enter takes its whole batch, over any calls an entry is refused exactly when all slots are staged, and the reload of the kernel head changes nothing |
| SubmissionQueue.ReloadChangesFlushCountIff | ublk/uring/uring.go:281-287 | a refusal changes the next flush count exactly when the flush point is not already at the kernel head |
| SubmissionQueue.FifoOverRuns | ublk/uring/fuzz_test.go:38-49 | over any calls and any partial acceptance, while the ring is not overfull, entries handed out are what the kernel read followed by what it may still read, in order and each once |
| SubmissionQueue.ShortEnterCanLoseAnEntry | ublk/uring/uring.go:278-332 | without room a short enter makes a later entry overwrite the oldest unconsumed one |
| CompletionQueue.FifoOverRuns | ublk/uring/uring.go:401-415 | completions are seen in the order posted, none lost, none twice, while the queue is not crowded |
| CompletionQueue.DroppedIffCrowded | ublk/uring/uring.go:401-415 | a completion is dropped in a run exactly when one arrives at a full queue |
| Drive.Submissions | ublk/uring/fuzz_test.go:38-49 | the ring with its wrapping counters, driven through any calls and any acceptance by the kernel, hands out, publishes and passes on exactly what SubmissionQueue.Run says |
| Drive.Completions | ublk/uring/uring.go:401-415 | the ring with its wrapping counters, over any posts and reads, shows, keeps and drops exactly what CompletionQueue.Run says |
| Ring.Ring.NextSQE | ublk/uring/uring.go:278-291 | with wrapping counters: refuses exactly when the abstract queue is full, otherwise returns the slot of the next free-running position |
| Ring.Ring.GetSQE | ublk/uring/uring.go:293-313 | the queue afterwards is the abstract queue with a zeroed entry staged, slot reuse included |
| Ring.Ring.Enqueue | ublk/uring/uring.go:304-313 | getting and filling an entry stages exactly it and leaves completions alone |
| Ring.Ring.FlushSQ | ublk/uring/uring.go:315-332 | everything staged becomes published in order across the 2^32 wrap, and the count returned is the flush count |
| Ring.Ring.KernelConsume | ublk/uring/uring.go:323-327 | the entries read through the indirection array are exactly the oldest published ones, in order |
| Ring.Ring.Submit | ublk/uring/uring.go:334-349 | publishes all; the kernel takes a prefix no longer than the flush count, whether or not the call then fails; no call when nothing was flushed |
| Ring.Ring.KernelPost | ublk/uring/uring.go:401-410 | a posted completion is appended unless the queue is full; earlier ones keep their slots |
| Ring.Ring.PeekCQE | ublk/uring/uring.go:401-410 | the slot returned holds the oldest unread completion; nil exactly when there is none |
| Ring.Ring.SeenCQE | ublk/uring/uring.go:412-415 | releases exactly the oldest completion |
| Ring.Ring.WaitCQE | ublk/uring/uring.go:365-399 | after Cancel it returns ErrCancelled at once and takes nothing; a ready completion is returned at once; otherwise it sleeps through idle wake-ups and the first other one decides: an epoll error exactly if epoll_wait failed, the posted completion, or ErrCancelled |
| Disk.CleanReplayIsAnArray | ublk/porcupine_integration_test.go:246-272 | effects that all succeeded are a deterministic array: reads return what earlier writes left |
| Requests.BackendCalledIff | ublk/worker.go:136-205 | which requests reach the backend, by opcode, size and capability, and that the no-unmap flag is bit 15 |
| Requests.AdvertisedArithmetic | ublk/worker.go:140-141 | within the advertised limits offset and length do not wrap or leave the device, and results survive int32 |
| Requests.ResultFitsInt32Iff | ublk/worker.go:183 | a full result survives int32 exactly below 2^22 sectors |
| Requests.OffsetsFitIff | ublk/worker.go:140 | every non-empty request's offset survives int64 exactly for sizes up to 2^63 |
| Requests.ServingIsASpecStep | ublk/worker.go:136-205 | handleIO on an advertised request is one step of the byte-array disk, whatever the backend does within its contract |
| Requests.AnswerIs | ublk/worker.go:136-205 | the answer to every advertised request in numbers: the length of a read, write, supported discard or supported zeroing exactly if the backend reported that count and no error, otherwise -5; 0 for an empty one; -95 for any other opcode |
| Requests.FullReadFailsIff | ublk/worker.go:143-156 | a reader within the full io.ReaderAt contract can have a read it served in full answered with -EIO exactly when the read ends at the end of the device |
| Tokens.StepKeeps | ublk/worker.go:78-106 | every step of worker, kernel and closer keeps each tag in exactly one place |
| Tokens.FetchQueueIs | ublk/worker.go:48-50 | init stages one FETCH entry per tag, in order, dropping none |
| Tokens.TokensAreConserved | ublk/worker.go:78-106 | in every reachable state each tag below depth is in exactly one of staged entry, published entry, kernel, unread completion or hand |
| Tokens.CommitAlwaysFindsAFreshSlot | ublk/worker.go:226-230 | in every reachable state prepareCommitAndFetch gets an entry, in a slot that holds no unconsumed one |
| Tokens.CompletionQueueNeverOverflows | TODO.md:425-431 | unread completions never exceed the depth, so none is ever lost |
| Tokens.TokensConservedAtInitIff | ublk/worker.go:207-211 | init keeps every tag exactly when the ring has at least depth entries |
| Tokens.RoundedRingHoldsEveryTag | ublk/worker.go:36 | a ring of roundUp2(depth) entries has at least depth |
| Shutdown.BoundedShutdown | ublk/worker.go:78-106 | after the flag is stored, any continuation serves at most depth more requests, starts at most one more Submit and takes boundedly many worker steps |
| Shutdown.WorkerCanMoveIff | ublk/worker.go:78-106 | the worker has a step to take, with no index out of range, exactly when it has neither returned nor blocked in epoll_wait with nothing to report |
| Shutdown.CloseReturns | ublk/device.go:256-259 | from any reachable state in which shutdown waits, the worker can move until it has returned, within 5 * depth + 6 steps |
| Shutdown.DrainLoopIsBounded | ublk/worker.go:84-100 | the inner loop serves at most depth completions per batch, cancelled or not |
| Shutdown.NoCompletionAfterCancel | ublk/uring/uring.go:368-378 | a WaitCQE that starts after the flag is stored never hands out a completion, in any continuation |
| Shutdown.WakeUpIsNotMissed | ublk/uring/uring.go:244-255 | once the eventfd is raised a waiter in epoll_wait can always see it, and then run ends as cancelled |
| Shutdown.CancelledOnlyIfCancelled | ublk/uring/uring.go:365-366 | run ends with ErrCancelled only if Cancel was called |
| Exits.RunEndsIff | ublk/worker.go:66-105 | over every run: run has returned with an epoll error exactly if an epoll_wait failed, with a FETCH or submit error exactly if the first or a later enter failed, with an abort exactly if a failed completion was taken, otherwise only as cancelled; without any of these and without Cancel it has not returned |
| Exits.FailureComesFromAbort | ublk/worker.go:89-91 | a failed completion is taken only if the kernel aborted a tag |
| Exits.HarmlessTurnsGoOn | ublk/uring/uring.go:385-393 | over any turns without a failed enter, a failed epoll_wait, an aborted tag or Cancel, interrupted waits included, run does not return |
| Turns.PlayedIsARun | ublk/worker.go:78-106 | any turns played are a run of the step system made of the steps the turns hold, each turn being one worker step or one epoll_wait with nothing to report |
| Shutdown.NoUseAfterRelease | ublk/worker.go:58-60 | no worker step and no consumption is possible once ring and descriptors are released |
| Shutdown.EverythingFlushedIff | ublk/worker.go:89-104 | when run has returned, all results are flushed except exactly when it stopped at a failed completion that was not the first of its batch |
| LostResults.AbortedBatchLosesResultsIff | ublk/worker.go:89-91 | some run returns with a result staged and not flushed exactly when the depth is at least two |
| LostResults.NeverCatchesUp | ublk/worker.go:102 | in every run the entries lying unconsumed outside an enter are as many as all enters so far left behind |
| LostResults.AllRepliedIff | ublk/worker.go:78-106 | when run has returned, every request that took effect has its reply exactly if run did not stop in mid-batch and no enter fell short, or nothing was served |
| LostResults.NoReplyAfterReturn | ublk/worker.go:78-106 | in every continuation after run has returned, no further request is replied to and no entry consumed |
| LostResults.ShortEnterLosesAResult | ublk/worker.go:102 | at every depth some run flushes a result, is cancelled and has not delivered it |
| LostResults.StrandedIff | ublk/uring/uring.go:365-399 | a worker in epoll_wait takes no further completion in any continuation exactly when it is cancelled or enters have left all depth tags behind |
| LostResults.ShortEnterStrandsTheWorker | ublk/worker.go:66-70 | an enter that takes no FETCH entry leaves a run in that state without Cancel |
| Linearizability.PointsRespectRealTime | ublk/porcupine_integration_test.go:20-31 | linearization points order a request replied to before another is invoked ahead of it |
| DataPlane.EveryRunIsLinearizable | ublk/worker.go:78-106 | in every interleaving each request takes effect once between dispatch and commit and the replies are those of a byte-array disk |
| DataPlane.FaultFreeRunsAreAnArray | ublk/porcupine_integration_test.go:246-272 | in every run whose backend calls succeed and whose requests are supported, every request is answered with its full length, discards included; if none is a discard, the disk is the initial array with the writes applied in order and every read returns its bytes |
| DataPlane.CommitMeansNoReply | ublk/worker.go:226-244 | the request of a commit entry still in the submission queue took effect and has no reply |
| DataPlane.OtherBufferKept | ublk/worker.go:126-134 | filling one tag's buffer leaves every other tag's buffer alone |
| Worker.Worker.Prepare | ublk/worker.go:33-53 | init leaves the concrete ring in the step system's initial state |
| Worker.Worker.Entry | ublk/worker.go:236-243 | the command bytes copied into an entry read back as queue 0, tag, result and buffer address |
| Worker.Worker.PrepareFetch | ublk/worker.go:207-224 | stages the tag's FETCH entry on the concrete ring |
| Worker.Worker.PrepareCommitAndFetch | ublk/worker.go:226-244 | stages the tag's commit with result and buffer address, as the step system does |
| Worker.Worker.GetDesc | ublk/worker.go:246-249 | the descriptor at the tag's place in the mapped bytes |
| Worker.Worker.HandleIO | ublk/worker.go:136-205 | in place on the pool: opcode, offset, length and no-unmap flag of the mapped record make the one call the backend gets, and result, buffer and disk are those of the request function |
| Worker.Worker.Run | ublk/worker.go:61-106 | for any turns of the other threads the nested loops lead exactly where the step system leads, and stop only when run has returned or fewer than four turns are left; replies are linearizable, no completion is lost, and what is left unflushed is exactly as characterised |
| Startup.Start | ublk/ublk.go:88-133 | settings that do not validate are refused; accepted ones of at most 2^63 bytes give a worker in the initial state, on a ring of roundUp2(depth) entries, with buffers of the size the kernel reported or else the one asked for |
| Startup.StartAndRun | ublk/ublk.go:88-141 | from accepted settings of at most 2^63 bytes the worker plays any turns of the other threads until it has returned or fewer than four are left; the replies are those of a byte-array disk and no completion is lost |
| Layout.AlignOffsetIsLeast | ublk/worker.go:265-270 | the aligned slice is aligned, in bounds, and starts at the first aligned byte |
| Layout.AllocBuffers | ublk/worker.go:126-134 | tag buffers lie in the pool, are pairwise disjoint and cover it |
| Layout.BuffersPageAlignedIff | ublk/worker.go:126-134 | tag buffers are all page-aligned exactly when the buffer size is a multiple of the page or there is one tag |
| Layout.DescWindowsDisjointIff | ublk/worker.go:108-124 | descriptor windows start at multiples of 98304 bytes, hence on a page, and are disjoint across queues exactly for depths up to 4096 |
| Layout.DescLayout | ublk/worker.go:246-249 | every byte of a descriptor record: op_flags at 0, nr_sectors at 4, start_sector at 8, addr at 16, little-endian |
| Layout.DescRoundTrip | ublk/worker.go:246-249 | the descriptor bytes written for a tag are read back as that descriptor |
| Layout.DescsIndependent | ublk/worker.go:246-249 | writing one tag's descriptor leaves every other tag's as it was |
| Layout.PutKeepsMapped | ublk/worker.go:246-249 | a record the kernel writes for a tag changes that tag's descriptor in the mapping and no other |
| Layout.CmdLayout | ublk/worker.go:236-243 | every byte of the embedded command: q_id at 0, tag at 2, result at 4 in two's complement, addr at 8, little-endian |
| Layout.CmdRoundTrip | ublk/worker.go:236-243 | queue, tag, result and address survive the copy into the entry, negative results included |
| Settings.AcceptedIff | ublk/ublk.go:63-83 | validation accepts exactly the documented settings, the block size being a power of two |
| Settings.RefusalNamesAFailure | ublk/ublk.go:63-83 | a refusal names a check that the settings fail |
| Settings.AcceptedDeviceIsValidIff | ublk/ublk.go:115-125 | an accepted device meets every assumption of the data plane exactly when its size is at most 2^63 |
| Settings.HugeSizesAreAccepted | ublk/ublk.go:63-83 | a size past 2^63 is accepted and gives a legal read a negative offset |
| Settings.AdvertisedGeometry | ublk/device.go:119-147 | the advertised shift, sector count, maximum and granularity describe block size, size and buffer size exactly |
| Settings.WithinIsAdvertised | ublk/device.go:119-147 | every request within the parameters sent to the kernel is within the limits the data plane relies on |
| Settings.WideRequestsOfferedIff | ublk/device.go:134-147 | a discard, or a zeroing, is within the parameters exactly if the backend has that capability and it has at most 2^21 sectors |
| Settings.OfferedIsServed | ublk/device.go:134-147 | no non-empty request within the parameters is answered as unsupported |
| Settings.AcceptedRequestsStayInBounds | ublk/worker.go:136-205 | for an accepted device of at most 2^63 bytes no advertised request overflows, leaves the device or hits the oversize branch, and a success reports its length |
| Control.PairedIff | ublk/device.go:186-215 | over any commands, enters, completion times and waits: the i-th enter executes the command sent as many places earlier as enters before it took nothing; the i-th command reads the answer to the one sent as many places earlier as commands before it went unanswered, its own exactly when every earlier enter took its entry and no earlier wait failed |
| Control.CommandsExecuteInOrder | ublk/device.go:186-215 | the kernel executes the commands in the order sent, each once, and as many as enters took |
| Control.AllTakenAllPaired | ublk/device.go:186-215 | while enters take their entries and waits do not fail, each command is executed as sent and reads its own answer, and none is left behind |
| Control.BalancedIff | ublk/ublk.go:104-152 | over a whole life one DEL_DEV is executed for each ADD_DEV that succeeded exactly when, addDev having succeeded, every enter took its entry, and no ADD_DEV that the kernel executed but whose answer addDev did not read succeeded |
| Control.StopCanMakeADevice | ublk/device.go:272 | both ADD_DEV enters fail and the STOP_DEV of the clean-up executes the first ADD_DEV |
| Control.DelCanBeLeftBehind | ublk/device.go:272-276 | the SET_PARAMS enter fails, shutdown reads success, and DEL_DEV is still in the ring |
| Control.FailedWaitMakesTwoDevices | ublk/device.go:204-207 | the wait of the first ADD_DEV fails after it was executed; every enter takes its entry, every later command reads success, two devices are made and one is deleted |
| Control.EncodingMatchesIff | ublk/device.go:80-92 | over a whole life, the opcode of every command after addDev has the encoding of the ADD_DEV whose success addDev read exactly when its first attempt read an answer |
| Control.EncodedLike | ublk/device.go:217-222 | over a whole life, every command after addDev is ioctl-encoded exactly if addDev sent one attempt |
| Control.ControlPlane.CtrlCommand | ublk/device.go:186-215 | on the concrete ring, unread completions included: the command joins those sent, and queues, executed commands and what it returns are what the run of commands says; "SQ full" does not occur |
| Control.ControlPlane.AddDev | ublk/device.go:58-98 | one or two attempts as the errors returned decide, with the id and encoding recorded for the one believed to have succeeded |
| Lifecycle.Setup | ublk/uring/uring.go:136-193 | a ring with all six handles exactly if nothing was refused, otherwise nothing left acquired |
| Lifecycle.RingHandles.Close | ublk/uring/uring.go:257-276 | releases every handle the ring holds, once, and forgets the descriptors |
| Lifecycle.CloseTwice | ublk/uring/uring.go:257-276 | a second Close releases the mappings again exactly when there are any |
| Lifecycle.Worker.Init | ublk/worker.go:33-53 | ring and descriptor mapping exactly if nothing was refused, otherwise nothing left acquired |
| Lifecycle.Worker.Cleanup | ublk/worker.go:251-263 | releases what the worker owns, once |
| Lifecycle.Device.Configure | ublk/ublk.go:125-149 | SET_PARAMS and START_DEV in this order, on this device and in the recorded encoding, at most one command unanswered while New goes on and two when it gives up |
| Lifecycle.Device.Retire | ublk/device.go:272-276 | from at most two commands unanswered, STOP_DEV always and DEL_DEV after a successful addDev, in the recorded encoding, complete the commands of a life, never find the control ring full, and report what DEL_DEV read |
| Lifecycle.Device.Shutdown | ublk/device.go:252-288 | everything live is released once, whatever enters and waits do; if a command waits for ever, all but the control handles has been released by then |
| Lifecycle.Device.Close | ublk/device.go:243-250 | the first call reports what DEL_DEV read; later ones do nothing |
| Lifecycle.New | ublk/ublk.go:104-152 | a device that owns exactly what is live, exactly if nothing was refused and every command read a success; otherwise everything released once and the commands of a whole life sent, or a command that waits for ever |
| Lifecycle.Life | ublk/ublk.go:88-152 | New followed by any number of Close calls leaves nothing live and releases nothing twice; DEL_DEV was executed once for each ADD_DEV that succeeded exactly when enters, waits and results were tidy; it hangs exactly at a command whose answer does not come |

## Left out

- System calls, mmap, epoll, eventfd and unsafe casts: replaced by the environment above.
- Kernel behaviour behind DEL_DEV and the char device's release, and recovery after a killed process: not decided by this code.
- Garbage-collector pinning and OS-thread locking: no counterpart in Dafny.
- The option functions, `openCharDev`'s retry loop, `Path`, error texts and `isNilBackend`: plumbing.
- Memory-ordering weaker than sequential consistency: the counters and flags are Go atomics, so steps are interleaved.
- Several queues: `New` creates one worker, and `Lifecycle` and `Worker` model that one.
- Lifecycle.Device.Shutdown: does not model Cancel and `wg.Wait`; that the worker returns, and that nothing runs after the release, are `Shutdown.CloseReturns` and `Shutdown.NoUseAfterRelease`.
- Worker.Worker.Run: is cut off when the given turns run out, because the source's loop does not end by itself; progress is `Shutdown.CloseReturns`.
- Ring.Ring.GetSQE: promises the abstract queue only while fewer than 2^32 entries are outstanding, the range in which the wrapped difference is meaningful.
- Ring.Ring.Enqueue: the same bound as `Ring.Ring.GetSQE`.
- Drive.Submissions: the same bound, met by every run that is never overfull and by every run of fewer than 2^32 calls.
- Control.ControlPlane.CtrlCommand: assumes fewer than four commands unanswered; `Lifecycle` proves this of every command of every life.
- Startup.Start: assumes at most 2^63 bytes, because beyond that the settings are accepted but the data plane is unsound (`Settings.AcceptedDeviceIsValidIff`).
- The flush command and other unimplemented features: not in the code.
