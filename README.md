# usbcam capture session, modelled in Dafny

usbcam is a single-header C++ helper that hands the newest frame of a Video4Linux2
camera to a consumer, zero-copy. It opens the device and insists on the requested
pixel format, resolution and buffer count. It memory-maps a pool of driver buffers,
starts streaming and queues every buffer. Each `usbcam_lock` drains the backlog of
completed buffers down to the newest one and lends it to the caller until
`usbcam_unlock`. The process-wide state is four flags (`usbcam_has_fd`,
`usbcam_has_mmap`, `usbcam_has_stream`, `usbcam_has_dqbuf`), the pool size, the
tables of mapped addresses and lengths, and the locked `v4l2_buffer`.
`usbcam_cleanup` clears the flags one guarded step each: requeue the locked buffer,
unmap the pool, STREAMOFF, close.

The model has five modules:

- `Buffers` (buffers.dfy): frames, and the ownership invariant `Owned`. It says that
  every buffer index below the pool size has exactly one owner: the driver's queue of
  empty buffers, the driver's FIFO of completed buffers, or the consumer's single lock.
  Lemmas show that each transfer keeps the invariant and that the three owners
  together hold exactly the whole pool.
- `Driver` (driver.dfy): an abstract V4L2 driver as a class. Its state is the open
  and streaming flags, the granted buffers and their lengths, the mappings, `queued`,
  `ready` and a log of every call made to it. Answers that come from the outside
  world are parameters: the descriptor `open` returns, the negotiated format, the
  granted buffers, the address `mmap` returns, and whether `select` fails.
- `Calls` (calls.dfy): the call sequences that teardown, start-up and the drain loop
  issue, and what holds of them: order, completeness, queue-once, no dropped buffer.
- `Usbcam` (usbcam.dfy): class `Session` holds the header's static variables, with
  the two 128-entry tables as arrays. Its methods are `usbcam_cleanup`,
  `usbcam_init`, `usbcam_lock`, `usbcam_unlock` and the retry loop of `usbcam_ioctl`.
  Its `Valid()` holds the flag order, the table/driver agreement, the ownership
  invariant while streaming, and the bound on the bytes a frame reports. That bound
  is assumed of the driver (`Driver.Device.Complete` requires it); usbcam itself copies
  `bytesused` without checking it.
- `Scenario` (scenario.dfy): a client that starts a three-buffer 640x480 session.
  It drains a backlog of three frames to the newest, has a second lock refused, and
  locks a released buffer again. Then it tears down twice.

Each `usbcam_assert` exit becomes an error value. Caller misuse (`Misused`) is kept
apart from device failures (`DeviceFailure`). After a failure the session is in the
state the original would have had at its `exit`, so a later teardown undoes exactly
the steps whose flags are set.

Three behaviours of the code are worth stating:

- If the readiness check fails in the middle of a drain (`select` returns -1), the
  loop just stops. `usbcam_lock` then locks and returns the buffer it holds; no error
  is raised. `Lock`'s `pollErrorAt` parameter models this case.
- Only `ioctl` requests are retried on EINTR/EAGAIN. `v4l2_open` and `mmap` are not.
- Teardown is not the mirror image of set-up. Set-up maps the pool before STREAMON
  (usbcam.h:197-205), and teardown also unmaps the pool before STREAMOFF
  (usbcam.h:111-126), so the buffers are unmapped while streaming is still on.

## Model

| member | source | states |
|---|---|---|
| Buffers.AllQueuedOwned | usbcam.h:207-215 | once all n buffers are queued and none has completed, every index has exactly one owner |
| Buffers.DequeueOwned | usbcam.h:240 | dequeuing the oldest completed buffer makes the consumer its only owner; every other index keeps its single owner |
| Buffers.RequeueOwned | usbcam.h:218-225 | the consumer's buffer is in neither driver queue, and queuing it back leaves every index with exactly one owner and nothing locked |
| Buffers.CompleteOwned | usbcam.h:27-33 | the driver filling a queued buffer moves it to the back of the ready FIFO and keeps single ownership |
| Buffers.OwnedCount | usbcam.h:240-269 | under the invariant, queued + ready + locked buffers number exactly the pool size: no buffer is lost or duplicated |
| Buffers.OwnedExclusive | usbcam.h:229-269 | for each index, the three ownership states exclude one another, one of them holds, and an index is ready at most once |
| Driver.Device.OpenDevice | usbcam.h:143-144 | the device counts as open exactly when the returned descriptor is non-negative |
| Driver.Device.SetCaptureFormat | usbcam.h:148-154 | the format in force is the one the driver negotiated, which may differ from the request |
| Driver.Device.Request | usbcam.h:164-169 | the driver's granted count and lengths replace the pool description |
| Driver.Device.Query | usbcam.h:181-183 | returns the driver's length of buffer i |
| Driver.Device.MapBuffer | usbcam.h:184-191 | a mapping is recorded for buffer i unless mmap answered MAP_FAILED |
| Driver.Device.UnmapBuffer | usbcam.h:115 | buffer i's mapping is removed |
| Driver.Device.StartStreaming | usbcam.h:199-203 | streaming is on; buffer ownership is untouched |
| Driver.Device.StopStreaming | usbcam.h:120-126 | streaming is off and the driver holds no queued or completed buffer |
| Driver.Device.QueueBuffer | usbcam.h:214 | buffer i joins the empty-buffer set; the driver accepts it only if it does not already own i |
| Driver.Device.DequeueBuffer | usbcam.h:240 | returns the oldest completed buffer and removes it from the FIFO |
| Driver.Device.ReadyCount | usbcam.h:246-252 | the zero-timeout select gives -1 on error, 1 if a completed buffer waits, 0 otherwise |
| Driver.Device.CloseDevice | usbcam.h:128-133 | the descriptor is closed; nothing else changes |
| Driver.Device.Complete | usbcam.h:27-33 | the camera fills a queued buffer, which leaves the empty set and joins the back of the ready FIFO; no frame is overwritten |
| Calls.CleanupOrdered | usbcam.h:100-134 | teardown calls come in the fixed order: requeue the locked buffer, unmap, stream off, close |
| Calls.CleanupSteps | usbcam.h:103-133 | each teardown step is issued exactly when its flag is set: requeue of the locked index, unmap of every index below the pool size, STREAMOFF, close |
| Calls.CleanupOfNothing | usbcam.h:100-134 | with no flag set, teardown makes no call at all |
| Calls.UnmapCallsAre | usbcam.h:114-115 | the unmap loop unmaps buffers 0..n-1, once each, in index order |
| Calls.QueuedOnceAtInit | usbcam.h:207-215 | a successful start-up queues every index in [0, n) exactly once and no other index |
| Calls.DrainCallsAt | usbcam.h:240-261 | the drain starts with a dequeue, and each held buffer is queued back after a successful poll and just before the next dequeue, so none is dropped |
| Usbcam.FirstMapFailure | usbcam.h:175-194 | finds the lowest buffer whose mapping failed, or shows that every mapping among the first n succeeded |
| Usbcam.InitOutcome | usbcam.h:136-194 | start-up succeeds exactly when 1 <= buffers <= 128 and the descriptor, format, buffer count and every mapping are what was asked for; it is misuse exactly when the count is out of range |
| Usbcam.Session.constructor | usbcam.h:75-83 | the process starts with every flag clear, descriptor and pool size 0, and fresh tables whose 128 entries are all 0 |
| Usbcam.Session.Ioctl | usbcam.h:85-98 | refuses when no device is open; otherwise skips exactly the EINTR/EAGAIN attempts and reports the first other attempt as success or as a device failure with its errno |
| Usbcam.Session.Cleanup | usbcam.h:100-134 | clears all four flags and leaves the driver owning no buffer; the calls made are exactly the guarded steps in the order requeue, unmap, STREAMOFF, close; a second call makes no call |
| Usbcam.Session.UnmapAll | usbcam.h:111-117 | unmaps every buffer of the pool in index order and touches no other driver state |
| Usbcam.Session.Release | usbcam.h:110-133 | the teardown steps after the requeue: unmap when mapped, STREAMOFF when streaming, close when open, in that order and each exactly once; all flags end clear and the driver owns no buffer |
| Usbcam.Session.Init | usbcam.h:136-216 | tears down first, then returns the first failing check of InitOutcome; on success all but the lock flag are set, the pool size is the requested count, the tables hold the granted lengths and addresses, and the driver owns every buffer as queued; the tables past the pool are kept; the mappings are those left after teardown plus the ones this start-up made (the whole pool on success, the buffers before a failed mapping otherwise) |
| Usbcam.Session.StartUp | usbcam.h:138-215 | from a session with every flag clear, the result is InitOutcome's verdict; a misuse makes no driver call, and on success the flags, pool size, tables, mappings, queued set and the exact start-up calls are as in Init |
| Usbcam.Session.OpenAndConfigure | usbcam.h:142-172 | opens the device, then rejects a different pixel format, width, height or buffer count rather than adjusting to it; it maps nothing |
| Usbcam.Session.Allocate | usbcam.h:174-215 | maps the pool and fails at the first failed mapping without setting the mmap flag; otherwise it starts streaming and queues buffers 0..n-1; the new mappings are exactly those of MappedAtStart, and table entries past n are kept |
| Usbcam.Session.Start | usbcam.h:196-215 | with the pool mapped, sets the mmap flag and pool size, issues STREAMON, queues every buffer once, and leaves the mappings alone |
| Usbcam.Session.MapPool | usbcam.h:175-194 | returns FirstMapFailure's verdict and queries and maps buffers in order, stopping at the first failed mapping; afterwards exactly the buffers before that one have gained a mapping at the reply's address, the table entries up to and including it hold the reply's lengths and addresses, and every other mapping and table entry is kept; the rest of the driver state is untouched |
| Usbcam.Session.MapOne | usbcam.h:176-192 | one round of that loop: the length and address of buffer i go into the tables and nothing else in them changes; a mapping is recorded unless mmap failed |
| Usbcam.Session.QueueAll | usbcam.h:207-215 | queues buffers 0..n-1 in order; afterwards the driver's empty set is exactly [0, n) |
| Usbcam.Session.Unlock | usbcam.h:218-225 | if a frame is locked, its buffer goes back to the driver queue and the lock is cleared; otherwise nothing changes |
| Usbcam.Session.Lock | usbcam.h:227-270 | refuses a second lock and a session that is not open, mapped and streaming, in that order, and then changes nothing; otherwise it locks the newest completed buffer (or the one held when a poll fails), requeues every older one, and returns its mapped address, bytes used (within the buffer's length, as the driver guarantees) and timestamp |
| Usbcam.Session.DrainToLatest | usbcam.h:234-262 | ends holding the newest completed buffer (or the one held when a poll fails), with every earlier one queued back and the later ones still ready, and keeps the ownership invariant |
| Usbcam.Session.Exchange | usbcam.h:253-260 | queues the held buffer back and dequeues the next completed one, keeping single ownership |
| Scenario.StartAndTearDown | usbcam.h:100-216 | from a fresh device, a successful start-up followed by teardown leaves the driver with no mapping, no descriptor and no buffer; after a failed mapping, the buffers mapped before it remain mapped |
| Usbcam.Session.FrameCompleted | usbcam.h:27-33 | a completed capture moves a queued buffer to the ready FIFO and keeps the session valid |

## Left out

- Failures of the individual driver requests inside cleanup, lock, unlock and start-up are not modelled. This covers QBUF, DQBUF, STREAMON, STREAMOFF, S_FMT, REQBUFS and QUERYBUF. The original ends the process on such a failure. The model assumes each request succeeds, and models the retry loop on its own as `Usbcam.Session.Ioctl`.
- Usbcam.Session.Ioctl: the attempts are a finite sequence supplied by the caller, so the result `StillRetrying` (every supplied attempt was interrupted) has no counterpart in the original, which keeps retrying for as long as the device answers EINTR or EAGAIN.
- Usbcam.Session.Lock: requires that the first, blocking dequeue returns, meaning at least one frame has completed when the checks pass. Blocking is not modelled, and frames completing while the drain runs are not modelled either: the ready FIFO is fixed during the call.
- Usbcam.Session.Lock: the timestamp argument of `usbcam_lock` is optional and defaults to a null pointer (usbcam.h:48), yet usbcam.h:264 writes through it unconditionally. A caller that leaves it out crashes after the drain has dequeued a buffer, before `usbcam_has_dqbuf` is set. The model always returns the timestamp, so it does not capture that crash.
- Usbcam.Session.Init: on a failure, the driver log is stated only as an extension of the teardown calls. The calls made before the failing check are not listed.
- After a mapping fails at buffer i, the mappings of buffers 0..i-1 are still recorded in the driver while the mmap flag stays clear, so a later teardown does not release them (`Scenario.StartAndTearDown` states this). The original exits at that point.
- `printf`, `usbcam_debug`, `strerror` and process exit are not modelled. They become error values.
- The contents of mapped memory and pointer arithmetic are not modelled. A buffer's address is an integer and a frame's data is identified by its index. `timeval` timestamps are opaque, so the ordering of successive timestamps is not modelled.
- Pixel-format codes, `device_name` (carried but not interpreted) and the build notes in the header comment are not modelled.
- Thread safety is not modelled. The original is single-threaded and the model is sequential.
