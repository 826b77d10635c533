# ARM-Linux-Drv: drivers as verified models

Dafny 4.11 models of four drivers of the repository, with proofs about all their runs.

- **USB skeleton driver** (`ex_source/usb-skeleton_ym.c`), the main part: any number of open, release, read and
  write calls interleave with one disconnect and with URB completions. `SkelModel` is the step system: a call's
  program counter decides which operation (lock, unlock, reference count, semaphore, allocation, copy, transfer)
  it performs next (`Action`, `Then`), `Apply` says what the operation does, `Safe` what the kernel asks of its
  caller. `SkelInvariant` and `SkelKeeps` hold the inductive invariant and its preservation, `SkelResults` what
  return values mean, `SkelSafety`, `SkelProgress`, `SkelRuns`, `SkelAnswers`, `SkelStream`,
  `SkelSends`, `SkelLate`, `SkelReach`, `SkelDrain`, `SkelPower` and `SkelWait` the results about runs.
  `SkelDriver` is the same driver as a class whose methods update the fields in place, one method per C function,
  with the kernel's demands as preconditions of the operations. `SkelProbe` is the sequential `skel_probe`.
- **RAM disk** (`Drivers/13.ramblock/ramblock.c`), `RamBlock`: the segment-by-segment request loop over the disk
  buffer refines whole requests executed at once; every read sees the last write.
- **Buttons** (`Drivers/4.forthdrv/forth_drv.c`), `ForthDrv`: interrupt handler, blocking reader and poll.
- **USB mouse as keyboard** (`Drivers/12.usb/usb_mousekb.c`), `MouseKb`: the edge-detecting report handler.

`dafny verify dfyconfig.toml` checks the project; `Sums` and `Bytes` are shared helpers.

## What the environment is taken to do

USB skeleton driver:

- (a) release is called once per successful open, with no read or write on that file in progress. So the
  `dev == NULL` test at lines 102-103 never finds NULL: only a successful open makes a file.
- (b) before `skel_disconnect` the USB core disables the endpoints: later submissions fail, and it waits until the
  callback of every submitted URB has returned. `SkelWait.WaitIsExact` shows that this wait tests exactly what has
  to hold, and `SkelWait.WithoutTheWait` that the driver can be brought to need it.
- (c) a successful submission takes a URB reference of its own and leads to one callback, possibly before the
  submitter's next step; a failed one to none. Failing calls return negative codes.
- (d) freeing NULL does nothing. (e) A failed autosuspend get leaves the count alone. (f) A failed registration
  never exposes the device. `usb_deregister_dev`, called with skel_open_lock held, waits for no open in progress.
- `usb_find_interface` may find the interface or not, at any time; only the interface data decides. An interrupted
  `down` may happen at any time. `PAGE_SIZE` is 4096.

The file does not compile as written (missing `;` after the structure, `limit_sem` declared as a pointer but used as
an embedded semaphore, `GPF_KERNEL`); its plain intent is modelled. `skel_read` and `skel_write` are declared to return
`size_t`; their negative codes are kept as negative numbers.

RAM disk: the block layer hands over requests of at least one segment, segments of at least one sector with memory
for it, within the capacity set at line 81; nothing is queued while the loop runs (it holds the queue lock);
`end_request` completes the current segment only.

Buttons: the board has one processor, so the handler runs to its end before the reader goes on. One reader.

## What turned out not to hold as one might expect

- Buttons: the result of the interruptible wait is not looked at, so a signal makes a read report an event again
  (`ForthDrv.SignalRepeatsEvent`). Whatever way the next read goes, it reports a new event exactly when one is unread
  before the call, for which poll saying readable is enough (`ForthDrv.NextReadIff`); otherwise it repeats one exactly
  when a signal ends its wait and no interrupt comes before its copy (`ForthDrv.ReadInOrder`). Over a run, reads are in
  order and without repetition exactly when every copy whose wait a signal cut short finds an unread event
  (`ForthDrv.EventOrderIff`); without such signals that is always so (`ForthDrv.EventOrder`). An interrupt between copy
  and clear leaves its event unannounced until the next interrupt (`ForthDrv.LostInTheWindow`).
- Mouse: bits 0 and 2 both stand for KEY_L, so a listener can take the key for released while a button is down
  (`MouseKb.TwoButtonsOneKey`); `MouseKb.ListenerKnows` says exactly when.
- Skeleton: once the interface is cleared, releases skip their autosuspend put, so a file open at that moment leaves
  the count at 1 for good (`SkelPower.CountLeaks`). However the run goes on, the count is back at 0 once everything
  is released, exactly when skel_disconnect, clearing the interface, finds no open outstanding and none between its
  kref_get and its autosuspend get (`SkelPower.PowerExactly`).
- Skeleton: skel_open hands the interface to its autosuspend get after it has dropped skel_open_lock. That get can come
  after skel_disconnect has returned exactly when, at the moment the disconnect holds the lock and is about to clear
  the interface data, an open has dropped the lock and not made its get (`SkelPower.LateGetIff`).
- Probe: an endpoint address of 0 is the "not found" sentinel, so a bulk-out endpoint of address 0 would be passed
  over (`SkelProbe.SentinelSound`); section 9.6.6 of the USB 2.0 specification rules it out (`SkelProbe.BothFound`).

## Model

| member | source | states |
|---|---|---|
| SkelInvariant.InitInv | ex_source/usb-skeleton_ym.c:262-315 | the state a successful probe leaves satisfies the whole invariant |
| SkelKeeps.RefsMatch | ex_source/usb-skeleton_ym.c:53-114 | every step's change of `kref` is the change of what the call itself holds, plus the file it hands its reference to |
| SkelKeeps.PowerMatches | ex_source/usb-skeleton_ym.c:84-109 | the same for the autosuspend count, counting puts skipped after disconnect |
| SkelKeeps.PermitsMatch | ex_source/usb-skeleton_ym.c:171-234 | the same for `limit_sem`: a writer's permit goes to the callback exactly at a successful submission |
| SkelKeeps.LocksMatch | ex_source/usb-skeleton_ym.c:62-214 | the critical sections of both locks begin and end exactly at their lock and unlock calls, on every path |
| SkelKeeps.UrbMoves | ex_source/usb-skeleton_ym.c:182-229 | on every path of write the URB it holds has the references, buffer and frees its position calls for |
| SkelKeeps.DeleteMatch | ex_source/usb-skeleton_ym.c:42-49 | only the call that drops the last reference runs skel_delete, in its three calls |
| SkelKeeps.CompletedFits | ex_source/usb-skeleton_ym.c:146-159 | a callback's steps keep the URB's ownership record whether or not its writer has let go of it yet |
| SkelKeeps.NextKeeps | ex_source/usb-skeleton_ym.c:42-347 | any step of any call, completion, disconnect or new call keeps the invariant |
| SkelSafety.PutAtLeastOne | ex_source/usb-skeleton_ym.c:62-234 | a call that uses the device or waits for its lock or semaphore finds the count positive and nothing freed |
| SkelSafety.PendingIsLive | ex_source/usb-skeleton_ym.c:146-159 | while a callback has not done its `up` the device is not deleted and a permit is out |
| SkelSafety.PermitsBackAtTheEnd | ex_source/usb-skeleton_ym.c:42-49 | when the count reaches zero all 8 permits are back, nobody uses the device and no URB is in flight |
| SkelSafety.OpenSafe | ex_source/usb-skeleton_ym.c:53-114 | open and release: kref_get only on a positive count, unlocks by the holder, puts only of what is held |
| SkelSafety.ReadSafe | ex_source/usb-skeleton_ym.c:116-144 | the transfer and the copy happen under io_mutex, with the interface bound and the buffer alive |
| SkelSafety.WriteSafe | ex_source/usb-skeleton_ym.c:161-234 | submission under io_mutex with the interface bound and a live buffer of the URB's size; the copy from user space fills the buffer exactly; each free once, with the size allocated, on a device still there |
| SkelSafety.DeleteSafe | ex_source/usb-skeleton_ym.c:42-49 | each of the three releases of skel_delete finds its object not yet released |
| SkelSafety.DiscSafe | ex_source/usb-skeleton_ym.c:323-347 | disconnect locks, clears and puts a device that is alive |
| SkelSafety.CompletionSafe | ex_source/usb-skeleton_ym.c:146-159 | the callback frees the buffer once with its size, on a usb_device still referenced, and ups a live semaphore; the core frees the URB once |
| SkelSafety.EveryStepSafe | ex_source/usb-skeleton_ym.c:42-347 | no enabled step of a state satisfying the invariant breaks a demand of the kernel |
| SkelProgress.OwnerMoves | ex_source/usb-skeleton_ym.c:62-214 | the call or the disconnect that holds a lock can itself take its next step: nothing inside a critical section waits |
| SkelProgress.PermitHolder | ex_source/usb-skeleton_ym.c:176-230 | with no permit left, no completion to come and the locks free, some writer holds a permit and can itself take its next step |
| SkelProgress.Progress | ex_source/usb-skeleton_ym.c:42-347 | no state with anything unfinished is stuck, even without signals, new calls or lucky outcomes |
| SkelProgress.StepRanks | ex_source/usb-skeleton_ym.c:42-234 | each step of a call brings it nearer its end and pays for the completion it starts |
| SkelProgress.MeasureMoves | ex_source/usb-skeleton_ym.c:42-347 | every internal step decreases the measure; a new call adds at most 15 |
| SkelResults.ResultsKept | ex_source/usb-skeleton_ym.c:116-234 | every step keeps what return values say: one transfer per read, one URB per write |
| SkelRuns.Lifetime | ex_source/usb-skeleton_ym.c:42-114 | in every run `kref` is the registration plus open calls, files and releases; deletion is once, at zero, after everything |
| SkelRuns.UsersFindItAlive | ex_source/usb-skeleton_ym.c:106-159 | in every run users, waiters and URBs in flight find the device alive |
| SkelRuns.RunSafe | ex_source/usb-skeleton_ym.c:42-347 | after every run every possible next step is safe |
| SkelRuns.LocksExclude | ex_source/usb-skeleton_ym.c:62-214 | each lock has one holder, disconnect included, and nobody owns both |
| SkelRuns.PermitsConserved | ex_source/usb-skeleton_ym.c:25-230 | semaphore, writers' permits and URBs in flight make 8 in every run; at most 8 URBs are in flight |
| SkelRuns.OwnershipLinear | ex_source/usb-skeleton_ym.c:146-229 | in every run each URB and each buffer is freed at most once, the buffer with its own size and before the URB |
| SkelRuns.FreedByItsOwner | ex_source/usb-skeleton_ym.c:156-229 | in every run a buffer is freed by the callback exactly if its URB was submitted and by its own writer's error label exactly if not, never having been freed before, while the device is there |
| SkelRuns.NoTransferAfterDisconnect | ex_source/usb-skeleton_ym.c:124-341 | after disconnect has cleared the interface no later step starts a bulk read or submits a URB |
| SkelRuns.ReadReturns | ex_source/usb-skeleton_ym.c:130-143 | a read returns the length of the one chunk of its own transfer that was copied out, or an error with none copied |
| SkelRuns.WriteReturns | ex_source/usb-skeleton_ym.c:167-233 | a write returns min(count, MAX_TANSFER) > 0 exactly when one URB of that size was submitted for it, 0 exactly when it had nothing to write, and else a negative number |
| SkelRuns.SentIsOwnData | ex_source/usb-skeleton_ym.c:167-213 | every URB submitted carries the first min(count, MAX_TANSFER) > 0 bytes of its own writer's data |
| SkelRuns.EveryRunEnds | ex_source/usb-skeleton_ym.c:42-347 | a run with n calls has at most 16 n steps |
| SkelRuns.NothingLeftBehind | ex_source/usb-skeleton_ym.c:42-347 | a run that cannot go on has finished all calls, freed every URB and buffer once; unplugged and released, it has deleted the device once with all permits back |
| SkelAnswers.CallAnswers | ex_source/usb-skeleton_ym.c:53-234 | a finished call returns the error number of the one operation that failed on its way, whichever that was; if none failed, open and release return 0, read the length of its transfer, write min(count, 3584) |
| SkelAnswers.OpensAnswer | ex_source/usb-skeleton_ym.c:84-94 | as many opens have returned 0 as files were made; every other finished one, and every one giving its reference back, returns a negative number |
| SkelAnswers.EmptyWritesDoNothing | ex_source/usb-skeleton_ym.c:164-173 | a write of nothing returns 0, never holds a permit and never has a URB; only such a write returns 0 |
| SkelStream.ReadStream | ex_source/usb-skeleton_ym.c:124-143 | what the device sends over a run is, in order, what the reads copied out or dropped, each chunk within the buffer size and the count |
| SkelStream.RestOfBuffer | ex_source/usb-skeleton_ym.c:131-132 | a transfer overwrites no more of bulk_in_buffer than the bytes it brings |
| SkelReach.ReadDelivers | ex_source/usb-skeleton_ym.c:116-144 | a read can get every chunk of up to min(bulk_in_size, count) bytes and then returns its length with exactly it copied out; or the transfer's own error, or EFAULT |
| SkelReach.EightInFlight | ex_source/usb-skeleton_ym.c:25-223 | any number of URBs up to eight can be in flight at once, all their writes having returned, with the other permits free |
| SkelReach.CanReceive | ex_source/usb-skeleton_ym.c:131-132 | the transfer asks for min(bulk_in_size, count) bytes: any chunk up to that can come, and no longer one |
| SkelLate.LateCallsFail | ex_source/usb-skeleton_ym.c:71-206 | after the disconnect open and read return ENODEV with nothing read, and a write fails with nothing submitted |
| SkelSends.WriteStream | ex_source/usb-skeleton_ym.c:167-223 | the submissions of a run, in the order io_mutex was held, carry the first min(count, MAX_TANSFER) bytes of different writes' data, and a finished write is among them exactly if it returned a positive count |
| SkelSends.WritesKeepOrder | ex_source/usb-skeleton_ym.c:200-223 | a write called after another one has returned its count is submitted after it |
| SkelDrain.Drain | ex_source/usb-skeleton_ym.c:53-234 | from any state whose locks the disconnect does not hold, all calls can be finished and all files released with no completion taking place, even if URBs hold all permits |
| SkelPower.PowerBalanced | ex_source/usb-skeleton_ym.c:84-109 | while the interface is bound the autosuspend count is the opens that got it and have not come to their put |
| SkelPower.PowerAfterDisconnect | ex_source/usb-skeleton_ym.c:84-341 | after the interface is cleared the count is what was outstanding then plus the opens that still resumed, each of which had found the device before |
| SkelPower.PowerExactly | ex_source/usb-skeleton_ym.c:78-341 | the count is 0 at the end of every continuation in which all is released if and only if, when the interface was cleared, nothing was outstanding and no open was between its kref_get and its get |
| SkelPower.CountLeaks | ex_source/usb-skeleton_ym.c:53-347 | a run, from open to the release after the disconnect, that leaves the count at 1 with nobody left |
| SkelPower.LateGetIff | ex_source/usb-skeleton_ym.c:62-336 | an open's autosuspend get can come after skel_disconnect has returned if and only if, when the disconnect is about to clear the interface data, some open has dropped skel_open_lock and not made its get |
| SkelWait.Sweep | ex_source/usb-skeleton_ym.c:323-347 | a disconnect left to itself ends in deletion and leaves the URBs where they were |
| SkelWait.WaitIsNeeded | ex_source/usb-skeleton_ym.c:146-344 | without the core's wait, any URB in flight when the device is unplugged can get its callback on a freed device, whatever calls and files there are |
| SkelWait.WaitIsExact | ex_source/usb-skeleton_ym.c:146-344 | a core that does not wait can run into such a callback if and only if a URB is in flight, which is what the wait tests |
| SkelWait.PendingAtUnplug | ex_source/usb-skeleton_ym.c:53-214 | a run from a successful probe that has a URB in flight when the device is unplugged |
| SkelWait.WithoutTheWait | ex_source/usb-skeleton_ym.c:53-344 | a whole run of a core that does not wait, from a successful probe to a callback on a freed device |
| SkelDriver.Driver.constructor | ex_source/usb-skeleton_ym.c:262-315 | the driver starts valid, in the step system's initial state |
| SkelDriver.Driver.BulkMsg | ex_source/usb-skeleton_ym.c:131-132 | the bytes received overwrite the front of the shared buffer in place |
| SkelDriver.Driver.CopyToUser | ex_source/usb-skeleton_ym.c:135-138 | user space gets the buffer's first n bytes, or nothing if the copy faults |
| SkelDriver.Driver.KrefPut | ex_source/usb-skeleton_ym.c:112 | the count goes down by one, and the caller learns whether it was the last |
| SkelDriver.Driver.BufferFree | ex_source/usb-skeleton_ym.c:157 | freeing NULL does nothing; else the size is recorded; it may be called once, with the size allocated |
| SkelDriver.Driver.UrbFree | ex_source/usb-skeleton_ym.c:221 | one reference less; the last one frees the URB |
| SkelDriver.Driver.CopyFromUser | ex_source/usb-skeleton_ym.c:194-197 | the transfer buffer gets the writer's bytes, as many as it has room for, or the copy faults |
| SkelDriver.Driver.SubmitUrb | ex_source/usb-skeleton_ym.c:208-213 | fills length, and on success the core takes a reference and the URB is in flight |
| SkelDriver.Driver.SkelOpen | ex_source/usb-skeleton_ym.c:53-95 | one step of open, in place, is the step system's |
| SkelDriver.Driver.SkelRelease | ex_source/usb-skeleton_ym.c:97-114 | one step of release is the step system's |
| SkelDriver.Driver.SkelRead | ex_source/usb-skeleton_ym.c:116-144 | one step of read is the step system's, and what it copies out is the front of the buffer |
| SkelDriver.Driver.SkelWrite | ex_source/usb-skeleton_ym.c:161-205 | one step of write up to the interface test is the step system's |
| SkelDriver.Driver.SkelWriteSubmit | ex_source/usb-skeleton_ym.c:207-223 | one step of the submission and return is the step system's |
| SkelDriver.Driver.SkelWriteError | ex_source/usb-skeleton_ym.c:225-233 | one step of the error label is the step system's |
| SkelDriver.Driver.SkelDelete | ex_source/usb-skeleton_ym.c:42-49 | one step of skel_delete, run by a call, is the step system's |
| SkelDriver.Driver.SkelWriteBulkCallback | ex_source/usb-skeleton_ym.c:146-159 | one step of a completion is the step system's |
| SkelDriver.Driver.SkelDisconnect | ex_source/usb-skeleton_ym.c:323-347 | one step of disconnect is the step system's |
| SkelDriver.Driver.SkelDeleteLast | ex_source/usb-skeleton_ym.c:344 | one step of skel_delete, run by disconnect, is the step system's |
| SkelDriver.Driver.Take | ex_source/usb-skeleton_ym.c:42-347 | any enabled step can be performed within the kernel's demands, keeps the driver valid, and hands a reader only its own transfer |
| SkelDriver.Driver.Run | ex_source/usb-skeleton_ym.c:42-347 | any schedule performed in place ends as the step system's run, and user space has been handed exactly the bytes the log counts as copied out |
| SkelProbe.BulkBits | ex_source/usb-skeleton_ym.c:280-292 | bulk-in and bulk-out are told by the two low attribute bits and the top address bit of the descriptor |
| SkelProbe.FirstMatchIsFirst | ex_source/usb-skeleton_ym.c:277-296 | the scan finds the endpoint of a kind at the least index |
| SkelProbe.SentinelSound | ex_source/usb-skeleton_ym.c:292-295 | the scan takes the first bulk-out endpoint exactly when its address is not 0, as on every compliant device |
| SkelProbe.BothFound | ex_source/usb-skeleton_ym.c:277-301 | both directions are found exactly when the list has a bulk-in endpoint and a bulk-out endpoint of nonzero address; on a compliant device, exactly when both directions occur |
| SkelProbe.Interface.NoteEndpoint | ex_source/usb-skeleton_ym.c:278-295 | one round of the loop records the first endpoint of each direction seen so far |
| SkelProbe.Interface.ScanEndpoints | ex_source/usb-skeleton_ym.c:277-296 | the loop fails only if the buffer is needed and cannot be had; else it has recorded the first of each direction |
| SkelProbe.Interface.PutOnError | ex_source/usb-skeleton_ym.c:317-320 | the error label releases the device reference, the buffer if there is one, and the structure, once |
| SkelProbe.Interface.Bind | ex_source/usb-skeleton_ym.c:252-321 | returns 0 exactly when both directions are found and nothing fails; any other outcome leaves nothing acquired |
| SkelProbe.Interface.SkelProbe | ex_source/usb-skeleton_ym.c:252-321 | on a compliant device probe succeeds exactly when both directions occur and no allocation or registration fails; it then holds the first bulk-in endpoint's address and size, a buffer of that size and the first bulk-out's address, and yields a driver in the step system's initial state |
| RamBlock.SplitWrite | Drivers/13.ramblock/ramblock.c:62-65 | a write request's first segment and then the rest is the whole write |
| RamBlock.SplitRead | Drivers/13.ramblock/ramblock.c:58-65 | a read request's first segment and then the rest is the whole read |
| RamBlock.TurnKeepsOutcome | Drivers/13.ramblock/ramblock.c:51-66 | one turn of the loop leaves the outcome of the whole queue as it was, with fewer sectors to go |
| RamBlock.OutsideWritesUnchanged | Drivers/13.ramblock/ramblock.c:53-62 | disk bytes outside every write request stay |
| RamBlock.OtherMemoryUnchanged | Drivers/13.ramblock/ramblock.c:56-58 | memory that no read request names stays |
| RamBlock.BeyondSegmentsUnchanged | Drivers/13.ramblock/ramblock.c:54-58 | a read writes no byte of memory beyond its segments |
| RamBlock.WrapsIff | Drivers/13.ramblock/ramblock.c:53-54 | the 32-bit product is exact up to 0x800000 sectors and no further |
| RamBlock.GatherScatter | Drivers/13.ramblock/ramblock.c:58 | each segment of a read gets its own stretch of the disk |
| RamBlock.ReadYourLastWrite | Drivers/13.ramblock/ramblock.c:51-83 | over any number of invocations from the zeroed disk every sector read is, as copied, the last one written there, or zeros, also when segments share memory |
| RamBlock.NoWrap | Drivers/13.ramblock/ramblock.c:53-62 | the 32-bit products do not wrap and the copy stays inside the disk buffer and the segment |
| RamBlock.RamDisk.constructor | Drivers/13.ramblock/ramblock.c:81-83 | the disk starts zeroed |
| RamBlock.RamDisk.EndRequest | Drivers/13.ramblock/ramblock.c:65 | only the current segment is completed; the request stays at the head until its last one is |
| RamBlock.RamDisk.CopyOut | Drivers/13.ramblock/ramblock.c:58 | memcpy to the request's buffer: its first bytes are replaced, the rest and all other memory stay |
| RamBlock.RamDisk.CopyIn | Drivers/13.ramblock/ramblock.c:62 | memcpy into the disk buffer, in place: only the range is replaced |
| RamBlock.RamDisk.CopyAndEnd | Drivers/13.ramblock/ramblock.c:53-65 | one turn of the loop copies the head segment and ends it |
| RamBlock.RamDisk.DoRamblockRequest | Drivers/13.ramblock/ramblock.c:45-67 | the loop ends with an empty queue, and disk and memory as if each request had been executed whole, in order; every sector read so far was the last one written; memory beyond the segments read into, and disk outside the ranges written, keep every byte |
| ForthDrv.Encode | Drivers/4.forthdrv/forth_drv.c:25-46 | the value tells level and pin apart and is never 0 |
| ForthDrv.EventOrderIff | Drivers/4.forthdrv/forth_drv.c:33-72 | in any run events are read in order and none twice exactly when each copy whose wait was cut short by a signal, the flag being clear, finds an event not yet read; other copies never repeat one |
| ForthDrv.NextReadIff | Drivers/4.forthdrv/forth_drv.c:62-91 | every way the next read can go, signals included, reports a new event if and only if one is unread before the call; poll's readable implies that |
| ForthDrv.ReadInOrder | Drivers/4.forthdrv/forth_drv.c:62-72 | a particular read repeats an event exactly when none was unread and no interrupt came before its copy, and then a signal ended its wait |
| ForthDrv.EventOrder | Drivers/4.forthdrv/forth_drv.c:33-72 | with waits not cut short the values read are a subsequence of the interrupts' at strictly increasing positions |
| ForthDrv.SignalRepeatsEvent | Drivers/4.forthdrv/forth_drv.c:67-71 | a run in which a signal makes the driver report one event twice |
| ForthDrv.LostInTheWindow | Drivers/4.forthdrv/forth_drv.c:69-70 | in any run, unless the reader is between copy and clear, an event is unread and unannounced exactly when an interrupt fell between the last copy and its clear and none has come since |
| ForthDrv.PollIsStable | Drivers/4.forthdrv/forth_drv.c:67-91 | once readable, nothing but the reader's own clear undoes it, and a read entered before that does not block |
| ForthDrv.PollMeansUnread | Drivers/4.forthdrv/forth_drv.c:82-91 | between reads, readable means an event not yet read |
| ForthDrv.Buttons.ButtonsIrq | Drivers/4.forthdrv/forth_drv.c:33-52 | the handler stores the encoded pin and raises the flag |
| ForthDrv.Buttons.ReadCheckSize | Drivers/4.forthdrv/forth_drv.c:64-65 | any other size than 1 is refused with EINVAL and changes nothing; a read of one byte goes to wait |
| ForthDrv.RefusedRead | Drivers/4.forthdrv/forth_drv.c:64-65 | in any run a read of another size leaves the reader outside, and flag, value and reads so far as they were |
| ForthDrv.AcceptedRead | Drivers/4.forthdrv/forth_drv.c:67-70 | a read of one byte copies and clears only after its wait, which the flag or a signal ends |
| ForthDrv.Buttons.ReadWait | Drivers/4.forthdrv/forth_drv.c:67 | the wait ends with the flag set or by a signal |
| ForthDrv.Buttons.ReadCopy | Drivers/4.forthdrv/forth_drv.c:69 | user space gets the value stored last |
| ForthDrv.Buttons.ReadClear | Drivers/4.forthdrv/forth_drv.c:70-71 | the flag is cleared and 1 returned |
| ForthDrv.Buttons.DrvPoll | Drivers/4.forthdrv/forth_drv.c:82-91 | reports the flag, which outside a read means an unread event |
| MouseKb.KeyBalance | Drivers/12.usb/usb_mousekb.c:23-44 | after any reports, presses less releases of a key is the number of its buttons now down |
| MouseKb.ButtonsAlternate | Drivers/12.usb/usb_mousekb.c:23-44 | each button's own events alternate, starting with a press, and end as the button is |
| MouseKb.ListenerKnows | Drivers/12.usb/usb_mousekb.c:26-42 | the last event of a key tells whether it is down, except exactly when the last report that moved a KEY_L button ended with a release of one while the other was down |
| MouseKb.TwoButtonsOneKey | Drivers/12.usb/usb_mousekb.c:26-42 | reports after which KEY_L is down but its last event is a release |
| MouseKb.MouseKeyboard.EmitChanges | Drivers/12.usb/usb_mousekb.c:26-42 | the three comparisons emit, in bit order, one event for each changed bit and no other, with its key and new state |
| MouseKb.ReportsInOrder | Drivers/12.usb/usb_mousekb.c:26-42 | over any reports, each one adds exactly its own changes in bit order, KEY_L of bit 0 before KEY_S |
| MouseKb.MouseKeyboard.UsbMousekbIrq | Drivers/12.usb/usb_mousekb.c:21-47 | the events emitted so far are those of all reports so far, this report's being appended in bit order, and the URB is submitted again |

## Left out

- More than one skeleton device at a time: they share only `skel_open_lock`, and other devices' opens appear as opens that do not find this one.
- The lifetime of the `usb_interface` object, which belongs to the USB core; open uses it after dropping its lock.
- The messages printed.
- Time: the 10 s timeout of the bulk transfer is one way for it to fail.
- SkelSafety.OpenSafe: asks nothing of the `usb_interface` that the autosuspend get works on; when that get comes late is `SkelPower.LateGetIff`.
- SkelRuns.EveryRunEnds: the bound counts steps that are taken; fairness of the scheduler and of the locks is not modelled.
- RamBlock.GatherScatter: says nothing of reads whose own segments share memory; there the later segment's bytes win.
- SkelDriver.Driver.CopyFromUser: what a copy that faults half-way leaves in the buffer; it is freed unsent.
- RamBlock.RamDisk.CopyOut: the memory of requests is a map of byte sequences, so two names never overlap in part.
- ForthDrv.EventOrder: one reader; with several, all that were waiting would report the same event.
- ForthDrv.Buttons.ButtonsIrq: one step, as on one processor; on several, the reader could run between the two stores.
- MouseKb.MouseKeyboard.UsbMousekbIrq: input_event and its input_sync are one event of the model.
- `usb_mousekb_probe`, `usbmousekb_disconnect`, `ramblock_getgeo`, module init and exit, device and interrupt registration: straight-line kernel calls.
- The GPIO, LED, key, NAND and NOR drivers and the user-space programs: short branches over registers and kernel calls, no unbounded property.
