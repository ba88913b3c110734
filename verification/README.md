# A verified model of the latency buffer and its request handler

The library buffers a stream of timestamped elements in a ring, the *latency buffer*. One producer writes. A pool
of request tasks cuts time windows out of the ring and builds fragments from them. A cleanup thread pops the old
end. A recorder streams the data to a file, either element by element or, zero-copy, straight from the memory of
the ring. This project models these parts and the protocols between them, and proves what they promise to each
other. `dafny verify dfyconfig.toml` checks everything.

## Structure

| file | what it models |
|---|---|
| `RingMath.dfy`, `RingBuffer.dfy` | wrapped indices; the ring as slots and two indices against the sequence of everything written and the number popped |
| `IterableQueue.dfy` | the queue and its iterator as classes over an array |
| `Elements.dfy`, `LowerBound.dfy` | elements of several frames; binary search and constant-time search |
| `FragmentPieces.dfy`, `DataRequest.dfy` | window extraction and the classification of a request |
| `Cleanup.dfy`, `SkipListCleanup.dfy`, `WaitingRequests.dfy`, `RateLimiter.dfy` | the imperative loops with their own contracts |
| `SpscProtocol.dfy` | producer and consumer of the queue, one atomic access a step |
| `RequestProtocol.dfy` | producer, any number of request tasks and the cleanup thread on one buffer |
| `RequestLifecycle.dfy` | a request from posting to its answer, and the end of a run |
| `Recording.dfy` | the recorder that walks with an iterator, with producer and cleanup thread |
| `ByteStream.dfy`, `ZeroCopyRecording.dfy` | the recorder that walks with a byte pointer, one copied byte a step |
| `ReusableThread.dfy` | the two-flag hand-over of tasks to a thread |

Code that changes things step by step is a class or a method with loops. What several threads do together is a
state machine: a `State`, labelled `Step`s, and theorems about every state of every `Run`. A step may read several
places, but it makes at most one access whose outcome another thread could still change: what else it reads is held
fixed by the thread's own position in its protocol. For a request task that is proved
(`RequestProtocol.InsideOnlyTheWriteIndexMoves`: the read index and the elements stay, only the write index moves); the
cleanup thread alone moves the read index; the recorders' searches run while no pop can happen. The exceptions are
listed under "Left out". The steps follow these lines.

| machine | labels | lines |
|---|---|---|
| all with a ring | `Reserve`, `Construct`, `Publish` | include/readoutlibs/models/detail/IterableQueueModel.hxx:159-168 |
| `SpscProtocol` | `Write...`, `Take...`, `PCount...`, `CCount...` | include/readoutlibs/models/detail/IterableQueueModel.hxx:157-264 |
| `RequestProtocol` | `Enter`, `EnterRecorder`, `Leave` | include/readoutlibs/models/detail/DefaultRequestHandlerModel.hxx:195-206, 136-148 |
| | `Look`, `Classify` | include/readoutlibs/models/detail/DefaultRequestHandlerModel.hxx:492-575 |
| | `Search` | include/readoutlibs/models/detail/DefaultRequestHandlerModel.hxx:421-433 |
| | `Scan`, `Advance`, `Settle` | include/readoutlibs/models/detail/DefaultRequestHandlerModel.hxx:440-471 |
| | `TestRunMarker`, `Build` | include/readoutlibs/models/detail/DefaultRequestHandlerModel.hxx:577-586, 618 |
| | `RequestCleanup` to `EndCleanup` | include/readoutlibs/models/detail/DefaultRequestHandlerModel.hxx:177-186, 335-358 |
| `RequestLifecycle` | `IssueRequest` to `PushBack` | include/readoutlibs/models/detail/DefaultRequestHandlerModel.hxx:190-245, 577-586 |
| | `BeginPass` to `ExitWaiter` | include/readoutlibs/models/detail/DefaultRequestHandlerModel.hxx:368-409 |
| | `ClearRunMarker`, `PoolJoined` | include/readoutlibs/models/detail/DefaultRequestHandlerModel.hxx:95-104 |
| `Recording` | `Start` to `KeepMark`, `LowerBound` | include/readoutlibs/models/detail/DefaultRequestHandlerModel.hxx:125-148 |
| | `LoadRead`, `LoadWrite` | include/readoutlibs/models/IterableQueueModel.hpp:256-288 |
| | `WriteFile` to `Stop` | include/readoutlibs/models/detail/DefaultRequestHandlerModel.hxx:150-166 |
| `ZeroCopyRecording` | `StartRecording` to `TakePointer` | include/readoutlibs/models/detail/ZeroCopyRecordingRequestHandlerModel.hxx:55-101 |
| | `WaitAgain` to `LeaveLoop` | include/readoutlibs/models/detail/ZeroCopyRecordingRequestHandlerModel.hxx:103-157 |
| | `FinishRecord`, `EndFinish` | include/readoutlibs/models/detail/ZeroCopyRecordingRequestHandlerModel.hxx:163-181 |
| `ReusableThread` | all | include/readoutlibs/utils/ReusableThread.hpp:37-117 |

## Assumptions

- Timestamps increase strictly, as docs/Directory-structure.md:27-28 demands of the searched buffers. Recording also
  needs elements that do not overlap. Frames of an element are one tick apart, and an element type has a constant
  number of frames.
- Timestamps leave room for two more elements below 2^64. The 64-bit subtractions that may wrap (of the search key
  and of one tick) are modelled as they are; `RequestProtocol` takes windows that begin at least one element after
  zero.
- A queue has at most 2^31 - 1 slots, because `occupancy` computes with signed 32-bit values.
- Atomic accesses are sequentially consistent. Percentages are reals.
- Zero-copy: an element fills its slot, no element has timestamp zero (the code's mark for "not started") or the
  largest 64-bit value (its mark for "not recording"), writes to the file succeed in full, and the buffer starts at an
  aligned address.
- The presence of the error `MISSING_FRAMES`, which selects the search, the clock, the watermark in
  `RequestProtocol`, and the duration of recordings are inputs that may take any value. "Answered" means that a
  send was attempted.

## Where the code differs from what one would expect

All of these are stated and proved; the code was followed.

- `lower_bound` is asked for one element before the window. A window that begins inside the oldest element, or
  before it, therefore yields nothing. A covered request of this kind is told to wait each time it is looked at, also
  after a time-out, until the cleanup has popped past its begin or the run ends; it is then answered without data
  (`DataRequest.DataRequest`, `RequestProtocol.CoveredRequestGetsSnapshot`). The branch commented "partial data is
  there" never delivers any data, and a partial answer is empty although buffered data overlaps the window, exactly when the oldest element starts
  before the window's end and ends after its begin (`DataRequest.NothingLostIff`, with an example in
  `DataRequest.BufferedFrameNotDelivered`).
- A window that begins less than one element after zero makes the search key wrap. With the binary search the answer is
  then `kFound` with no data; with the constant-time search the wrapped key is out of range and the answer is `kNotYet`
  (`FragmentPieces.GetFragmentPieces`).
- With a pop share of 1 the cleanup can empty the queue and then look at its front (`Cleanup.NewestSurvives`).
- For a third thread `occupancy` is the difference of the counts at its two loads only on a condition: when it loads the
  write index first, if and only if the consumer has not overtaken that index, and when it loads the read index first,
  which the language allows as well, if and only if less than a lap lies between (`SpscProtocol.ForeignOccupancy`).
  Otherwise it may exceed everything ever written (`SpscProtocol.ForeignOccupancyIsWrong`). The third thread is the one
  that collects monitoring data (include/readoutlibs/models/detail/ReadoutModel.hxx:207). Request tasks call it too, but
  inside the guarded section, where it is a lower bound (`RequestProtocol.InsideOnlyTheWriteIndexMoves`).
- A full queue drops the new element (`IterableQueue.IterableQueue.Write`); the log in
  include/readoutlibs/models/detail/ReadoutModel.hxx:270 says that data was overwritten.
- A request is left unanswered at the end of a run if and only if it is put on the waiting list after the waiting thread
  has gone (`RequestLifecycle.AfterStop`, with a run in `RequestLifecycle.LateRequestIsLost`).
- The default recorder stops making progress, and blocks the cleanup with it, when its watermark lies before the
  oldest element. While it has recorded nothing that takes a pop decided before the recording started
  (`Recording.StartIsNotStuck`, with a run in `Recording.StartRacesWithCleanup`). Later it takes a gap in the stream at
  which everything recorded had been popped (`Recording.ResumesUnlessGapAtFront`, with a run in `Recording.GapAfterPop`).
- The zero-copy recorder's `continue` after an unsuccessful search for an aligned element, meant to try again, belongs
  to the inner loop and goes on with an iterator that has run off the queue. With an alignment that divides 2^32 the
  address which that iterator names is not aligned, so the loop never ends, not even with the time for recording, and
  the cleanup pops nothing any more (`ZeroCopyRecording.AdriftForever`, with a run in `ZeroCopyRecording.SearchRunsOff`).
- With two or more setting threads an accepted task of a `ReusableThread` can be lost for good
  (`ReusableThread.TwoSettersLoseATask`); with one it cannot (`ReusableThread.NothingIsLost`).

## Model

| member | source | states |
|---|---|---|
| ZeroCopyRecording.OutputIsWholeRecords | include/readoutlibs/models/detail/ZeroCopyRecordingRequestHandlerModel.hxx:65-178 | In every run, a finished recording is the concatenation of whole consecutive records of the stream, none left out or repeated over any number of laps, starting with an aligned one and ending at a record boundary. |
| ZeroCopyRecording.EndsAtNextBoundary | include/readoutlibs/models/detail/ZeroCopyRecordingRequestHandlerModel.hxx:162-178 | In every run, a finished recording ends at the first record boundary at or after the place where its time was over: what was in the file stays, and less than a record is added. |
| ZeroCopyRecording.OneRecordCopied | include/readoutlibs/models/detail/ZeroCopyRecordingRequestHandlerModel.hxx:65-181 | A run of a whole recording that copies one of three records and, being at a boundary when its time is over, writes no more. |
| ZeroCopyRecording.OutputIsContiguous | include/readoutlibs/models/detail/ZeroCopyRecordingRequestHandlerModel.hxx:106-157 | At every moment of a run the file is a contiguous segment of the byte stream. |
| ZeroCopyRecording.CopiedBytesAreLive | include/readoutlibs/models/detail/ZeroCopyRecordingRequestHandlerModel.hxx:113-138 | Every single byte copied, while producer and cleanup take steps, is read inside the buffer, from a live slot, and is the next byte due. |
| ZeroCopyRecording.PointerStaysBetween | include/readoutlibs/models/detail/ZeroCopyRecordingRequestHandlerModel.hxx:103-156 | In ring order the pointer never passes the start of the back slot, and the record it is in is not popped: the watermark is at most that record's timestamp. |
| ZeroCopyRecording.PointerIsAligned | include/readoutlibs/models/detail/ZeroCopyRecordingRequestHandlerModel.hxx:107-143 | With chunks of a multiple of the alignment the "not aligned" branch is unreachable, and so is the wrap after a write that does not end at the end of the buffer. |
| ZeroCopyRecording.WalkKeepsUp | include/readoutlibs/models/detail/ZeroCopyRecordingRequestHandlerModel.hxx:113-139 | Nothing is written only if the back slot starts at most one chunk ahead; otherwise a non-empty write of at most a chunk begins. |
| ZeroCopyRecording.StartsAtFirstAligned | include/readoutlibs/models/detail/ZeroCopyRecordingRequestHandlerModel.hxx:79-101 | Recording starts at the first aligned live record; the search runs off the queue if and only if no live record is aligned. |
| ZeroCopyRecording.AdriftForever | include/readoutlibs/models/detail/ZeroCopyRecordingRequestHandlerModel.hxx:88-98 | With an alignment that divides 2^32, a search that has run off the queue never ends: over the whole rest of the run nothing is recorded and nothing popped. |
| ZeroCopyRecording.WildIffEndAligned | include/readoutlibs/models/detail/ZeroCopyRecordingRequestHandlerModel.hxx:88-98 | The inner loop leaves the queue for an address outside of it if and only if the address of slot 2^32 - 1 is aligned; with an alignment that divides 2^32 it never does. |
| ZeroCopyRecording.EndIsNotAligned | include/readoutlibs/models/detail/ZeroCopyRecordingRequestHandlerModel.hxx:88-88 | Were that address aligned, so would be every record. |
| ZeroCopyRecording.SearchRunsOff | include/readoutlibs/models/detail/ZeroCopyRecordingRequestHandlerModel.hxx:79-98 | A concrete run in which the only live record is not aligned and the search runs off the queue. |
| ZeroCopyRecording.StepInv | include/readoutlibs/models/detail/ZeroCopyRecordingRequestHandlerModel.hxx:48-185 | Every step of producer, cleanup thread and recorder keeps the invariant. |
| ZeroCopyRecording.RecorderCanMove | include/readoutlibs/models/detail/ZeroCopyRecordingRequestHandlerModel.hxx:65-178 | In every reachable state the recorder has a step to take, save for the wait for a cleanup; its accesses stay inside the buffer. |
| ZeroCopyRecording.ChooserMoves | include/readoutlibs/models/detail/ZeroCopyRecordingRequestHandlerModel.hxx:113-139 | At the choice one of the three ways is always open. |
| ZeroCopyRecording.CleanerStepInv | include/readoutlibs/models/detail/DefaultRequestHandlerModel.hxx:344-351 | Neither a check of the front nor a pop reaches the record the pointer is in. |
| ZeroCopyRecording.CheckIsExact | include/readoutlibs/models/detail/DefaultRequestHandlerModel.hxx:344-350 | In every run the check of the front decides to pop if and only if the oldest record is below the watermark; before a recording and after it, always. |
| ZeroCopyRecording.EndFromPointer | include/readoutlibs/models/detail/ZeroCopyRecordingRequestHandlerModel.hxx:113-121 | The physical comparison of pointer and end tells whether the walk has to wrap to reach the end, and how many bytes lie between. |
| ZeroCopyRecording.CompareEndInv | include/readoutlibs/models/detail/ZeroCopyRecordingRequestHandlerModel.hxx:103-103 | The write index loaded first and the read index loaded later are never equal while there is a pointer: the back pointer is not null, and less than a lap ahead. |
| ZeroCopyRecording.RaiseMarkInv | include/readoutlibs/models/detail/ZeroCopyRecordingRequestHandlerModel.hxx:151-156 | The timestamp read through the rounded-down pointer is that of the stream's record which the pointer is in. |
| ZeroCopyRecording.RestOfRecord | include/readoutlibs/models/detail/ZeroCopyRecordingRequestHandlerModel.hxx:164-177 | The bytes written at the end complete the started record and stay inside the buffer. |
| ByteStream.SlotOfByte | include/readoutlibs/models/detail/ZeroCopyRecordingRequestHandlerModel.hxx:151-156 | A byte of the stream lies in the slot of its record, at its place in it, however often the ring has wrapped. |
| Recording.RecordingIsContiguous | include/readoutlibs/models/detail/DefaultRequestHandlerModel.hxx:125-166 | At every moment of every run the file holds consecutive elements of the stream in order, none skipped or repeated. |
| Recording.CleanupStaysBehind | include/readoutlibs/models/detail/DefaultRequestHandlerModel.hxx:158-159 | The cleanup thread pops nothing that is still to be recorded. |
| Recording.RecordedMayBePopped | include/readoutlibs/models/detail/DefaultRequestHandlerModel.hxx:158-159 | In every run all that has been recorded is below the watermark once that is raised, so that the cleanup may pop it. |
| Recording.WrittenElementIsLive | include/readoutlibs/models/detail/DefaultRequestHandlerModel.hxx:150-157 | Throughout a write the iterator's slot is live and holds the element due next. |
| Recording.SearchFinds | include/readoutlibs/models/detail/DefaultRequestHandlerModel.hxx:133-142 | A search that returns an iterator returns the position needed next. |
| Recording.ResumesUnlessGapAtFront | include/readoutlibs/models/detail/DefaultRequestHandlerModel.hxx:133-150 | A recording under way resumes if and only if something it recorded is still buffered or the next element starts at the watermark; after a gap it is stuck. |
| Recording.StuckStep | include/readoutlibs/models/detail/DefaultRequestHandlerModel.hxx:127-163 | A watermark before the oldest element stays there: no step but the end of the recording records or pops anything. |
| Recording.StuckUntilStop | include/readoutlibs/models/detail/DefaultRequestHandlerModel.hxx:127-166 | Over whole runs, a stuck recording writes nothing, and the cleanup pops nothing, until the recording ends. |
| Recording.StartIsNotStuck | include/readoutlibs/models/detail/DefaultRequestHandlerModel.hxx:125-142 | In every run, a recording that started while no pop was decided and has written nothing is not stuck, whatever happened to earlier recordings. |
| Recording.StuckIffMarkPopped | include/readoutlibs/models/detail/DefaultRequestHandlerModel.hxx:127-142 | With nothing recorded and a watermark taken, the recording is stuck if and only if the element that gave the watermark has been popped. |
| Recording.StartRacesWithCleanup | include/readoutlibs/models/detail/DefaultRequestHandlerModel.hxx:125-142 | A concrete run in which a pop decided before the start leaves the recording stuck with an empty file. |
| Recording.GapAfterPop | include/readoutlibs/models/detail/DefaultRequestHandlerModel.hxx:133-159 | A concrete run in which a gap after the only recorded and popped element leaves the recording stuck. |
| Recording.CleanerStepInv | include/readoutlibs/models/detail/DefaultRequestHandlerModel.hxx:344-351 | Cleanup steps keep the recorder's invariant. |
| Recording.IdleCleanupPops | include/readoutlibs/models/detail/DefaultRequestHandlerModel.hxx:344-350 | In every run the check of the front decides to pop if and only if the oldest element is below the watermark; while no recording is going on, always. |
| Recording.LoadWriteInv | include/readoutlibs/models/IterableQueueModel.hpp:256-288 | The two loads of each `good` may be arbitrarily far apart: a stale read index keeps the iterator back at most, and never leads it past the data. |
| Recording.StepInv | include/readoutlibs/models/detail/DefaultRequestHandlerModel.hxx:119-172 | Every step of producer, cleanup thread and recorder keeps the invariant. |
| Recording.RecorderCanMove | include/readoutlibs/models/detail/DefaultRequestHandlerModel.hxx:127-163 | In every reachable state the recorder has a step to take, save for the wait for a cleanup. |
| RequestProtocol.MutualExclusion | include/readoutlibs/models/detail/DefaultRequestHandlerModel.hxx:136-206 | For any number of tasks, the recorder in its search among them, the counter is the number of tasks in the guarded section, and is zero from the start of a cleanup to its end. |
| RequestProtocol.EntersIffNoCleanup | include/readoutlibs/models/detail/DefaultRequestHandlerModel.hxx:193-199 | A request or the recorder enters the guarded section if and only if no cleanup is requested or under way. |
| RequestProtocol.InsideOnlyTheWriteIndexMoves | include/readoutlibs/models/detail/DefaultRequestHandlerModel.hxx:195-206 | Between a task's entry and its leaving the read index and the buffered elements stay, and `occupancy` is a lower bound. |
| RequestProtocol.WaitingCleanerMakesProgress | include/readoutlibs/models/detail/DefaultRequestHandlerModel.hxx:180-198 | While the cleanup waits no task enters, each that leaves lowers the counter, and with none left the cleanup can begin. |
| RequestProtocol.PiecesNameLiveSlots | include/readoutlibs/models/detail/DefaultRequestHandlerModel.hxx:414-476 | At every moment of every run each gathered piece names the slot of a buffered element, unchanged. |
| RequestProtocol.CoveredRequestGetsSnapshot | include/readoutlibs/models/detail/DefaultRequestHandlerModel.hxx:492-618 | The fragment sent for a request that was covered at its classification is the window filter of the buffer of that moment if the oldest element ended before the window began, else empty, whatever was written since, whichever search was used, and also when the run ends. |
| RequestProtocol.EveryAnswerIsExact | include/readoutlibs/models/detail/DefaultRequestHandlerModel.hxx:492-618 | Every fragment sent, with its exact condition: the window filter of a prefix of the data with all that was buffered at classification, or nothing. |
| RequestProtocol.WaitsOnlyDuringRun | include/readoutlibs/models/detail/DefaultRequestHandlerModel.hxx:577-586 | A task goes to the waiting list if and only if the run marker is set when it tests it, and only with a window of which the start or the end is missing. |
| RequestProtocol.WaitsIffMayWait | include/readoutlibs/models/detail/DefaultRequestHandlerModel.hxx:511-586 | In every run, while the run marker is set, a request with a non-empty window is told to wait if and only if it may: none whose data is still to come is answered early, and no other one waits. |
| RequestProtocol.LeavingAnswers | include/readoutlibs/models/detail/DefaultRequestHandlerModel.hxx:201-229 | Nothing is sent but the fragment of a task that leaves with one built, and that always. |
| RequestProtocol.TaskIsNeverBlocked | include/readoutlibs/models/detail/DefaultRequestHandlerModel.hxx:201-206 | No task in the guarded section is ever blocked; all its accesses are inside the buffer. |
| RequestProtocol.AnswerIsOverlap | include/readoutlibs/models/detail/DefaultRequestHandlerModel.hxx:440-471 | What a finished scan holds does not change with data written later. |
| RequestProtocol.CleanupIsBounded | include/readoutlibs/models/detail/DefaultRequestHandlerModel.hxx:335-357 | In every run the cleanup never looks at a front that is missing before a pop, pops only below the watermark, and with a share below one finds the final front, also when the share rounds down to no pop. |
| RequestProtocol.CleanupIsExact | include/readoutlibs/models/detail/DefaultRequestHandlerModel.hxx:335-352 | A cleanup in the middle of writes and requests pops exactly what the cleanup of a queue at rest pops: the longest prefix below the watermark within the share. |
| RequestProtocol.CleanupIsTriggered | include/readoutlibs/models/detail/DefaultRequestHandlerModel.hxx:180-180 | A cleanup is requested, and pops considered, if and only if more than the limit is buffered. |
| RequestProtocol.CleanupIsBlockedIff | include/readoutlibs/models/detail/DefaultRequestHandlerModel.hxx:335-358 | A cleanup under way always has a step to take, but when it looks at the front of a queue it has emptied. |
| RequestProtocol.TaskAfterConstruct | include/readoutlibs/models/detail/IterableQueueModel.hxx:165-166 | Constructing an element in place changes nothing a task has gathered. |
| RequestProtocol.WriteBeginsIffNotFull | include/readoutlibs/models/detail/IterableQueueModel.hxx:159-165 | A write begins if and only if fewer than `size - 1` elements are in the ring. |
| RequestProtocol.ScanInv | include/readoutlibs/models/detail/DefaultRequestHandlerModel.hxx:440-467 | One turn of the scan extends the gathered overlap by that of one element. |
| RequestProtocol.SearchInv | include/readoutlibs/models/detail/DefaultRequestHandlerModel.hxx:422-433 | The position at which the chosen search ends leaves out nothing that overlaps the window; a miss is answered or may wait. |
| RequestProtocol.MissInv | include/readoutlibs/models/detail/DefaultRequestHandlerModel.hxx:426-430 | A search that misses leaves a partial or waiting request that is owed no data; both searches are covered. |
| RequestProtocol.TestRunMarkerInv | include/readoutlibs/models/detail/DefaultRequestHandlerModel.hxx:578-586 | A request that might have waited and is answered at the end of the run is owed no data. |
| RequestProtocol.StepInv | include/readoutlibs/models/detail/DefaultRequestHandlerModel.hxx:177-206 | Every step of producer, tasks and cleanup thread keeps the invariant. |
| RequestLifecycle.RequestsAreConserved | include/readoutlibs/models/detail/DefaultRequestHandlerModel.hxx:190-245 | In every reachable state an issued request is exactly once in exactly one of posted, executing, waiting, answered. |
| RequestLifecycle.AnsweredIsFinal | include/readoutlibs/models/detail/DefaultRequestHandlerModel.hxx:207-229 | No request is answered twice or handled again after its answer. |
| RequestLifecycle.UnansweredCanMove | include/readoutlibs/models/detail/DefaultRequestHandlerModel.hxx:190-245 | In every reachable state something can be done about each unanswered request that is not on the waiting list. |
| RequestLifecycle.WaitingCanMove | include/readoutlibs/models/detail/DefaultRequestHandlerModel.hxx:368-406 | While the waiting thread is there, a request on the list can be issued again, also after the run marker has fallen. |
| RequestLifecycle.AfterStop | include/readoutlibs/models/detail/DefaultRequestHandlerModel.hxx:93-105 | After `stop` a request is unanswered if and only if it was put on the waiting list after the waiting thread had gone; it then had been told to wait before the run marker fell. |
| RequestLifecycle.AllAnsweredAfterStop | include/readoutlibs/models/detail/DefaultRequestHandlerModel.hxx:93-105 | When no request was on its way to the list as the run marker fell, all are answered. |
| RequestLifecycle.WaitingAfterExit | include/readoutlibs/models/detail/DefaultRequestHandlerModel.hxx:368-410 | Once the waiting thread has gone the list holds exactly what was put on it afterwards. |
| RequestLifecycle.LateRequestIsLost | include/readoutlibs/models/detail/DefaultRequestHandlerModel.hxx:223-229 | A concrete run that ends with an unanswered request. |
| RequestLifecycle.StepInv | include/readoutlibs/models/detail/DefaultRequestHandlerModel.hxx:368-409 | Every step keeps the multiset of all places equal to the set of issued requests. |
| WaitingRequests.WaitingRequests.Pass | include/readoutlibs/models/detail/DefaultRequestHandlerModel.hxx:372-406 | One pass splits the list, as a multiset, into kept and re-issued requests: none kept has its window complete or had waited for the timeout, in nanoseconds, at the start; each re-issued one is complete or has; a timed-out one asks for a partial answer; it terminates. |
| WaitingRequests.WaitingRequests.SwapRemove | include/readoutlibs/models/detail/DefaultRequestHandlerModel.hxx:381-382 | Swapping with the back and popping removes exactly one occurrence and leaves what was looked at already. |
| WaitingRequests.SwapPopRemovesOne | include/readoutlibs/models/detail/DefaultRequestHandlerModel.hxx:400-402 | The same about the specification function. |
| WaitingRequests.PassIsExact | include/readoutlibs/models/detail/DefaultRequestHandlerModel.hxx:378-406 | Of what is ready at the start of a pass no occurrence stays, of what is not ready at its end all stay. |
| WaitingRequests.TimedOutIff | include/readoutlibs/models/detail/DefaultRequestHandlerModel.hxx:384-384 | The whole milliseconds that have passed reach the timeout exactly when the nanoseconds do. |
| DataRequest.DataRequest | include/readoutlibs/models/detail/DefaultRequestHandlerModel.hxx:480-624 | For all windows and buffers, in each case of the classification and of a search that misses: the result code, the error bits, and the pieces delivered. |
| DataRequest.CoveredWindowIsInRange | include/readoutlibs/models/detail/DefaultRequestHandlerModel.hxx:511-512 | A covered window that begins at least one element after the oldest is found by either search. |
| DataRequest.FragmentIsFilter | include/readoutlibs/models/detail/DefaultRequestHandlerModel.hxx:618-618 | The delivered pieces hold exactly the buffered frames that overlap the window, in order, once each. |
| DataRequest.NothingLostIff | include/readoutlibs/models/detail/DefaultRequestHandlerModel.hxx:511-568 | For a covered window, or a partial answer, with any number of frames an element: nothing buffered is lost if and only if the oldest element ends before the window begins, starts at its end or later, or is missing. |
| DataRequest.BufferedFrameNotDelivered | include/readoutlibs/models/detail/DefaultRequestHandlerModel.hxx:513-522 | A concrete buffer and window with an overlapping frame, for which the pieces delivered are none. |
| FragmentPieces.GetFragmentPieces | include/readoutlibs/models/detail/DefaultRequestHandlerModel.hxx:414-476 | The loop gathers the pieces of the reference walk over all live elements, the same for both searches, or nothing when the window begins too early; `kNotYet` exactly when the search gives `end()`. |
| FragmentPieces.WindowPiecesAreFilter | include/readoutlibs/models/detail/DefaultRequestHandlerModel.hxx:440-471 | The reference walk selects exactly the frames that overlap the window, for any number of frames an element. |
| FragmentPieces.ElementPiecesAreFilter | include/readoutlibs/models/detail/DefaultRequestHandlerModel.hxx:442-466 | Skipping, splitting and copying whole agree with the frame filter on one element. |
| FragmentPieces.SplitPiecesAreFilter | include/readoutlibs/models/detail/DefaultRequestHandlerModel.hxx:453-459 | The comparison with the window's start less one tick selects the overlapping frames. |
| FragmentPieces.SplitElement | include/readoutlibs/models/detail/DefaultRequestHandlerModel.hxx:453-459 | The frame loop gathers the pieces of all frames that pass the comparison. |
| FragmentPieces.TakeElement | include/readoutlibs/models/detail/DefaultRequestHandlerModel.hxx:442-466 | The branches of the loop body gather the pieces of one element, of which `ElementPiecesAreFilter` says that they hold exactly its frames in the window. |
| FragmentPieces.SearchStartsAt | include/readoutlibs/models/detail/DefaultRequestHandlerModel.hxx:422-426 | Where either search starts: nothing before it overlaps the window; `end()` exactly when the key is out of range. |
| FragmentPieces.SearchPosStarts | include/readoutlibs/models/detail/DefaultRequestHandlerModel.hxx:422-426 | The position at which either search ends leaves out nothing that overlaps the window. |
| FragmentPieces.BeyondData | include/readoutlibs/models/detail/FixedRateQueueModel.hxx:21-26 | When only the constant-time search gives up, nothing buffered overlaps the window. |
| FragmentPieces.KeyWraps | include/readoutlibs/models/detail/DefaultRequestHandlerModel.hxx:422-422 | A window less than one element after zero makes the search key wrap to the top of the range. |
| LowerBound.BinarySearchLowerBound | include/readoutlibs/models/detail/BinarySearchQueueModel.hxx:8-59 | On a wrapped sorted ring: the first live element not older than the key, the write index if there is none, END exactly when empty or the key precedes the front; at most one probe more than the halvings of the range. |
| LowerBound.ResultIsFirstNotOlder | include/readoutlibs/models/detail/BinarySearchQueueModel.hxx:8-59 | The index found names the first element not older than the key on data with any gaps, and the write index exactly when all are older. |
| LowerBound.Midpoint | include/readoutlibs/models/detail/BinarySearchQueueModel.hxx:28-34 | The wrapped midpoint is the midpoint of the positions, no 32-bit value overflows, either half takes a halving less. |
| LowerBound.Probe | include/readoutlibs/models/detail/BinarySearchQueueModel.hxx:36-57 | What each comparison of the loop settles. |
| LowerBound.HalvingsIsLogarithmic | include/readoutlibs/models/detail/BinarySearchQueueModel.hxx:28-58 | The number of halvings is one more than the base-2 logarithm. |
| LowerBound.FixedRateIsExact | include/readoutlibs/models/detail/FixedRateQueueModel.hxx:8-40 | On gapless data the constant-time search returns the first position, perhaps the write index, newer than the key less one tick, and END exactly when the key is out of range. |
| LowerBound.FixedRateAgreesOnTicks | include/readoutlibs/models/detail/FixedRateQueueModel.hxx:8-40 | It equals the binary search for every key in range a whole number of ticks after the front. |
| LowerBound.RoundedOffset | include/readoutlibs/models/detail/FixedRateQueueModel.hxx:28-35 | Flooring to ticks and rounding up to elements, in terms of the key. |
| Cleanup.Cleanup | include/readoutlibs/models/detail/DefaultRequestHandlerModel.hxx:335-358 | Pops exactly the longest prefix below the watermark within the share of the occupancy, and nothing at or under the limit. |
| Cleanup.NewestSurvives | include/readoutlibs/models/detail/DefaultRequestHandlerModel.hxx:341-355 | With a share below one the newest element stays; with a share of one the front is missing exactly when every element is below the watermark. |
| Cleanup.Share | include/readoutlibs/models/detail/DefaultRequestHandlerModel.hxx:341-341 | The number to pop is the floor of the share. |
| SkipListCleanup.SkipList.Cleanup | include/readoutlibs/models/detail/DefaultSkipListRequestHandler.hxx:8-48 | With insertions going on, a triggered cleanup terminates having removed exactly what is too old compared with the element newest at the start, and leaves a span below the limit; otherwise it removes nothing. |
| SkipListCleanup.DropOne | include/readoutlibs/models/detail/DefaultSkipListRequestHandler.hxx:29-40 | Each removal leaves fewer elements that are too old. |
| RateLimiter.RateLimiter.constructor | include/readoutlibs/utils/RateLimiter.hpp:43-54 | The first deadline is one period after the first reading of the clock. |
| RateLimiter.RateLimiter.GetTime | include/readoutlibs/utils/RateLimiter.hpp:98-103 | Takes the next reading of the clock. |
| RateLimiter.RateLimiter.Limit | include/readoutlibs/utils/RateLimiter.hpp:73-95 | Returns with the first reading of the clock that is not before the deadline, or at once when the call came too late or not early, and moves or restarts the deadline; the wait terminates. |
| RateLimiter.RateBound | include/readoutlibs/utils/RateLimiter.hpp:73-95 | Over any run, also while the period is adjusted, the periods between two calls have passed but for the overshoot. |
| RateLimiter.ConstantRateBound | include/readoutlibs/utils/RateLimiter.hpp:73-95 | With a constant period, `j - i` periods. |
| RateLimiter.DeadlineAdvances | include/readoutlibs/utils/RateLimiter.hpp:76-93 | Each call moves the deadline on by at least its period. |
| RateLimiter.DeadlineIsBounded | include/readoutlibs/utils/RateLimiter.hpp:76-93 | Each call moves the deadline by exactly a period or, when too late, to a period after its entry. |
| RateLimiter.OnScheduleIsExact | include/readoutlibs/utils/RateLimiter.hpp:78-93 | Calls that are never too late keep the schedule exactly. |
| ReusableThread.EachTaskRunsOnce | include/readoutlibs/utils/ReusableThread.hpp:76-117 | With one setter each accepted task is called at most once, in order, and at most one is pending. |
| ReusableThread.ReadyMeansCompleted | include/readoutlibs/utils/ReusableThread.hpp:72-72 | Readiness after an acceptance means that all accepted tasks have completed. |
| ReusableThread.AcceptedIffServed | include/readoutlibs/utils/ReusableThread.hpp:76-85 | With one setter a task is accepted if and only if all accepted before have completed and the worker has cleared its marks. |
| ReusableThread.RunningTaskIsStable | include/readoutlibs/utils/ReusableThread.hpp:76-112 | The task is not overwritten while it runs. |
| ReusableThread.QuitAfterCompletion | include/readoutlibs/utils/ReusableThread.hpp:37-48 | The destructor does not lose an accepted task. |
| ReusableThread.ThreadServesAndQuits | include/readoutlibs/utils/ReusableThread.hpp:37-117 | A run in which a task is set, runs and completes, and the destructor then ends the thread. |
| ReusableThread.NothingIsLost | include/readoutlibs/utils/ReusableThread.hpp:76-117 | With one setter no accepted task is ever lost. |
| ReusableThread.TwoSettersLoseATask | include/readoutlibs/utils/ReusableThread.hpp:76-111 | For every number of setters from two on, a concrete run in which an accepted task is lost. |
| ReusableThread.LostForever | include/readoutlibs/utils/ReusableThread.hpp:76-111 | Over whole runs and with any number of setters, a lost task stays lost, nothing is accepted or completed any more, and the thread is never ready. |
| ReusableThread.StepInv | include/readoutlibs/utils/ReusableThread.hpp:37-117 | Every step keeps the one-setter invariant. |
| SpscProtocol.QueueIsFifo | include/readoutlibs/models/detail/IterableQueueModel.hxx:157-212 | Under all interleavings of single accesses, what was written is what was consumed followed by the live contents, at most `size - 1` of them. |
| SpscProtocol.NoSlotShared | include/readoutlibs/models/detail/IterableQueueModel.hxx:165-192 | Producer and consumer never access the same slot at once, the destruction of a moved-out element included. |
| SpscProtocol.RefusalIsHonest | include/readoutlibs/models/detail/IterableQueueModel.hxx:165-185 | A write is refused exactly when the queue is full at the check, a read exactly when it is empty. |
| SpscProtocol.OccupancyIsOneSided | include/readoutlibs/models/detail/IterableQueueModel.hxx:248-264 | `occupancy` is a lower bound for the consumer and an upper bound for the producer, and in either case lies between the sizes at its first load and now. |
| SpscProtocol.CountBegins | include/readoutlibs/models/detail/IterableQueueModel.hxx:258-259 | What is remembered as the size at the first load is the number of live elements then. |
| SpscProtocol.ForeignOccupancy | include/readoutlibs/models/detail/IterableQueueModel.hxx:253-263 | For a third thread, with the two loads in either order: the value is the difference of the counts loaded if and only if the consumer has not overtaken the write index loaded first (then a lower bound), or, read index first, if and only if less than a lap lies between (then an upper bound). |
| SpscProtocol.ForeignOccupancyIsWrong | include/readoutlibs/models/detail/IterableQueueModel.hxx:253-263 | For a third thread it may exceed everything ever written. |
| SpscProtocol.CompleteWrite | include/readoutlibs/models/detail/IterableQueueModel.hxx:157-169 | The producer alone completes a write into a queue that is not full. |
| SpscProtocol.CompleteTake | include/readoutlibs/models/detail/IterableQueueModel.hxx:179-195 | The consumer alone completes a read from a queue that is not empty. |
| RingBuffer.RingConstruct | include/readoutlibs/models/detail/IterableQueueModel.hxx:165-166 | Constructing at the write index disturbs no element, and that index is not `good`. |
| RingBuffer.GoodIffWritten | include/readoutlibs/models/IterableQueueModel.hpp:280-288 | An iterator at a position that was reached is `good` exactly when an element has been written there. |
| RingBuffer.GoodAfterPublish | include/readoutlibs/models/IterableQueueModel.hpp:280-288 | What is `good` stays so when the producer publishes. |
| RingMath.GoodIffLive | include/readoutlibs/models/IterableQueueModel.hpp:284-287 | The three-way test holds exactly of the indices between read and write. |
| RingMath.Distance | include/readoutlibs/models/detail/IterableQueueModel.hxx:258-263 | The corrected signed difference is the forward distance. |
| RingMath.SlotIsRemainder | include/readoutlibs/models/detail/IterableQueueModel.hxx:160-163 | Wrapping by comparison is the remainder of the position. |
| IterableQueue.IterableQueue.constructor | include/readoutlibs/models/IterableQueueModel.hpp:95-125 | A new queue is empty. |
| IterableQueue.IterableQueue.Write | include/readoutlibs/models/detail/IterableQueueModel.hxx:157-174 | Appends, or changes nothing but the overflow counter exactly when `size - 1` slots are used; live slots are untouched. |
| IterableQueue.IterableQueue.Read | include/readoutlibs/models/detail/IterableQueueModel.hxx:179-195 | Returns and removes the oldest element, or nothing when empty. |
| IterableQueue.IterableQueue.PopFront | include/readoutlibs/models/detail/IterableQueueModel.hxx:200-212 | Removes the oldest element. |
| IterableQueue.IterableQueue.Pop | include/readoutlibs/models/detail/IterableQueueModel.hxx:217-222 | Removes the oldest `x` elements. |
| IterableQueue.IterableQueue.Flush | include/readoutlibs/models/IterableQueueModel.hpp:235-235 | Empties the queue. |
| IterableQueue.IterableQueue.IsEmpty | include/readoutlibs/models/detail/IterableQueueModel.hxx:227-230 | Equal indices mean no contents. |
| IterableQueue.IterableQueue.IsFull | include/readoutlibs/models/detail/IterableQueueModel.hxx:235-246 | Full means `size - 1` elements. |
| IterableQueue.IterableQueue.Occupancy | include/readoutlibs/models/detail/IterableQueueModel.hxx:256-264 | The number of elements. |
| IterableQueue.IterableQueue.Front | include/readoutlibs/models/detail/IterableQueueModel.hxx:269-276 | The slot of the oldest element, null exactly when empty. |
| IterableQueue.IterableQueue.Back | include/readoutlibs/models/detail/IterableQueueModel.hxx:281-294 | The slot of the newest element, null exactly when empty. |
| IterableQueue.IterableQueue.Begin | include/readoutlibs/models/IterableQueueModel.hpp:297-305 | The oldest element, or END. |
| IterableQueue.Iterator.IsGood | include/readoutlibs/models/IterableQueueModel.hpp:280-288 | `good` exactly when a live element is named. |
| IterableQueue.Iterator.Advance | include/readoutlibs/models/IterableQueueModel.hpp:256-268 | One element forward; END exactly when no live element is left. |
| IterableQueue.Sweep | include/readoutlibs/models/IterableQueueModel.hpp:241-310 | An iteration from `begin` visits the live elements, each once, oldest first. |

## Left out

- Memory allocation, NUMA, alignment allocators, prefill, `conf` and `scrap` of the queue; records are values in an array, and destructors do nothing.
- Weak memory orderings: the steps are sequentially consistent.
- File and compression streams, failing and short writes to a file, `fcntl`, the flags of the file.
- Sending over iomanager, asio, logging, operational monitoring counters, JSON configuration, thread pinning.
- The error registry, but for the choice of the search; what it forgets after a cleanup is only a timestamp here.
- `buffer_copy` and `dump_to_buffer`, `SourceEmulatorModel`, `TaskRawDataProcessorModel`, the error generators: they would add easy members or depend on types that are not part of this model.
- The inside of the concurrent skip list, and a removal in it that fails because another thread removed the element first; `SkipListLatencyBufferModel::pop`.
- Wake-ups: a wait may end at any time, so nothing is claimed about when a `ReusableThread` picks up its task.
- Rounding of floating-point percentages and of `RateLimiter::adjust`; the overflow of 64-bit nanoseconds; a `nanosleep` that fails.
- Elements of one type with different numbers of frames.
- Recording.LoadFrontInv: the two loads of `front()` and the reading of the timestamp are one step; what is left out is a pop between them, which only a cleanup that decided it before the recording started could take, since from then on the watermark is zero.
- Recording.LowerBoundInv: the whole search is one step; the search reads the indices once and then only live slots, which no other thread changes.
- RequestProtocol.SearchInv: the whole search is one step, for the same reason; the constant-time search is used only on gapless data.
- RequestProtocol.EveryAnswerIsExact: the fragments, not their result codes and error bits, which `DataRequest.DataRequest` states for a buffer at rest.
- SkipListCleanup.SkipList.Cleanup: insertions happen between removals, and finitely many of them during one cleanup.
- ZeroCopyRecording.SkipRecordInv: of the three evaluations of `good` in one increment only the second is a step; no pop can happen in this phase, so the first still holds and the third repeats the second.
- ZeroCopyRecording.WildIffEndAligned: what a recorder does with an address outside the buffer, which takes an alignment that does not divide 2^32, is not modelled.
