# OpenAL sound output, modelled in Dafny

This project models the OpenAL sound-output class of the emulator's Win32 front end
(`trunk/src/win32/OpenAL.cpp`). The class keeps a fixed ring of `oalBufferCount`
playback buffers queued on one OpenAL source. It feeds the source one emulated frame of
sound per `write()`. The first `write()` fills and queues every buffer. Each later
`write()` takes one processed buffer off the front of the source's queue, refills it and
queues it again at the back. When nothing has been processed yet, the pacing flags decide
between dropping the frame and blocking until the device finishes a buffer.

The files:

- `AL.dfy` (module `AL`): the OpenAL source, reduced to its queue of buffer names, the
  number of them (from the front) already played, its state (Initial, Playing, Paused,
  Stopped), and the list of requests `issued` to it. There is one pure function per
  library call the class makes, plus `Advance`, the device playing on its own. `Valid`
  is the source's consistency:
  - the processed buffers are a prefix of the queue;
  - a source that never played has processed nothing;
  - a stopped source has every queued buffer marked processed;
  - a playing or paused source still has a buffer left to play.
- `FrameTiming.dfy` (module `FrameTiming`): the integer frame sizing. The sample rate is
  `44100 / soundQuality`. The frame length is `(freq / 60) * 4` bytes. The wait's sleep is
  `soundBufferLen / (freq >> 7)` milliseconds.
- `OpenALSpec.dfy` (module `OpenALSpec`): an `Engine` value holding the object's whole
  state (its guard flags, handle array, last unqueued handle, frame timing and source).
  It gives one pure function per operation and the invariant `Inv` that every operation
  keeps. The lemmas state what the source promises about these functions.
- `OpenALSound.dfy` (module `OpenALSound`): the class `OpenAL` with the source's fields.
  Its state-changing methods have `modifies` clauses, and each is proved to leave exactly
  the state its `OpenALSpec` function gives. The initial fill's `for` loop and the
  blocking wait's `while` loop are kept as loops, with invariants, in `FillBuffers` and
  `WaitForBuffer`. These two change no field: they read the object and return the
  `Source` the loop ends with, which `LoadBuffers` and `RefreshBuffer` then store.

Things the source reads from the rest of the program are passed in as parameters:
- `write` reads `speedup`, `synchronize`, `theApp.throttle`, `soundPaused` and the
  verbosity flag, passed as the `Flags` value.
- `init` reads `soundQuality`, passed as a parameter.
- `oalBufferCount` is the constructor's parameter, fixed for the object's lifetime as the
  const `bufferCount`. The source reads `theApp.oalBufferCount` afresh at each use (lines
  87, 107, 187, 275, 282 and 292), so the model assumes the setting does not change
  while the object exists.
- The outcome of loading the OpenAL library is `init`'s `libraryLoaded` parameter.
- The names `alGenBuffers` returns are `init`'s `names` parameter. They are assumed
  distinct, as the library promises for the names it generates.

While the blocking wait sleeps, the device finishes `polls[i]` buffers during the i-th
sleep. Between calls, `DevicePlays` lets the device finish buffers on its own.

The source's transitions follow the OpenAL 1.1 specification:
- Playing a source that is not paused restarts it from the front of its queue.
- A source whose last queued buffer finishes stops.
- Stopping a source that has been played marks every queued buffer processed.
- Stopping a source that never played (state Initial) is legal and changes nothing.

One behaviour the specification leaves to the implementation follows OpenAL Soft: a
buffer queued on a stopped source counts as processed.

Four behaviours of the code are worth noting:
- `pause`, `resume` and `reset` issue their call only when the source's state requires
  it. They do not set a transport state of their own.
- The under-refill diagnostic fires when every buffer is processed, not when none is.
- Only one `write` performs the initial fill.
- After a first `write` with sound paused, the source stays Initial with nothing
  processed. Every later `write` that may not wait then drops the frame before the
  play request, so the source starts only through `resume`.

## Model

| member | source | states |
|---|---|---|
| FrameTiming.SampleRate | trunk/src/win32/OpenAL.cpp:193 | the rate is the floor of 44100 over the quality divisor: `quality` copies of it fit in 44100 and one more does not |
| FrameTiming.FrameBytes | trunk/src/win32/OpenAL.cpp:195-197 | the frame length is whole 4-byte sample frames: the number of them times 60 is at most freq, and one more frame per 60th of a second would exceed it |
| FrameTiming.SleepInterval | trunk/src/win32/OpenAL.cpp:306-308 | the sleep is the floor of the frame length over `freq >> 7`; it is defined only when freq >= 128 |
| FrameTiming.SleepDefinedIff | trunk/src/win32/OpenAL.cpp:308 | the shift `freq >> 7` is nonzero (so the division is defined) exactly for quality divisors up to 344 |
| FrameTiming.StandardQualities | trunk/src/win32/OpenAL.cpp:193-197 | quality 1, 2 and 4 give 44100/2940, 22050/1468 and 11025/732, and each sleeps 8 ms |
| AL.BufferData | trunk/src/win32/OpenAL.cpp:324 | a refill records one request and leaves the queue, the processed count and the state alone |
| AL.SourceQueueBuffers | trunk/src/win32/OpenAL.cpp:328 | queued names go to the back; the state is kept; the new buffers are unplayed unless the source is stopped |
| AL.SourceUnqueueBuffer | trunk/src/win32/OpenAL.cpp:319-321 | only a processed buffer can be unqueued; it is the front of the queue, and the processed count drops by one |
| AL.SourcePlay | trunk/src/win32/OpenAL.cpp:336 | the source plays (it stops at once if the queue is empty); a paused source resumes where it was, any other restarts from the front |
| AL.SourcePause | trunk/src/win32/OpenAL.cpp:237 | a playing source becomes paused; queue and progress are kept |
| AL.SourceStop | trunk/src/win32/OpenAL.cpp:255 | a source that has been played stops with every queued buffer processed; a source that never played is left as it was; the stop is recorded either way |
| AL.SourceDetach | trunk/src/win32/OpenAL.cpp:101 | detaching the buffers of a stopped or never-played source empties its queue and keeps its state |
| AL.Advance | trunk/src/win32/OpenAL.cpp:304-311 | the device only progresses while playing; it never loses progress; a positive step on a playing source raises the count; finishing the last queued buffer stops the source |
| OpenALSpec.Constructed | trunk/src/win32/OpenAL.cpp:81-91 | a new object is uninitialized, has a zeroed handle array of the configured size and satisfies the invariant |
| OpenALSpec.Init | trunk/src/win32/OpenAL.cpp:164-203 | a failed library load changes nothing; on success the generated names, a fresh source, the floor-divided rate and `(freq / 60) * 4` are installed and the object is initialized |
| OpenALSpec.InitKeepsInv | trunk/src/win32/OpenAL.cpp:187-201 | init with distinct generated names keeps the invariant |
| OpenALSpec.Wait | trunk/src/win32/OpenAL.cpp:302-311 | the wait loop exits only with a processed buffer, changes neither the queue nor the requests, and is skipped when something is already processed |
| OpenALSpec.FillAll | trunk/src/win32/OpenAL.cpp:275-280 | the fill loop issues exactly one refill per handle, in handle order, and nothing else |
| OpenALSpec.Feed | trunk/src/win32/OpenAL.cpp:272-330 | the first time, every handle is refilled and queued onto the empty queue; afterwards exactly one front buffer is unqueued, refilled and requeued at the back |
| OpenALSpec.StartIfNeeded | trunk/src/win32/OpenAL.cpp:332-338 | the final state check leaves the queue and all other fields alone and adds a play request only when sound is not paused and the source is not playing |
| OpenALSpec.Blocks | trunk/src/win32/OpenAL.cpp:302 | the pacing policy under which write waits: not sped up, synchronized, and unthrottled |
| OpenALSpec.WritePre | trunk/src/win32/OpenAL.cpp:302-311 | write's demand on its callers bites only when the wait runs (initialized, loaded, blocking, nothing processed): there it needs `freq >= 128` and a playing source that finishes a buffer during one of the polls; in every other state it holds |
| OpenALSpec.Drops | trunk/src/win32/OpenAL.cpp:312-314 | a write drops only in steady state with nothing processed outside the blocking policy; a dropped frame is never reported as underfed when the ring has buffers |
| OpenALSpec.Underfed | trunk/src/win32/OpenAL.cpp:292-300 | the diagnostic is logged in steady state, when verbose, exactly when every buffer is processed and the throttle is 0 or at least 100 |
| OpenALSpec.Write | trunk/src/win32/OpenAL.cpp:262-339 | write keeps the configuration (initialized, handles, rate, frame length); once initialized the buffers are loaded and the queue holds exactly the object's buffers; a write that does not drop, with sound not paused, issues requests |
| OpenALSpec.Pause | trunk/src/win32/OpenAL.cpp:225-241 | pause changes only the source, keeps its queue and progress, and once loaded leaves it not playing |
| OpenALSpec.Resume | trunk/src/win32/OpenAL.cpp:206-222 | resume changes only the source, keeps its queue, and once loaded with a non-empty queue leaves it playing |
| OpenALSpec.Reset | trunk/src/win32/OpenAL.cpp:244-259 | reset changes only the source, keeps its queue, and once loaded leaves it stopped or, if it never played, Initial |
| OpenALSpec.Teardown | trunk/src/win32/OpenAL.cpp:94-120 | the destructor changes only the source; after init it leaves the queue empty and the source neither playing nor paused |
| OpenALSpec.PausedStartStaysSilent | trunk/src/win32/OpenAL.cpp:272-338 | after a first write with sound paused the source is Initial, every later write that may not wait drops and changes nothing, and resume then starts it |
| OpenALSpec.UninitializedIsInert | trunk/src/win32/OpenAL.cpp:206-264 | before init, write, pause, resume, reset and the destructor (line 96) change nothing |
| OpenALSpec.TransportWaitsForFill | trunk/src/win32/OpenAL.cpp:206-248 | until the buffers are loaded, pause, resume and reset change nothing |
| OpenALSpec.WriteKeepsInv | trunk/src/win32/OpenAL.cpp:262-339 | write keeps the invariant: after the fill, the queue holds the object's buffers exactly as the handle array does |
| OpenALSpec.TransportKeepsInv | trunk/src/win32/OpenAL.cpp:206-259 | pause, resume and reset keep the invariant |
| OpenALSpec.AdvanceKeepsInv | trunk/src/win32/OpenAL.cpp:304-311 | the device playing on its own keeps the invariant |
| OpenALSpec.FirstWriteFills | trunk/src/win32/OpenAL.cpp:272-285 | the first write refills every buffer in order, queues all of them in handle order onto the empty queue, sets buffersLoaded, and requests play unless sound is paused |
| OpenALSpec.LoadedStaysLoaded | trunk/src/win32/OpenAL.cpp:244-285 | no operation clears buffersLoaded, so the initial fill never runs twice |
| OpenALSpec.WriteAfterResetRecycles | trunk/src/win32/OpenAL.cpp:244-330 | after reset a source that had been played is stopped with every buffer processed, so the next write neither drops, waits nor refills and rotates the queue by one; a source that never played keeps nothing processed, so the next write drops, or cannot end its wait under the blocking policy |
| OpenALSpec.DropChangesNothing | trunk/src/win32/OpenAL.cpp:312-314 | a steady-state write with nothing processed, outside the blocking policy, changes nothing and issues nothing (no play request) |
| OpenALSpec.RecycleRotates | trunk/src/win32/OpenAL.cpp:318-329 | a recycle moves exactly the front buffer to the back, even if several are processed, so the queue keeps its length and its buffers; the requests are one unqueue, one refill and one queue of that buffer |
| OpenALSpec.WriteRecyclesIff | trunk/src/win32/OpenAL.cpp:302-316 | in steady state, write issues requests exactly when a buffer is processed or the blocking policy is in force |
| OpenALSpec.Ready | trunk/src/win32/OpenAL.cpp:302-316 | the source a recycle unqueues from has a processed buffer, the same queue and no new requests |
| OpenALSpec.WaitOnlyWhenBlocking | trunk/src/win32/OpenAL.cpp:302-321 | a steady-state write that does not drop waits exactly when nothing is processed, which happens only under the blocking policy; otherwise it unqueues from the source as it is; the recycle consumes one processed buffer |
| OpenALSpec.BlockingWaitNeedsPlaying | trunk/src/win32/OpenAL.cpp:302-311 | under the blocking policy, a source with nothing processed that is not playing never progresses, so the wait cannot end and write is outside its precondition |
| OpenALSpec.WritePlaysIff | trunk/src/win32/OpenAL.cpp:332-338 | a write that does not drop ends with a play request exactly when sound is not paused and the source is not playing after the requeue |
| OpenALSpec.WriteLeavesPlaying | trunk/src/win32/OpenAL.cpp:332-338 | with sound not paused and at least one buffer, the source plays after every write that does not drop |
| OpenALSpec.UnderfedMeansStopped | trunk/src/win32/OpenAL.cpp:292-300 | the diagnostic fires only with every buffer processed at a throttle of 0 or at least 100, and then the source has stopped (it ran dry or was reset) |
| OpenALSpec.PauseIff | trunk/src/win32/OpenAL.cpp:233-239 | pause requests a pause exactly when the source plays; queue and progress are unchanged |
| OpenALSpec.ResumeIff | trunk/src/win32/OpenAL.cpp:214-220 | resume requests play exactly when the source does not play; the queue is unchanged |
| OpenALSpec.ResetIff | trunk/src/win32/OpenAL.cpp:251-257 | reset requests a stop exactly when the source is not stopped; the queue is kept; a source that had been played is then stopped with all of it processed, one that never played stays Initial with nothing processed |
| OpenALSpec.PauseThenResume | trunk/src/win32/OpenAL.cpp:206-241 | pause then resume returns a playing source to playing with the same queue and progress, by one pause and one play request |
| OpenALSpec.QueueHoldsEachBufferOnce | trunk/src/win32/OpenAL.cpp:282-329 | once loaded, the queue holds each of the object's buffers exactly once, so no buffer is queued twice |
| OpenALSpec.TeardownReleases | trunk/src/win32/OpenAL.cpp:94-120 | the destructor does nothing before init; otherwise it stops the source (a never-played source stays Initial), detaches the buffers (emptying the queue) and deletes the source and the buffers |
| OpenALSpec.FourBufferScenario | trunk/src/win32/OpenAL.cpp:193-285 | with four buffers at quality 1 the rate is 44100 and the frame 2940 bytes, and the first write queues all four names in order and starts playing |
| OpenALSound.OpenAL.constructor | trunk/src/win32/OpenAL.cpp:81-91 | the new object is the constructed state, with a fresh zeroed handle array |
| OpenALSound.OpenAL.Init | trunk/src/win32/OpenAL.cpp:164-203 | init leaves the state `OpenALSpec.Init` gives, keeps the invariant, and returns whether the library loaded |
| OpenALSound.OpenAL.Resume | trunk/src/win32/OpenAL.cpp:206-222 | resume leaves the state `OpenALSpec.Resume` gives and keeps the invariant |
| OpenALSound.OpenAL.Pause | trunk/src/win32/OpenAL.cpp:225-241 | pause leaves the state `OpenALSpec.Pause` gives and keeps the invariant |
| OpenALSound.OpenAL.Reset | trunk/src/win32/OpenAL.cpp:244-259 | reset leaves the state `OpenALSpec.Reset` gives and keeps the invariant |
| OpenALSound.OpenAL.Write | trunk/src/win32/OpenAL.cpp:262-339 | write leaves the state `OpenALSpec.Write` gives, keeps the invariant, and reports the diagnostic exactly when `OpenALSpec.Underfed` holds |
| OpenALSound.OpenAL.LoadBuffers | trunk/src/win32/OpenAL.cpp:272-285 | the initial-fill branch leaves the state `OpenALSpec.Feed` gives |
| OpenALSound.OpenAL.RefreshBuffer | trunk/src/win32/OpenAL.cpp:286-330 | the refresh branch (optional wait, unqueue, refill, requeue) leaves the state `OpenALSpec.Feed` gives |
| OpenALSound.OpenAL.StartIfNeeded | trunk/src/win32/OpenAL.cpp:332-338 | the final state check leaves the state `OpenALSpec.StartIfNeeded` gives |
| OpenALSound.OpenAL.FillBuffers | trunk/src/win32/OpenAL.cpp:275-280 | the `for` loop issues the refills `OpenALSpec.FillAll` describes, in array order |
| OpenALSound.OpenAL.WaitForBuffer | trunk/src/win32/OpenAL.cpp:302-311 | the `while` loop ends in the state `OpenALSpec.Wait` gives, with a processed buffer |
| OpenALSound.OpenAL.Destroy | trunk/src/win32/OpenAL.cpp:94-120 | the destructor leaves the state `OpenALSpec.Teardown` gives |
| OpenALSound.OpenAL.DevicePlays | trunk/src/win32/OpenAL.cpp:304-311 | the device playing on its own between calls changes only the source, as `AL.Advance` describes, and keeps the invariant |

## Left out

- OpenALSound.OpenAL.Write: when the blocking wait would run, it requires that `freq >= 128`, that the source plays, and that the device finishes a buffer during one of the sleeps described by `polls`. Without these, the source divides by zero or waits forever, and the model does not describe a wait that never ends. One such case is reachable: with sound paused, the first write leaves the source Initial, and a blocking write then finds nothing processed and sleeps forever; `OpenALSpec.BlockingWaitNeedsPlaying` states that no poll sequence ends that wait.
- Library and device setup (`LoadOAL10Library`, `alcOpenDevice`, `alcCreateContext`, `alcMakeContextCurrent`) is a foreign call. The model reduces it to the `libraryLoaded` parameter, and the names `alGenBuffers` returns are the `names` parameter. The `assert`s on device and context creation are debug checks and are not modelled as failure paths.
- OpenALSound.OpenAL.Init: requires `!initialized`, which the source only checks with a debug `assert` (line 167), and `soundQuality >= 1`, since the division at line 193 is undefined otherwise. The model does not describe a second init or a zero divisor.
- The `systemMessage` shown to the user when the library fails to load (line 170) is I/O; the model keeps only the `false` result.
- `setsystemSoundOn(true)` in init is a call into the rest of the program and is not modelled.
- `Sleep` and real time: the device's asynchronous playback becomes discrete steps. These are the `polls` of the wait and `DevicePlays` between calls. The poll that follows a sleep and the unqueue are treated as atomic.
- Sample content (`soundFinalWave`, and the format, length and frequency arguments of `alBufferData`) is opaque. A refill is recorded only as a request.
- Logging and debugging (`winlog`, `debugState`, `log` and its static message counter, `LOGALL`) and `ASSERT_SUCCESS` error polling are I/O. The diagnostic is modelled as `Write`'s boolean result.
- The `malloc`, `memset` and `free` of the handle array, and the destructor's context and device release (`alcMakeContextCurrent(NULL)`, `alcDestroyContext`, `alcCloseDevice`), are memory and foreign release. The destructor model stops at deleting the source and the buffers.
- Before init, `freq` is uninitialized and `soundBufferLen` is a global with some earlier value. The model holds 0 for both.
- The `newOpenAL` factory (lines 342-346) only allocates an object, which the constructor covers.
- `dependencies/File_Extractor-0.4.2/7z_C/LZMA_C/LzmaTypes.h` holds only integer type definitions. It is not part of this model.
