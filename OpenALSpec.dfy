/**
 The OpenAL sound output of the Win32 front end, as pure functions over the
 whole state one `OpenAL` object and its source have: what each operation
 leaves behind, and the lemmas about it. The class in OpenALSound.dfy is
 proved to do exactly what these functions say.
 */
module OpenALSpec {
  import opened AL
  import FrameTiming

  /**
   The process-wide settings `write` reads on each call: speed-up (turbo) mode,
   synchronisation to the sound card, the throttle percentage (0 means
   unthrottled), whether the emulator has paused sound, and whether sound
   diagnostics are logged.
   */
  datatype Flags = Flags(speedup: bool, synchronize: bool, throttle: int, soundPaused: bool, verbose: bool)

  /**
   One sound-output object: its two guard flags, the handle array, the last
   handle taken off the queue, the frame timing computed by init, and the
   device's source.
   */
  datatype Engine = Engine(
    initialized: bool,
    buffersLoaded: bool,
    handles: seq<Handle>,
    temp: Handle,
    freq: int,
    bufferLen: int,
    src: Source)

  /** Every buffer name occurs at most once. */
  predicate Distinct(hs: seq<Handle>) {
    forall i, j :: 0 <= i < j < |hs| ==> hs[i] != hs[j]
  }

  /**
   What every operation keeps: a consistent source; nothing happens to the
   source before init; the buffers are generated once and are distinct; the
   frame timing stays what init computed; until
   the first write nothing is queued or played; after it, the queue holds each
   of the object's buffers exactly as often as the handle array does.
   */
  ghost predicate Inv(e: Engine) {
    && Valid(e.src)
    && (!e.initialized ==> !e.buffersLoaded && e.src == Fresh)
    && (e.initialized ==> Distinct(e.handles))
    && (e.initialized ==> 0 <= e.freq && e.bufferLen == FrameTiming.FrameBytes(e.freq))
    && (!e.buffersLoaded ==> e.src.queue == [] && e.src.state == Initial)
    && (e.buffersLoaded ==> multiset(e.src.queue) == multiset(e.handles))
  }

  /** The object right after its constructor: uninitialized, a zeroed handle array. */
  function Constructed(count: nat): (e: Engine)
    ensures Inv(e) && |e.handles| == count
  {
    Engine(false, false, seq(count, _ => 0), 0, 0, 0, Fresh)
  }

  // ---------------------------------------------------------------- init

  /**
   init: when the library cannot be loaded nothing changes; otherwise the
   library's generated names fill the handle array, a fresh source is made,
   and the frame timing is derived from the quality divisor.
   */
  function Init(e: Engine, libraryLoaded: bool, names: seq<Handle>, quality: int): (r: Engine)
    requires !e.initialized && |names| == |e.handles| && quality >= 1
    ensures r.initialized == libraryLoaded
    ensures !libraryLoaded ==> r == e
    ensures r.buffersLoaded == e.buffersLoaded
    ensures libraryLoaded ==> r.handles == names && r.src == Fresh
    ensures libraryLoaded ==> r.freq * quality <= 44100 < (r.freq + 1) * quality
    ensures libraryLoaded ==> r.bufferLen == (r.freq / 60) * 4
  {
    if !libraryLoaded then e
    else
      var freq := FrameTiming.SampleRate(quality);
      e.(initialized := true, handles := names, src := Fresh,
         freq := freq, bufferLen := FrameTiming.FrameBytes(freq))
  }

  lemma InitKeepsInv(e: Engine, libraryLoaded: bool, names: seq<Handle>, quality: int)
    requires Inv(e) && !e.initialized && |names| == |e.handles| && quality >= 1
    requires Distinct(names)
    ensures Inv(Init(e, libraryLoaded, names, quality))
  {
  }

  // ---------------------------------------------------------------- write

  /** The pacing policy under which `write` waits for the device instead of dropping. */
  predicate Blocks(f: Flags) {
    !f.speedup && f.synchronize && f.throttle == 0
  }

  /** The device will finish a buffer during one of the sleeps `polls` describes. */
  predicate WaitEnds(s: Source, polls: seq<nat>) {
    s.state == Playing && exists j :: 0 <= j < |polls| && polls[j] > 0
  }

  /**
   What `write` needs when it is going to wait: a sleep interval it can
   compute and a device that eventually finishes a buffer. (Without these the
   source divides by zero or waits forever.)
   */
  predicate WritePre(e: Engine, f: Flags, polls: seq<nat>)
    ensures !e.initialized || !e.buffersLoaded ==> WritePre(e, f, polls)
    ensures !Blocks(f) || e.src.processed > 0 ==> WritePre(e, f, polls)
  {
    e.initialized && e.buffersLoaded && Blocks(f) && e.src.processed == 0 ==>
      e.freq >= 128 && WaitEnds(e.src, polls)
  }

  /** A steady-state `write` that finds nothing processed and may not wait returns at once. */
  predicate Drops(e: Engine, f: Flags)
    ensures Drops(e, f) ==> !Blocks(f) && e.buffersLoaded
    ensures Drops(e, f) && |e.handles| > 0 ==> !Underfed(e, f)
  {
    e.initialized && e.buffersLoaded && e.src.processed == 0 && !Blocks(f)
  }

  /**
   The blocking wait: poll after each sleep, during which the device finishes
   `polls[i]` buffers, until at least one buffer is processed. It issues no
   request and does not touch the queue.
   */
  function Wait(s: Source, polls: seq<nat>): (r: Source)
    requires Valid(s) && (s.processed > 0 || WaitEnds(s, polls))
    ensures Valid(r) && r.processed > 0
    ensures r.queue == s.queue && r.issued == s.issued
    ensures s.processed > 0 ==> r == s
    decreases |polls|
  {
    if s.processed > 0 then s
    else
      var s' := Advance(s, polls[0]);
      assert polls[0] == 0 ==> WaitEnds(s', polls[1..]) by {
        if polls[0] == 0 {
          var j :| 0 <= j < |polls| && polls[j] > 0;
          assert polls[1..][j - 1] == polls[j];
        }
      }
      Wait(s', polls[1..])
  }

  /** The refill requests for `hs`, in order. */
  function Refills(hs: seq<Handle>): (cs: seq<Call>)
    ensures |cs| == |hs|
    ensures forall i :: 0 <= i < |hs| ==> cs[i] == Refill(hs[i])
  {
    seq(|hs|, i requires 0 <= i < |hs| => Refill(hs[i]))
  }

  /** The initial fill's loop: one alBufferData per handle, in handle order. */
  function FillAll(s: Source, hs: seq<Handle>): (r: Source)
    requires Valid(s)
    ensures r == s.(issued := s.issued + Refills(hs))
    decreases |hs|
  {
    if hs == [] then s
    else
      var r0 := FillAll(s, hs[..|hs| - 1]);
      assert Refills(hs) == Refills(hs[..|hs| - 1]) + [Refill(hs[|hs| - 1])];
      BufferData(r0, hs[|hs| - 1])
  }

  /**
   The source a steady-state `write` unqueues from: the one the blocking wait
   leaves when the policy blocks, otherwise the source as it is.
   */
  function Ready(e: Engine, f: Flags, polls: seq<nat>): (r: Source)
    requires Valid(e.src) && (e.src.processed > 0 || (Blocks(f) && WaitEnds(e.src, polls)))
    ensures Valid(r) && r.processed > 0 && r.queue == e.src.queue && r.issued == e.src.issued
  {
    if Blocks(f) then Wait(e.src, polls) else e.src
  }

  /**
   The part of `write` before the final state check: the initial fill the
   first time, afterwards one recycle of the front buffer (after waiting if
   the policy blocks).
   */
  function Feed(e: Engine, f: Flags, polls: seq<nat>): (r: Engine)
    requires Inv(e) && e.initialized && !Drops(e, f) && WritePre(e, f, polls)
    ensures Valid(r.src) && r.buffersLoaded && r.handles == e.handles
    ensures r.freq == e.freq && r.bufferLen == e.bufferLen && r.initialized
    ensures !e.buffersLoaded ==>
      && r.src.queue == e.handles && r.src.processed == 0 && r.src.state == Initial
      && r.src.issued == e.src.issued + Refills(e.handles) + [Queue(e.handles)]
    ensures e.buffersLoaded ==>
      && |e.src.queue| > 0 && r.temp == e.src.queue[0]
      && r.src.queue == e.src.queue[1..] + [e.src.queue[0]]
      && r.src.issued == e.src.issued + [Unqueue(r.temp), Refill(r.temp), Queue([r.temp])]
  {
    if !e.buffersLoaded then
      e.(buffersLoaded := true, src := SourceQueueBuffers(FillAll(e.src, e.handles), e.handles))
    else
      var taken := SourceUnqueueBuffer(Ready(e, f, polls));
      e.(temp := taken.1, src := SourceQueueBuffers(BufferData(taken.0, taken.1), [taken.1]))
  }

  /** The end of `write`: start the source unless sound is paused or it already plays. */
  function StartIfNeeded(e: Engine, f: Flags): (r: Engine)
    requires Valid(e.src)
    ensures Valid(r.src) && r.src.queue == e.src.queue
    ensures r == e.(src := r.src)
    ensures r.src.issued == e.src.issued + (if !f.soundPaused && e.src.state != Playing then [Play] else [])
    ensures r.src.state == (if f.soundPaused || e.src.state == Playing then e.src.state
                            else if e.src.queue == [] then Stopped else Playing)
  {
    if !f.soundPaused && e.src.state != Playing then e.(src := SourcePlay(e.src)) else e
  }

  /** write: nothing before init; a drop leaves everything as it was. */
  function Write(e: Engine, f: Flags, polls: seq<nat>): (r: Engine)
    requires Inv(e) && WritePre(e, f, polls)
    ensures Valid(r.src)
    ensures r.initialized == e.initialized && r.handles == e.handles
    ensures r.freq == e.freq && r.bufferLen == e.bufferLen
    ensures e.initialized ==> r.buffersLoaded
    ensures e.initialized ==> multiset(r.src.queue) == multiset(e.handles)
    ensures e.initialized && !Drops(e, f) && !f.soundPaused ==> r.src.issued != e.src.issued
  {
    if !e.initialized || Drops(e, f) then e
    else StartIfNeeded(Feed(e, f, polls), f)
  }

  /** The under-refill diagnostic `write` logs, judged on the first processed count it reads. */
  predicate Underfed(e: Engine, f: Flags) {
    && e.initialized && e.buffersLoaded && f.verbose
    && e.src.processed == |e.handles|
    && (f.throttle >= 100 || f.throttle == 0)
  }

  // ---------------------------------------------------------------- transport

  /** pause: issues alSourcePause only on a playing source. */
  function Pause(e: Engine): (r: Engine)
    requires Valid(e.src)
    ensures Valid(r.src) && r == e.(src := r.src)
    ensures r.src.queue == e.src.queue && r.src.processed == e.src.processed
    ensures e.initialized && e.buffersLoaded ==> r.src.state != Playing
  {
    if !e.initialized || !e.buffersLoaded then e
    else if e.src.state == Playing then e.(src := SourcePause(e.src))
    else e
  }

  /** resume: issues alSourcePlay only on a source that is not playing. */
  function Resume(e: Engine): (r: Engine)
    requires Valid(e.src)
    ensures Valid(r.src) && r == e.(src := r.src) && r.src.queue == e.src.queue
    ensures e.initialized && e.buffersLoaded && e.src.queue != [] ==> r.src.state == Playing
  {
    if !e.initialized || !e.buffersLoaded then e
    else if e.src.state != Playing then e.(src := SourcePlay(e.src))
    else e
  }

  /** reset: issues alSourceStop only on a source that is not stopped. */
  function Reset(e: Engine): (r: Engine)
    requires Valid(e.src)
    ensures Valid(r.src) && r == e.(src := r.src) && r.src.queue == e.src.queue
    ensures e.initialized && e.buffersLoaded ==> r.src.state == Stopped || r.src.state == Initial
  {
    if !e.initialized || !e.buffersLoaded then e
    else if e.src.state != Stopped then e.(src := SourceStop(e.src))
    else e
  }

  /**
   The destructor: on an initialized object, stop the source, detach its
   buffers, and delete the source and the buffers.
   */
  function Teardown(e: Engine): (r: Engine)
    requires Valid(e.src)
    ensures Valid(r.src) && r == e.(src := r.src)
    ensures e.initialized ==> r.src.queue == [] && r.src.state != Playing && r.src.state != Paused
  {
    if !e.initialized then e
    else
      var s := SourceDetach(SourceStop(e.src));
      e.(src := Issue(Issue(s, DeleteSource), DeleteBuffers(e.handles)))
  }

  // ================================================================ lemmas

  /** Before init, no operation does anything. */
  lemma UninitializedIsInert(e: Engine, f: Flags, polls: seq<nat>)
    requires Inv(e) && !e.initialized
    ensures Write(e, f, polls) == e && Pause(e) == e && Resume(e) == e && Reset(e) == e
    ensures Teardown(e) == e
  {
  }

  /** Before the first write, pause, resume and reset do nothing. */
  lemma TransportWaitsForFill(e: Engine)
    requires Inv(e) && !e.buffersLoaded
    ensures Pause(e) == e && Resume(e) == e && Reset(e) == e
  {
  }

  /** Every operation keeps the object's invariant. */
  lemma WriteKeepsInv(e: Engine, f: Flags, polls: seq<nat>)
    requires Inv(e) && WritePre(e, f, polls)
    ensures Inv(Write(e, f, polls))
  {

  }

  lemma TransportKeepsInv(e: Engine)
    requires Inv(e)
    ensures Inv(Pause(e)) && Inv(Resume(e)) && Inv(Reset(e))
  {
  }

  /** The device playing between calls keeps the invariant too. */
  lemma AdvanceKeepsInv(e: Engine, k: nat)
    requires Inv(e)
    ensures Inv(e.(src := Advance(e.src, k)))
  {
  }

  /**
   The first write after init queues every buffer, in handle order, onto the
   empty queue, with one refill per buffer first, then starts the source
   unless sound is paused.
   */
  lemma FirstWriteFills(e: Engine, f: Flags, polls: seq<nat>)
    requires Inv(e) && e.initialized && !e.buffersLoaded
    ensures WritePre(e, f, polls)
    ensures var r := Write(e, f, polls);
      && r.buffersLoaded && r.src.queue == e.handles
      && r.src.issued == e.src.issued + Refills(e.handles) + [Queue(e.handles)]
                         + (if f.soundPaused then [] else [Play])
      && r.src.state == (if f.soundPaused then Initial else if e.handles == [] then Stopped else Playing)
      && r.src.processed == 0
  {
  }

  /** Once the buffers are loaded they stay loaded: no later operation refills from scratch. */
  lemma LoadedStaysLoaded(e: Engine, f: Flags, polls: seq<nat>)
    requires Inv(e) && e.buffersLoaded && WritePre(e, f, polls)
    ensures Write(e, f, polls).buffersLoaded
    ensures Pause(e).buffersLoaded && Resume(e).buffersLoaded && Reset(e).buffersLoaded
  {
  }

  /**
   After reset, a source that had been played is stopped with every buffer
   processed, so the next write neither waits nor drops nor refills: it
   recycles exactly one buffer. A source that never played is left as it was,
   with nothing processed: the next write drops when it may not wait, and is
   outside its precondition when it would wait.
   */
  lemma WriteAfterResetRecycles(e: Engine, f: Flags, polls: seq<nat>)
    requires Inv(e) && e.initialized && e.buffersLoaded && |e.handles| > 0
    ensures e.src.state != Initial ==> var z := Reset(e);
      && z.src.state == Stopped && z.src.processed == |e.handles|
      && WritePre(z, f, polls) && !Drops(z, f)
      && Write(z, f, polls).buffersLoaded
      && Write(z, f, polls).src.queue == z.src.queue[1..] + [z.src.queue[0]]
    ensures e.src.state == Initial ==> var z := Reset(e);
      && z.src.state == Initial && z.src.processed == 0 && z.src.queue == e.src.queue
      && (!Blocks(f) ==> Drops(z, f) && Write(z, f, polls) == z)
      && (Blocks(f) ==> !WritePre(z, f, polls))
  {
    var z := Reset(e);
    if e.src.state != Initial {
      assert |z.src.queue| == |e.handles| by {
        assert multiset(z.src.queue) == multiset(e.handles);
        assert |multiset(z.src.queue)| == |multiset(e.handles)|;
      }
      RecycleRotates(z, f, polls);
    }
  }

  /**
   With sound paused at the first write the source is left Initial with
   nothing processed, so every later write that may not wait drops before
   the play request: the source only starts through resume.
   */
  lemma PausedStartStaysSilent(e: Engine, f: Flags, g: Flags, polls: seq<nat>)
    requires Inv(e) && e.initialized && !e.buffersLoaded && f.soundPaused && !Blocks(g)
    ensures var r := Write(e, f, polls);
      && r.src.state == Initial && WritePre(r, g, polls) && Drops(r, g) && Write(r, g, polls) == r
      && Resume(r).src.state == (if e.handles == [] then Stopped else Playing)
  {
    FirstWriteFills(e, f, polls);
  }

  /** A steady-state write with nothing processed, when it may not wait, changes nothing. */
  lemma DropChangesNothing(e: Engine, f: Flags, polls: seq<nat>)
    requires Inv(e) && e.initialized && e.buffersLoaded && e.src.processed == 0 && !Blocks(f)
    ensures WritePre(e, f, polls) && Write(e, f, polls) == e
  {
  }

  /**
   A steady-state write that does not drop takes exactly one buffer off the
   front of the queue and puts that same buffer at the back, even when more
   than one is processed: the queue keeps its length and its buffers.
   */
  lemma RecycleRotates(e: Engine, f: Flags, polls: seq<nat>)
    requires Inv(e) && e.initialized && e.buffersLoaded && WritePre(e, f, polls) && !Drops(e, f)
    ensures var r := Write(e, f, polls);
      && |e.src.queue| > 0
      && r.temp == e.src.queue[0]
      && r.src.queue == e.src.queue[1..] + [e.src.queue[0]]
      && |r.src.queue| == |e.src.queue| && multiset(r.src.queue) == multiset(e.src.queue)
      && r.src.issued[..|e.src.issued| + 3]
         == e.src.issued + [Unqueue(r.temp), Refill(r.temp), Queue([r.temp])]
  {

  }

  /** In steady state, write recycles (issues any request at all) exactly when it has a processed buffer or may wait for one. */
  lemma WriteRecyclesIff(e: Engine, f: Flags, polls: seq<nat>)
    requires Inv(e) && e.initialized && e.buffersLoaded && WritePre(e, f, polls)
    ensures Write(e, f, polls).src.issued != e.src.issued <==> e.src.processed > 0 || Blocks(f)
  {

  }

  /**
   A steady-state write that does not drop waits exactly when it finds
   nothing processed, which happens only under the blocking policy; with a
   processed buffer already there it takes that one at once. Either way the
   recycle consumes one processed buffer of the source it unqueues from.
   */
  lemma WaitOnlyWhenBlocking(e: Engine, f: Flags, polls: seq<nat>)
    requires Inv(e) && e.initialized && e.buffersLoaded && WritePre(e, f, polls) && !Drops(e, f)
    ensures e.src.processed == 0 ==> Blocks(f) && Ready(e, f, polls) == Wait(e.src, polls)
    ensures e.src.processed > 0 ==> Ready(e, f, polls) == e.src
    ensures var ready := Ready(e, f, polls);
      ready.state != Stopped ==>
        Feed(e, f, polls).src.processed == ready.processed - 1 && Feed(e, f, polls).src.state == ready.state
  {
  }

  /**
   Under the blocking policy, a loaded source with nothing processed that is
   not playing never finishes a buffer, whatever the device does, so no poll
   sequence lets the wait end: `write` is outside its precondition there.
   */
  lemma BlockingWaitNeedsPlaying(e: Engine, f: Flags, polls: seq<nat>)
    requires Inv(e) && e.initialized && e.buffersLoaded && Blocks(f)
    requires e.src.processed == 0 && e.src.state != Playing
    ensures forall k: nat :: Advance(e.src, k) == e.src
    ensures !WritePre(e, f, polls)
  {
  }

  /**
   A write that does not drop ends with a play request exactly when sound is
   not paused and the source is not playing once the buffer is queued.
   */
  lemma WritePlaysIff(e: Engine, f: Flags, polls: seq<nat>)
    requires Inv(e) && e.initialized && WritePre(e, f, polls) && !Drops(e, f)
    ensures var fed := Feed(e, f, polls);
      && fed.src.issued[|fed.src.issued| - 1] != Play
      && (Write(e, f, polls).src.issued == fed.src.issued + [Play] <==>
          !f.soundPaused && fed.src.state != Playing)
      && (Write(e, f, polls).src.issued == fed.src.issued <==>
          f.soundPaused || fed.src.state == Playing)
  {
  }

  /** With sound not paused and at least one buffer, the source plays after every write that does not drop. */
  lemma WriteLeavesPlaying(e: Engine, f: Flags, polls: seq<nat>)
    requires Inv(e) && e.initialized && WritePre(e, f, polls) && !Drops(e, f)
    requires !f.soundPaused && |e.handles| > 0
    ensures Write(e, f, polls).src.state == Playing
  {

  }

  /**
   The under-refill diagnostic fires only when every buffer is processed at
   full or unthrottled speed; the device then has run dry and stopped (or was
   reset), so the report cannot tell starvation from a reset.
   */
  lemma UnderfedMeansStopped(e: Engine, f: Flags)
    requires Inv(e) && Underfed(e, f) && |e.handles| > 0
    ensures e.src.processed == |e.handles| && (f.throttle >= 100 || f.throttle == 0)
    ensures e.src.state == Stopped
  {
    assert |e.src.queue| == |e.handles| by {
      assert |multiset(e.src.queue)| == |multiset(e.handles)|;
    }
  }

  /** pause requests a pause exactly when the source plays, and leaves the queue alone. */
  lemma PauseIff(e: Engine)
    requires Inv(e) && e.initialized && e.buffersLoaded
    ensures Pause(e).src.queue == e.src.queue && Pause(e).src.processed == e.src.processed
    ensures Pause(e).src.issued == e.src.issued + [Call.Pause] <==> e.src.state == Playing
    ensures Pause(e).src.issued == e.src.issued <==> e.src.state != Playing
    ensures Pause(e).src.state == (if e.src.state == Playing then Paused else e.src.state)
  {
  }

  /** resume requests play exactly when the source does not play, and leaves the queue alone. */
  lemma ResumeIff(e: Engine)
    requires Inv(e) && e.initialized && e.buffersLoaded
    ensures Resume(e).src.queue == e.src.queue
    ensures Resume(e).src.issued == e.src.issued + [Play] <==> e.src.state != Playing
    ensures Resume(e).src.issued == e.src.issued <==> e.src.state == Playing
  {
  }

  /**
   reset requests a stop exactly when the source is not stopped; the queue is
   kept; a source that had been played is then stopped with every buffer in
   it processed, and one that never played stays as it was.
   */
  lemma ResetIff(e: Engine)
    requires Inv(e) && e.initialized && e.buffersLoaded
    ensures Reset(e).src.queue == e.src.queue
    ensures Reset(e).src.state == (if e.src.state == Initial then Initial else Stopped)
    ensures Reset(e).src.processed == (if e.src.state == Initial then 0 else |e.src.queue|)
    ensures Reset(e).src.issued == e.src.issued + [Stop] <==> e.src.state != Stopped
    ensures Reset(e).src.issued == e.src.issued <==> e.src.state == Stopped
  {
  }

  /**
   pause followed by resume brings a playing source back to playing with the
   same queue and the same progress through it.
   */
  lemma PauseThenResume(e: Engine)
    requires Inv(e) && e.initialized && e.buffersLoaded && e.src.state == Playing
    ensures var r := Resume(Pause(e));
      && r.src.queue == e.src.queue && r.src.processed == e.src.processed
      && r.src.state == Playing && r.src.issued == e.src.issued + [Call.Pause, Play]
      && r.handles == e.handles && r.buffersLoaded
  {
  }

  /** Once loaded, the queue holds every one of the object's buffers exactly once. */
  lemma QueueHoldsEachBufferOnce(e: Engine)
    requires Inv(e) && e.buffersLoaded
    ensures |e.src.queue| == |e.handles| && Distinct(e.src.queue)
    ensures forall h :: h in e.src.queue <==> h in e.handles
  {
    assert |e.src.queue| == |e.handles| by {
      assert |multiset(e.src.queue)| == |multiset(e.handles)|;
    }
    DistinctIffAtMostOnce(e.handles);
    DistinctIffAtMostOnce(e.src.queue);
    forall h ensures h in e.src.queue <==> h in e.handles {
      assert h in e.src.queue <==> h in multiset(e.src.queue);
      assert h in e.handles <==> h in multiset(e.handles);
    }
  }

  /** A sequence is distinct exactly when no element occurs twice in its multiset. */
  lemma {:induction false} DistinctIffAtMostOnce(hs: seq<Handle>)
    ensures Distinct(hs) <==> forall h :: multiset(hs)[h] <= 1
    decreases |hs|
  {
    if hs != [] {
      var t := hs[1..];
      DistinctIffAtMostOnce(t);
      assert hs == [hs[0]] + t;
      assert multiset(hs) == multiset{hs[0]} + multiset(t);
      if Distinct(hs) {
        assert Distinct(t) by {
          forall i, j | 0 <= i < j < |t| ensures t[i] != t[j] {
            assert t[i] == hs[i + 1] && t[j] == hs[j + 1];
          }
        }
        forall h ensures multiset(hs)[h] <= 1 {
          if h == hs[0] {
            assert multiset(t)[h] == 0;
          }
        }
      } else {
        var i, j :| 0 <= i < j < |hs| && hs[i] == hs[j];
        if i == 0 {
          assert hs[j] == t[j - 1];
          assert multiset(t)[hs[0]] >= 1;
          assert multiset(hs)[hs[0]] >= 2;
        } else {
          assert t[i - 1] == t[j - 1];
          assert !Distinct(t);
          var h :| multiset(t)[h] > 1;
          assert multiset(hs)[h] >= multiset(t)[h];
        }
      }
    }
  }

  /** Teardown does nothing to an object that was never initialized, and otherwise releases the whole queue. */
  lemma TeardownReleases(e: Engine)
    requires Inv(e)
    ensures !e.initialized ==> Teardown(e) == e
    ensures e.initialized ==>
      && Teardown(e).src.queue == []
      && Teardown(e).src.state == (if e.src.state == Initial then Initial else Stopped)
      && Teardown(e).src.issued == e.src.issued + [Stop, Detach, DeleteSource, DeleteBuffers(e.handles)]
  {
  }

  /** The scenario of a four-buffer ring at full quality: the first write fills all four, in order. */
  lemma FourBufferScenario(names: seq<Handle>, f: Flags)
    requires |names| == 4 && Distinct(names) && !f.soundPaused
    ensures var e := Init(Constructed(4), true, names, 1);
      && e.freq == 44100 && e.bufferLen == 2940
      && Write(e, f, []).src.queue == names && Write(e, f, []).src.state == Playing
  {

  }
}
