/**
 An abstract model of the one OpenAL source the sound output drives.

 The library's state for a streaming source is reduced to the FIFO queue of
 buffer names attached to it, how many of those (counted from the front) the
 device has finished playing, and the transport state. Every call the program
 makes to the library is also appended to `issued`, so that a caller can state
 which requests were made, not only what state they left behind.

 Each OpenAL entry point used by the sound output is one function here. The
 device's own asynchronous playback is the environment step `Advance`.
 */
module AL {

  /** An OpenAL buffer name (ALuint); 0 is the null name. */
  type Handle = nat

  /** AL_SOURCE_STATE */
  datatype SourceState = Initial | Playing | Paused | Stopped

  /** The requests the program issues to the library about its source and buffers. */
  datatype Call =
    | Refill(buffer: Handle)           // alBufferData (the sample content is opaque)
    | Queue(buffers: seq<Handle>)      // alSourceQueueBuffers
    | Unqueue(buffer: Handle)          // alSourceUnqueueBuffers with a count of 1
    | Play                             // alSourcePlay
    | Pause                            // alSourcePause
    | Stop                             // alSourceStop
    | Detach                           // alSourcei(source, AL_BUFFER, 0)
    | DeleteSource                     // alDeleteSources
    | DeleteBuffers(buffers: seq<Handle>) // alDeleteBuffers

  datatype Source = Source(queue: seq<Handle>, processed: nat, state: SourceState, issued: seq<Call>)

  /**
   The consistency of a source: the processed buffers are a prefix of the queue;
   a source that never played has finished nothing; a stopped source has every
   queued buffer marked processed; a playing or paused source still has a
   buffer left to play (running out of buffers stops it).
   */
  predicate Valid(s: Source) {
    && s.processed <= |s.queue|
    && (s.state == Initial ==> s.processed == 0)
    && (s.state == Stopped ==> s.processed == |s.queue|)
    && (s.state == Playing || s.state == Paused ==> s.processed < |s.queue|)
  }

  /** The source alGenSources hands out: nothing queued, never played. */
  const Fresh := Source([], 0, Initial, [])

  /** The library recording a request that changes nothing else about the source. */
  function Issue(s: Source, c: Call): Source {
    s.(issued := s.issued + [c])
  }

  /** alBufferData on one buffer name. */
  function BufferData(s: Source, h: Handle): (r: Source)
    requires Valid(s)
    ensures Valid(r) && r.queue == s.queue && r.processed == s.processed && r.state == s.state
    ensures r.issued == s.issued + [Refill(h)]
  {
    Issue(s, Refill(h))
  }

  /**
   alSourceQueueBuffers: the names go to the back of the queue, not yet played;
   on a stopped source every queued buffer counts as processed.
   */
  function SourceQueueBuffers(s: Source, hs: seq<Handle>): (r: Source)
    requires Valid(s)
    ensures Valid(r) && r.queue == s.queue + hs && r.state == s.state
    ensures r.issued == s.issued + [Queue(hs)]
    ensures s.state != Stopped ==> r.processed == s.processed
  {
    Issue(s.(queue := s.queue + hs,
             processed := if s.state == Stopped then |s.queue| + |hs| else s.processed),
          Queue(hs))
  }

  /**
   alSourceUnqueueBuffers with a count of 1: only a processed buffer can be
   taken, and it is the front of the queue. The function gives the source
   afterwards and the name written to the caller's variable.
   */
  function SourceUnqueueBuffer(s: Source): (r: (Source, Handle))
    requires Valid(s) && s.processed > 0
    ensures Valid(r.0) && s.queue == [r.1] + r.0.queue
    ensures r.0.processed == s.processed - 1 && r.0.state == s.state
    ensures r.0.issued == s.issued + [Unqueue(r.1)]
  {
    (Issue(s.(queue := s.queue[1..], processed := s.processed - 1), Unqueue(s.queue[0])), s.queue[0])
  }

  /**
   alSourcePlay: a paused source carries on where it stopped; any other source
   starts again from the front of its queue; with nothing queued it stops at once.
   */
  function SourcePlay(s: Source): (r: Source)
    requires Valid(s)
    ensures Valid(r) && r.queue == s.queue && r.issued == s.issued + [Play]
    ensures r.state == (if s.queue == [] then Stopped else Playing)
    ensures s.state == Paused ==> r.processed == s.processed
    ensures s.state != Paused ==> r.processed == 0
  {
    var r := if s.state == Paused then s.(state := Playing)
             else if s.queue == [] then s.(state := Stopped, processed := 0)
             else s.(state := Playing, processed := 0);
    Issue(r, Play)
  }

  /** alSourcePause: only a playing source is paused by it. */
  function SourcePause(s: Source): (r: Source)
    requires Valid(s)
    ensures Valid(r) && r.queue == s.queue && r.processed == s.processed
    ensures r.state == (if s.state == Playing then Paused else s.state)
    ensures r.issued == s.issued + [Pause]
  {
    Issue(if s.state == Playing then s.(state := Paused) else s, Pause)
  }

  /**
   alSourceStop: a source that has been played stops and every queued buffer
   is marked processed; on a source that never played the request is legal
   and changes nothing.
   */
  function SourceStop(s: Source): (r: Source)
    requires Valid(s)
    ensures Valid(r) && r.queue == s.queue
    ensures r.state == (if s.state == Initial then Initial else Stopped)
    ensures r.processed == (if s.state == Initial then 0 else |s.queue|)
    ensures r.issued == s.issued + [Stop]
  {
    if s.state == Initial then Issue(s, Stop)
    else Issue(s.(state := Stopped, processed := |s.queue|), Stop)
  }

  /** alSourcei(source, AL_BUFFER, 0) on a source that is not playing: the queue is emptied. */
  function SourceDetach(s: Source): (r: Source)
    requires Valid(s) && (s.state == Stopped || s.state == Initial)
    ensures Valid(r) && r.queue == [] && r.state == s.state
    ensures r.issued == s.issued + [Detach]
  {
    Issue(s.(queue := [], processed := 0), Detach)
  }

  /**
   The device playing on its own: while the source plays, `k` more buffers
   finish, as many as are queued at most; when the last one finishes the
   source stops. A source that is not playing does not progress.
   */
  function Advance(s: Source, k: nat): (r: Source)
    requires Valid(s)
    ensures Valid(r) && r.queue == s.queue && r.issued == s.issued
    ensures s.processed <= r.processed
    ensures s.state == Playing && k > 0 ==> r.processed > s.processed
    ensures s.state == Playing ==> r.state == (if r.processed == |s.queue| then Stopped else Playing)
    ensures s.state != Playing || k == 0 ==> r == s
  {
    if s.state != Playing then s
    else
      var p := if s.processed + k < |s.queue| then s.processed + k else |s.queue|;
      s.(processed := p, state := if p == |s.queue| then Stopped else Playing)
  }
}
