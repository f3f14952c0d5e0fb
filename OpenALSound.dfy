/**
 The `OpenAL` sound-output class of the Win32 front end: two guard flags, the
 array of buffer names, the last name taken off the queue, and the frame
 timing, over the library's source. Each method is proved to leave exactly
 the state the matching function of OpenALSpec describes, and to keep the
 object's invariant.
 */
module OpenALSound {
  import opened AL
  import FrameTiming
  import S = OpenALSpec

  class OpenAL {
    /** The configured ring size (the application's oalBufferCount). */
    const bufferCount: nat
    /** The buffer names, allocated by the constructor and generated by init. */
    const buffer: array<Handle>
    var initialized: bool
    var buffersLoaded: bool
    var tempBuffer: Handle
    /** The library's source object, as the device sees it. */
    var source: Source
    var freq: int
    /** The sound module's frame length in bytes, which init sets. */
    var soundBufferLen: int

    /** The whole state of the object and its source. */
    function Model(): S.Engine
      reads this, buffer
    {
      S.Engine(initialized, buffersLoaded, buffer[..], tempBuffer, freq, soundBufferLen, source)
    }

    ghost predicate Valid()
      reads this, buffer
    {
      buffer.Length == bufferCount && S.Inv(Model())
    }

    /** Allocates the zeroed handle array; nothing is initialized yet. */
    constructor (bufferCount: nat)
      ensures Valid() && fresh(buffer) && this.bufferCount == bufferCount
      ensures Model() == S.Constructed(bufferCount)
    {
      this.bufferCount := bufferCount;
      initialized := false;
      buffersLoaded := false;
      buffer := new Handle[bufferCount](_ => 0);
      tempBuffer := 0;
      source := Fresh;
      freq := 0;
      soundBufferLen := 0;
      new;
      assert buffer[..] == seq(bufferCount, _ => 0);
    }

    /**
     Loads the library, takes the names alGenBuffers generates and a fresh
     source, and sizes the frame; `libraryLoaded` is whether the library loads.
     */
    method Init(libraryLoaded: bool, names: seq<Handle>, soundQuality: int) returns (ok: bool)
      requires Valid() && !initialized
      requires |names| == bufferCount && S.Distinct(names) && soundQuality >= 1
      modifies this, buffer
      ensures Valid() && ok == libraryLoaded
      ensures Model() == S.Init(old(Model()), libraryLoaded, names, soundQuality)
    {
      if !libraryLoaded {
        return false;
      }
      forall i | 0 <= i < bufferCount {
        buffer[i] := names[i];
      }
      assert buffer[..] == names;
      source := Fresh;
      freq := FrameTiming.SampleRate(soundQuality);
      soundBufferLen := FrameTiming.FrameBytes(freq);
      initialized := true;
      ok := true;
    }

    /** Plays the source again unless it already plays. */
    method Resume()
      requires Valid()
      modifies this
      ensures Valid() && Model() == S.Resume(old(Model()))
    {
      S.TransportKeepsInv(Model());
      if !initialized { return; }
      if !buffersLoaded { return; }
      var sourceState := source.state;
      if sourceState != Playing {
        source := SourcePlay(source);
      }
    }

    /** Pauses the source if it plays. */
    method Pause()
      requires Valid()
      modifies this
      ensures Valid() && Model() == S.Pause(old(Model()))
    {
      S.TransportKeepsInv(Model());
      if !initialized { return; }
      if !buffersLoaded { return; }
      var sourceState := source.state;
      if sourceState == Playing {
        source := SourcePause(source);
      }
    }

    /** Stops the source unless it is stopped. */
    method Reset()
      requires Valid()
      modifies this
      ensures Valid() && Model() == S.Reset(old(Model()))
    {
      S.TransportKeepsInv(Model());
      if !initialized { return; }
      if !buffersLoaded { return; }
      var sourceState := source.state;
      if sourceState != Stopped {
        source := SourceStop(source);
      }
    }

    /**
     Feeds one frame of sound: the initial fill the first time, a recycle of
     the front buffer afterwards (waiting for the device under the blocking
     policy, dropping the frame otherwise when nothing is processed), then
     starts the source if needed. `polls[i]` is how many buffers the device
     finishes during the i-th sleep of the wait; the result is whether the
     under-refill diagnostic is logged.
     */
    method Write(f: S.Flags, polls: seq<nat>) returns (underfed: bool)
      requires Valid() && S.WritePre(Model(), f, polls)
      modifies this
      ensures Valid() && Model() == S.Write(old(Model()), f, polls)
      ensures underfed == S.Underfed(old(Model()), f)
    {
      ghost var e0 := Model();
      S.WriteKeepsInv(e0, f, polls);
      underfed := false;
      if !initialized { return; }

      if !buffersLoaded {
        LoadBuffers(f, polls);
      } else {
        // steady state: recycle the oldest buffer
        var processed := source.processed;
        if processed == bufferCount && (f.throttle >= 100 || f.throttle == 0) {
          underfed := f.verbose;
        }
        if !S.Blocks(f) && processed == 0 {
          return;
        }
        RefreshBuffer(f, polls);
      }
      StartIfNeeded(f);
    }

    /** The end of a write that did not drop: a source that is not playing is started, unless sound is paused. */
    method StartIfNeeded(f: S.Flags)
      requires AL.Valid(source)
      modifies this
      ensures Model() == S.StartIfNeeded(old(Model()), f)
    {
      var sourceState := source.state;
      if !f.soundPaused && sourceState != Playing {
        source := SourcePlay(source);
      }
    }

    /** The first write's initial fill: refill every buffer, then queue them all. */
    method LoadBuffers(f: S.Flags, polls: seq<nat>)
      requires Valid() && initialized && !buffersLoaded
      modifies this
      ensures Model() == S.Feed(old(Model()), f, polls)
    {
      var s := FillBuffers();
      source := SourceQueueBuffers(s, buffer[..]);
      buffersLoaded := true;
    }

    /**
     One steady-state recycle: wait for a processed buffer under the blocking
     policy, then take the front buffer off the queue, refill it and queue it
     again at the back.
     */
    method RefreshBuffer(f: S.Flags, polls: seq<nat>)
      requires Valid() && initialized && buffersLoaded && S.WritePre(Model(), f, polls)
      requires !S.Drops(Model(), f)
      modifies this
      ensures Model() == S.Feed(old(Model()), f, polls)
    {
      if S.Blocks(f) && source.processed == 0 {
        // block until the device reports a processed buffer
        source := WaitForBuffer(source, polls);
      }
      assert source.processed > 0;

      // take the oldest buffer off the front of the queue
      tempBuffer := 0;
      var taken := SourceUnqueueBuffer(source);
      source, tempBuffer := taken.0, taken.1;
      // give it the new frame of samples
      source := BufferData(source, tempBuffer);
      // and put it back at the end of the queue
      source := SourceQueueBuffers(source, [tempBuffer]);
    }

    /** The initial fill's loop: one alBufferData per buffer name, in array order. */
    method FillBuffers() returns (s: Source)
      requires AL.Valid(source)
      ensures s == S.FillAll(source, buffer[..])
    {
      s := source;
      for i := 0 to buffer.Length
        invariant s == S.FillAll(source, buffer[..i])
      {
        assert buffer[..i + 1][..i] == buffer[..i];
        s := BufferData(s, buffer[i]);
      }
      assert buffer[..buffer.Length] == buffer[..];
    }

    /**
     The blocking wait: sleep, then poll the processed count again, until a
     buffer has finished; the device finishes `polls[i]` buffers during the
     i-th sleep.
     */
    method WaitForBuffer(s0: Source, polls: seq<nat>) returns (s: Source)
      requires AL.Valid(s0) && s0.processed == 0 && S.WaitEnds(s0, polls)
      requires freq >= 128 && soundBufferLen >= 0
      ensures s == S.Wait(s0, polls) && s.processed > 0
    {
      s := s0;
      var processed := s.processed;
      var i := 0;
      while processed == 0
        invariant 0 <= i <= |polls| && AL.Valid(s) && processed == s.processed
        invariant processed == 0 ==> S.WaitEnds(s, polls[i..])
        invariant S.Wait(s, polls[i..]) == S.Wait(s0, polls)
        decreases |polls| - i
      {
        var delay := FrameTiming.SleepInterval(soundBufferLen, freq);
        // the device plays on during the sleep of `delay` milliseconds
        var s' := Advance(s, polls[i]);
        assert polls[i..][0] == polls[i] && polls[i..][1..] == polls[i + 1..];
        if s'.processed == 0 {
          var j :| 0 <= j < |polls[i..]| && polls[i..][j] > 0;
          assert polls[i + 1..][j - 1] == polls[i..][j];
        }
        s := s';
        processed := s.processed;
        i := i + 1;
      }
    }

    /** The destructor: releases the source and the buffers, but only after a successful init. */
    method Destroy()
      requires Valid()
      modifies this
      ensures Model() == S.Teardown(old(Model()))
    {
      if !initialized { return; }
      source := SourceStop(source);
      source := SourceDetach(source);
      source := Issue(source, DeleteSource);
      source := Issue(source, DeleteBuffers(buffer[..]));
    }

    /** The device playing on its own between two calls: `k` more buffers finish. */
    method DevicePlays(k: nat)
      requires Valid()
      modifies this
      ensures Valid() && Model() == old(Model()).(src := Advance(old(source), k))
    {
      S.AdvanceKeepsInv(Model(), k);
      source := Advance(source, k);
    }
  }
}
