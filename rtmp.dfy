/** The RTMP service: a writer that pipes raw frames into an encoder
    subprocess, a microphone capture with a 100-slot drop-oldest queue, the
    worker that feeds captured chunks to the engine, the map of live streams
    and the start, stop and list routes over it. */
module Rtmp {
  import opened Common
  import opened BoundedQueue

  /** Defaults of the RTMP writer: 512x512 at 25 frames per second. */
  const DefaultWidth := 512
  const DefaultHeight := 512
  const DefaultFps := 25

  /** The capture's defaults: 16 kHz mono, 1024 samples per chunk, and at
      most 100 chunks waiting in its queue. */
  const SampleRate := 16000
  const ChunkSize := 1024
  const AudioQueueCapacity := 100

  /** The encoder subprocess, identified by what it was started with. Its
      command line and its pipe are not modelled. */
  datatype Encoder = Ffmpeg(url: string, width: nat, height: nat, fps: nat)

  /** A frame as written to the encoder's input: the rgb24 bytes of `image`,
      its channels swapped first when `swapped` holds (the frame came as
      BGR) and resized to `width` x `height` when `resized` holds. */
  datatype RawFrame = RawFrame(image: Frame, swapped: bool, resized: bool, width: nat, height: nat)

  /** What happened to a writer's encoder, oldest first. */
  datatype PipeEvent = Spawned(encoder: Encoder) | Piped(frame: RawFrame) | Reaped(encoder: Encoder)

  /** Anything but "rgb" is converted from BGR; a frame of the wrong shape is
      resized to the configured one. */
  function ToRgb24(frame: Frame, fmt: string, width: nat, height: nat): (r: RawFrame)
  {
    RawFrame(frame, fmt != "rgb", (frame.height, frame.width) != (height, width), width, height)
  }

  /** The writer installed as the engine's sink for one RTMP stream. */
  class RTMPStreamWriter {
    const rtmpUrl: string
    const width: nat
    const height: nat
    const fps: nat
    var process: Option<Encoder>
    var isActive: bool

    /** Everything done to this writer's encoders, oldest first. */
    ghost var log: seq<PipeEvent>

    /** An active writer always has an encoder to write to. */
    ghost predicate Valid()
      reads this
    {
      isActive ==> process.Some?
    }

    /** A new writer has no encoder and is inactive. */
    constructor (rtmpUrl: string, width: nat, height: nat, fps: nat)
      ensures Valid()
      ensures this.rtmpUrl == rtmpUrl && this.width == width && this.height == height && this.fps == fps
      ensures process == None && !isActive && log == []
    {
      this.rtmpUrl := rtmpUrl;
      this.width := width;
      this.height := height;
      this.fps := fps;
      process := None;
      isActive := false;
      log := [];
    }

    /** Spawns the encoder and activates the writer. `spawn` is what the
        subprocess launch did; when it raised, the writer is left as it was
        and the exception reaches the caller. */
    method Start(spawn: Outcome) returns (r: Outcome)
      requires Valid()
      modifies this
      ensures Valid()
      ensures r == spawn
      ensures spawn.Raised? ==> process == old(process) && isActive == old(isActive) && log == old(log)
      ensures spawn.Ok? ==>
        && isActive
        && process == Some(Ffmpeg(rtmpUrl, width, height, fps))
        && log == old(log) + [Spawned(Ffmpeg(rtmpUrl, width, height, fps))]
    {
      if spawn.Raised? {
        return spawn;
      }
      var encoder := Ffmpeg(rtmpUrl, width, height, fps);
      process := Some(encoder);
      log := log + [Spawned(encoder)];
      isActive := true;
      r := Ok;
    }

    /** The sink callback. Without an active encoder it does nothing. Otherwise
        it writes the converted frame to the pipe; `pipe` is what the write and
        flush did. A broken pipe is not propagated: it deactivates the writer,
        so that every later write does nothing. */
    method Write(frame: Frame, fmt: string, pipe: Outcome)
      requires Valid()
      modifies this
      ensures Valid()
      ensures process == old(process)
      ensures !(old(isActive) && old(process).Some?) ==> isActive == old(isActive) && log == old(log)
      ensures old(isActive) && old(process).Some? && pipe.Ok? ==>
        isActive && log == old(log) + [Piped(ToRgb24(frame, fmt, width, height))]
      ensures old(isActive) && old(process).Some? && pipe.Raised? ==>
        !isActive && log == old(log)
    {
      if !isActive || process.None? {
        return;
      }
      var raw := ToRgb24(frame, fmt, width, height);
      if pipe.Raised? {
        isActive := false;
      } else {
        log := log + [Piped(raw)];
      }
    }

    /** Deactivates the writer and, when there is an encoder, closes its input,
        waits for it (killing it after the grace period) and forgets it. */
    method Close()
      requires Valid()
      modifies this
      ensures Valid()
      ensures !isActive && process == None
      ensures log == if old(process).Some? then old(log) + [Reaped(old(process).value)] else old(log)
    {
      isActive := false;
      if process.Some? {
        log := log + [Reaped(process.value)];
        process := None;
      }
    }
  }

  /** A broken pipe is final: after the failed write the writer is inactive
      and a later write, even one the pipe would accept, pipes nothing. */
  method DisconnectIsFinal(w: RTMPStreamWriter, first: Frame, second: Frame, fmt: string, reason: string)
    requires w.Valid() && w.isActive
    modifies w
    ensures w.Valid() && !w.isActive
    ensures w.process == old(w.process) && w.log == old(w.log)
  {
    w.Write(first, fmt, Raised(reason));
    w.Write(second, fmt, Ok);
  }

  /** Closing twice: the second close finds no encoder and changes nothing. */
  method CloseTwice(w: RTMPStreamWriter)
    requires w.Valid()
    modifies w
    ensures !w.isActive && w.process == None
    ensures w.log == if old(w.process).Some? then old(w.log) + [Reaped(old(w.process).value)] else old(w.log)
  {
    w.Close();
    ghost var afterFirst := w.log;
    w.Close();
    assert w.log == afterFirst;
  }

  /** The microphone capture of one stream. */
  class AudioCapture {
    const sampleRate: nat
    const chunkSize: nat
    var audioQueue: seq<AudioChunk>
    var isActive: bool

    /** Whether the device stream is open (`stream` is set). */
    var streamOpen: bool

    ghost predicate Valid()
      reads this
    {
      |audioQueue| <= AudioQueueCapacity
    }

    constructor ()
      ensures Valid()
      ensures sampleRate == SampleRate && chunkSize == ChunkSize
      ensures audioQueue == [] && !isActive && !streamOpen
    {
      sampleRate := SampleRate;
      chunkSize := ChunkSize;
      audioQueue := [];
      isActive := false;
      streamOpen := false;
    }

    /** Opens and starts the device stream; `open` and `start` are what those
        device calls did. A failure is swallowed: the capture then stays as
        inactive as it was (with the stream set if only the start failed). */
    method StartCapture(open: Outcome, start: Outcome)
      requires Valid()
      modifies this
      ensures Valid()
      ensures audioQueue == old(audioQueue)
      ensures open.Raised? ==> streamOpen == old(streamOpen) && isActive == old(isActive)
      ensures open.Ok? ==> streamOpen
      ensures open.Ok? && start.Raised? ==> isActive == old(isActive)
      ensures open.Ok? && start.Ok? ==> isActive
    {
      if open.Raised? {
        return;
      }
      streamOpen := true;
      if start.Raised? {
        return;
      }
      isActive := true;
    }

    /** The driver's callback with one chunk: while capturing, the chunk is
        admitted and the oldest chunk dropped when the queue is full; while not
        capturing, nothing changes. */
    method AudioCallback(chunk: AudioChunk)
      requires Valid()
      modifies this
      ensures Valid()
      ensures isActive == old(isActive) && streamOpen == old(streamOpen)
      ensures !old(isActive) ==> audioQueue == old(audioQueue)
      ensures old(isActive) ==> audioQueue == Admit(old(audioQueue), chunk, AudioQueueCapacity)
    {
      if isActive {
        if |audioQueue| < AudioQueueCapacity {
          audioQueue := audioQueue + [chunk];
        } else {
          audioQueue := audioQueue[1..];
          audioQueue := audioQueue + [chunk];
        }
      }
    }

    /** Takes the oldest queued chunk, or returns None when the queue is empty
        (in the real capture, after waiting up to a second for one). */
    method GetAudioChunk() returns (c: Option<AudioChunk>)
      requires Valid()
      modifies this
      ensures Valid()
      ensures isActive == old(isActive) && streamOpen == old(streamOpen)
      ensures old(audioQueue) == [] ==> c == None && audioQueue == []
      ensures old(audioQueue) != [] ==> c == Some(old(audioQueue)[0]) && audioQueue == old(audioQueue)[1..]
    {
      if audioQueue == [] {
        return None;
      }
      c := Some(audioQueue[0]);
      audioQueue := audioQueue[1..];
    }

    /** Stops capturing and closes the device stream; safe to call again.
        Chunks already queued stay queued. */
    method StopCapture()
      requires Valid()
      modifies this
      ensures Valid()
      ensures !isActive && !streamOpen
      ensures audioQueue == old(audioQueue)
    {
      isActive := false;
      if streamOpen {
        streamOpen := false;
      }
    }
  }

  /** A started capture that nobody drains, handed `chunks` by its driver,
      keeps exactly the newest 100 of them in arrival order. */
  method CaptureBurst(chunks: seq<AudioChunk>) returns (retained: seq<AudioChunk>)
    ensures retained == chunks[|chunks| - Min(|chunks|, AudioQueueCapacity)..]
  {
    var capture := new AudioCapture();
    capture.StartCapture(Ok, Ok);
    FeedCapture(capture, chunks);
    PushIntoEmpty(chunks, AudioQueueCapacity);
    retained := capture.audioQueue;
  }

  /** The driver calling back a started capture once per chunk, in order:
      the queue ends up as the drop-oldest admission of those chunks after
      what it already held. */
  method FeedCapture(capture: AudioCapture, chunks: seq<AudioChunk>)
    requires capture.Valid() && capture.isActive
    modifies capture
    ensures capture.Valid() && capture.isActive
    ensures capture.audioQueue == PushAll(old(capture.audioQueue), chunks, AudioQueueCapacity)
  {
    ghost var q0 := capture.audioQueue;
    var i := 0;
    while i < |chunks|
      invariant 0 <= i <= |chunks|
      invariant capture.Valid() && capture.isActive
      invariant capture.audioQueue == PushAll(q0, chunks[..i], AudioQueueCapacity)
    {
      capture.AudioCallback(chunks[i]);
      PushAllPrefix(q0, chunks, i, AudioQueueCapacity);
      i := i + 1;
    }
    assert chunks[..i] == chunks;
  }

  /** 150 chunks into the 100-slot queue: the last 100 are retained and the
      first 50 are the ones dropped. */
  lemma OverloadDropsOldestFifty(chunks: seq<AudioChunk>)
    requires |chunks| == 150
    ensures PushAll([], chunks, AudioQueueCapacity) == chunks[50..]
    ensures chunks == chunks[..50] + PushAll([], chunks, AudioQueueCapacity)
  {
    PushIntoEmpty(chunks, AudioQueueCapacity);
  }

  /** A stream's audio thread: not started, running, or ended (it found the
      stream's flag cleared, or the engine raised while it fed it a chunk). */
  datatype WorkerState = NoWorker | Running | Ended

  /** One entry of the stream map: the stream's writer and capture, its
      `active` flag, and its audio thread. The stream's engine is identified by
      the stream id in the trace. */
  datatype Stream = Stream(writer: RTMPStreamWriter, capture: AudioCapture, active: bool, worker: WorkerState)

  /** What a route answers. */
  datatype Response =
    | Started(message: string, rtmpUrl: string)
    | Stopped(message: string)
    | Listing(streams: set<string>, count: nat)
    | HttpError(status: nat, detail: string)

  /** The calls `StopStream` makes on a present stream up to and including the
      engine's close, in order; the writer's close follows when that close
      returns. `joined` says whether an audio thread was ever started. */
  function TeardownEvents(id: string, joined: bool): (r: seq<Event>)
    ensures |r| == if joined then 4 else 3
    ensures r[0] == Deactivate(id) && r[1] == CaptureStop(id) && r[|r| - 1] == EngineClose(id)
    ensures WorkerJoin(id) in r <==> joined
    ensures WriterClose(id) !in r
  {
    [Deactivate(id), CaptureStop(id)]
      + (if joined then [WorkerJoin(id)] else [])
      + [EngineClose(id)]
  }

  /** The encoder a stream's writer runs: the stream's URL at the default
      size and rate. */
  function StreamEncoder(rtmpUrl: string): (r: Encoder)
  {
    Ffmpeg(rtmpUrl, DefaultWidth, DefaultHeight, DefaultFps)
  }

  /** `w` writes to `rtmpUrl` at the default size and rate, is active, and has
      spawned exactly one encoder, the stream's, which it still runs. */
  ghost predicate RunsStreamEncoder(w: RTMPStreamWriter, rtmpUrl: string)
    reads w
  {
    && w.rtmpUrl == rtmpUrl
    && w.width == DefaultWidth && w.height == DefaultHeight && w.fps == DefaultFps
    && w.isActive
    && w.process == Some(StreamEncoder(rtmpUrl))
    && w.log == [Spawned(StreamEncoder(rtmpUrl))]
  }

  /** A writer for `rtmpUrl` at the default size and rate, started: its
      encoder is running unless the launch (`spawn`) raised. */
  method LaunchWriter(rtmpUrl: string, spawn: Outcome) returns (writer: RTMPStreamWriter, r: Outcome)
    ensures fresh(writer) && writer.Valid() && r == spawn
    ensures writer.rtmpUrl == rtmpUrl && writer.width == DefaultWidth
    ensures writer.height == DefaultHeight && writer.fps == DefaultFps
    ensures writer.isActive <==> spawn.Ok?
    ensures spawn.Ok? ==>
      writer.process == Some(StreamEncoder(rtmpUrl)) && writer.log == [Spawned(StreamEncoder(rtmpUrl))]
    ensures spawn.Raised? ==> writer.process == None && writer.log == []
  {
    writer := new RTMPStreamWriter(rtmpUrl, DefaultWidth, DefaultHeight, DefaultFps);
    r := writer.Start(spawn);
  }

  /** No two streams share a writer or a capture. */
  ghost predicate Distinct(m: map<string, Stream>)
  {
    forall a, b :: a in m && b in m && a != b ==>
      m[a].writer != m[b].writer && m[a].capture != m[b].capture
  }

  /** The writers and captures of the streams in `m`. */
  ghost function Parts(m: map<string, Stream>): set<object>
  {
    (set id | id in m :: m[id].writer as object) + (set id | id in m :: m[id].capture as object)
  }

  /** Every stream's writer and capture are consistent. */
  ghost predicate PartsValid(m: map<string, Stream>)
    reads Parts(m)
  {
    forall id :: id in m ==> m[id].writer.Valid() && m[id].capture.Valid()
  }

  /** Replacing a stream's record by one with the same writer and capture
      keeps the streams' parts and their consistency. */
  lemma KeepParts(m: map<string, Stream>, id: string, s: Stream)
    requires id in m && s.writer == m[id].writer && s.capture == m[id].capture
    ensures Parts(m[id := s]) == Parts(m)
    ensures Distinct(m) ==> Distinct(m[id := s])
    ensures PartsValid(m) ==> PartsValid(m[id := s])
  {
    var m' := m[id := s];
    forall o | o in Parts(m') ensures o in Parts(m) {
      var a :| a in m' && (o == m'[a].writer || o == m'[a].capture);
      assert m'[a].writer == m[a].writer && m'[a].capture == m[a].capture;
    }
    forall o | o in Parts(m) ensures o in Parts(m') {
      var a :| a in m && (o == m[a].writer || o == m[a].capture);
      assert m'[a].writer == m[a].writer && m'[a].capture == m[a].capture;
    }
  }

  /** The service behind the HTTP routes. */
  class TalkingHeadRTMPService {
    var activeStreams: map<string, Stream>

    /** The calls made on the streams' engines, writers, captures and
        workers, oldest first. */
    ghost var trace: seq<Event>

    /** The objects owned by stream `id`, if present. */
    ghost function Owned(id: string): set<object>
      reads this
    {
      if id in activeStreams then {activeStreams[id].writer as object, activeStreams[id].capture as object} else {}
    }

    /** Every stream's writer and capture are consistent, and each stream
        owns its own. */
    ghost predicate Valid()
      reads this, Parts(activeStreams)
    {
      Distinct(activeStreams) && PartsValid(activeStreams)
    }

    /** Stream `id` is as `CreateStream` registers it: active, no audio thread,
        its writer running the encoder for `rtmpUrl` and its capture idle,
        closed and empty. */
    ghost predicate JustCreated(id: string, rtmpUrl: string)
      reads this, Owned(id)
    {
      && id in activeStreams
      && var s := activeStreams[id];
      && s.active && s.worker == NoWorker
      && RunsStreamEncoder(s.writer, rtmpUrl)
      && s.capture.sampleRate == SampleRate && s.capture.chunkSize == ChunkSize
      && s.capture.audioQueue == [] && !s.capture.isActive && !s.capture.streamOpen
    }

    constructor ()
      ensures Valid()
      ensures activeStreams == map[] && trace == []
    {
      activeStreams := map[];
      trace := [];
    }

    /** Builds a stream: loads an engine, starts an RTMP writer on `rtmpUrl`,
        makes a capture, sets the engine up on `source` and registers the
        stream under `id`. `load`, `spawn` and `setup` are what the engine's
        construction, the encoder's launch and the engine's setup did; the
        first that raised ends the call with its exception and nothing
        registered. An id already present is replaced, not rejected. */
    method CreateStream(id: string, source: string, rtmpUrl: string, load: Outcome, spawn: Outcome, setup: Outcome)
      returns (r: Outcome)
      requires Valid()
      modifies this
      ensures Valid()
      ensures r == if load.Raised? then load else if spawn.Raised? then spawn else setup
      ensures r.Raised? ==> activeStreams == old(activeStreams)
      ensures load.Raised? ==> trace == old(trace)
      ensures load.Ok? && spawn.Raised? ==> trace == old(trace)
      ensures load.Ok? && spawn.Ok? ==>
        trace == old(trace) + [WriterStart(id), EngineSetup(id, source, DummyOutputPath, RealtimeSetup)]
      ensures r.Ok? ==>
        && JustCreated(id, rtmpUrl)
        && activeStreams == old(activeStreams)[id := activeStreams[id]]
        && fresh(activeStreams[id].writer) && fresh(activeStreams[id].capture)
    {
      if load.Raised? {
        return load;
      }
      var writer, started := LaunchWriter(rtmpUrl, spawn);
      if started.Raised? {
        return started;
      }
      trace := trace + [WriterStart(id)];
      var capture := new AudioCapture();
      trace := trace + [EngineSetup(id, source, DummyOutputPath, RealtimeSetup)];
      if setup.Raised? {
        return setup;
      }
      activeStreams := activeStreams[id := Stream(writer, capture, true, NoWorker)];
      r := Ok;
      forall a | a in activeStreams
        ensures activeStreams[a].writer.Valid() && activeStreams[a].capture.Valid()
      {
        assert a != id ==> a in old(activeStreams) && unchanged(activeStreams[a].writer, activeStreams[a].capture);
      }
    }

    /** Starts the capture of stream `id` (`open` and `start` are what the
        device calls did; their failure is swallowed) and then its audio
        thread. An absent id is ignored. */
    method StartStreamProcessing(id: string, open: Outcome, start: Outcome)
      requires Valid()
      modifies this, if id in activeStreams then {activeStreams[id].capture} else {}
      ensures Valid()
      ensures id !in old(activeStreams) ==> activeStreams == old(activeStreams) && trace == old(trace)
      ensures id in old(activeStreams) ==>
        var c := old(activeStreams)[id].capture;
        && activeStreams == old(activeStreams)[id := old(activeStreams)[id].(worker := Running)]
        && trace == old(trace) + [CaptureStart(id), WorkerStart(id)]
        && c.audioQueue == old(c.audioQueue)
        && c.streamOpen == (open.Ok? || old(c.streamOpen))
        && c.isActive == ((open.Ok? && start.Ok?) || old(c.isActive))
    {
      if id !in activeStreams {
        return;
      }
      var stream := activeStreams[id];
      stream.capture.StartCapture(open, start);
      activeStreams := activeStreams[id := stream.(worker := Running)];
      trace := trace + [CaptureStart(id), WorkerStart(id)];
      forall a | a in activeStreams
        ensures activeStreams[a].writer.Valid() && activeStreams[a].capture.Valid()
      {
        assert a != id ==> activeStreams[a].capture != stream.capture;
      }
    }

    /** `polls` turns of the running audio thread of stream `id`. While the
        stream is active, each turn takes the oldest queued chunk, if any, and
        feeds it to the engine (a turn that finds the queue empty only sleeps),
        so the chunks reach the engine in the order they were queued.
        `raisesAt` is the position, among the chunks fed in this call, of the
        one whose feeding raised, if any: that ends the thread right there,
        with the stream left registered. A thread that finds the flag cleared
        ends without touching anything. */
    method Worker(id: string, polls: nat, raisesAt: Option<nat>)
      requires Valid()
      requires id in activeStreams && activeStreams[id].worker == Running
      modifies this, activeStreams[id].capture
      ensures Valid()
      ensures id in activeStreams && activeStreams.Keys == old(activeStreams).Keys
      ensures var c := old(activeStreams)[id].capture;
        c.isActive == old(c.isActive) && c.streamOpen == old(c.streamOpen)
      ensures old(activeStreams)[id].active ==>
        var q0 := old(activeStreams[id].capture.audioQueue);
        var k := Min(polls, |q0|);
        var died := raisesAt.Some? && raisesAt.value < k;
        var n := if raisesAt.Some? && raisesAt.value < k then raisesAt.value + 1 else k;
        && activeStreams == old(activeStreams)[id := old(activeStreams)[id].(worker := if died then Ended else Running)]
        && activeStreams[id].capture.audioQueue == q0[n..]
        && trace == old(trace) + Runs(id, q0[..n])
      ensures !old(activeStreams)[id].active ==>
        && activeStreams == old(activeStreams)[id := old(activeStreams)[id].(worker := Ended)]
        && trace == old(trace)
        && activeStreams[id].capture.audioQueue == old(activeStreams[id].capture.audioQueue)
    {
      var stream := activeStreams[id];
      if !stream.active {
        activeStreams := activeStreams[id := stream.(worker := Ended)];
        return;
      }
      var died := Poll(id, polls, raisesAt);
      if died {
        activeStreams := activeStreams[id := stream.(worker := Ended)];
      }
    }

    /** The audio thread's loop over `polls` turns while stream `id` stays
        active: each turn takes the oldest queued chunk, if any, and feeds it
        to the engine; the feeding at position `raisesAt`, if it comes, raises
        and ends the loop (`died`). */
    method Poll(id: string, polls: nat, raisesAt: Option<nat>) returns (died: bool)
      requires Valid()
      requires id in activeStreams && activeStreams[id].active
      modifies this, activeStreams[id].capture
      ensures Valid() && activeStreams == old(activeStreams)
      ensures var c := activeStreams[id].capture;
        c.isActive == old(c.isActive) && c.streamOpen == old(c.streamOpen)
      ensures var q0 := old(activeStreams[id].capture.audioQueue);
        var k := Min(polls, |q0|);
        var n := if raisesAt.Some? && raisesAt.value < k then raisesAt.value + 1 else k;
        && died == (raisesAt.Some? && raisesAt.value < k)
        && activeStreams[id].capture.audioQueue == q0[n..]
        && trace == old(trace) + Runs(id, q0[..n])
    {
      var capture := activeStreams[id].capture;
      ghost var q0 := capture.audioQueue;
      ghost var t0 := trace;
      var i := 0;
      var fed := 0;
      died := false;
      while i < polls && !died
        invariant 0 <= i <= polls && 0 <= fed <= |q0|
        invariant capture.Valid() && activeStreams == old(activeStreams)
        invariant capture.isActive == old(capture.isActive) && capture.streamOpen == old(capture.streamOpen)
        invariant !died ==> fed == Min(i, |q0|) && (raisesAt.Some? ==> fed <= raisesAt.value)
        invariant died ==> raisesAt == Some(fed - 1) && fed <= Min(i, |q0|)
        invariant capture.audioQueue == q0[fed..]
        invariant trace == t0 + Runs(id, q0[..fed])
      {
        var chunk := capture.GetAudioChunk();
        if chunk.Some? {
          RunsAppend(id, q0[..fed], chunk.value);
          assert q0[..fed + 1] == q0[..fed] + [chunk.value];
          trace := trace + [EngineRun(id, chunk.value)];
          died := raisesAt == Some(fed);
          fed := fed + 1;
        }
        i := i + 1;
      }
      forall a | a in activeStreams
        ensures activeStreams[a].writer.Valid() && activeStreams[a].capture.Valid()
      {
        assert a != id ==> activeStreams[a].capture != capture;
      }
    }

    /** The first part of tearing stream `id` down, up to and including the
        engine's close: clears its flag, stops its capture, joins its audio
        thread if one was started, and closes its engine. */
    method StopUntilEngineClose(id: string)
      requires Valid() && id in activeStreams
      modifies this, activeStreams[id].capture
      ensures Valid()
      ensures var s := old(activeStreams)[id];
        && activeStreams == old(activeStreams)[id := s.(active := false)]
        && trace == old(trace) + TeardownEvents(id, s.worker != NoWorker)
        && !s.capture.isActive && !s.capture.streamOpen
        && s.capture.audioQueue == old(s.capture.audioQueue)
    {
      var stream := activeStreams[id];
      ghost var t0 := trace;
      MarkInactive(id);
      StopStreamCapture(id);
      trace := trace + (if stream.worker != NoWorker then [WorkerJoin(id)] else []) + [EngineClose(id)];
      assert trace == t0 + TeardownEvents(id, stream.worker != NoWorker);
    }

    /** Stops the capture of stream `id`, leaving the registry as it is. */
    method StopStreamCapture(id: string)
      requires Valid() && id in activeStreams
      modifies this, activeStreams[id].capture
      ensures Valid() && activeStreams == old(activeStreams)
      ensures trace == old(trace) + [CaptureStop(id)]
      ensures var c := activeStreams[id].capture;
        !c.isActive && !c.streamOpen && c.audioQueue == old(c.audioQueue)
    {
      var capture := activeStreams[id].capture;
      capture.StopCapture();
      trace := trace + [CaptureStop(id)];
      forall a | a in activeStreams
        ensures activeStreams[a].writer.Valid() && activeStreams[a].capture.Valid()
      {
        assert a != id ==> activeStreams[a].capture != capture;
      }
    }

    /** Clears the active flag of stream `id`, which its audio thread reads
        before each turn. */
    method MarkInactive(id: string)
      requires Valid() && id in activeStreams
      modifies this
      ensures Valid()
      ensures activeStreams == old(activeStreams)[id := old(activeStreams)[id].(active := false)]
      ensures trace == old(trace) + [Deactivate(id)]
    {
      KeepParts(activeStreams, id, activeStreams[id].(active := false));
      activeStreams := activeStreams[id := activeStreams[id].(active := false)];
      trace := trace + [Deactivate(id)];
    }

    /** Tears stream `id` down in order: clears its flag, stops its capture,
        joins its audio thread if one was started, closes its engine and then
        its writer, and removes only that id. `close` is what the engine's
        close did; when it raised, the exception ends the call there, leaving
        the stream registered and inactive with its writer still running. An
        absent id is ignored. */
    method StopStream(id: string, close: Outcome) returns (r: Outcome)
      requires Valid()
      modifies this, Owned(id)
      ensures Valid()
      ensures id !in old(activeStreams) ==>
        r == Ok && activeStreams == old(activeStreams) && trace == old(trace)
      ensures id in old(activeStreams) ==>
        var s := old(activeStreams)[id];
        && r == close
        && !s.capture.isActive && !s.capture.streamOpen
        && s.capture.audioQueue == old(s.capture.audioQueue)
      ensures id in old(activeStreams) && close.Raised? ==>
        var s := old(activeStreams)[id];
        && activeStreams == old(activeStreams)[id := s.(active := false)]
        && trace == old(trace) + TeardownEvents(id, s.worker != NoWorker)
        && s.writer.isActive == old(s.writer.isActive)
        && s.writer.process == old(s.writer.process) && s.writer.log == old(s.writer.log)
      ensures id in old(activeStreams) && close.Ok? ==>
        var s := old(activeStreams)[id];
        && activeStreams == old(activeStreams) - {id}
        && trace == old(trace) + TeardownEvents(id, s.worker != NoWorker) + [WriterClose(id)]
        && !s.writer.isActive && s.writer.process == None
        && s.writer.log == if old(s.writer.process).Some? then old(s.writer.log) + [Reaped(old(s.writer.process).value)] else old(s.writer.log)
    {
      if id !in activeStreams {
        return Ok;
      }
      StopUntilEngineClose(id);
      if close.Raised? {
        return close;
      }
      CloseWriterAndRemove(id);
      r := Ok;
    }

    /** The last part of tearing stream `id` down, once its engine closed:
        closes its writer and removes only that id. */
    method CloseWriterAndRemove(id: string)
      requires Valid() && id in activeStreams
      modifies this, activeStreams[id].writer
      ensures Valid()
      ensures var w := old(activeStreams)[id].writer;
        && activeStreams == old(activeStreams) - {id}
        && trace == old(trace) + [WriterClose(id)]
        && !w.isActive && w.process == None
        && w.log == if old(w.process).Some? then old(w.log) + [Reaped(old(w.process).value)] else old(w.log)
    {
      var writer := activeStreams[id].writer;
      writer.Close();
      trace := trace + [WriterClose(id)];
      activeStreams := activeStreams - {id};
      forall a | a in activeStreams
        ensures activeStreams[a].writer.Valid() && activeStreams[a].capture.Valid()
      {
        assert activeStreams[a].writer != writer;
      }
    }

    /** POST /start_stream/{id}: an id already present is refused with 400 and
        nothing changes; otherwise the stream is created and its processing
        started, and a failure while creating it is answered with 500. */
    method StartStreamRoute(
      id: string, source: string, rtmpUrl: string,
      load: Outcome, spawn: Outcome, setup: Outcome, open: Outcome, start: Outcome)
      returns (r: Response)
      requires Valid()
      modifies this
      ensures Valid()
      ensures id in old(activeStreams) ==>
        r == HttpError(400, "Stream already exists")
        && activeStreams == old(activeStreams) && trace == old(trace)
      ensures r.Started? <==> id !in old(activeStreams) && load.Ok? && spawn.Ok? && setup.Ok?
      ensures r.Started? ==>
        && r == Started("Stream " + id + " started successfully", rtmpUrl)
        && id in activeStreams
        && activeStreams == old(activeStreams)[id := activeStreams[id]]
        && var s := activeStreams[id];
        && fresh(s.writer) && fresh(s.capture)
        && s.active && s.worker == Running
        && RunsStreamEncoder(s.writer, rtmpUrl)
        && s.capture.audioQueue == []
        && (s.capture.streamOpen <==> open.Ok?)
        && (s.capture.isActive <==> open.Ok? && start.Ok?)
        && trace == old(trace) + [WriterStart(id), EngineSetup(id, source, DummyOutputPath, RealtimeSetup),
                                  CaptureStart(id), WorkerStart(id)]
      ensures id !in old(activeStreams) && !r.Started? ==>
        && r == HttpError(500, (if load.Raised? then load else if spawn.Raised? then spawn else setup).message)
        && activeStreams == old(activeStreams)
        && trace == old(trace) + (if load.Ok? && spawn.Ok?
                                  then [WriterStart(id), EngineSetup(id, source, DummyOutputPath, RealtimeSetup)]
                                  else [])
    {
      if id in activeStreams {
        return HttpError(400, "Stream already exists");
      }
      var created := CreateStream(id, source, rtmpUrl, load, spawn, setup);
      if created.Raised? {
        return HttpError(500, created.message);
      }
      StartStreamProcessing(id, open, start);
      r := Started("Stream " + id + " started successfully", rtmpUrl);
    }

    /** DELETE /stop_stream/{id}: an absent id is refused with 404 and nothing
        changes; otherwise the stream is stopped, and an exception raised while
        stopping it (`close`, the engine's close) is answered with 500. */
    method StopStreamRoute(id: string, close: Outcome) returns (r: Response)
      requires Valid()
      modifies this, Owned(id)
      ensures Valid()
      ensures id !in old(activeStreams) ==>
        r == HttpError(404, "Stream not found")
        && activeStreams == old(activeStreams) && trace == old(trace)
      ensures id in old(activeStreams) ==>
        var s := old(activeStreams)[id];
        && !s.capture.isActive && !s.capture.streamOpen
        && s.capture.audioQueue == old(s.capture.audioQueue)
      ensures id in old(activeStreams) && close.Raised? ==>
        var s := old(activeStreams)[id];
        && r == HttpError(500, close.message)
        && activeStreams == old(activeStreams)[id := s.(active := false)]
        && trace == old(trace) + TeardownEvents(id, s.worker != NoWorker)
        && s.writer.isActive == old(s.writer.isActive) && s.writer.process == old(s.writer.process)
        && s.writer.log == old(s.writer.log)
      ensures id in old(activeStreams) && close.Ok? ==>
        var s := old(activeStreams)[id];
        && r == Stopped("Stream " + id + " stopped successfully")
        && activeStreams == old(activeStreams) - {id}
        && trace == old(trace) + TeardownEvents(id, s.worker != NoWorker) + [WriterClose(id)]
        && !s.writer.isActive && s.writer.process == None
        && s.writer.log == if old(s.writer.process).Some? then old(s.writer.log) + [Reaped(old(s.writer.process).value)] else old(s.writer.log)
    {
      if id !in activeStreams {
        return HttpError(404, "Stream not found");
      }
      var stopped := StopStream(id, close);
      if stopped.Raised? {
        return HttpError(500, stopped.message);
      }
      r := Stopped("Stream " + id + " stopped successfully");
    }

    /** GET /streams: the ids of the registered streams and how many there
        are. */
    method ListStreams() returns (r: Response)
      ensures r.Listing?
      ensures r.streams == activeStreams.Keys
      ensures r.count == |activeStreams.Keys|
    {
      r := Listing(activeStreams.Keys, |activeStreams.Keys|);
    }
  }
}
