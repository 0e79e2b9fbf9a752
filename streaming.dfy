/** The WebSocket service: a writer that turns each synthesized frame into a
    JPEG message on a 30-slot drop-oldest queue, the loop that delivers the
    queued messages to the client, and the map of live sessions. */
module Streaming {
  import opened Common
  import opened BoundedQueue

  /** The frame queue holds at most 30 messages. */
  const FrameQueueCapacity := 30

  /** Frames are JPEG-encoded at quality 80. */
  const JpegQuality := 80

  /** The base64 text of the JPEG encoding of `image` at `quality`, its red and
      blue channels swapped first when `swapped` holds. The pixel work is done
      by the image library and is not modelled. */
  datatype Jpeg = Jpeg(image: Frame, swapped: bool, quality: nat)

  /** A queued message: a frame with its wall-clock timestamp, or the end
      marker the writer queues when it is closed. */
  datatype Message = FrameMessage(data: Jpeg, timestamp: real) | EndMarker

  /** An image handed over as "rgb" is converted to BGR before encoding; any
      other format is encoded as it is. */
  function EncodeFrame(frame: Frame, fmt: string): (r: Jpeg)
  {
    Jpeg(frame, fmt == "rgb", JpegQuality)
  }

  /** The messages the delivery loop sends from queue `q`: the longest prefix
      of `q` that holds no end marker. */
  function FramesBeforeEnd(q: seq<Message>): (r: seq<Message>)
    ensures |r| <= |q| && r == q[..|r|]
    ensures forall i :: 0 <= i < |r| ==> r[i].FrameMessage?
    ensures |r| < |q| ==> q[|r|].EndMarker?
  {
    if q == [] || q[0].EndMarker? then [] else [q[0]] + FramesBeforeEnd(q[1..])
  }

  /** What the delivery loop leaves queued: everything after the first end
      marker, which it takes but does not send. */
  function AfterFirstEnd(q: seq<Message>): (r: seq<Message>)
  {
    var n := |FramesBeforeEnd(q)|;
    if n < |q| then q[n + 1..] else []
  }

  /** The contract of FramesBeforeEnd determines it: any end-free prefix that
      is all of `q` or stops right before an end marker is that prefix. */
  lemma {:induction false} FramesBeforeEndUnique(q: seq<Message>, p: seq<Message>)
    requires |p| <= |q| && p == q[..|p|]
    requires forall i :: 0 <= i < |p| ==> p[i].FrameMessage?
    requires |p| < |q| ==> q[|p|].EndMarker?
    ensures FramesBeforeEnd(q) == p
    decreases |p|
  {
    if p != [] {
      assert q[0] == p[0];
      FramesBeforeEndUnique(q[1..], p[1..]);
    }
  }

  /** Where the delivery loop stops: having sent the frames `sent` off the
      front of `q`, it meets either an empty queue or an end marker. */
  lemma DeliveredSplit(q: seq<Message>, sent: seq<Message>, rest: seq<Message>)
    requires q == sent + rest
    requires forall i :: 0 <= i < |sent| ==> sent[i].FrameMessage?
    requires rest == [] || rest[0].EndMarker?
    ensures FramesBeforeEnd(q) == sent
    ensures AfterFirstEnd(q) == if rest == [] then [] else rest[1..]
  {
    assert q[..|sent|] == sent;
    FramesBeforeEndUnique(q, sent);
    if rest != [] {
      assert q[|sent| + 1..] == rest[1..];
    }
  }

  /** The writer installed as the engine's sink for one WebSocket session. */
  class StreamingVideoWriter {
    var frameQueue: seq<Message>
    var isActive: bool

    /** The queue never holds more than 30 messages, and while the writer is
        active it holds no end marker (only closing queues one). */
    ghost predicate Valid()
      reads this
    {
      && |frameQueue| <= FrameQueueCapacity
      && (isActive ==> forall i :: 0 <= i < |frameQueue| ==> frameQueue[i].FrameMessage?)
    }

    constructor ()
      ensures Valid()
      ensures isActive && frameQueue == []
    {
      frameQueue := [];
      isActive := true;
    }

    /** The sink callback: an inactive writer ignores the frame; an active one
        encodes it and admits it to the queue, dropping the oldest message
        when the queue is full. `now` is the clock reading taken for it. */
    method Write(frame: Frame, fmt: string, now: real)
      requires Valid()
      modifies this
      ensures Valid()
      ensures isActive == old(isActive)
      ensures !old(isActive) ==> frameQueue == old(frameQueue)
      ensures old(isActive) ==>
        frameQueue == Admit(old(frameQueue), FrameMessage(EncodeFrame(frame, fmt), now), FrameQueueCapacity)
    {
      if !isActive {
        return;
      }
      var msg := FrameMessage(EncodeFrame(frame, fmt), now);
      if |frameQueue| < FrameQueueCapacity {
        frameQueue := frameQueue + [msg];
      } else {
        frameQueue := frameQueue[1..];
        frameQueue := frameQueue + [msg];
      }
    }

    /** Deactivates the writer and queues the end marker when there is room;
        a full queue swallows the marker silently. */
    method Close()
      requires Valid()
      modifies this
      ensures Valid()
      ensures !isActive
      ensures frameQueue == TryPut(old(frameQueue), EndMarker, FrameQueueCapacity)
    {
      isActive := false;
      if |frameQueue| < FrameQueueCapacity {
        frameQueue := frameQueue + [EndMarker];
      }
    }
  }

  /** The messages an active writer queues for `frames`, the frame at each
      position stamped with the clock reading at that position of `nows`. */
  function FrameMessages(frames: seq<Frame>, fmt: string, nows: seq<real>): (r: seq<Message>)
    requires |nows| == |frames|
    ensures |r| == |frames|
  {
    if frames == [] then []
    else
      var n := |frames| - 1;
      FrameMessages(frames[..n], fmt, nows[..n]) + [FrameMessage(EncodeFrame(frames[n], fmt), nows[n])]
  }

  /** Encoding is element-wise: the messages for `a + b` are those for `a`
      followed by those for `b`. */
  lemma {:induction false} FrameMessagesAppend(
    a: seq<Frame>, b: seq<Frame>, fmt: string, na: seq<real>, nb: seq<real>)
    requires |na| == |a| && |nb| == |b|
    ensures FrameMessages(a + b, fmt, na + nb) == FrameMessages(a, fmt, na) + FrameMessages(b, fmt, nb)
    decreases |b|
  {
    if b == [] {
      assert a + b == a && na + nb == na;
    } else {
      var n := |b| - 1;
      assert (a + b)[..|a + b| - 1] == a + b[..n];
      assert (na + nb)[..|na + nb| - 1] == na + nb[..n];
      FrameMessagesAppend(a, b[..n], fmt, na, nb[..n]);
    }
  }

  /** Writing one more frame appends its message, and a queue that took the
      messages of a prefix of the frames then admits that one message. */
  lemma FrameMessagesSnoc(q: seq<Message>, frames: seq<Frame>, fmt: string, nows: seq<real>, i: nat)
    requires |q| <= FrameQueueCapacity && |nows| == |frames| && i < |frames|
    ensures FrameMessages(frames[..i + 1], fmt, nows[..i + 1])
      == FrameMessages(frames[..i], fmt, nows[..i]) + [FrameMessage(EncodeFrame(frames[i], fmt), nows[i])]
    ensures PushAll(q, FrameMessages(frames[..i + 1], fmt, nows[..i + 1]), FrameQueueCapacity)
      == Admit(PushAll(q, FrameMessages(frames[..i], fmt, nows[..i]), FrameQueueCapacity),
               FrameMessage(EncodeFrame(frames[i], fmt), nows[i]), FrameQueueCapacity)
  {
    assert frames[..i + 1][..i] == frames[..i];
    assert nows[..i + 1][..i] == nows[..i];
    PushAllSnoc(q, FrameMessages(frames[..i], fmt, nows[..i]),
                FrameMessage(EncodeFrame(frames[i], fmt), nows[i]), FrameQueueCapacity);
  }

  /** Writes `frames` in order to an active writer that nothing drains, the
      one at each position at the clock reading at that position of `nows`:
      the queue ends up as its old contents followed by the drop-oldest
      admission of their messages. */
  method FeedWriter(w: StreamingVideoWriter, frames: seq<Frame>, fmt: string, nows: seq<real>)
    requires w.Valid() && w.isActive && |nows| == |frames|
    modifies w
    ensures w.Valid() && w.isActive
    ensures w.frameQueue == PushAll(old(w.frameQueue), FrameMessages(frames, fmt, nows), FrameQueueCapacity)
  {
    ghost var q0 := w.frameQueue;
    var i := 0;
    while i < |frames|
      invariant 0 <= i <= |frames|
      invariant w.Valid() && w.isActive
      invariant w.frameQueue == PushAll(q0, FrameMessages(frames[..i], fmt, nows[..i]), FrameQueueCapacity)
    {
      w.Write(frames[i], fmt, nows[i]);
      FrameMessagesSnoc(q0, frames, fmt, nows, i);
      i := i + 1;
    }
    assert frames[..i] == frames && nows[..i] == nows;
  }

  /** With no consumer draining it, a new writer fed 40 frames and then closed
      holds the messages of the last 30 of them, in order; the end marker
      finds the queue full and is dropped without an error. */
  method FrameBurst(frames: seq<Frame>, fmt: string, nows: seq<real>) returns (queued: seq<Message>)
    requires |frames| == 40 && |nows| == 40
    ensures queued == FrameMessages(frames[10..], fmt, nows[10..])
  {
    var w := new StreamingVideoWriter();
    FeedWriter(w, frames, fmt, nows);
    BurstKeepsLastThirty(frames, fmt, nows);
    w.Close();
    queued := w.frameQueue;
  }

  /** Forty frames pushed into an empty frame queue leave the last thirty. */
  lemma BurstKeepsLastThirty(frames: seq<Frame>, fmt: string, nows: seq<real>)
    requires |frames| == 40 && |nows| == 40
    ensures PushAll([], FrameMessages(frames, fmt, nows), FrameQueueCapacity)
      == FrameMessages(frames[10..], fmt, nows[10..])
  {
    var all := FrameMessages(frames, fmt, nows);
    PushIntoEmpty(all, FrameQueueCapacity);
    assert frames == frames[..10] + frames[10..];
    assert nows == nows[..10] + nows[10..];
    FrameMessagesAppend(frames[..10], frames[10..], fmt, nows[..10], nows[10..]);
  }

  /** One entry of the session map: the session's writer and its `active` flag.
      The session's engine is identified by the session id in the trace. */
  datatype Session = Session(writer: StreamingVideoWriter, active: bool)

  /** The service behind the WebSocket endpoint. */
  class TalkingHeadStreamingService {
    var activeSessions: map<string, Session>

    /** The calls made on the sessions' engines and writers, oldest first. */
    ghost var trace: seq<Event>

    ghost function Writers(): set<StreamingVideoWriter>
      reads this
    {
      set id | id in activeSessions :: activeSessions[id].writer
    }

    /** Every session's writer is consistent, and no two sessions share one. */
    ghost predicate Valid()
      reads this, Writers()
    {
      && (forall id :: id in activeSessions ==> activeSessions[id].writer.Valid())
      && (forall a, b :: a in activeSessions && b in activeSessions && a != b ==>
            activeSessions[a].writer != activeSessions[b].writer)
    }

    constructor ()
      ensures Valid()
      ensures activeSessions == map[] && trace == []
    {
      activeSessions := map[];
      trace := [];
    }

    /** Sets up a new engine for `source` and registers the session under `id`
        with a fresh active writer. `setup` is what the engine's setup did; when
        it raised, nothing is registered. An id already present is replaced,
        not rejected. */
    method CreateSession(id: string, source: string, setup: Outcome) returns (r: Outcome)
      requires Valid()
      modifies this
      ensures Valid()
      ensures r == setup
      ensures trace == old(trace) + [EngineSetup(id, source, DummyOutputPath, RealtimeSetup)]
      ensures setup.Raised? ==> activeSessions == old(activeSessions)
      ensures setup.Ok? ==>
        && id in activeSessions
        && activeSessions == old(activeSessions)[id := activeSessions[id]]
        && activeSessions[id].active
        && fresh(activeSessions[id].writer)
        && activeSessions[id].writer.isActive
        && activeSessions[id].writer.frameQueue == []
    {
      var writer := new StreamingVideoWriter();
      trace := trace + [EngineSetup(id, source, DummyOutputPath, RealtimeSetup)];
      if setup.Raised? {
        return setup;
      }
      activeSessions := activeSessions[id := Session(writer, true)];
      r := Ok;
    }

    /** Feeds one chunk to the session's engine, only when the session exists
        and is active; otherwise nothing happens. `run` is what the engine's
        `run_chunk` did; an exception it raised is handed back to the caller. */
    method ProcessAudioChunk(id: string, chunk: AudioChunk, run: Outcome) returns (r: Outcome)
      requires Valid()
      modifies this
      ensures Valid()
      ensures activeSessions == old(activeSessions)
      ensures id in activeSessions && activeSessions[id].active ==>
        r == run && trace == old(trace) + [EngineRun(id, chunk)]
      ensures !(id in activeSessions && activeSessions[id].active) ==>
        r == Ok && trace == old(trace)
    {
      r := Ok;
      if id in activeSessions {
        var session := activeSessions[id];
        if session.active {
          trace := trace + [EngineRun(id, chunk)];
          r := run;
        }
      }
    }

    /** Tears a session down: clears its flag, closes its engine and then its
        writer, and removes only that id. `close` is what the engine's close
        did; when it raised, the exception ends the call there, leaving the
        session registered, inactive, with its writer still open. An absent
        id is ignored. */
    method CloseSession(id: string, close: Outcome) returns (r: Outcome)
      requires Valid()
      modifies this, if id in activeSessions then {activeSessions[id].writer} else {}
      ensures Valid()
      ensures id !in old(activeSessions) ==>
        r == Ok && activeSessions == old(activeSessions) && trace == old(trace)
      ensures id in old(activeSessions) && close.Raised? ==>
        var s := old(activeSessions)[id];
        && r == close
        && activeSessions == old(activeSessions)[id := s.(active := false)]
        && trace == old(trace) + [Deactivate(id), EngineClose(id)]
        && s.writer.isActive == old(s.writer.isActive)
        && s.writer.frameQueue == old(s.writer.frameQueue)
      ensures id in old(activeSessions) && close.Ok? ==>
        var s := old(activeSessions)[id];
        && r == Ok
        && activeSessions == old(activeSessions) - {id}
        && trace == old(trace) + [Deactivate(id), EngineClose(id), WriterClose(id)]
        && !s.writer.isActive
        && s.writer.frameQueue == TryPut(old(s.writer.frameQueue), EndMarker, FrameQueueCapacity)
    {
      if id !in activeSessions {
        return Ok;
      }
      var session := activeSessions[id];
      activeSessions := activeSessions[id := session.(active := false)];
      trace := trace + [Deactivate(id)];
      trace := trace + [EngineClose(id)];
      if close.Raised? {
        return close;
      }
      session.writer.Close();
      trace := trace + [WriterClose(id)];
      activeSessions := activeSessions - {id};
      r := Ok;
    }

    /** The delivery loop of session `id`: while the session is active it takes
        the next queued message, stops at an end marker without sending it, and
        sends every frame in queue order. Where the real loop would wait for
        the next message on an empty queue, this one returns. */
    method StreamFrames(id: string) returns (sent: seq<Message>)
      requires Valid()
      modifies if id in activeSessions then {activeSessions[id].writer} else {}
      ensures Valid()
      ensures !(id in activeSessions && activeSessions[id].active) ==> sent == []
      ensures id in activeSessions ==>
        activeSessions[id].writer.isActive == old(activeSessions[id].writer.isActive)
      ensures id in activeSessions && !activeSessions[id].active ==>
        activeSessions[id].writer.frameQueue == old(activeSessions[id].writer.frameQueue)
      ensures id in activeSessions && activeSessions[id].active ==>
        && sent == FramesBeforeEnd(old(activeSessions[id].writer.frameQueue))
        && activeSessions[id].writer.frameQueue == AfterFirstEnd(old(activeSessions[id].writer.frameQueue))
    {
      sent := [];
      if id !in activeSessions || !activeSessions[id].active {
        return;
      }
      var w := activeSessions[id].writer;
      sent := Deliver(w);
      forall other | other in activeSessions
        ensures activeSessions[other].writer.Valid()
      {
        assert other != id ==> activeSessions[other].writer != w;
      }
    }
  }

  /** The loop body of the delivery loop, for a session that stays active:
      take messages off the writer's queue in order, send every frame, stop
      at the first end marker without sending it, and stop on an empty queue. */
  method Deliver(w: StreamingVideoWriter) returns (sent: seq<Message>)
    requires w.Valid()
    modifies w
    ensures w.Valid() && w.isActive == old(w.isActive)
    ensures sent == FramesBeforeEnd(old(w.frameQueue))
    ensures w.frameQueue == AfterFirstEnd(old(w.frameQueue))
  {
    sent := [];
    ghost var q0 := w.frameQueue;
    while true
      invariant w.Valid() && w.isActive == old(w.isActive)
      invariant forall i :: 0 <= i < |sent| ==> sent[i].FrameMessage?
      invariant q0 == sent + w.frameQueue
      decreases |w.frameQueue|
    {
      if w.frameQueue == [] {
        DeliveredSplit(q0, sent, w.frameQueue);
        return;
      }
      var msg := w.frameQueue[0];
      if msg.EndMarker? {
        DeliveredSplit(q0, sent, w.frameQueue);
        w.frameQueue := w.frameQueue[1..];
        return;
      }
      assert sent + w.frameQueue == (sent + [msg]) + w.frameQueue[1..];
      w.frameQueue := w.frameQueue[1..];
      sent := sent + [msg];
    }
  }
}
