# Real-time session and buffering layer of the talking-head streaming services

This project models, in Dafny, the bookkeeping that surrounds the inference
engine in the two streaming services of the talking-head repository:

- the WebSocket service (`streaming_service.py`). A `StreamingVideoWriter`
  JPEG-encodes each synthesized frame onto a 30-slot queue with drop-oldest
  admission. `TalkingHeadStreamingService` keeps the map of live sessions.
  A delivery loop forwards the queued frames to the client until it meets the
  end marker;
- the RTMP service (`rtmp_streaming_service.py`). `RTMPStreamWriter` is a
  state machine around an encoder subprocess whose pipe may break.
  `AudioCapture` is a microphone callback with a 100-slot drop-oldest queue.
  A worker feeds the captured chunks to the engine. `TalkingHeadRTMPService`
  keeps the map of live streams, and the start, stop and list routes act on
  that map.

Every call is treated as atomic, so the model is sequential. Writers and
captures are classes whose fields the methods update in place. Session and
stream records are values in a `map`. The engine, the subprocess, the audio
device and the image library sit outside the model. Each call into them whose
failure changes what the model tracks becomes a parameter of type `Outcome`
(`Ok` or `Raised(message)`); the calls assumed to succeed are listed under
"Left out". The calls made on the engine, writers, captures and workers are recorded in
a ghost `trace` so that gating and teardown order can be stated.

Files: `common.dfy` (shared values and the trace), `bounded_queue.dfy` (the two
admission policies as functions on sequences, with their lemmas),
`streaming.dfy`, `rtmp.dfy`.

Behaviour of the code worth noting:

- `create_session` does not reject an id that is already present. It replaces
  the session. Only the RTMP start route rejects a duplicate id;
  `create_stream` itself also replaces.
- A session's lifecycle is its record's `active` flag. A stream's record also
  says whether its audio thread was started and whether it has ended.
- When the encoder has been spawned and the engine's setup then raises,
  `create_stream` registers nothing and never closes that encoder.
  `CreateStream` reproduces this: its trace then holds `WriterStart` with no
  matching `WriterClose`.
- In the code, `stop_stream` clears the flag and then joins the audio thread
  before it deletes the record. The thread normally ends by seeing the cleared
  flag during that join. A raising `stop_capture`, engine close or writer
  close also leaves the record registered and inactive.
- In the model, each call is atomic and only the engine's close can raise
  during teardown. So a registered record's `active` flag is false only after
  that close raised; a close that returns lets teardown go on and remove the
  record. Only then can a stream's audio thread, or a session's chunk feed and
  delivery loop, find the flag cleared while the record is still registered.
- An exception from the engine while the audio thread feeds it a chunk ends
  that thread. The stream stays registered and active, and its capture keeps
  queueing chunks that nobody takes any more.

## Model

| member | source | states |
|---|---|---|
| `BoundedQueue.TryPut` | streaming_service.py:61-64 | a non-blocking put with "queue full" swallowed: the item is appended exactly when there is room, otherwise the queue is unchanged; never over capacity |
| `BoundedQueue.Admit` | streaming_service.py:40-56 | drop-oldest admission keeps exactly the newest `cap` of the old contents plus the new item, in order |
| `BoundedQueue.PushAll` | rtmp_streaming_service.py:117-130 | after a run of admissions the queue length is min(old length + pushes, capacity) |
| `BoundedQueue.PushAllKeepsNewest` | streaming_service.py:40-56 | any run of drop-oldest admissions retains exactly the newest `cap` elements of old contents followed by the pushes, in push order (FIFO, no duplicates) |
| `BoundedQueue.PushIntoEmpty` | rtmp_streaming_service.py:117-130 | pushing k items into an empty queue leaves the last min(k, cap) in push order, and the items lost are exactly the oldest ones |
| `Streaming.FramesBeforeEnd` | streaming_service.py:346-354 | what the delivery loop sends is the longest prefix of the queue that contains no end marker: only frames, in queue order, stopping right before the first end marker |
| `Streaming.FramesBeforeEndUnique` | streaming_service.py:346-354 | that characterisation determines the sent messages uniquely |
| `Streaming.StreamingVideoWriter.constructor` | streaming_service.py:19-22 | a new writer is active with an empty frame queue |
| `Streaming.StreamingVideoWriter.Write` | streaming_service.py:24-56 | an inactive writer leaves the queue untouched; an active one admits the encoded frame drop-oldest, so the queue becomes the newest 30 of its old contents followed by the new message (with room nothing is removed, when full exactly the oldest is); the queue never exceeds 30 and holds no end marker while the writer is active |
| `Streaming.StreamingVideoWriter.Close` | streaming_service.py:58-64 | always deactivates; queues the end marker only when there is room, otherwise leaves the queue as it was without raising |
| `Streaming.FrameMessagesAppend` | streaming_service.py:29-45 | each frame is encoded on its own, so the messages for two runs of frames are the messages for the first run followed by those for the second |
| `Streaming.FeedWriter` | streaming_service.py:24-56 | frames written one by one, each stamped with its own clock reading, to an active writer that nothing drains leave the queue as the drop-oldest admission of their messages, in order, after whatever it already held |
| `Streaming.FrameBurst` | streaming_service.py:40-64 | forty frames written to a new writer with no consumer, then a close, leave exactly the last thirty frame messages in order, each with its own timestamp; the end marker is dropped |
| `Streaming.BurstKeepsLastThirty` | streaming_service.py:40-56 | forty frame messages pushed into the 30-slot queue leave the last thirty |
| `Streaming.TalkingHeadStreamingService.constructor` | streaming_service.py:70-73 | the service starts with no sessions |
| `Streaming.TalkingHeadStreamingService.CreateSession` | streaming_service.py:75-102 | the engine is set up with the online options and the dummy output path; if setup raises nothing is registered, otherwise the id maps to an active session with a fresh active empty writer and no other entry changes |
| `Streaming.TalkingHeadStreamingService.ProcessAudioChunk` | streaming_service.py:104-109 | the engine receives the chunk exactly when the id is present and its session is active, and an exception it raises is handed back; otherwise nothing happens and the answer is `Ok`; the map never changes |
| `Streaming.TalkingHeadStreamingService.CloseSession` | streaming_service.py:111-118 | on a present id the record's flag is cleared and the engine closed; if that close raises, the exception is returned and the session stays registered, inactive, with its writer untouched; otherwise the writer is closed (inactive, end marker queued if room) and only that id is removed; on an absent id nothing happens |
| `Streaming.DeliveredSplit` | streaming_service.py:346-354 | a loop that has sent only frames off the front of the queue and then meets an empty queue or an end marker has sent exactly the end-free prefix, and leaves exactly what follows the end marker |
| `Streaming.Deliver` | streaming_service.py:346-354 | for a session that stays active, the frames sent are the longest end-free prefix of the queue, in order; the end marker is taken but not sent and what follows it stays queued |
| `Streaming.TalkingHeadStreamingService.StreamFrames` | streaming_service.py:337-354 | an absent or inactive session sends nothing and leaves its queue; an active one sends the queued frames in order up to the first end marker, which is consumed but not sent, leaving what follows it; the writer's own flag is kept |
| `Rtmp.RTMPStreamWriter.constructor` | rtmp_streaming_service.py:19-25 | a new writer is inactive with no process, configured with the given URL, size and rate |
| `Rtmp.RTMPStreamWriter.Start` | rtmp_streaming_service.py:27-54 | a successful spawn makes the writer active with an encoder configured from its URL, size and rate; a failed spawn changes nothing and is reported |
| `Rtmp.RTMPStreamWriter.Write` | rtmp_streaming_service.py:56-75 | without an active process nothing happens; a successful pipe write emits the frame converted to RGB at the configured size; a broken pipe deactivates the writer without propagating |
| `Rtmp.RTMPStreamWriter.Close` | rtmp_streaming_service.py:77-86 | afterwards the writer is inactive with no process, and the encoder it had, if any, is reaped |
| `Rtmp.DisconnectIsFinal` | rtmp_streaming_service.py:56-75 | after a failed pipe write every later write is a no-op, even if the pipe would accept it |
| `Rtmp.CloseTwice` | rtmp_streaming_service.py:77-86 | a second close changes nothing further |
| `Rtmp.AudioCapture.constructor` | rtmp_streaming_service.py:92-98 | a new capture uses 16000 Hz and 1024-sample chunks, is inactive, has no device stream and an empty queue |
| `Rtmp.AudioCapture.StartCapture` | rtmp_streaming_service.py:100-115 | the capture becomes active only if both opening and starting the device succeed; a device failure is swallowed and leaves it as inactive as it was; the queue is untouched |
| `Rtmp.AudioCapture.AudioCallback` | rtmp_streaming_service.py:117-130 | while capturing the chunk is admitted drop-oldest and the queue stays at most 100; while not capturing the queue is unchanged |
| `Rtmp.AudioCapture.GetAudioChunk` | rtmp_streaming_service.py:132-137 | returns and removes the front chunk, or None on an empty queue |
| `Rtmp.AudioCapture.StopCapture` | rtmp_streaming_service.py:139-146 | capture is inactive with no device stream, and queued chunks stay |
| `Rtmp.CaptureBurst` | rtmp_streaming_service.py:117-130 | a started capture with no consumer retains exactly the newest 100 chunks its driver delivered, in arrival order |
| `Rtmp.FeedCapture` | rtmp_streaming_service.py:117-130 | chunks delivered one by one to a capturing capture that nothing drains leave the queue as the drop-oldest admission of those chunks, in order, after whatever it already held |
| `Rtmp.OverloadDropsOldestFifty` | rtmp_streaming_service.py:117-130 | after 150 chunks, the 100-slot queue holds chunks 50..149, and the first 50 are the ones dropped |
| `Rtmp.TeardownEvents` | rtmp_streaming_service.py:212-224 | the teardown order up to the engine's close: deactivate, stop capture, join the worker exactly when one was started, close the engine; the writer's close is not part of it |
| `Rtmp.LaunchWriter` | rtmp_streaming_service.py:163-164 | the stream's writer targets the given URL at 512x512 and 25 fps, and it is active exactly when launching its encoder succeeded, in which case it has spawned exactly that encoder; otherwise it has no process and spawned nothing |
| `Rtmp.TalkingHeadRTMPService.constructor` | rtmp_streaming_service.py:152-155 | the service starts with no streams |
| `Rtmp.TalkingHeadRTMPService.CreateStream` | rtmp_streaming_service.py:157-187 | the first of engine load, encoder spawn and engine setup that raises ends the call with its exception and nothing registered (a spawned encoder stays running); on success the id maps to an active stream without a worker, whose fresh writer has spawned exactly the 512x512 25 fps encoder on the URL and runs it, and whose fresh capture is inactive, with no device stream and an empty queue; other entries unchanged; the trace gains the writer start and the engine setup |
| `Rtmp.TalkingHeadRTMPService.StartStreamProcessing` | rtmp_streaming_service.py:189-208 | on an absent id nothing happens; otherwise the capture is started (its device stream is open if it was or opening succeeded, it captures if it did or both opening and starting succeeded, so a device failure leaves it as it was) and its queue kept, then a worker is recorded for that stream whatever the device did; nothing else in the map changes |
| `Rtmp.TalkingHeadRTMPService.Worker` | rtmp_streaming_service.py:198-205 | a thread that finds the flag cleared ends and changes nothing else; otherwise each poll feeds the oldest queued chunk to the engine, so the engine receives the queued chunks in push order and exactly those are removed, and a chunk whose feeding raises is the last one fed and ends the thread with the stream still registered; the capture's flags are kept |
| `Rtmp.TalkingHeadRTMPService.Poll` | rtmp_streaming_service.py:199-205 | the polling loop of an active stream: the chunks fed are exactly the oldest min(polls, queued) ones, in order, cut short right after the one whose feeding raises, and only those leave the queue; the registry and the capture's flags are kept |
| `Rtmp.TalkingHeadRTMPService.MarkInactive` | rtmp_streaming_service.py:214 | the record's flag is cleared and nothing else in the map changes |
| `Rtmp.TalkingHeadRTMPService.StopStreamCapture` | rtmp_streaming_service.py:216-217 | the stream's capture ends inactive with no device stream and keeps its chunks; the registry is unchanged |
| `Rtmp.TalkingHeadRTMPService.StopUntilEngineClose` | rtmp_streaming_service.py:212-224 | the record's flag is cleared, the capture stopped with its chunks kept, and the trace grows by the teardown up to the engine's close, in the order the calls are made |
| `Rtmp.TalkingHeadRTMPService.CloseWriterAndRemove` | rtmp_streaming_service.py:225-227 | the stream's writer ends inactive with its encoder reaped, and only that id is removed |
| `Rtmp.TalkingHeadRTMPService.StopStream` | rtmp_streaming_service.py:210-227 | on a present id the flag is cleared, the capture stopped with its chunks kept and the engine closed, in order; if that close raises, the exception is returned and the stream stays registered, inactive, with its writer's encoder running; otherwise the writer is closed (its encoder reaped) and only that id is removed; on an absent id nothing happens |
| `Rtmp.TalkingHeadRTMPService.StartStreamRoute` | rtmp_streaming_service.py:246-266 | an id already present is refused with 400 and nothing changes; otherwise the answer is "started" with the URL exactly when creation succeeds, and then only the id is added, active with a running worker, a fresh writer running the stream's encoder, and a fresh capture with an empty queue that captures exactly when the device opened and started, and the trace shows writer start, engine setup, capture start and worker start; else 500 carrying the first exception, with the map unchanged |
| `Rtmp.TalkingHeadRTMPService.StopStreamRoute` | rtmp_streaming_service.py:269-279 | an absent id is refused with 404 and nothing changes; for a present one the capture ends stopped with its chunks kept; if the engine's close raises the answer is 500 carrying its message and the stream stays registered, inactive, with its encoder running; otherwise the answer is "stopped", the writer is closed with its encoder reaped and only that id is removed; a raising close leaves the writer's log as it was |
| `Rtmp.TalkingHeadRTMPService.ListStreams` | rtmp_streaming_service.py:282-288 | the listed ids are exactly the keys of the map and the count is their number |

## Left out

- The JPEG encoding, colour conversion, resizing and base64 are done by the image library. A frame message records which frame was encoded, whether its channels were swapped, and the quality. A raw frame records the same and the target size.
- The encoder's command line, the pipe I/O, `wait(timeout=5)` and `kill` are left out. Only "the write may fail" remains, as the `pipe` parameter. Closing the encoder is recorded as reaping it.
- Opening, starting and terminating the PyAudio device is device I/O. Only the success or failure of open and start is kept. Creating the PyAudio object in the capture's constructor is assumed not to fail, and so is stopping and closing the device stream in `stop_capture`.
- Reading the audio bytes as float32 is left out: it needs floats, and truncated buffers are not handled by the source. Chunks are byte sequences.
- Threads, asyncio tasks, sleeping, `join(timeout)`, and interleavings between the driver callback, the worker and the routes are left out. Each call is atomic, and the worker is modelled as a number of polls.
- The `QueueEmpty` branch after a full queue cannot occur when each call is atomic, because a full queue of capacity 30 or 100 is never empty.
- `Streaming.TalkingHeadStreamingService.StreamFrames`: the real loop waits on an empty queue for the next message. The model returns there instead. A failed `send_text` (which ends the loop) is not modelled.
- `Streaming.TalkingHeadStreamingService.CloseSession`: the record is a value in the map, so a delivery loop that still holds the session after it was removed is not modelled.
- `Streaming.TalkingHeadStreamingService.CreateSession`: a failure when constructing the engine and a failure in its `setup` are folded into one `setup` outcome.
- `Streaming.StreamingVideoWriter.Write`: one clock reading `now` stands for both `time.time()` calls. Timestamps are opaque reals.
- `Streaming.StreamingVideoWriter.Write`: an exception from the colour conversion or the JPEG encoding would propagate into the engine. The model assumes encoding succeeds.
- `Rtmp.RTMPStreamWriter.Write`: an exception from the colour conversion or the resize is not an `OSError`, so it would propagate. The model assumes these conversions succeed.
- `Rtmp.RTMPStreamWriter.Close`: exceptions raised while closing the encoder's input are not modelled, so the stop route's 500 answer is modelled only for a raising engine close.
- `Rtmp.TalkingHeadRTMPService.Worker`: the exception that ends the thread is not reported anywhere; the model records only that the thread ended.
- `Rtmp.TalkingHeadRTMPService.ListStreams`: the keys are returned as a set, so the insertion order of the listed ids is not modelled.
- Session ids taken from the clock, the WebSocket endpoint's receive loop, the HTML demo page, the health route, the FastAPI wiring and the command-line entry points are transport glue and are left out.
- The engine's internals are left out. The engine is seen only through the `EngineSetup`, `EngineRun` and `EngineClose` trace events. The frames it hands to a writer during `run_chunk` are modelled by the writers' own `Write` methods, which are not composed with the engine.
