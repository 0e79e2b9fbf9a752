/** Values shared by the WebSocket service and the RTMP service: what crosses
    the boundary to the inference engine, what a call into code outside the
    model did, and the trace of calls made on the engine and on the writers. */
module Common {

  datatype Option<T> = None | Some(value: T)

  /** What a call into code outside the model did: it returned normally, or it
      raised an exception whose text is `message`. */
  datatype Outcome = Ok | Raised(message: string)

  /** The bytes of one audio chunk, as delivered by the capture driver's
      callback or by a WebSocket binary message. Their float32 reading is
      not modelled. */
  type AudioChunk = seq<bv8>

  /** One synthesized image, as the engine hands it to the writer installed
      as its sink. */
  datatype Frame = Frame(height: nat, width: nat, pixels: seq<bv8>)

  /** The keyword arguments both services pass to the engine's `setup`. */
  datatype SetupOptions = SetupOptions(
    onlineMode: bool,
    samplingTimesteps: nat,
    cropScale: real,
    maxSize: nat)

  /** Online mode, 25 sampling steps, crop scale 2.3, at most 512 pixels. */
  const RealtimeSetup := SetupOptions(true, 25, 2.3, 512)

  /** Both services set the engine up with a dummy output path and then
      replace its writer with their own. */
  const DummyOutputPath := "/dev/null"

  /** One call made by a service on a collaborator of a session (or stream)
      `id`, in the order the service makes them. */
  datatype Event =
    | EngineSetup(id: string, source: string, output: string, options: SetupOptions)
    | EngineRun(id: string, chunk: AudioChunk)
    | EngineClose(id: string)
    | WriterStart(id: string)
    | WriterClose(id: string)
    | CaptureStart(id: string)
    | CaptureStop(id: string)
    | WorkerStart(id: string)
    | WorkerJoin(id: string)
    | Deactivate(id: string)

  /** The calls an engine `id` receives when it is fed `chunks` in order. */
  function Runs(id: string, chunks: seq<AudioChunk>): (r: seq<Event>)
  {
    if chunks == [] then [] else [EngineRun(id, chunks[0])] + Runs(id, chunks[1..])
  }

  lemma {:induction false} RunsAppend(id: string, chunks: seq<AudioChunk>, c: AudioChunk)
    ensures Runs(id, chunks + [c]) == Runs(id, chunks) + [EngineRun(id, c)]
  {
    if chunks != [] {
      assert (chunks + [c])[1..] == chunks[1..] + [c];
      RunsAppend(id, chunks[1..], c);
    }
  }
}
