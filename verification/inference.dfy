/**
 The three inference capabilities (transcription, alignment, diarization)
 and the model lifecycle each of them follows: load a model, run it, then
 clean the model up before returning.

 The models themselves are opaque: a `Stage` says only whether loading
 raises and what running returns. `held` counts the skipped cleanup steps
 (`gc.collect`, `torch.cuda.empty_cache`, `del model`). The stages have no
 `try/finally`, so that step runs on the normal-return path only: a stage
 that raises after its model is loaded skips it.
 */
module Inference {
  import opened Errors
  import opened Transcripts

  /** Decoded audio samples; the stages never look inside */
  type Audio = seq<int>

  /** An inference capability: loading its model for an input may raise, and
      so may running the loaded model on it */
  datatype Stage<-I, O> = Stage(load: I -> Option<Error>, infer: I -> Outcome<O>)

  /** What a stage call returns, and the skipped-cleanup count afterwards */
  datatype StageRun<O> = StageRun(result: Outcome<O>, held: nat)

  /** A stage call that reaches the end of its body */
  predicate Returns<I, O>(stage: Stage<I, O>, input: I) {
    stage.load(input).None? && stage.infer(input).Ok?
  }

  /** A stage call that raises after its model is loaded, skipping cleanup */
  predicate SkipsCleanup<I, O>(stage: Stage<I, O>, input: I) {
    stage.load(input).None? && stage.infer(input).Err?
  }

  /** What calling the stage on `input` returns or raises: the loading error
      if loading raises, otherwise what the loaded model does */
  function StageOutcome<I, O>(stage: Stage<I, O>, input: I): Outcome<O> {
    match stage.load(input)
    case Some(e) => Err(e)
    case None => stage.infer(input)
  }

  /** Load, run, clean up. An exception from loading or running ends the call
      at that point. */
  function RunStage<I, O>(stage: Stage<I, O>, input: I, held: nat): (r: StageRun<O>)
    ensures r.result.Ok? <==> Returns(stage, input)
    ensures r.result.Ok? ==> r.result == stage.infer(input) && r.held == held
    ensures stage.load(input).Some? ==> r.result == Err(stage.load(input).value) && r.held == held
    ensures SkipsCleanup(stage, input) ==> r.result == stage.infer(input) && r.held == held + 1
    ensures r.result == StageOutcome(stage, input)
    ensures r.held == held + (if SkipsCleanup(stage, input) then 1 else 0)
  {
    match stage.load(input)
    case Some(e) => StageRun(Err(e), held)
    case None =>
      match stage.infer(input)
      case Err(e) => StageRun(Err(e), held + 1)
      case Ok(v) => StageRun(Ok(v), held)
  }

  /** The held count after calling the stage once per input, in order, with
      each exception caught by the caller */
  function RunRepeatedly<I, O>(stage: Stage<I, O>, inputs: seq<I>, held: nat): nat
  {
    if inputs == [] then held
    else RunRepeatedly(stage, inputs[1..], RunStage(stage, inputs[0], held).held)
  }

  function SkippedCleanups<I, O>(stage: Stage<I, O>, inputs: seq<I>): nat
  {
    if inputs == [] then 0
    else (if SkipsCleanup(stage, inputs[0]) then 1 else 0) + SkippedCleanups(stage, inputs[1..])
  }

  /** Repeated calls skip the cleanup step once per call that raised after
      loading, and never for calls that returned or failed to load */
  lemma {:induction false} CleanupSkippedPerFailure<I, O>(stage: Stage<I, O>, inputs: seq<I>, held: nat)
    ensures RunRepeatedly(stage, inputs, held) == held + SkippedCleanups(stage, inputs)
    ensures (forall i :: 0 <= i < |inputs| ==> Returns(stage, inputs[i])) ==> RunRepeatedly(stage, inputs, held) == held
  {
    if inputs != [] {
      CleanupSkippedPerFailure(stage, inputs[1..], RunStage(stage, inputs[0], held).held);
      if forall i :: 0 <= i < |inputs| ==> Returns(stage, inputs[i]) {
        assert forall i :: 0 <= i < |inputs[1..]| ==> Returns(stage, inputs[1..][i]) by {
          forall i | 0 <= i < |inputs[1..]|
            ensures Returns(stage, inputs[1..][i])
          {
            assert inputs[1..][i] == inputs[i + 1];
          }
        }
      }
    }
  }

  /** The thread count handed to the model loader, and the count given to
      `torch.set_num_threads` when that call is made */
  datatype ThreadChoice = ThreadChoice(loader: int, torch: Option<int>)

  const DEFAULT_LOADER_THREADS: int := 4

  /** A positive request is used for both; otherwise the loader gets 4 and
      torch's setting is left alone */
  function SelectThreads(threads: int): (c: ThreadChoice)
    ensures c.loader > 0
    ensures c.loader == threads <==> threads > 0
    ensures threads <= 0 ==> c.loader == DEFAULT_LOADER_THREADS
    ensures c.torch.Some? <==> threads > 0
    ensures c.torch.Some? ==> c.torch.value == c.loader
  {
    if threads > 0 then ThreadChoice(threads, Some(threads))
    else ThreadChoice(DEFAULT_LOADER_THREADS, None)
  }

  /** The Whisper options of a processing request */
  datatype WhisperParams = WhisperParams(
    task: string,
    language: Option<string>,
    batchSize: int,
    model: string,
    device: string,
    deviceIndex: int,
    computeType: string,
    threads: int)

  /** What the transcription stage loads its model with and runs on */
  datatype TranscribeCall = TranscribeCall(
    audio: Audio,
    task: string,
    language: Option<string>,
    batchSize: int,
    model: string,
    device: string,
    deviceIndex: int,
    computeType: string,
    threads: int)

  /** The call `transcribe_with_whisper` makes: the request's options, with
      the thread count replaced by the loader's choice */
  function TranscribeCallFor(audio: Audio, p: WhisperParams): (c: TranscribeCall)
    ensures c.threads > 0
    ensures c.threads == SelectThreads(p.threads).loader
    ensures c.(threads := p.threads) ==
      TranscribeCall(audio, p.task, p.language, p.batchSize, p.model, p.device, p.deviceIndex, p.computeType, p.threads)
  {
    TranscribeCall(audio, p.task, p.language, p.batchSize, p.model, p.device, p.deviceIndex, p.computeType,
                   SelectThreads(p.threads).loader)
  }

  /** `transcribe_with_whisper`: the Whisper model is loaded with the
      request's options and the chosen thread count, then transcribes */
  function TranscribeWithWhisper(stage: Stage<TranscribeCall, RawTranscript>, audio: Audio, p: WhisperParams, held: nat)
    : (r: StageRun<RawTranscript>)
    ensures r.result.Ok? <==> Returns(stage, TranscribeCallFor(audio, p))
    ensures r.result.Ok? ==> r.held == held && r.result == stage.infer(TranscribeCallFor(audio, p))
    ensures r.result == StageOutcome(stage, TranscribeCallFor(audio, p))
    ensures r.held == held + (if SkipsCleanup(stage, TranscribeCallFor(audio, p)) then 1 else 0)
    ensures r.held <= held + 1
  {
    RunStage(stage, TranscribeCallFor(audio, p), held)
  }

  /** What the alignment stage loads its model with and runs on */
  datatype AlignCall = AlignCall(
    segments: seq<Segment>,
    audio: Audio,
    languageCode: string,
    device: string,
    alignModel: Option<string>,
    interpolateMethod: string,
    returnCharAlignments: bool)

  /** `align_whisper_output`: the alignment model is loaded for the language
      on the device, then aligns the transcript's segments to the audio */
  function AlignWhisperOutput(stage: Stage<AlignCall, Transcript>, transcript: seq<Segment>, audio: Audio,
                              languageCode: string, device: string, alignModel: Option<string>,
                              interpolateMethod: string, returnCharAlignments: bool, held: nat)
    : (r: StageRun<Transcript>)
    ensures var call := AlignCall(transcript, audio, languageCode, device, alignModel, interpolateMethod, returnCharAlignments);
      && (r.result.Ok? <==> Returns(stage, call))
      && (r.result.Ok? ==> r.held == held && r.result == stage.infer(call))
      && r.result == StageOutcome(stage, call)
      && r.held == held + (if SkipsCleanup(stage, call) then 1 else 0)
    ensures r.held <= held + 1
  {
    RunStage(stage, AlignCall(transcript, audio, languageCode, device, alignModel, interpolateMethod, returnCharAlignments), held)
  }

  datatype SpeakerTurn = SpeakerTurn(start: int, end: int, speaker: string)

  datatype DiarizeCall = DiarizeCall(audio: Audio, device: string, minSpeakers: Option<int>, maxSpeakers: Option<int>)

  /** `diarize`: the diarization pipeline is built for the device, then run
      on the audio within the speaker-count bounds */
  function Diarize(stage: Stage<DiarizeCall, seq<SpeakerTurn>>, audio: Audio, device: string,
                   minSpeakers: Option<int>, maxSpeakers: Option<int>, held: nat): (r: StageRun<seq<SpeakerTurn>>)
    ensures var call := DiarizeCall(audio, device, minSpeakers, maxSpeakers);
      && (r.result.Ok? <==> Returns(stage, call))
      && (r.result.Ok? ==> r.held == held && r.result == stage.infer(call))
      && r.result == StageOutcome(stage, call)
      && r.held == held + (if SkipsCleanup(stage, call) then 1 else 0)
    ensures r.held <= held + 1
  {
    RunStage(stage, DiarizeCall(audio, device, minSpeakers, maxSpeakers), held)
  }
}
