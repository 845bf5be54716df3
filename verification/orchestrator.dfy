/**
 The speech-to-text orchestrator `process_audio_common`: transcribe, read the
 transcription's segments and language, align, filter, label every segment
 and word with the default speaker, and record the outcome in the task store.

 Everything the routine reaches outside itself is a field of `Env`: the two
 inference stages it runs, the transcript filter, the task-store write, the
 wall clock and the module-level default device. One run is a pure function
 of the request and the environment, returning the events in the order they
 happened, the exception that leaves the routine (if any) and the number of
 models left uncleaned.
 */
module Orchestrator {
  import opened Errors
  import opened Transcripts
  import opened Inference
  import opened TaskStore

  datatype AlignmentParams = AlignmentParams(
    alignModel: Option<string>,
    interpolateMethod: string,
    returnCharAlignments: bool)

  datatype Request = Request(
    identifier: string,
    audio: Audio,
    whisper: WhisperParams,
    alignment: AlignmentParams)

  /** The routine's surroundings. `now(k)` is the time the k-th clock reading
      returns; `store(u)` is the exception writing `u` raises, if any;
      `device` is the module-level default the alignment stage runs on. The
      diarizer is available but, as the routine skips diarization, never
      consulted. */
  datatype Env = Env(
    device: string,
    transcriber: Stage<TranscribeCall, RawTranscript>,
    aligner: Stage<AlignCall, Transcript>,
    diarizer: Stage<DiarizeCall, seq<SpeakerTurn>>,
    filter: Transcript -> Outcome<Transcript>,
    store: StatusUpdate -> Option<Error>,
    now: nat -> int)

  /** The two keys read from the transcription stage's dict */
  datatype TranscriptKey = SegmentsKey | LanguageKey {
    function Name(): string {
      match this
      case SegmentsKey => "segments"
      case LanguageKey => "language"
    }
  }

  /** Something the routine did, with its outcome */
  datatype Event =
    | ClockRead(time: int)
    | Transcribed(transcribeCall: TranscribeCall, raw: Outcome<RawTranscript>)
    | KeyRead(key: TranscriptKey, missing: Option<Error>)
    | Aligned(alignCall: AlignCall, aligned: Outcome<Transcript>)
    | Filtered(input: Transcript, filtered: Outcome<Transcript>)
    | Written(update: StatusUpdate, failure: Option<Error>)
  {
    /** The exception this step raised, if any */
    function Failure(): Option<Error> {
      match this
      case ClockRead(_) => None
      case Transcribed(_, o) => o.Failure()
      case KeyRead(_, f) => f
      case Aligned(_, o) => o.Failure()
      case Filtered(_, o) => o.Failure()
      case Written(_, f) => f
    }
  }

  datatype RunResult = RunResult(trace: seq<Event>, raised: Option<Error>, held: nat)

  /** The kind of each step, for stating the order they happen in */
  datatype Step = Clock | Transcribe | ReadSegments | ReadLanguage | Align | Filter | WriteCompleted | WriteFailed

  function StepOf(e: Event): Step {
    match e
    case ClockRead(_) => Clock
    case Transcribed(_, _) => Transcribe
    case KeyRead(k, _) => if k == SegmentsKey then ReadSegments else ReadLanguage
    case Aligned(_, _) => Align
    case Filtered(_, _) => Filter
    case Written(u, _) => if u.status == Completed then WriteCompleted else WriteFailed
  }

  /** The number of steps of the routine when nothing raises */
  const PIPELINE_LENGTH: nat := 8

  /** Step `i` of the routine when nothing raises: clock, transcribe, read
      "segments", read "language", align, filter, clock, completed write */
  function PipelineStep(i: nat): Step
    requires i < PIPELINE_LENGTH
  {
    match i
    case 0 => Clock
    case 1 => Transcribe
    case 2 => ReadSegments
    case 3 => ReadLanguage
    case 4 => Align
    case 5 => Filter
    case 6 => Clock
    case _ => WriteCompleted
  }

  predicate IsFailedWrite(e: Event) {
    e.Written? && e.update.status == Failed
  }

  /** What the handlers do with an exception `e` raised in the `try` block:
      for a caught class, the failed-status write carrying `str(e)`, whose own
      exception (if any) leaves the routine; for any other class, nothing, and
      `e` leaves the routine */
  predicate HandledBy(id: string, env: Env, e: Error, rest: seq<Event>, raised: Option<Error>) {
    if Caught(e.kind) then
      var u := FailedUpdate(id, e);
      rest == [Written(u, env.store(u))] && raised == env.store(u)
    else
      rest == [] && raised == Some(e)
  }

  /** The state machine of the routine: `trace` and `raised` are what it does
      from pipeline step `p` on. Each step either returns normally, and the
      next step follows (the completed write being the last), or raises, and
      the handlers take over. */
  predicate RunsFrom(id: string, env: Env, trace: seq<Event>, raised: Option<Error>, p: nat)
    decreases |trace|
  {
    && trace != []
    && p < PIPELINE_LENGTH
    && StepOf(trace[0]) == PipelineStep(p)
    && match trace[0].Failure()
       case Some(e) => HandledBy(id, env, e, trace[1..], raised)
       case None =>
         if p + 1 == PIPELINE_LENGTH then |trace| == 1 && raised.None?
         else RunsFrom(id, env, trace[1..], raised, p + 1)
  }

  predicate ReachedFilter(trace: seq<Event>) {
    exists i :: 0 <= i < |trace| && trace[i].Filtered?
  }

  /** Step `p` returned normally, recording `e`, and the steps after it ran */
  function Continue(id: string, env: Env, e: Event, p: nat, rest: RunResult): (r: RunResult)
    requires p + 1 < PIPELINE_LENGTH && StepOf(e) == PipelineStep(p) && e.Failure().None?
    requires RunsFrom(id, env, rest.trace, rest.raised, p + 1)
    ensures RunsFrom(id, env, r.trace, r.raised, p)
    ensures r.trace == [e] + rest.trace && r.held == rest.held
    ensures ReachedFilter(r.trace) <==> e.Filtered? || ReachedFilter(rest.trace)
  {
    var r := RunResult([e] + rest.trace, rest.raised, rest.held);
    assert r.trace[1..] == rest.trace;
    assert forall i :: 1 <= i < |r.trace| ==> r.trace[i] == rest.trace[i - 1];
    r
  }

  /** Step `p` raised, recording `ev`: the handlers take over */
  function Raise(id: string, env: Env, ev: Event, p: nat, held: nat): (r: RunResult)
    requires p < PIPELINE_LENGTH && StepOf(ev) == PipelineStep(p) && ev.Failure().Some?
    ensures RunsFrom(id, env, r.trace, r.raised, p)
    ensures r.trace[0] == ev && r.held == held
    ensures ReachedFilter(r.trace) <==> ev.Filtered?
  {
    var e := ev.Failure().value;
    if Caught(e.kind) then
      var u := FailedUpdate(id, e);
      var f := env.store(u);
      RunResult([ev, Written(u, f)], f, held)
    else
      RunResult([ev], Some(e), held)
  }

  /** The transcription stage, with the request's Whisper options */
  function TranscribeStep(req: Request, env: Env, start: int, held: nat): (r: RunResult)
    ensures RunsFrom(req.identifier, env, r.trace, r.raised, 1)
    ensures r.trace[0].Transcribed? && r.trace[0].transcribeCall == TranscribeCallFor(req.audio, req.whisper)
    ensures r.trace[0].raw == TranscribeWithWhisper(env.transcriber, req.audio, req.whisper, held).result
    ensures r.held <= held + 1
    ensures ReachedFilter(r.trace) ==> r.held == held
  {
    var call := TranscribeCallFor(req.audio, req.whisper);
    var tr := TranscribeWithWhisper(env.transcriber, req.audio, req.whisper, held);
    var ev := Transcribed(call, tr.result);
    match tr.result
    case Err(_) => Raise(req.identifier, env, ev, 1, tr.held)
    case Ok(raw) => Continue(req.identifier, env, ev, 1, SegmentsStep(req, env, start, raw, tr.held))
  }

  /** `segments_before_alignment["segments"]` */
  function SegmentsStep(req: Request, env: Env, start: int, raw: RawTranscript, held: nat): (r: RunResult)
    ensures RunsFrom(req.identifier, env, r.trace, r.raised, 2)
    ensures r.trace[0].KeyRead? && r.trace[0].key == SegmentsKey
    ensures r.trace[0].missing.Some? <==> raw.segments.None?
    ensures r.trace[0].missing.Some? ==> r.trace[0].missing.value == MissingKey("segments")
    ensures r.held <= held + 1
    ensures ReachedFilter(r.trace) ==> r.held == held
  {
    match raw.segments
    case None => Raise(req.identifier, env, KeyRead(SegmentsKey, Some(MissingKey(SegmentsKey.Name()))), 2, held)
    case Some(segments) =>
      Continue(req.identifier, env, KeyRead(SegmentsKey, None), 2, LanguageStep(req, env, start, raw, segments, held))
  }

  /** `segments_before_alignment["language"]` */
  function LanguageStep(req: Request, env: Env, start: int, raw: RawTranscript, segments: seq<Segment>, held: nat)
    : (r: RunResult)
    ensures RunsFrom(req.identifier, env, r.trace, r.raised, 3)
    ensures r.trace[0].KeyRead? && r.trace[0].key == LanguageKey
    ensures r.trace[0].missing.Some? <==> raw.language.None?
    ensures r.trace[0].missing.Some? ==> r.trace[0].missing.value == MissingKey("language")
    ensures r.held <= held + 1
    ensures ReachedFilter(r.trace) ==> r.held == held
  {
    match raw.language
    case None => Raise(req.identifier, env, KeyRead(LanguageKey, Some(MissingKey(LanguageKey.Name()))), 3, held)
    case Some(language) =>
      Continue(req.identifier, env, KeyRead(LanguageKey, None), 3, AlignStep(req, env, start, segments, language, held))
  }

  /** Alignment of the transcription's own segments, in the language the
      transcription reported, on the module-level default device */
  function AlignStep(req: Request, env: Env, start: int, segments: seq<Segment>, language: string, held: nat)
    : (r: RunResult)
    ensures RunsFrom(req.identifier, env, r.trace, r.raised, 4)
    ensures r.trace[0].Aligned?
    ensures r.trace[0].alignCall == AlignCall(segments, req.audio, language, env.device, req.alignment.alignModel,
                                              req.alignment.interpolateMethod, req.alignment.returnCharAlignments)
    ensures r.trace[0].aligned == AlignWhisperOutput(env.aligner, segments, req.audio, language, env.device,
      req.alignment.alignModel, req.alignment.interpolateMethod, req.alignment.returnCharAlignments, held).result
    ensures r.held <= held + 1
    ensures ReachedFilter(r.trace) ==> r.held == held
  {
    var call := AlignCall(segments, req.audio, language, env.device, req.alignment.alignModel,
                          req.alignment.interpolateMethod, req.alignment.returnCharAlignments);
    var ar := AlignWhisperOutput(env.aligner, segments, req.audio, language, env.device, req.alignment.alignModel,
                                 req.alignment.interpolateMethod, req.alignment.returnCharAlignments, held);
    var ev := Aligned(call, ar.result);
    match ar.result
    case Err(_) => Raise(req.identifier, env, ev, 4, ar.held)
    case Ok(aligned) => Continue(req.identifier, env, ev, 4, FilterStep(req, env, start, aligned, ar.held))
  }

  /** Validation and filtering of the aligned transcript */
  function FilterStep(req: Request, env: Env, start: int, aligned: Transcript, held: nat): (r: RunResult)
    ensures RunsFrom(req.identifier, env, r.trace, r.raised, 5)
    ensures r.trace[0] == Filtered(aligned, env.filter(aligned))
    ensures r.held == held
  {
    var fr := env.filter(aligned);
    var ev := Filtered(aligned, fr);
    match fr
    case Err(_) => Raise(req.identifier, env, ev, 5, held)
    case Ok(filtered) => Continue(req.identifier, env, ev, 5, CompletedWriteStep(req, env, start, filtered, held))
  }

  /** Default speaker labels, the second clock reading and the completed
      write */
  function CompletedWriteStep(req: Request, env: Env, start: int, filtered: Transcript, held: nat): (r: RunResult)
    ensures RunsFrom(req.identifier, env, r.trace, r.raised, 6)
    ensures r.trace[0] == ClockRead(env.now(1))
    ensures |r.trace| >= 2 && r.trace[1].Written?
    ensures r.trace[1].update == CompletedUpdate(req.identifier, LabelTranscript(filtered), start, env.now(1))
    ensures r.trace[1].failure == env.store(r.trace[1].update)
    ensures r.held == held
  {
    var end := env.now(1);
    var u := CompletedUpdate(req.identifier, LabelTranscript(filtered), start, end);
    var w := Written(u, env.store(u));
    var last := if w.failure.Some? then Raise(req.identifier, env, w, 7, held) else RunResult([w], None, held);
    Continue(req.identifier, env, ClockRead(end), 6, last)
  }

  /** `process_audio_common`: the first clock reading, then the `try` block,
      with RuntimeError, ValueError, KeyError and MemoryError answered by a
      failed-status write and any other exception left to propagate */
  function ProcessAudioCommon(req: Request, env: Env, held: nat): (r: RunResult)
    ensures RunsFrom(req.identifier, env, r.trace, r.raised, 0)
    ensures r.trace[0] == ClockRead(env.now(0))
    ensures |r.trace| >= 2 && r.trace[1].Transcribed?
    ensures r.trace[1].raw == StageOutcome(env.transcriber, TranscribeCallFor(req.audio, req.whisper))
    ensures r.held <= held + 1
    ensures ReachedFilter(r.trace) ==> r.held == held
  {
    var start := env.now(0);
    Continue(req.identifier, env, ClockRead(start), 0, TranscribeStep(req, env, start, held))
  }

  /** The steps of `trace` are pipeline steps `p`, `p + 1`, ..., possibly
      followed by one failed-status write */
  predicate OrderFrom(trace: seq<Event>, p: nat) {
    && 1 <= |trace|
    && var n := if IsFailedWrite(trace[|trace| - 1]) then |trace| - 1 else |trace|;
       && 1 <= n && p + n <= PIPELINE_LENGTH
       && forall i :: 0 <= i < n ==> StepOf(trace[i]) == PipelineStep(p + i)
  }

  predicate NoFailure(trace: seq<Event>) {
    forall i :: 0 <= i < |trace| ==> trace[i].Failure().None?
  }

  /** The exception leaving the routine is the one its last step raised */
  lemma {:induction false} RaisedByLastStep(id: string, env: Env, trace: seq<Event>, raised: Option<Error>, p: nat)
    requires RunsFrom(id, env, trace, raised, p)
    ensures raised == trace[|trace| - 1].Failure()
    decreases |trace|
  {
    if trace[0].Failure().None? && p + 1 < PIPELINE_LENGTH {
      RaisedByLastStep(id, env, trace[1..], raised, p + 1);
    }
  }

  /** Steps run in pipeline order, and only a failed-status write can follow
      the step that raised */
  lemma {:induction false} StepsInOrder(id: string, env: Env, trace: seq<Event>, raised: Option<Error>, p: nat)
    requires RunsFrom(id, env, trace, raised, p)
    ensures OrderFrom(trace, p)
    decreases |trace|
  {
    if trace[0].Failure().None? && p + 1 < PIPELINE_LENGTH {
      StepsInOrder(id, env, trace[1..], raised, p + 1);
      assert forall i :: 1 <= i < |trace| ==> trace[i] == trace[1..][i - 1];
    }
  }

  /** Every exception raised by a step reaches the handlers, which do with it
      what `HandledBy` says; and a failed-status write is made only as the
      last step, in answer to a caught exception from the step before it */
  lemma {:induction false} FailuresHandled(id: string, env: Env, trace: seq<Event>, raised: Option<Error>, p: nat)
    requires RunsFrom(id, env, trace, raised, p)
    ensures forall i :: 0 <= i < |trace| && !IsFailedWrite(trace[i]) && trace[i].Failure().Some? ==>
              HandledBy(id, env, trace[i].Failure().value, trace[i + 1..], raised)
    ensures forall i :: 0 <= i < |trace| && IsFailedWrite(trace[i]) ==>
              && 1 <= i == |trace| - 1
              && trace[i - 1].Failure().Some? && Caught(trace[i - 1].Failure().value.kind)
              && trace[i] == Written(FailedUpdate(id, trace[i - 1].Failure().value), raised)
    decreases |trace|
  {
    match trace[0].Failure()
    case Some(e) =>
    case None =>
      if p + 1 < PIPELINE_LENGTH {
        var rest := trace[1..];
        FailuresHandled(id, env, rest, raised, p + 1);
        forall i | 1 <= i < |trace|
          ensures trace[i] == rest[i - 1] && trace[i + 1..] == rest[i..]
        {
        }
      }
  }

  /** The routine runs every step, ending with the completed write, and
      returns normally exactly when no step raises */
  lemma {:induction false} SucceedsIffNoStepRaises(id: string, env: Env, trace: seq<Event>, raised: Option<Error>, p: nat)
    requires RunsFrom(id, env, trace, raised, p)
    ensures NoFailure(trace) <==> raised.None? && !IsFailedWrite(trace[|trace| - 1])
    ensures NoFailure(trace) ==> p + |trace| == PIPELINE_LENGTH
    decreases |trace|
  {
    match trace[0].Failure()
    case Some(e) =>
      assert !NoFailure(trace);
    case None =>
      if p + 1 < PIPELINE_LENGTH {
        var rest := trace[1..];
        SucceedsIffNoStepRaises(id, env, rest, raised, p + 1);
        assert trace[|trace| - 1] == rest[|rest| - 1];
        assert NoFailure(trace) <==> NoFailure(rest) by {
          assert forall i :: 1 <= i < |trace| ==> trace[i] == rest[i - 1];
        }
      }
  }

  /** The status updates sent to the task store, in order */
  function Writes(trace: seq<Event>): seq<StatusUpdate> {
    if trace == [] then []
    else (if trace[0].Written? then [trace[0].update] else []) + Writes(trace[1..])
  }

  /** At most two writes are made: a completed write, a failed write, or a
      completed write whose own caught exception leads to a failed write. No
      write at all is made only when an uncaught exception leaves the routine */
  lemma {:induction false} WriteSequence(id: string, env: Env, trace: seq<Event>, raised: Option<Error>, p: nat)
    requires RunsFrom(id, env, trace, raised, p)
    ensures |Writes(trace)| <= 2
    ensures |Writes(trace)| == 2 ==> Writes(trace)[0].status == Completed && Writes(trace)[1].status == Failed
    ensures Writes(trace) == [] ==> raised.Some? && !Caught(raised.value.kind)
    ensures NoFailure(trace) ==>
      trace[|trace| - 1].Written? && Writes(trace) == [trace[|trace| - 1].update] && Writes(trace)[0].status == Completed
    decreases |trace|
  {
    var rest := trace[1..];
    assert Writes(trace) == (if trace[0].Written? then [trace[0].update] else []) + Writes(rest);
    match trace[0].Failure()
    case Some(e) =>
      if Caught(e.kind) {
        assert Writes(rest) == [FailedUpdate(id, e)] by {
          assert rest[1..] == [];
        }
      } else {
        assert rest == [];
      }
    case None =>
      if p + 1 < PIPELINE_LENGTH {
        WriteSequence(id, env, rest, raised, p + 1);
      } else {
        assert rest == [];
      }
  }

  /** A stage that raises leaves the task store with the failed-status write
      for its exception alone (a caught class) or with no write at all (any
      other class); the routine then raises what that write raised, or the
      stage's own exception */
  lemma {:induction false} StageFailureWrites(id: string, env: Env, trace: seq<Event>, raised: Option<Error>, p: nat)
    requires RunsFrom(id, env, trace, raised, p)
    ensures forall i :: 0 <= i < |trace| && !trace[i].Written? && trace[i].Failure().Some? ==>
      var e := trace[i].Failure().value;
      if Caught(e.kind) then Writes(trace) == [FailedUpdate(id, e)] && raised == env.store(FailedUpdate(id, e))
      else Writes(trace) == [] && raised == Some(e)
    decreases |trace|
  {
    var rest := trace[1..];
    assert Writes(trace) == (if trace[0].Written? then [trace[0].update] else []) + Writes(rest);
    match trace[0].Failure()
    case Some(e) =>
      if Caught(e.kind) {
        assert rest[1..] == [];
      }
      forall i | 1 <= i < |trace|
        ensures trace[i].Written?
      {
      }
    case None =>
      if p + 1 < PIPELINE_LENGTH {
        StageFailureWrites(id, env, rest, raised, p + 1);
        assert !trace[0].Written?;
        forall i | 1 <= i < |trace|
          ensures trace[i] == rest[i - 1]
        {
        }
      }
  }

  /** The completed-status write the stages call for when each one returns:
      the transcription, both keys of its dict, the alignment of its own
      segments in its own language, and the filter. `None` when any of them
      raises. */
  function StagesCompletion(req: Request, env: Env): Option<StatusUpdate> {
    match StageOutcome(env.transcriber, TranscribeCallFor(req.audio, req.whisper))
    case Err(_) => None
    case Ok(raw) =>
      if raw.segments.None? || raw.language.None? then None
      else
        var call := AlignCall(raw.segments.value, req.audio, raw.language.value, env.device,
                              req.alignment.alignModel, req.alignment.interpolateMethod,
                              req.alignment.returnCharAlignments);
        match StageOutcome(env.aligner, call)
        case Err(_) => None
        case Ok(aligned) =>
          match env.filter(aligned)
          case Err(_) => None
          case Ok(filtered) =>
            Some(CompletedUpdate(req.identifier, LabelTranscript(filtered), env.now(0), env.now(1)))
  }

  /** The status writes a run makes and the exception that leaves it */
  datatype Expectation = Expectation(writes: seq<StatusUpdate>, raised: Option<Error>)

  /** What the `except` clauses make of an exception `e`: the failed write
      and whatever it raises, for a caught class; nothing, with `e` leaving,
      for any other */
  function Handled(id: string, env: Env, e: Error): Expectation {
    if Caught(e.kind) then
      var u := FailedUpdate(id, e);
      Expectation([u], env.store(u))
    else
      Expectation([], Some(e))
  }

  /** The completed write `u`, then the handlers if the store raises */
  function ExpectFromWrite(id: string, env: Env, u: StatusUpdate): Expectation {
    match env.store(u)
    case None => Expectation([u], None)
    case Some(e) =>
      var h := Handled(id, env, e);
      Expectation([u] + h.writes, h.raised)
  }

  /** The filter, then the labelled completed write */
  function ExpectFromFilter(req: Request, env: Env, start: int, aligned: Transcript): Expectation {
    match env.filter(aligned)
    case Err(e) => Handled(req.identifier, env, e)
    case Ok(filtered) =>
      ExpectFromWrite(req.identifier, env, CompletedUpdate(req.identifier, LabelTranscript(filtered), start, env.now(1)))
  }

  /** The alignment stage on the given segments and language, then the rest */
  function ExpectFromAlign(req: Request, env: Env, start: int, segments: seq<Segment>, language: string): Expectation {
    var call := AlignCall(segments, req.audio, language, env.device, req.alignment.alignModel,
                          req.alignment.interpolateMethod, req.alignment.returnCharAlignments);
    match StageOutcome(env.aligner, call)
    case Err(e) => Handled(req.identifier, env, e)
    case Ok(aligned) => ExpectFromFilter(req, env, start, aligned)
  }

  /** The transcription stage, the two key reads, then the rest */
  function ExpectFromTranscription(req: Request, env: Env, start: int): Expectation {
    match StageOutcome(env.transcriber, TranscribeCallFor(req.audio, req.whisper))
    case Err(e) => Handled(req.identifier, env, e)
    case Ok(raw) =>
      if raw.segments.None? then Handled(req.identifier, env, MissingKey("segments"))
      else if raw.language.None? then Handled(req.identifier, env, MissingKey("language"))
      else ExpectFromAlign(req, env, start, raw.segments.value, raw.language.value)
  }

  /** The writes and the escaping exception the stages, the filter and the
      store call for, computed from their outcomes alone */
  function ExpectedRun(req: Request, env: Env): Expectation {
    ExpectFromTranscription(req, env, env.now(0))
  }

  /** Whatever the stages, the filter and the store do, the routine makes
      exactly the status writes `ExpectedRun` lists and raises exactly what it
      says: each raising stage is answered by the failed write for its
      exception (caught class) or by none, and a completed write that raises
      a caught class is followed by the failed write */
  lemma RunMatchesStages(req: Request, env: Env, held: nat)
    ensures var r := ProcessAudioCommon(req, env, held);
      Writes(r.trace) == ExpectedRun(req, env).writes && r.raised == ExpectedRun(req, env).raised
  {
    var start := env.now(0);
    var ts := TranscribeStep(req, env, start, held);
    TranscribeStepMatches(req, env, start, held);
    WritesCons(ClockRead(start), ts.trace);
  }

  lemma WritesCons(e: Event, rest: seq<Event>)
    ensures Writes([e] + rest) == (if e.Written? then [e.update] else []) + Writes(rest)
  {
    assert ([e] + rest)[1..] == rest;
  }

  /** A raising step's own write (if it is one), then the handlers' */
  lemma RaiseMatches(id: string, env: Env, ev: Event, p: nat, held: nat)
    requires p < PIPELINE_LENGTH && StepOf(ev) == PipelineStep(p) && ev.Failure().Some?
    ensures var r := Raise(id, env, ev, p, held);
      var h := Handled(id, env, ev.Failure().value);
      Writes(r.trace) == (if ev.Written? then [ev.update] else []) + h.writes && r.raised == h.raised
  {
    var r := Raise(id, env, ev, p, held);
    var e := ev.Failure().value;
    if Caught(e.kind) {
      var w := r.trace[1];
      assert r.trace == [ev] + [w];
      WritesCons(ev, [w]);
      WritesCons(w, []);
    } else {
      assert r.trace == [ev] + [];
      WritesCons(ev, []);
    }
  }

  /** From transcription on, the run matches `ExpectFromTranscription` */
  lemma TranscribeStepMatches(req: Request, env: Env, start: int, held: nat)
    ensures var r := TranscribeStep(req, env, start, held);
      var x := ExpectFromTranscription(req, env, start);
      Writes(r.trace) == x.writes && r.raised == x.raised
  {
    var call := TranscribeCallFor(req.audio, req.whisper);
    var tr := TranscribeWithWhisper(env.transcriber, req.audio, req.whisper, held);
    var ev := Transcribed(call, tr.result);
    match tr.result
    case Err(_) =>
      RaiseMatches(req.identifier, env, ev, 1, tr.held);
    case Ok(raw) =>
      var ss := SegmentsStep(req, env, start, raw, tr.held);
      SegmentsStepMatches(req, env, start, raw, tr.held);
      WritesCons(ev, ss.trace);
  }

  lemma SegmentsStepMatches(req: Request, env: Env, start: int, raw: RawTranscript, held: nat)
    ensures var r := SegmentsStep(req, env, start, raw, held);
      var x := if raw.segments.None? then Handled(req.identifier, env, MissingKey("segments"))
               else if raw.language.None? then Handled(req.identifier, env, MissingKey("language"))
               else ExpectFromAlign(req, env, start, raw.segments.value, raw.language.value);
      Writes(r.trace) == x.writes && r.raised == x.raised
  {
    match raw.segments
    case None =>
      RaiseMatches(req.identifier, env, KeyRead(SegmentsKey, Some(MissingKey("segments"))), 2, held);
    case Some(segments) =>
      var ls := LanguageStep(req, env, start, raw, segments, held);
      LanguageStepMatches(req, env, start, raw, segments, held);
      WritesCons(KeyRead(SegmentsKey, None), ls.trace);
  }

  lemma LanguageStepMatches(req: Request, env: Env, start: int, raw: RawTranscript, segments: seq<Segment>, held: nat)
    ensures var r := LanguageStep(req, env, start, raw, segments, held);
      var x := if raw.language.None? then Handled(req.identifier, env, MissingKey("language"))
               else ExpectFromAlign(req, env, start, segments, raw.language.value);
      Writes(r.trace) == x.writes && r.raised == x.raised
  {
    match raw.language
    case None =>
      RaiseMatches(req.identifier, env, KeyRead(LanguageKey, Some(MissingKey("language"))), 3, held);
    case Some(language) =>
      var als := AlignStep(req, env, start, segments, language, held);
      AlignStepMatches(req, env, start, segments, language, held);
      WritesCons(KeyRead(LanguageKey, None), als.trace);
  }

  /** From alignment on, the run matches `ExpectFromAlign` */
  lemma AlignStepMatches(req: Request, env: Env, start: int, segments: seq<Segment>, language: string, held: nat)
    ensures var r := AlignStep(req, env, start, segments, language, held);
      var x := ExpectFromAlign(req, env, start, segments, language);
      Writes(r.trace) == x.writes && r.raised == x.raised
  {
    var call := AlignCall(segments, req.audio, language, env.device, req.alignment.alignModel,
                          req.alignment.interpolateMethod, req.alignment.returnCharAlignments);
    var ar := RunStage(env.aligner, call, held);
    var ev := Aligned(call, ar.result);
    match ar.result
    case Err(_) =>
      RaiseMatches(req.identifier, env, ev, 4, ar.held);
    case Ok(aligned) =>
      var fs := FilterStep(req, env, start, aligned, ar.held);
      FilterStepMatches(req, env, start, aligned, ar.held);
      WritesCons(ev, fs.trace);
  }

  /** From the filter on, the run matches `ExpectFromFilter` */
  lemma FilterStepMatches(req: Request, env: Env, start: int, aligned: Transcript, held: nat)
    ensures var r := FilterStep(req, env, start, aligned, held);
      var x := ExpectFromFilter(req, env, start, aligned);
      Writes(r.trace) == x.writes && r.raised == x.raised
  {
    var fr := env.filter(aligned);
    var ev := Filtered(aligned, fr);
    match fr
    case Err(_) =>
      RaiseMatches(req.identifier, env, ev, 5, held);
    case Ok(filtered) =>
      var cs := CompletedWriteStep(req, env, start, filtered, held);
      CompletedWriteStepMatches(req, env, start, filtered, held);
      WritesCons(ev, cs.trace);
  }

  /** The end-time reading and the completed write match `ExpectFromWrite` */
  lemma CompletedWriteStepMatches(req: Request, env: Env, start: int, filtered: Transcript, held: nat)
    ensures var r := CompletedWriteStep(req, env, start, filtered, held);
      var x := ExpectFromWrite(req.identifier, env,
                               CompletedUpdate(req.identifier, LabelTranscript(filtered), start, env.now(1)));
      Writes(r.trace) == x.writes && r.raised == x.raised
  {
    var u := CompletedUpdate(req.identifier, LabelTranscript(filtered), start, env.now(1));
    var w := Written(u, env.store(u));
    var r := CompletedWriteStep(req, env, start, filtered, held);
    var last := r.trace[1..];
    assert r.trace == [ClockRead(env.now(1))] + last;
    WritesCons(ClockRead(env.now(1)), last);
    if w.failure.Some? {
      RaiseMatches(req.identifier, env, w, 7, held);
    } else {
      assert last == [w] + [];
      WritesCons(w, []);
    }
  }

  /** When every stage returns but the completed write raises a caught class,
      the writes are that completed attempt and then the failed update for
      its exception, and the routine raises what the second write raises */
  lemma CompletedWriteFailureHandled(req: Request, env: Env, held: nat)
    ensures var r := ProcessAudioCommon(req, env, held);
      var c := StagesCompletion(req, env);
      c.Some? && env.store(c.value).Some? && Caught(env.store(c.value).value.kind) ==>
        var u := FailedUpdate(req.identifier, env.store(c.value).value);
        Writes(r.trace) == [c.value, u] && r.raised == env.store(u)
  {
    RunMatchesStages(req, env, held);
  }

  /** No step raises exactly when every stage returns and the completed write
      is accepted; the routine then returns normally, every cleanup ran, and
      that completed write is the only status write */
  lemma RunCompletesIffStagesSucceed(req: Request, env: Env, held: nat)
    ensures var r := ProcessAudioCommon(req, env, held);
      var c := StagesCompletion(req, env);
      && (NoFailure(r.trace) <==> c.Some? && env.store(c.value).None?)
      && (NoFailure(r.trace) ==> r.raised.None? && r.held == held && Writes(r.trace) == [c.value])
  {
    StagesSucceedingComplete(req, env, held);
    CompletionNeedsEveryStage(req, env, held);
  }

  /** When every stage returns and the store accepts the completed write, no
      step raises */
  lemma StagesSucceedingComplete(req: Request, env: Env, held: nat)
    ensures var c := StagesCompletion(req, env);
      c.Some? && env.store(c.value).None? ==> NoFailure(ProcessAudioCommon(req, env, held).trace)
  {
    var c := StagesCompletion(req, env);
    if c.Some? && env.store(c.value).None? {
      var start := env.now(0);
      var ts := TranscribeStep(req, env, start, held);
      TranscribeStepSucceeds(req, env, start, held);
      NoFailureCons(ClockRead(start), ts.trace);
    }
  }

  lemma NoFailureCons(e: Event, rest: seq<Event>)
    ensures NoFailure([e] + rest) <==> e.Failure().None? && NoFailure(rest)
  {
    var t := [e] + rest;
    assert t[0] == e;
    assert forall i :: 1 <= i < |t| ==> t[i] == rest[i - 1];
    if e.Failure().None? && NoFailure(rest) {
      forall i | 0 <= i < |t|
        ensures t[i].Failure().None?
      {
        if i > 0 {
          assert t[i] == rest[i - 1];
        }
      }
    }
    if NoFailure(t) {
      assert t[0].Failure().None?;
      forall i | 0 <= i < |rest|
        ensures rest[i].Failure().None?
      {
        assert rest[i] == t[i + 1];
      }
    }
  }

  /** Transcription and the rest, from the transcription step on */
  lemma TranscribeStepSucceeds(req: Request, env: Env, start: int, held: nat)
    ensures var c := StagesCompletion(req, env);
      c.Some? && env.store(c.value).None? && start == env.now(0) ==>
        NoFailure(TranscribeStep(req, env, start, held).trace)
  {
    var c := StagesCompletion(req, env);
    if c.Some? && env.store(c.value).None? && start == env.now(0) {
      var tr := TranscribeWithWhisper(env.transcriber, req.audio, req.whisper, held);
      var raw := tr.result.value;
      var segments, language := raw.segments.value, raw.language.value;
      var als := AlignStep(req, env, start, segments, language, held);
      AlignStepSucceeds(req, env, start, segments, language, held);
      var ls := LanguageStep(req, env, start, raw, segments, held);
      NoFailureCons(KeyRead(LanguageKey, None), als.trace);
      var ss := SegmentsStep(req, env, start, raw, held);
      NoFailureCons(KeyRead(SegmentsKey, None), ls.trace);
      NoFailureCons(Transcribed(TranscribeCallFor(req.audio, req.whisper), tr.result), ss.trace);
    }
  }

  /** Alignment, filtering and the completed write, when each returns */
  lemma AlignStepSucceeds(req: Request, env: Env, start: int, segments: seq<Segment>, language: string, held: nat)
    ensures var call := AlignCall(segments, req.audio, language, env.device, req.alignment.alignModel,
                                  req.alignment.interpolateMethod, req.alignment.returnCharAlignments);
      var o := StageOutcome(env.aligner, call);
      (&& o.Ok? && env.filter(o.value).Ok?
       && env.store(CompletedUpdate(req.identifier, LabelTranscript(env.filter(o.value).value), start, env.now(1))).None?)
      ==> NoFailure(AlignStep(req, env, start, segments, language, held).trace)
  {
    var call := AlignCall(segments, req.audio, language, env.device, req.alignment.alignModel,
                          req.alignment.interpolateMethod, req.alignment.returnCharAlignments);
    var o := StageOutcome(env.aligner, call);
    if o.Ok? && env.filter(o.value).Ok?
      && env.store(CompletedUpdate(req.identifier, LabelTranscript(env.filter(o.value).value), start, env.now(1))).None?
    {
      var ar := RunStage(env.aligner, call, held);
      var fs := FilterStep(req, env, start, o.value, ar.held);
      FilterStepSucceeds(req, env, start, o.value, ar.held);
      NoFailureCons(Aligned(call, o), fs.trace);
    }
  }

  /** Filtering and the completed write, when each returns */
  lemma FilterStepSucceeds(req: Request, env: Env, start: int, aligned: Transcript, held: nat)
    ensures (&& env.filter(aligned).Ok?
             && env.store(CompletedUpdate(req.identifier, LabelTranscript(env.filter(aligned).value), start, env.now(1))).None?)
      ==> NoFailure(FilterStep(req, env, start, aligned, held).trace)
  {
    var fr := env.filter(aligned);
    if fr.Ok? && env.store(CompletedUpdate(req.identifier, LabelTranscript(fr.value), start, env.now(1))).None? {
      var cs := CompletedWriteStep(req, env, start, fr.value, held);
      assert cs.trace == [ClockRead(env.now(1)), cs.trace[1]];
      NoFailureCons(Filtered(aligned, fr), cs.trace);
    }
  }

  /** A run in which no step raises had every stage return, and its completed
      write is the one the stages call for, accepted by the store */
  lemma CompletionNeedsEveryStage(req: Request, env: Env, held: nat)
    ensures var r := ProcessAudioCommon(req, env, held);
      var c := StagesCompletion(req, env);
      NoFailure(r.trace) ==>
        && c.Some? && env.store(c.value).None?
        && r.raised.None? && r.held == held && Writes(r.trace) == [c.value]
  {
    var r := ProcessAudioCommon(req, env, held);
    var t := r.trace;
    if NoFailure(t) {
      RunSucceedsIffNoStepRaises(req, env, held);
      WriteSequence(req.identifier, env, t, r.raised, 0);
      assert StepOf(t[5]) == PipelineStep(5) && StepOf(t[7]) == PipelineStep(7);
      TranscriptionInput(req, env, held);
      AlignmentInput(req, env, held);
      FilterInput(req, env, held);
      CompletedWriteContents(req, env, held);
      assert t[1].raw.Ok? && t[4].aligned.Ok? && t[5].filtered.Ok? && t[7].failure.None? by {
        assert t[1].Failure().None? && t[4].Failure().None? && t[5].Failure().None? && t[7].Failure().None?;
      }
    }
  }

  /** A transcription stage that raises (loading or running) is answered by
      the failed-status write for its exception alone, or, for an uncaught
      class, by no write at all, with the exception leaving the routine */
  lemma TranscriptionFailureHandled(req: Request, env: Env, held: nat)
    ensures var r := ProcessAudioCommon(req, env, held);
      var o := StageOutcome(env.transcriber, TranscribeCallFor(req.audio, req.whisper));
      o.Err? ==>
        && (Caught(o.error.kind) ==>
              Writes(r.trace) == [FailedUpdate(req.identifier, o.error)]
              && r.raised == env.store(FailedUpdate(req.identifier, o.error)))
        && (!Caught(o.error.kind) ==> Writes(r.trace) == [] && r.raised == Some(o.error))
  {
    var r := ProcessAudioCommon(req, env, held);
    StageFailureWrites(req.identifier, env, r.trace, r.raised, 0);
    assert !r.trace[1].Written?;
  }

  /** A transcription without a "segments" key makes the routine record the
      KeyError `'segments'` as its only status write */
  lemma MissingSegmentsFails(req: Request, env: Env, held: nat)
    ensures var call := TranscribeCallFor(req.audio, req.whisper);
      var r := ProcessAudioCommon(req, env, held);
      var u := FailedUpdate(req.identifier, MissingKey("segments"));
      Returns(env.transcriber, call) && env.transcriber.infer(call).value.segments.None? ==>
        && r.trace[2] == KeyRead(SegmentsKey, Some(MissingKey("segments")))
        && Writes(r.trace) == [u]
        && r.raised == env.store(u)
  {
    var call := TranscribeCallFor(req.audio, req.whisper);
    var r := ProcessAudioCommon(req, env, held);
    if Returns(env.transcriber, call) && env.transcriber.infer(call).value.segments.None? {
      var start := env.now(0);
      var ts := TranscribeStep(req, env, start, held);
      assert r.trace[1..] == ts.trace;
      var tr := TranscribeWithWhisper(env.transcriber, req.audio, req.whisper, held);
      var ss := SegmentsStep(req, env, start, tr.result.value, tr.held);
      assert ts.trace[1..] == ss.trace;
      assert r.trace[2] == ss.trace[0];
      StageFailureWrites(req.identifier, env, r.trace, r.raised, 0);
    }
  }

  /** A transcription with segments but without a "language" key makes the
      routine record the KeyError `'language'` as its only status write */
  lemma MissingLanguageFails(req: Request, env: Env, held: nat)
    ensures var call := TranscribeCallFor(req.audio, req.whisper);
      var r := ProcessAudioCommon(req, env, held);
      var u := FailedUpdate(req.identifier, MissingKey("language"));
      && Returns(env.transcriber, call)
      && env.transcriber.infer(call).value.segments.Some?
      && env.transcriber.infer(call).value.language.None? ==>
        && r.trace[3] == KeyRead(LanguageKey, Some(MissingKey("language")))
        && Writes(r.trace) == [u]
        && r.raised == env.store(u)
  {
    var call := TranscribeCallFor(req.audio, req.whisper);
    var r := ProcessAudioCommon(req, env, held);
    if && Returns(env.transcriber, call)
       && env.transcriber.infer(call).value.segments.Some?
       && env.transcriber.infer(call).value.language.None?
    {
      var start := env.now(0);
      var ts := TranscribeStep(req, env, start, held);
      assert r.trace[1..] == ts.trace;
      var tr := TranscribeWithWhisper(env.transcriber, req.audio, req.whisper, held);
      var raw := tr.result.value;
      var ss := SegmentsStep(req, env, start, raw, tr.held);
      assert ts.trace[1..] == ss.trace;
      var ls := LanguageStep(req, env, start, raw, raw.segments.value, tr.held);
      assert ss.trace[1..] == ls.trace;
      assert r.trace[3] == ls.trace[0];
      StageFailureWrites(req.identifier, env, r.trace, r.raised, 0);
    }
  }

  /** Transcription receives the request's audio and Whisper options, with
      the thread count chosen for the loader */
  lemma TranscriptionInput(req: Request, env: Env, held: nat)
    ensures var t := ProcessAudioCommon(req, env, held).trace;
      && |t| >= 2 && t[1].Transcribed? && t[1].transcribeCall == TranscribeCallFor(req.audio, req.whisper)
      && t[1].raw == StageOutcome(env.transcriber, t[1].transcribeCall)
  {
    var ts := TranscribeStep(req, env, env.now(0), held);
    assert ProcessAudioCommon(req, env, held).trace[1] == ts.trace[0];
    TranscribeStepFlow(req, env, env.now(0), held);
  }

  /** Alignment receives the transcription's own segments and the language
      the transcription reported (not the request's), the request's audio
      and alignment options, and the module-level default device */
  lemma AlignmentInput(req: Request, env: Env, held: nat)
    ensures var t := ProcessAudioCommon(req, env, held).trace;
      |t| > 4 && t[4].Aligned? ==>
        && t[1].Transcribed? && t[1].raw.Ok?
        && t[1].raw.value.segments == Some(t[4].alignCall.segments)
        && t[1].raw.value.language == Some(t[4].alignCall.languageCode)
        && t[4].alignCall.audio == req.audio
        && t[4].alignCall.device == env.device
        && t[4].alignCall.alignModel == req.alignment.alignModel
        && t[4].alignCall.interpolateMethod == req.alignment.interpolateMethod
        && t[4].alignCall.returnCharAlignments == req.alignment.returnCharAlignments
        && t[4].aligned == StageOutcome(env.aligner, t[4].alignCall)
  {
    var start := env.now(0);
    var ts := TranscribeStep(req, env, start, held);
    var t := ProcessAudioCommon(req, env, held).trace;
    assert t[1..] == ts.trace;
    TranscribeStepFlow(req, env, start, held);
    if |t| > 4 && t[4].Aligned? {
      var raw := ts.trace[0].raw.value;
      var tr := TranscribeWithWhisper(env.transcriber, req.audio, req.whisper, held);
      var als := AlignStep(req, env, start, raw.segments.value, raw.language.value, tr.held);
      assert t[4] == ts.trace[3] == als.trace[0];
      AlignStepFlow(req, env, start, raw.segments.value, raw.language.value, tr.held);
    }
  }

  /** Filtering receives the aligned transcript */
  lemma FilterInput(req: Request, env: Env, held: nat)
    ensures var t := ProcessAudioCommon(req, env, held).trace;
      |t| > 5 && t[5].Filtered? ==>
        t[4].Aligned? && t[4].aligned == Ok(t[5].input) && t[5].filtered == env.filter(t[5].input)
  {
    var t := ProcessAudioCommon(req, env, held).trace;
    if |t| > 5 && t[5].Filtered? {
      var aligned, h := ReachFilterStep(req, env, held);
      FilterStepFlow(req, env, env.now(0), aligned, h);
      assert t[5] == t[5..][0];
    }
  }

  /** The completed write carries the labelled filter output, the first
      clock reading as start time and the second as end time */
  lemma CompletedWriteContents(req: Request, env: Env, held: nat)
    ensures var t := ProcessAudioCommon(req, env, held).trace;
      |t| > 7 && t[7].Written? && t[7].update.status == Completed ==>
        && t[5].Filtered? && t[5].filtered.Ok?
        && t[6] == ClockRead(env.now(1))
        && t[7].update == CompletedUpdate(req.identifier, LabelTranscript(t[5].filtered.value), env.now(0), env.now(1))
        && t[7].failure == env.store(t[7].update)
  {
    var r := ProcessAudioCommon(req, env, held);
    var t := r.trace;
    if |t| > 7 && t[7].Written? && t[7].update.status == Completed {
      CompletedWriteIsLastStep(req.identifier, env, t, r.raised, 0);
      CompletedWriteFollowsFilter(req.identifier, env, t, r.raised);
      var aligned, h := ReachFilterStep(req, env, held);
      FilterStepFlow(req, env, env.now(0), aligned, h);
      var t5 := t[5..];
      assert t[5] == t5[0] && t[6] == t5[1] && t[7] == t5[2];
    }
  }

  /** Only a run whose filter step returned reaches the completed write */
  lemma CompletedWriteFollowsFilter(id: string, env: Env, trace: seq<Event>, raised: Option<Error>)
    requires RunsFrom(id, env, trace, raised, 0)
    ensures |trace| > 7 && trace[7].Written? && trace[7].update.status == Completed ==> trace[5].Filtered?
  {
    StepsInOrder(id, env, trace, raised, 0);
  }

  /** A run that reaches step 5 went through the filter step, and from there
      on its trace is the filter step's */
  lemma ReachFilterStep(req: Request, env: Env, held: nat) returns (aligned: Transcript, h: nat)
    ensures var t := ProcessAudioCommon(req, env, held).trace;
      |t| > 5 && t[5].Filtered? ==>
        && t[4].Aligned? && t[4].aligned == Ok(aligned)
        && t[5..] == FilterStep(req, env, env.now(0), aligned, h).trace
  {
    aligned, h := Transcript([], []), 0;
    var t := ProcessAudioCommon(req, env, held).trace;
    if |t| > 5 && t[5].Filtered? {
      var start := env.now(0);
      var ts := TranscribeStep(req, env, start, held);
      assert t[1..] == ts.trace;
      TranscribeStepFlow(req, env, start, held);
      var raw := ts.trace[0].raw.value;
      var tr := TranscribeWithWhisper(env.transcriber, req.audio, req.whisper, held);
      var als := AlignStep(req, env, start, raw.segments.value, raw.language.value, tr.held);
      assert t[4..] == als.trace;
      AlignStepFlow(req, env, start, raw.segments.value, raw.language.value, tr.held);
      var ar := RunStage(env.aligner, als.trace[0].alignCall, tr.held);
      assert t[5..] == FilterStep(req, env, start, ar.result.value, ar.held).trace;
      aligned, h := ar.result.value, ar.held;
    }
  }

  lemma TranscribeStepFlow(req: Request, env: Env, start: int, held: nat)
    ensures var t := TranscribeStep(req, env, start, held).trace;
      var tr := TranscribeWithWhisper(env.transcriber, req.audio, req.whisper, held);
      && t[0] == Transcribed(TranscribeCallFor(req.audio, req.whisper), tr.result)
      && (|t| > 3 && (t[3].Aligned? || |t| > 4) ==>
            && tr.result.Ok? && tr.result.value.segments.Some? && tr.result.value.language.Some?
            && t[3..] == AlignStep(req, env, start, tr.result.value.segments.value, tr.result.value.language.value, tr.held).trace)
  {
    var tr := TranscribeWithWhisper(env.transcriber, req.audio, req.whisper, held);
    var t := TranscribeStep(req, env, start, held).trace;
    if tr.result.Ok? {
      var raw := tr.result.value;
      var ss := SegmentsStep(req, env, start, raw, tr.held);
      assert t[1..] == ss.trace;
      if raw.segments.Some? {
        var ls := LanguageStep(req, env, start, raw, raw.segments.value, tr.held);
        assert ss.trace[1..] == ls.trace;
        if raw.language.Some? {
          assert ls.trace[1..] == AlignStep(req, env, start, raw.segments.value, raw.language.value, tr.held).trace;
          assert t[3..] == ls.trace[1..];
        }
      }
    }
  }

  lemma AlignStepFlow(req: Request, env: Env, start: int, segments: seq<Segment>, language: string, held: nat)
    ensures var t := AlignStep(req, env, start, segments, language, held).trace;
      var call := AlignCall(segments, req.audio, language, env.device, req.alignment.alignModel,
                            req.alignment.interpolateMethod, req.alignment.returnCharAlignments);
      var ar := RunStage(env.aligner, call, held);
      && t[0] == Aligned(call, ar.result)
      && (|t| > 1 && t[1].Filtered? ==> ar.result.Ok? && t[1..] == FilterStep(req, env, start, ar.result.value, ar.held).trace)
  {
  }

  lemma FilterStepFlow(req: Request, env: Env, start: int, aligned: Transcript, held: nat)
    ensures var t := FilterStep(req, env, start, aligned, held).trace;
      && t[0] == Filtered(aligned, env.filter(aligned))
      && (|t| > 2 && t[2].Written? && t[2].update.status == Completed ==>
            && env.filter(aligned).Ok?
            && t[1] == ClockRead(env.now(1))
            && t[2].update == CompletedUpdate(req.identifier, LabelTranscript(env.filter(aligned).value), start, env.now(1))
            && t[2].failure == env.store(t[2].update))
  {
    var fr := env.filter(aligned);
    if fr.Ok? {
      var cs := CompletedWriteStep(req, env, start, fr.value, held);
      assert FilterStep(req, env, start, aligned, held).trace[1..] == cs.trace;
    }
  }

  /** The clock reads `now(0)`, `now(1)`, ... in that order and never goes
      backwards */
  ghost predicate NonDecreasing(now: nat -> int) {
    forall i: nat, j: nat :: i <= j ==> now(i) <= now(j)
  }

  /** The start time is read before any stage runs; then the stages follow
      in pipeline order, the run stopping at the first step that raises */
  lemma RunInPipelineOrder(req: Request, env: Env, held: nat)
    ensures var r := ProcessAudioCommon(req, env, held);
      && r.trace[0] == ClockRead(env.now(0))
      && OrderFrom(r.trace, 0)
      && forall i :: 0 <= i < |r.trace| - 1 && !IsFailedWrite(r.trace[i + 1]) ==> r.trace[i].Failure().None?
  {
    var r := ProcessAudioCommon(req, env, held);
    StepsInOrder(req.identifier, env, r.trace, r.raised, 0);
    OnlyFailedWriteFollowsFailure(req.identifier, env, r.trace, r.raised, 0);
  }

  /** After a step that raised, the only step that can follow is the
      failed-status write */
  lemma OnlyFailedWriteFollowsFailure(id: string, env: Env, trace: seq<Event>, raised: Option<Error>, p: nat)
    requires RunsFrom(id, env, trace, raised, p)
    ensures forall i :: 0 <= i < |trace| - 1 && !IsFailedWrite(trace[i + 1]) ==> trace[i].Failure().None?
  {
    FailuresHandled(id, env, trace, raised, p);
    forall i | 0 <= i < |trace| - 1 && !IsFailedWrite(trace[i + 1])
      ensures trace[i].Failure().None?
    {
      assert trace[i + 1] == trace[i + 1..][0];
    }
  }

  /** Whatever leaves the routine is what its last step raised; a caught
      class leaves it only when raised by the failed-status write itself */
  lemma RunRaises(req: Request, env: Env, held: nat)
    ensures var r := ProcessAudioCommon(req, env, held);
      && r.raised == r.trace[|r.trace| - 1].Failure()
      && (r.raised.Some? && Caught(r.raised.value.kind) ==> IsFailedWrite(r.trace[|r.trace| - 1]))
  {
    var r := ProcessAudioCommon(req, env, held);
    RaisedByLastStep(req.identifier, env, r.trace, r.raised, 0);
    CaughtEscapesOnlyFromFailedWrite(req.identifier, env, r.trace, r.raised, 0);
  }

  /** The handlers let no caught class escape, except one the failed-status
      write raises */
  lemma {:induction false} CaughtEscapesOnlyFromFailedWrite(id: string, env: Env, trace: seq<Event>, raised: Option<Error>, p: nat)
    requires RunsFrom(id, env, trace, raised, p)
    ensures raised.Some? && Caught(raised.value.kind) ==> IsFailedWrite(trace[|trace| - 1])
    decreases |trace|
  {
    var rest := trace[1..];
    match trace[0].Failure()
    case Some(e) =>
      if Caught(e.kind) {
        assert trace[|trace| - 1] == rest[0];
      }
    case None =>
      if p + 1 < PIPELINE_LENGTH {
        CaughtEscapesOnlyFromFailedWrite(id, env, rest, raised, p + 1);
        assert trace[|trace| - 1] == rest[|rest| - 1];
      }
  }

  /** The routine returns normally after its completed write exactly when no
      step raises, and then every step of the pipeline has run */
  lemma RunSucceedsIffNoStepRaises(req: Request, env: Env, held: nat)
    ensures var r := ProcessAudioCommon(req, env, held);
      && (NoFailure(r.trace) <==> r.raised.None? && !IsFailedWrite(r.trace[|r.trace| - 1]))
      && (NoFailure(r.trace) ==>
            |r.trace| == PIPELINE_LENGTH && forall i :: 0 <= i < |r.trace| ==> StepOf(r.trace[i]) == PipelineStep(i))
      && (NoFailure(r.trace) ==> r.held == held)
  {
    var r := ProcessAudioCommon(req, env, held);
    SucceedsIffNoStepRaises(req.identifier, env, r.trace, r.raised, 0);
    StepsInOrder(req.identifier, env, r.trace, r.raised, 0);
    NoFailureReachesFilter(req.identifier, env, r.trace, r.raised);
  }

  lemma NoFailureReachesFilter(id: string, env: Env, trace: seq<Event>, raised: Option<Error>)
    requires RunsFrom(id, env, trace, raised, 0)
    ensures NoFailure(trace) ==> ReachedFilter(trace)
  {
    if NoFailure(trace) {
      SucceedsIffNoStepRaises(id, env, trace, raised, 0);
      StepsInOrder(id, env, trace, raised, 0);
      assert StepOf(trace[5]) == Filter;
    }
  }

  /** Each caught exception is answered by one failed-status write carrying
      its message, which is the last step; an exception of any other class
      ends the routine at once, without a write */
  lemma HandlersAnswerOnce(id: string, env: Env, trace: seq<Event>, raised: Option<Error>, p: nat)
    requires RunsFrom(id, env, trace, raised, p)
    ensures forall i :: 0 <= i < |trace| && !IsFailedWrite(trace[i]) && trace[i].Failure().Some? ==>
        if Caught(trace[i].Failure().value.kind) then
          && i + 2 == |trace|
          && trace[i + 1] == Written(FailedUpdate(id, trace[i].Failure().value), raised)
        else
          i + 1 == |trace|
  {
    FailuresHandled(id, env, trace, raised, p);
    forall i | 0 <= i < |trace| && !IsFailedWrite(trace[i]) && trace[i].Failure().Some?
      ensures if Caught(trace[i].Failure().value.kind) then
          && i + 2 == |trace|
          && trace[i + 1] == Written(FailedUpdate(id, trace[i].Failure().value), raised)
        else
          i + 1 == |trace|
    {
      assert HandledBy(id, env, trace[i].Failure().value, trace[i + 1..], raised);
      if Caught(trace[i].Failure().value.kind) {
        assert trace[i + 1] == trace[i + 1..][0];
      }
    }
  }

  /** At most two status writes, a completed one first when there are two;
      none only when an uncaught exception left the routine */
  lemma RunWrites(req: Request, env: Env, held: nat)
    ensures var r := ProcessAudioCommon(req, env, held);
      && |Writes(r.trace)| <= 2
      && (|Writes(r.trace)| == 2 ==> Writes(r.trace)[0].status == Completed && Writes(r.trace)[1].status == Failed)
      && (Writes(r.trace) == [] ==> r.raised.Some? && !Caught(r.raised.value.kind))
      && (NoFailure(r.trace) ==> |Writes(r.trace)| == 1 && Writes(r.trace)[0].status == Completed)
  {
    var r := ProcessAudioCommon(req, env, held);
    WriteSequence(req.identifier, env, r.trace, r.raised, 0);
  }

  /** A completed write carries the result, the duration and both
      timestamps, taken from the two clock readings; its duration is not
      negative when the clock never goes backwards */
  lemma CompletedWriteFields(req: Request, env: Env, held: nat)
    ensures var t := ProcessAudioCommon(req, env, held).trace;
      forall i :: 0 <= i < |t| && t[i].Written? && t[i].update.status == Completed ==>
        && CompletedFields(t[i].update)
        && t[i].update.startTime == Some(env.now(0)) && t[i].update.endTime == Some(env.now(1))
        && (NonDecreasing(env.now) ==> t[i].update.duration.value >= 0)
  {
    var r := ProcessAudioCommon(req, env, held);
    var t := r.trace;
    CompletedWriteIsLastStep(req.identifier, env, t, r.raised, 0);
    CompletedWriteContents(req, env, held);
    forall i | 0 <= i < |t| && t[i].Written? && t[i].update.status == Completed
      ensures CompletedFields(t[i].update)
      ensures t[i].update.startTime == Some(env.now(0)) && t[i].update.endTime == Some(env.now(1))
      ensures NonDecreasing(env.now) ==> t[i].update.duration.value >= 0
    {
      var u := CompletedUpdate(req.identifier, LabelTranscript(t[5].filtered.value), env.now(0), env.now(1));
      assert t[i].update == u;
    }
  }

  /** The completed write can only be pipeline step 7 */
  lemma CompletedWriteIsLastStep(id: string, env: Env, trace: seq<Event>, raised: Option<Error>, p: nat)
    requires RunsFrom(id, env, trace, raised, p)
    ensures forall i :: 0 <= i < |trace| && trace[i].Written? && trace[i].update.status == Completed ==>
      p + i == PIPELINE_LENGTH - 1
  {
    StepsInOrder(id, env, trace, raised, p);
    forall i | 0 <= i < |trace| && trace[i].Written? && trace[i].update.status == Completed
      ensures p + i == PIPELINE_LENGTH - 1
    {
      assert StepOf(trace[i]) == WriteCompleted;
    }
  }

  /** The diarization stage is never run: swapping it changes nothing */
  lemma DiarizerNeverConsulted(req: Request, env: Env, held: nat, diarizer: Stage<DiarizeCall, seq<SpeakerTurn>>)
    ensures ProcessAudioCommon(req, env.(diarizer := diarizer), held) == ProcessAudioCommon(req, env, held)
  {
    TranscribeStepIgnoresDiarizer(req, env, env.now(0), held, diarizer);
  }

  lemma TranscribeStepIgnoresDiarizer(req: Request, env: Env, start: int, held: nat, d: Stage<DiarizeCall, seq<SpeakerTurn>>)
    ensures TranscribeStep(req, env.(diarizer := d), start, held) == TranscribeStep(req, env, start, held)
  {
    var tr := TranscribeWithWhisper(env.transcriber, req.audio, req.whisper, held);
    if tr.result.Ok? {
      var raw := tr.result.value;
      if raw.segments.Some? && raw.language.Some? {
        AlignStepIgnoresDiarizer(req, env, start, raw.segments.value, raw.language.value, tr.held, d);
      }
    }
  }

  lemma AlignStepIgnoresDiarizer(req: Request, env: Env, start: int, segments: seq<Segment>, language: string, held: nat,
                                 d: Stage<DiarizeCall, seq<SpeakerTurn>>)
    ensures AlignStep(req, env.(diarizer := d), start, segments, language, held) == AlignStep(req, env, start, segments, language, held)
  {
    var call := AlignCall(segments, req.audio, language, env.device, req.alignment.alignModel,
                          req.alignment.interpolateMethod, req.alignment.returnCharAlignments);
    var ar := RunStage(env.aligner, call, held);
    if ar.result.Ok? {
      FilterStepIgnoresDiarizer(req, env, start, ar.result.value, ar.held, d);
    }
  }

  lemma FilterStepIgnoresDiarizer(req: Request, env: Env, start: int, aligned: Transcript, held: nat,
                                  d: Stage<DiarizeCall, seq<SpeakerTurn>>)
    ensures FilterStep(req, env.(diarizer := d), start, aligned, held) == FilterStep(req, env, start, aligned, held)
  {
  }
}
