# whisperX speech-to-text orchestration, modelled in Dafny

This project models the speech-to-text service's processing routine
`process_audio_common` and the pieces it depends on:

- the three inference wrappers `transcribe_with_whisper`,
  `align_whisper_output` and `diarize`, each of which loads a model, runs it
  and then cleans the model up;
- the thread-count rule of `transcribe_with_whisper`;
- the loop that stamps the default speaker `SPEAKER_01` on every segment and
  every word;
- the `completed` and `failed` status updates sent to the task store.

The files:

- `errors.dfy` (module `Errors`) holds Python exceptions as values. An
  exception has a class (RuntimeError, ValueError, KeyError, MemoryError, or
  any other) and the text `str(e)` gives. This module also defines the KeyError
  that a missing dict key raises.
- `transcripts.dfy` (module `Transcripts`) holds segments, words and
  transcripts, plus the default speaker labelling.
- `inference.dfy` (module `Inference`) holds the stage lifecycle.
  - A stage is opaque: it can raise while loading its model, or it returns an
    outcome when run.
  - `held` counts the cleanup steps that were skipped.
  - The wrappers have no `try/finally`, so cleanup happens only on the
    normal-return path.
- `task_store.dfy` (module `TaskStore`) holds the two kinds of status update
  and the fields each one carries.
- `orchestrator.dfy` (module `Orchestrator`) holds the routine itself, as a
  pure function of the request and an environment `Env`.
  - `Env` holds the two stages that are run, the diarizer (which is never
    run), the transcript filter, the store write, the clock and the
    module-level default device.
  - The function returns three things: the events in the order they
    happened, the exception that leaves the routine (if any), and the
    skipped-cleanup count.
  - `RunsFrom` is the routine's state machine. Each step either returns
    normally and the next step follows, or raises and the handlers take over.
    `ProcessAudioCommon` is proved to follow it from step 0.
  - The lemmas about `RunsFrom` therefore hold for every run.
  - `RunsFrom` fixes only the order of the steps and what the handlers do
    after a step raises. It leaves open what each stage returned. That is
    tied to the stages in `Env` by other members: the step functions'
    contracts, `TranscriptionInput`, `AlignmentInput`, `FilterInput`,
    `CompletedWriteContents`, `MissingSegmentsFails`, `MissingLanguageFails`,
    `TranscriptionFailureHandled`, `RunCompletesIffStagesSucceed` and
    `RunMatchesStages`. `RunCompletesIffStagesSucceed` compares the run with
    `StagesCompletion`, which computes the completed update directly from the
    stages' outputs. `RunMatchesStages` covers every
    outcome, failures included. It compares the run's writes and escaping
    exception with `ExpectedRun`, which computes them from the outcomes of the
    stages, the filter and the store alone.

What the code does, and the model with it:

- The stage wrappers have no `try/finally` (app/whisperx_services.py:79-111,
  132-153, 198-231). A model's cleanup step (`gc.collect`,
  `torch.cuda.empty_cache`, `del`) therefore runs only when its stage returns
  normally. `held` counts the cleanup steps skipped. It does not count models
  still resident in memory, since Python frees a model once the exception
  that skipped its cleanup is released. Nor does a cleanup that runs hand
  the model's memory back by itself: `torch.cuda.empty_cache()` is called
  before `del model` (app/whisperx_services.py:100-102), while the model is
  still referenced. So the lemmas about `held` speak of cleanup steps run or
  skipped, not of memory freed.
- Only RuntimeError, ValueError, KeyError and MemoryError, with their
  subclasses, are caught (app/whisperx_services.py:299, 313). An exception of
  any other class that a stage raises leaves the routine with no status
  write. One that a status write raises leaves right after that write, with
  no further write.
- The `completed` write sits inside the `try` block
  (app/whisperx_services.py:288-298). A caught exception that it raises is
  answered by a second, `failed`, write.
- Alignment is called without a `device` argument
  (app/whisperx_services.py:258-265), so it runs on the module-level default
  device rather than the request's Whisper device.
- Diarization is never called (app/whisperx_services.py:269-270).

## Model

| member | source | states |
|---|---|---|
| Errors.MissingKey | app/whisperx_services.py:259-261 | A missing `"segments"` or `"language"` key raises a KeyError, one of the caught classes, whose text is the key with quotes around it |
| Transcripts.LabelWords | app/whisperx_services.py:276-278 | Every word gets speaker `SPEAKER_01`; the word count, the order and every other field of each word are unchanged |
| Transcripts.LabelSegment | app/whisperx_services.py:274-278 | The segment gets `SPEAKER_01`, and so does each of its words when it has a word list; apart from the speakers nothing changes, and a segment without words gains no word list |
| Transcripts.LabelSegments | app/whisperx_services.py:274-278 | The result is a labelled copy of the segments: the same count and order, every segment and word labelled, nothing else changed |
| Transcripts.LabelTranscript | app/whisperx_services.py:270-278 | Labelling the filtered transcript changes its segments only (as a labelled copy), never its flat word list |
| Transcripts.LabelledCopyUnique | app/whisperx_services.py:274-278 | The labelled-copy property pins the result down: any labelled copy of the segments equals what the loop produces |
| Transcripts.LabelSegmentsIdempotent | app/whisperx_services.py:274-278 | Labelling already labelled segments changes nothing |
| Inference.RunStage | app/whisperx_services.py:79-111 | A stage returns exactly when loading and running both succeed; then its cleanup runs and the skipped-cleanup count is unchanged. Otherwise the call raises the loading or running exception unchanged. A failed load skips no cleanup; an error after loading skips it, adding exactly one to the count |
| Inference.CleanupSkippedPerFailure | app/whisperx_services.py:79-111 | Over repeated calls the cleanup is skipped exactly once per call that raised after loading; calls that all return skip none |
| Inference.SelectThreads | app/whisperx_services.py:65-68 | The loader gets a positive thread count: the request's when it is positive, otherwise 4. Torch's thread setting is changed exactly when the request is positive, and to the same count |
| Inference.TranscribeCallFor | app/whisperx_services.py:79-91 | The model is loaded and run with the request's audio and options unchanged, except that the thread count is the loader's positive choice |
| Inference.TranscribeWithWhisper | app/whisperx_services.py:28-111 | Transcription returns exactly when the model loads and runs on the call built from the request, and then gives the model's output. Otherwise it raises the exception of `load_model` or `model.transcribe` unchanged. Exactly one cleanup is skipped when transcription raised after the model loaded, none otherwise |
| Inference.AlignWhisperOutput | app/whisperx_services.py:156-231 | Alignment returns exactly when the align model, loaded for the language code on the device, aligns the given segments to the audio with the given options, and then gives its output. Otherwise it raises the exception of `load_align_model` or `align` unchanged. Exactly one cleanup is skipped when `align` raised after the model loaded, none otherwise |
| Inference.Diarize | app/whisperx_services.py:114-153 | Diarization returns exactly when the pipeline, built for the device, runs on the audio within the speaker bounds, and then gives its output. Otherwise it raises the exception of building or running the pipeline unchanged. Exactly one cleanup is skipped when the run raised after the pipeline was built, none otherwise |
| TaskStore.CompletedUpdate | app/whisperx_services.py:288-298 | The completed update carries the result, both timestamps and a duration equal to end minus start, and no error |
| TaskStore.FailedUpdate | app/whisperx_services.py:299-321 | The failed update carries `str(e)` as its error and no result, duration or timestamps |
| Orchestrator.Raise | app/whisperx_services.py:299-321 | A step that raises hands over to the handlers. A caught class leads to one failed write, whose own exception (if any) leaves the routine. Any other class leaves the routine at once. The held count is untouched |
| Orchestrator.TranscribeStep | app/whisperx_services.py:243-255 | From transcription on, the run follows the state machine. Its first event is the transcription call built from the request, with the outcome the transcription stage gives for it. At most one cleanup is skipped, and none once the filter has been reached |
| Orchestrator.SegmentsStep | app/whisperx_services.py:259 | Reading `"segments"` raises exactly when the key is missing, and then raises the KeyError `'segments'`; either way the run follows the state machine |
| Orchestrator.LanguageStep | app/whisperx_services.py:261 | Reading `"language"` raises exactly when the key is missing, and then raises the KeyError `'language'`; either way the run follows the state machine |
| Orchestrator.MissingSegmentsFails | app/whisperx_services.py:259 | When transcription returns a dict without `"segments"`, the routine's only status write is the failed update carrying `'segments'`, and it raises only what that write raises |
| Orchestrator.MissingLanguageFails | app/whisperx_services.py:261 | When transcription returns segments but no `"language"`, the routine's only status write is the failed update carrying `'language'`, and it raises only what that write raises |
| Orchestrator.AlignStep | app/whisperx_services.py:258-265 | From alignment on, the run follows the state machine. Its first event is the alignment call with the given segments and language, the request's options and the default device, with the outcome the alignment stage gives for it. At most one cleanup is skipped, and none once the filter has been reached |
| Orchestrator.FilterStep | app/whisperx_services.py:266-267 | From the filter on, the run follows the state machine. Its first event is the filter applied to the aligned transcript, and no further cleanup is skipped |
| Orchestrator.CompletedWriteStep | app/whisperx_services.py:270-298 | Labelling, the end-time reading and the completed write follow the state machine. The write carries the labelled transcript with the start and end times, and its exception is the one the store raises for that update. No cleanup is skipped |
| Orchestrator.ProcessAudioCommon | app/whisperx_services.py:234-321 | The whole routine follows the state machine from step 0. Its first event is the start-time reading, and its second is the transcription, with the outcome the transcription stage gives. At most one cleanup is skipped, and none when the filter was reached |
| Orchestrator.RunCompletesIffStagesSucceed | app/whisperx_services.py:234-298 | No step raises exactly when the transcription returns a dict with both keys, alignment and the filter return, and the store accepts the completed write. The run then returns normally, skips no cleanup, and its only status write is the completed update built from those stage outputs and the two clock readings |
| Orchestrator.StagesSucceedingComplete | app/whisperx_services.py:234-298 | When every stage returns and the store accepts the completed update they call for, no step of the run raises |
| Orchestrator.CompletionNeedsEveryStage | app/whisperx_services.py:234-298 | A run in which no step raises had every stage return, and its only write is the completed update those stages call for, accepted by the store |
| Orchestrator.TranscribeStepSucceeds | app/whisperx_services.py:243-298 | From transcription on, no step raises when every stage returns and the store accepts the completed update |
| Orchestrator.AlignStepSucceeds | app/whisperx_services.py:258-298 | From alignment on, no step raises when the alignment stage and the filter return and the store accepts the completed update |
| Orchestrator.FilterStepSucceeds | app/whisperx_services.py:266-298 | From the filter on, no step raises when the filter returns and the store accepts the completed update |
| Orchestrator.TranscriptionFailureHandled | app/whisperx_services.py:243-321 | A transcription stage that raises is answered by the failed update for its exception alone, and the routine raises what that write raises. An exception of another class leaves the routine with no write |
| Orchestrator.RunMatchesStages | app/whisperx_services.py:234-321 | For every behaviour of the stages, the filter and the store, the routine's status writes and the exception leaving it are exactly those `ExpectedRun` computes from their outcomes. A stage, key read or filter that raises a caught class is answered by the single failed write with its text, and another class leaves with no write. A completed write that raises a caught class is followed by the failed write |
| Orchestrator.TranscribeStepMatches | app/whisperx_services.py:243-321 | From transcription on, the writes and the escaping exception are those the transcriber's outcome and the rest call for |
| Orchestrator.SegmentsStepMatches | app/whisperx_services.py:259-321 | From the `"segments"` read on, a missing key is handled as the KeyError `'segments'`, and otherwise the run goes on as the later steps call for |
| Orchestrator.LanguageStepMatches | app/whisperx_services.py:261-321 | From the `"language"` read on, a missing key is handled as the KeyError `'language'`, and otherwise the run goes on as the later steps call for |
| Orchestrator.AlignStepMatches | app/whisperx_services.py:258-321 | From alignment on, an aligner that raises is handled as its exception, and otherwise the run goes on as the filter and the write call for |
| Orchestrator.FilterStepMatches | app/whisperx_services.py:266-321 | From the filter on, a filter that raises is handled as its exception, and otherwise the labelled completed write follows |
| Orchestrator.CompletedWriteStepMatches | app/whisperx_services.py:280-321 | The completed write is made, and when the store raises, that exception is handled like a stage's |
| Orchestrator.RaiseMatches | app/whisperx_services.py:299-321 | A raising step adds its own write (if it is one) and then exactly the handlers' answer to its exception |
| Orchestrator.CompletedWriteFailureHandled | app/whisperx_services.py:288-321 | When every stage returns but the completed write raises a caught class, the writes are the completed attempt and then the failed update for that exception, and the routine raises what the failed write raises |
| Orchestrator.RaisedByLastStep | app/whisperx_services.py:234-321 | The exception that leaves the routine is exactly the one its last step raised |
| Orchestrator.StepsInOrder | app/whisperx_services.py:235-298 | Steps happen in pipeline order: clock, transcribe, read `segments`, read `language`, align, filter, clock, completed write. The only thing that can follow them is one failed write |
| Orchestrator.FailuresHandled | app/whisperx_services.py:299-321 | Every exception raised in the `try` block is handled as the two `except` clauses say. A failed write happens only as the last step, in answer to a caught exception from the step before it, and carries that exception's text |
| Orchestrator.HandlersAnswerOnce | app/whisperx_services.py:299-321 | After a caught exception, exactly one more step follows: the failed write for it. After any other exception, nothing follows |
| Orchestrator.StageFailureWrites | app/whisperx_services.py:299-321 | When a stage raises, the store receives only the failed update for it (caught class) or nothing (other class). The routine then raises what that write raised, or the stage's own exception |
| Orchestrator.CaughtEscapesOnlyFromFailedWrite | app/whisperx_services.py:299-321 | A RuntimeError, ValueError, KeyError or MemoryError leaves the routine only when the failed-status write itself raised it |
| Orchestrator.OnlyFailedWriteFollowsFailure | app/whisperx_services.py:235-321 | Once a step raises, no further step of the `try` block runs; only the failed-status write can follow |
| Orchestrator.SucceedsIffNoStepRaises | app/whisperx_services.py:235-298 | The routine returns normally after its completed write exactly when no step raises, and then every pipeline step has run |
| Orchestrator.WriteSequence | app/whisperx_services.py:288-321 | At most two writes are made, and when two are made they are completed then failed. A run with no failure makes exactly one write, the completed one. A run with no write raised an uncaught class |
| Orchestrator.TranscriptionInput | app/whisperx_services.py:243-255 | Transcription receives the request's audio and Whisper options, with the loader's thread count, and its recorded outcome is what the transcription stage gives for that call |
| Orchestrator.AlignmentInput | app/whisperx_services.py:258-265 | Alignment receives the transcription's own segments and the transcription-reported language (not the request's), the request's audio and alignment options, and the default device. Its recorded outcome is what the alignment stage gives for that call |
| Orchestrator.FilterInput | app/whisperx_services.py:266-267 | The filter receives the aligned transcript |
| Orchestrator.CompletedWriteContents | app/whisperx_services.py:270-298 | The completed write carries the labelled filter output. Its start time is the first clock reading and its end time the second, which is read after filtering. Its recorded exception is what the store raises for that update |
| Orchestrator.CompletedWriteIsLastStep | app/whisperx_services.py:288-298 | A completed write can only be the pipeline's last step |
| Orchestrator.CompletedWriteFields | app/whisperx_services.py:280-298 | Any completed write carries the result, the duration and both timestamps, taken from the two clock readings. With a clock that never goes backwards, the duration is not negative |
| Orchestrator.RunInPipelineOrder | app/whisperx_services.py:235-298 | The start time is read before any stage. Stages follow in order, and each step is followed by the next one only when it returned normally |
| Orchestrator.RunRaises | app/whisperx_services.py:299-321 | The routine raises what its last step raised. A caught class escapes only when the failed write itself raised it |
| Orchestrator.RunSucceedsIffNoStepRaises | app/whisperx_services.py:235-298 | A run returns normally after the completed write exactly when nothing raised. Such a run has gone through all eight steps in order, and the cleanup steps of both stages it called have run |
| Orchestrator.RunWrites | app/whisperx_services.py:288-321 | At most two writes (completed first when two), exactly one completed write when nothing raised, and no write only when an uncaught class escaped |
| Orchestrator.DiarizerNeverConsulted | app/whisperx_services.py:269-270 | Diarization is skipped: replacing the diarizer changes nothing in the run |

## Left out

- `app/main.py`: the web application's construction, middleware, routes and OpenAPI and database schema generation. These are framework wiring with nothing to state.
- The inference libraries (`load_model`, `model.transcribe`, `load_align_model`, `align`, `DiarizationPipeline`) are opaque stages, given as parameters. A stage can fail at loading or at running.
- `filter_aligned_transcription` and the `AlignedTranscription` schema are one opaque parameter `filter`, which may raise. app/transcript.py and app/schemas.py are not part of this model. The transcript carries only its segments and its flat word list.
- `update_task_status_in_db` is a parameter `store`, which may raise. The database session and persistence are not modelled.
- `datetime.now()` is the parameter `now`, and reading k returns `now(k)`. Times are integer ticks rather than datetimes, and the duration is a difference of ticks rather than float seconds. Whether the clock ever goes backwards is a hypothesis of the duration lemma, not a promise.
- The GPU memory logging, `torch.cuda.empty_cache`, `gc.collect`, `del`, the logger and the side effect of `torch.set_num_threads` are not modelled. Cleanup appears only as the skipped-cleanup count. `torch.set_num_threads` appears only as the `torch` field of the thread choice.
- Segment and word timestamps and word scores are floats in the program and integers here. Nothing in the modelled code computes with them; they are only copied.
- The ASR and VAD option dicts are passed to the model loader unchanged and are not modelled. The `Config` globals appear only as the default device in `Env`.
- Orchestrator.TranscribeStep, Orchestrator.AlignStep: these promise only that at most one cleanup is skipped after the step. The exact count (one more exactly when a stage raised after loading) is stated per call by Inference.RunStage.
