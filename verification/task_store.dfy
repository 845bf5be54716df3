/**
 The status updates the orchestrator sends to the task store. An update is
 the dict handed to `update_task_status_in_db`; each optional field is a key
 that the dict may or may not carry.
 */
module TaskStore {
  import opened Errors
  import opened Transcripts

  /** The terminal statuses the orchestrator writes */
  datatype Status = Completed | Failed

  datatype StatusUpdate = StatusUpdate(
    identifier: string,
    status: Status,
    result: Option<Transcript>,
    duration: Option<int>,
    startTime: Option<int>,
    endTime: Option<int>,
    error: Option<string>)

  /** A completed update carries the result and all three timings, with the
      duration spanning the two timestamps, and no error */
  predicate CompletedFields(u: StatusUpdate) {
    && u.status == Completed
    && u.result.Some? && u.duration.Some? && u.startTime.Some? && u.endTime.Some?
    && u.duration.value == u.endTime.value - u.startTime.value
    && u.error.None?
  }

  /** A failed update carries an error message and nothing else */
  predicate FailedFields(u: StatusUpdate) {
    && u.status == Failed
    && u.error.Some?
    && u.result.None? && u.duration.None? && u.startTime.None? && u.endTime.None?
  }

  /** The update written when every stage has returned */
  function CompletedUpdate(id: string, result: Transcript, start: int, end: int): (u: StatusUpdate)
    ensures CompletedFields(u)
    ensures u.identifier == id && u.result == Some(result)
    ensures u.startTime == Some(start) && u.endTime == Some(end)
  {
    StatusUpdate(id, Completed, Some(result), Some(end - start), Some(start), Some(end), None)
  }

  /** The update written by either exception handler: `str(e)` as the error */
  function FailedUpdate(id: string, e: Error): (u: StatusUpdate)
    ensures FailedFields(u)
    ensures u.identifier == id && u.error == Some(e.msg)
  {
    StatusUpdate(id, Failed, None, None, None, None, Some(e.msg))
  }
}
