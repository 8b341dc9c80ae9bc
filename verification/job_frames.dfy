/** The frames of `olympus-node/1` that carry a job from dispatch to its
    terminal result. Parameters and outputs are their canonical JSON text. */
module JobFrames {
  import opened Outcomes

  /** What a job is: the content its dedupe key is derived from. */
  datatype JobIdentity = JobIdentity(jobId: string, capability: string, parameters: string)

  datatype Dispatch = Dispatch(
    jobId: string, attempt: int, dedupeKey: string, capability: string, parameters: string)

  datatype JobStatus = Succeeded | Failed | Cancelled | Rejected

  datatype ResultBody = ResultBody(
    output: string, outputTruncated: bool, outputRedacted: bool, artifactIds: seq<string>,
    reason: string, message: string, startedAt: int, finishedAt: int)

  datatype ResultFrame = ResultFrame(
    jobId: string, attempt: int, dedupeKey: string, status: JobStatus, body: ResultBody, replayed: bool)

  datatype ClientFrame =
    | Ack(jobId: string, attempt: int, accepted: bool, duplicate: bool)
    | JobResult(frame: ResultFrame)
  {
    function JobOf(): string {
      if Ack? then jobId else frame.jobId
    }
  }

  datatype ServerFrame =
    | JobDispatch(dispatch: Dispatch)
    | JobCancel(jobId: string, attempt: int)
    | SessionClose

  const NOT_GRANTED := "capability-not-granted"

  function IdentityOf(d: Dispatch): JobIdentity {
    JobIdentity(d.jobId, d.capability, d.parameters)
  }

  /** `f` repeats `terminal` except for whom it is addressed to. */
  predicate IsCopy(f: ResultFrame, terminal: ResultFrame) {
    f == terminal.(jobId := f.jobId, attempt := f.attempt, replayed := f.replayed)
  }

  /** `f` tells what a run of `d` came to: the run's own status, output, artifacts,
      message and times, and its reason unless it succeeded. */
  predicate Tells(f: ResultFrame, d: Dispatch, status: JobStatus, body: ResultBody) {
    && f.dedupeKey == d.dedupeKey
    && f.status == status
    && f.body.output == body.output
    && f.body.outputTruncated == body.outputTruncated && f.body.outputRedacted == body.outputRedacted
    && f.body.artifactIds == body.artifactIds
    && f.body.message == body.message
    && f.body.startedAt == body.startedAt && f.body.finishedAt == body.finishedAt
    && f.body.reason == (if status == Succeeded then "" else body.reason)
  }

  /** The agent turned the job away at the door; nothing was executed. */
  predicate IsRefusal(f: ResultFrame) {
    f.status == Rejected && f.body.reason == NOT_GRANTED && !f.replayed
  }
}
