/** The control-plane end of one node connection: jobs waiting for their
    terminal frame, and which frames may settle them. */
module NodeSession {
  import opened Outcomes
  import opened JobFrames

  const MAX_CONCURRENT_JOBS := 4

  datatype PendingJob = PendingJob(
    identity: JobIdentity, attempt: int, dedupeKey: string,
    acknowledged: bool, duplicate: bool, result: Option<ResultFrame>)

  datatype Session = Session(open: bool, pending: map<string, PendingJob>)

  datatype DispatchError = SessionClosed | DispatchDuplicate | ConcurrencyExceeded

  /** `dispatch_job` up to the frame it sends. */
  function Submit(s: Session, identity: JobIdentity, attempt: int, key: string)
    : Result<(Session, Dispatch), DispatchError>
  {
    if !s.open then Err(SessionClosed)
    else if identity.jobId in s.pending then Err(DispatchDuplicate)
    else if |s.pending| >= MAX_CONCURRENT_JOBS then Err(ConcurrencyExceeded)
    else
      Ok((s.(pending := s.pending[identity.jobId := PendingJob(identity, attempt, key, false, false, None)]),
          Dispatch(identity.jobId, attempt, key, identity.capability, identity.parameters)))
  }

  /** A node may only settle the exact attempt and content identity it was given,
      and only once. */
  predicate Settles(p: PendingJob, f: ResultFrame) {
    p.attempt == f.attempt && p.dedupeKey == f.dedupeKey && p.result.None?
  }

  function Handle(s: Session, c: ClientFrame): Session {
    match c
    case Ack(jobId, attempt, accepted, duplicate) =>
      if jobId in s.pending && s.pending[jobId].attempt == attempt then
        s.(pending := s.pending[jobId := s.pending[jobId].(acknowledged := true, duplicate := duplicate)])
      else s
    case JobResult(f) =>
      if f.jobId in s.pending && Settles(s.pending[f.jobId], f) then
        s.(pending := s.pending[f.jobId := s.pending[f.jobId].(acknowledged := true, result := Some(f))])
      else s
  }

  /** A waiter stops waiting, with or without a result. */
  function Drop(s: Session, jobId: string): Session {
    s.(pending := s.pending - {jobId})
  }

  /** `shutdown`: every job still without a result fails; settled ones remain
      for their waiter to collect. */
  function Close(s: Session): Session {
    if !s.open then s
    else Session(false, map j | j in s.pending && s.pending[j].result.Some? :: s.pending[j])
  }

  class SessionObject {
    var open: bool
    var pending: map<string, PendingJob>

    ghost function State(): Session
      reads this
    {
      Session(open, pending)
    }

    ghost predicate Valid()
      reads this
    {
      |pending| <= MAX_CONCURRENT_JOBS && forall j :: j in pending ==> pending[j].identity.jobId == j
    }

    constructor ()
      ensures Valid() && State() == Session(true, map[])
    {
      open, pending := true, map[];
    }

    method DispatchJob(identity: JobIdentity, attempt: int, key: string) returns (r: Result<Dispatch, DispatchError>)
      requires Valid()
      modifies this
      ensures Valid()
      ensures match Submit(old(State()), identity, attempt, key)
        case Ok((s, d)) => State() == s && r == Ok(d)
        case Err(e) => State() == old(State()) && r == Err(e)
      ensures r.Ok? <==> old(open) && identity.jobId !in old(pending) && |old(pending)| < MAX_CONCURRENT_JOBS
      ensures r.Ok? ==>
        && r.value.jobId == identity.jobId && r.value.attempt == attempt && r.value.dedupeKey == key
        && r.value.capability == identity.capability && r.value.parameters == identity.parameters
        && identity.jobId in pending && pending[identity.jobId].result.None?
        && pending[identity.jobId].dedupeKey == key && pending[identity.jobId].attempt == attempt
    {
      if !open { return Err(SessionClosed); }
      if identity.jobId in pending { return Err(DispatchDuplicate); }
      if |pending| >= MAX_CONCURRENT_JOBS { return Err(ConcurrencyExceeded); }
      pending := pending[identity.jobId := PendingJob(identity, attempt, key, false, false, None)];
      r := Ok(Dispatch(identity.jobId, attempt, key, identity.capability, identity.parameters));
    }

    method HandleFrame(c: ClientFrame)
      requires Valid()
      modifies this`pending
      ensures Valid()
      ensures State() == Handle(old(State()), c)
      ensures pending.Keys == old(pending).Keys
      ensures forall j :: j in pending ==>
        if c.JobResult? && c.frame.jobId == j && old(pending)[j].result.None? && old(pending)[j].attempt == c.frame.attempt
           && old(pending)[j].dedupeKey == c.frame.dedupeKey
        then pending[j].result == Some(c.frame) && pending[j].acknowledged
        else pending[j].result == old(pending)[j].result
    {
      if c.JobOf() in pending {
        var p := pending[c.JobOf()];
        match c {
          case Ack(_, attempt, _, duplicate) =>
            if p.attempt == attempt {
              p := p.(acknowledged := true, duplicate := duplicate);
            }
          case JobResult(f) =>
            if p.attempt == f.attempt && p.dedupeKey == f.dedupeKey && p.result.None? {
              p := p.(acknowledged := true, result := Some(f));
            }
        }
        assert pending[c.JobOf() := p].Keys == pending.Keys;
        pending := pending[c.JobOf() := p];
      }
    }

    method Shutdown()
      requires Valid()
      modifies this
      ensures Valid()
      ensures State() == Close(old(State()))
      ensures !open
      ensures old(open) ==> forall j :: j in pending <==> j in old(pending) && old(pending)[j].result.Some?
      ensures forall j :: j in pending ==> pending[j] == old(pending)[j]
    {
      if !open { return; }
      open := false;
      var waiting := pending.Keys;
      while waiting != {}
        invariant waiting <= old(pending).Keys && !open
        invariant pending == map j | j in old(pending) && (j in waiting || old(pending)[j].result.Some?) :: old(pending)[j]
      {
        var j :| j in waiting;
        waiting := waiting - {j};
        if pending[j].result.None? {
          pending := pending - {j};
        }
      }
      assert pending.Keys <= old(pending).Keys;
      SubsetSize(pending.Keys, old(pending).Keys);
    }
  }

  lemma SubsetSize(a: set<string>, b: set<string>)
    requires a <= b
    ensures |a| <= |b|
  {
    assert b == a + (b - a);
  }

  /** Once settled, no later frame changes what a job's waiter will be given. */
  lemma SettledOnce(s: Session, c: ClientFrame, jobId: string)
    requires jobId in s.pending && s.pending[jobId].result.Some?
    ensures jobId in Handle(s, c).pending
    ensures Handle(s, c).pending[jobId].result == s.pending[jobId].result
  {
  }
}
