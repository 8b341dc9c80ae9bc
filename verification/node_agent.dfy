/** The node end of the job protocol: admission, joining a running copy,
    replay from the result ledger, and completion. */
module NodeAgent {
  import opened Outcomes
  import opened JobFrames
  import opened ResultLedger

  const OUTBOX_CAPACITY := 256

  datatype Waiter = Waiter(jobId: string, attempt: int)

  /** One live task: the dispatch it executes and whom to tell. */
  datatype RunningJob = RunningJob(dispatch: Dispatch, waiters: seq<Waiter>)

  datatype Agent = Agent(
    capacity: nat,
    providers: set<string>,
    granted: set<string>,
    ledger: Entries,
    persisted: Entries,            // the ledger file, rewritten by every put
    running: map<string, nat>,     // dedupe key -> task
    jobs: map<nat, RunningJob>,    // live tasks
    jobsById: map<string, string>,
    cancelled: set<nat>,           // tasks that were asked to stop
    outbox: seq<ClientFrame>,
    touches: seq<string>)          // history: ledger keys recorded, replayed or loaded

  const NO_ENTRIES := Entries([], map[])

  function Fresh(capacity: nat): Agent {
    Agent(capacity, {}, {}, NO_ENTRIES, NO_ENTRIES, map[], map[], map[], {}, [], [])
  }

  function Enqueue(outbox: seq<ClientFrame>, f: ClientFrame): seq<ClientFrame> {
    if |outbox| < OUTBOX_CAPACITY then outbox + [f] else outbox
  }

  function RefusalFrame(d: Dispatch, now: int): ResultFrame {
    ResultFrame(d.jobId, d.attempt, d.dedupeKey, Rejected,
      ResultBody("{}", false, false, [], NOT_GRANTED, "capability is not available on this node", now, now),
      false)
  }

  predicate Serves(a: Agent, capability: string) {
    capability in a.providers && capability in a.granted
  }

  /** `_accept_job`; `task` is the number a newly started task would get. */
  function Accept(a: Agent, d: Dispatch, task: nat, now: int): Agent {
    if !Serves(a, d.capability) then
      a.(outbox := Enqueue(Enqueue(a.outbox, Ack(d.jobId, d.attempt, false, false)),
                           JobResult(RefusalFrame(d, now))))
    else if d.dedupeKey in a.ledger.frames then
      var replay := a.ledger.frames[d.dedupeKey].(jobId := d.jobId, attempt := d.attempt, replayed := true);
      a.(ledger := Touch(a.ledger, d.dedupeKey),
         touches := a.touches + [d.dedupeKey],
         outbox := Enqueue(Enqueue(a.outbox, Ack(d.jobId, d.attempt, true, true)), JobResult(replay)))
    else JoinOrStart(a, d, task)
  }

  /** Wait on the running copy of the key, or start the one and only copy. */
  function JoinOrStart(a: Agent, d: Dispatch, task: nat): Agent {
    if d.dedupeKey in a.running && a.running[d.dedupeKey] in a.jobs then
      var joined := a.running[d.dedupeKey];
      var job := a.jobs[joined];
      a.(jobs := a.jobs[joined := job.(waiters := job.waiters + [Waiter(d.jobId, d.attempt)])],
         jobsById := a.jobsById[d.jobId := d.dedupeKey],
         outbox := Enqueue(a.outbox, Ack(d.jobId, d.attempt, true, true)))
    else
      a.(running := a.running[d.dedupeKey := task],
         jobs := a.jobs[task := RunningJob(d, [Waiter(d.jobId, d.attempt)])],
         jobsById := a.jobsById[d.jobId := d.dedupeKey],
         outbox := Enqueue(a.outbox, Ack(d.jobId, d.attempt, true, false)))
  }

  /** `job-cancel`: ask whatever serves that job to stop. */
  function RequestCancel(a: Agent, jobId: string): Agent {
    if jobId in a.jobsById && a.jobsById[jobId] in a.running
    then a.(cancelled := a.cancelled + {a.running[a.jobsById[jobId]]})
    else a
  }

  function TerminalFrame(d: Dispatch, status: JobStatus, body: ResultBody): ResultFrame {
    ResultFrame(d.jobId, d.attempt, d.dedupeKey, status,
      body.(reason := if status == Succeeded then "" else body.reason), false)
  }

  function Notify(outbox: seq<ClientFrame>, waiters: seq<Waiter>, terminal: ResultFrame): seq<ClientFrame> {
    if waiters == [] then outbox
    else
      var n := |waiters| - 1;
      Enqueue(Notify(outbox, waiters[..n], terminal),
              JobResult(terminal.(jobId := waiters[n].jobId, attempt := waiters[n].attempt)))
  }

  /** The end of `_run_job`: record unless cancelled, clear, tell every waiter. */
  function Finish(a: Agent, task: nat, status: JobStatus, body: ResultBody): Agent
    requires task in a.jobs
  {
    var job := a.jobs[task];
    var key := job.dispatch.dedupeKey;
    var terminal := TerminalFrame(job.dispatch, status, body);
    var recorded := if status == Cancelled then a.ledger else Record(a.ledger, key, terminal, a.capacity);
    a.(ledger := recorded,
       persisted := if status == Cancelled then a.persisted else recorded,
       touches := if status == Cancelled then a.touches else a.touches + [key],
       running := a.running - {key},
       jobs := a.jobs - {task},
       cancelled := a.cancelled - {task},
       jobsById := a.jobsById - (set w | w in job.waiters :: w.jobId),
       outbox := Notify(a.outbox, job.waiters, terminal))
  }

  /** A new process: only the ledger file survives, and only for the same node. */
  function Restart(a: Agent, sameNode: bool): Agent {
    var loaded := if sameNode then Evict(a.persisted, a.capacity) else NO_ENTRIES;
    Fresh(a.capacity).(ledger := loaded,
                       persisted := if sameNode then a.persisted else NO_ENTRIES,
                       touches := loaded.order)
  }

  // ----- What every step keeps ----------------------------------------------

  /** `_running` and the live tasks mirror each other. */
  ghost predicate Consistent(a: Agent) {
    && (forall k :: k in a.running ==> a.running[k] in a.jobs && a.jobs[a.running[k]].dispatch.dedupeKey == k)
    && (forall t :: t in a.jobs ==>
          a.jobs[t].dispatch.dedupeKey in a.running && a.running[a.jobs[t].dispatch.dedupeKey] == t)
  }

  ghost predicate KeyedByDedupe(e: Entries) {
    WellFormed(e) && forall k :: k in e.frames ==> e.frames[k].dedupeKey == k
  }

  ghost predicate Sound(a: Agent) {
    && Consistent(a)
    && KeyedByDedupe(a.ledger)
    && KeyedByDedupe(a.persisted)
    && |a.ledger.order| <= a.capacity && |a.persisted.order| <= a.capacity
    && HoldsMostRecent(a.ledger, a.touches, a.capacity)
  }

  lemma FreshIsSound(capacity: nat)
    ensures Sound(Fresh(capacity))
  {
  }

  lemma AcceptKeepsSound(a: Agent, d: Dispatch, task: nat, now: int)
    requires Sound(a) && task !in a.jobs
    ensures Sound(Accept(a, d, task, now))
  {
    if Serves(a, d.capability) && d.dedupeKey in a.ledger.frames {
      HitKeepsMostRecent(a.ledger, a.touches, d.dedupeKey, a.capacity);
      TouchKeepsSize(a.ledger.order, d.dedupeKey);
    }
  }

  lemma FinishKeepsSound(a: Agent, task: nat, status: JobStatus, body: ResultBody)
    requires Sound(a) && task in a.jobs
    ensures Sound(Finish(a, task, status, body))
  {
    if status != Cancelled {
      var d := a.jobs[task].dispatch;
      RecordKeepsMostRecent(a.ledger, a.touches, d.dedupeKey, TerminalFrame(d, status, body), a.capacity);
    }
  }

  lemma RestartKeepsSound(a: Agent, sameNode: bool)
    requires Sound(a)
    ensures Sound(Restart(a, sameNode))
  {
    if sameNode {
      EvictWellFormed(a.persisted, a.capacity);
      RecentOfDistinct(Evict(a.persisted, a.capacity).order);
    }
  }

  /** A restarted agent of the same node knows exactly the results in its file; of
      another node, none; and nothing is running. */
  lemma ResultsSurviveRestart(a: Agent, sameNode: bool)
    requires Sound(a)
    ensures var b := Restart(a, sameNode);
      && b.ledger == (if sameNode then a.persisted else Entries([], map[])) && b.persisted == b.ledger
      && b.jobs == map[] && b.running == map[] && b.jobsById == map[] && b.outbox == [] && b.cancelled == {}
      && b.capacity == a.capacity
  {
    EvictNone(a.persisted);
    EvictSame(a.persisted, |a.persisted.order|, a.capacity);
  }

  /** Loading a ledger file counts as touching its keys in file order. */
  lemma {:induction false} RecentOfDistinct(s: seq<string>)
    requires Distinct(s)
    ensures Recent(s) == s
  {
    if s != [] {
      var n := |s| - 1;
      RecentOfDistinct(s[..n]);
      assert s == s[..n] + [s[n]];
      WithoutAbsent(s[..n], s[n]);
    }
  }

  /** A dedupe key never has two executions running at once. */
  lemma OneExecutionPerKey(a: Agent, s: nat, t: nat)
    requires Sound(a) && s in a.jobs && t in a.jobs
    requires a.jobs[s].dispatch.dedupeKey == a.jobs[t].dispatch.dedupeKey
    ensures s == t
  {
  }

  /** A key with a recorded result is executed again only after at least
      `capacity` distinct other keys were recorded or replayed since its last
      touch: a ledger that never overflows never repeats work. */
  lemma RerunNeedsDisplacement(a: Agent, d: Dispatch, task: nat, now: int)
    requires Sound(a) && task !in a.jobs
    requires task in Accept(a, d, task, now).jobs
    requires d.dedupeKey in a.touches
    ensures d.dedupeKey !in TouchedSince(a.touches, d.dedupeKey)
    ensures |TouchedSince(a.touches, d.dedupeKey)| >= a.capacity
  {
    AbsenceMeansDisplaced(a.ledger, a.touches, d.dedupeKey, a.capacity);
  }

  /** While a key's result is held, accepting it again runs nothing: the one
      result frame added is a marked copy of the recorded one. */
  lemma HeldResultIsReplayed(a: Agent, d: Dispatch, task: nat, now: int)
    requires Sound(a) && d.capability in a.providers && d.capability in a.granted && d.dedupeKey in a.ledger.frames
    requires |a.outbox| + 2 <= OUTBOX_CAPACITY
    ensures var b := Accept(a, d, task, now);
      && b.jobs == a.jobs && b.running == a.running && b.ledger.frames == a.ledger.frames
      && |b.outbox| == |a.outbox| + 2
      && b.outbox[|a.outbox|] == Ack(d.jobId, d.attempt, true, true)
      && b.outbox[|a.outbox| + 1].JobResult?
      && var f := b.outbox[|a.outbox| + 1].frame;
        IsCopy(f, a.ledger.frames[d.dedupeKey]) && f.replayed && f.jobId == d.jobId && f.attempt == d.attempt
  {
  }

  /** A job is turned away exactly when its capability is not installed or not
      granted, and then nothing but the two answers is new. */
  lemma TurnedAwayExactly(a: Agent, d: Dispatch, task: nat, now: int)
    requires |a.outbox| + 2 <= OUTBOX_CAPACITY
    ensures var b := Accept(a, d, task, now);
      (d.capability !in a.providers || d.capability !in a.granted) <==>
        && b == a.(outbox := b.outbox) && |b.outbox| == |a.outbox| + 2 && a.outbox <= b.outbox
        && b.outbox[|a.outbox|] == Ack(d.jobId, d.attempt, false, false)
        && b.outbox[|a.outbox| + 1].JobResult?
        && var f := b.outbox[|a.outbox| + 1].frame;
          f.jobId == d.jobId && f.attempt == d.attempt && f.dedupeKey == d.dedupeKey && IsRefusal(f)
  {
  }

  /** A served key without a result is executed by exactly one task: the running
      one, which gains a waiter, or a new one. */
  lemma ServedIsExecutedOnce(a: Agent, d: Dispatch, task: nat, now: int)
    requires Sound(a) && task !in a.jobs && |a.outbox| < OUTBOX_CAPACITY
    requires d.capability in a.providers && d.capability in a.granted && d.dedupeKey !in a.ledger.frames
    ensures var b := Accept(a, d, task, now);
      && d.dedupeKey in b.running
      && var t := b.running[d.dedupeKey];
        && t == (if d.dedupeKey in a.running then a.running[d.dedupeKey] else task)
        && t in b.jobs && b.jobs.Keys == a.jobs.Keys + {t}
        && (forall u :: u in a.jobs && u != t ==> b.jobs[u] == a.jobs[u])
        && b.jobs[t].dispatch == (if t in a.jobs then a.jobs[t].dispatch else d)
        && b.jobs[t].waiters == (if t in a.jobs then a.jobs[t].waiters else []) + [Waiter(d.jobId, d.attempt)]
        && d.jobId in b.jobsById && b.jobsById[d.jobId] == d.dedupeKey
        && b.outbox == a.outbox + [Ack(d.jobId, d.attempt, true, t in a.jobs)]
        && b.ledger == a.ledger && b.touches == a.touches
  {
  }

  lemma {:induction false} NotifyTellsAll(outbox: seq<ClientFrame>, waiters: seq<Waiter>, terminal: ResultFrame)
    requires |outbox| + |waiters| <= OUTBOX_CAPACITY
    ensures var r := Notify(outbox, waiters, terminal);
      && |r| == |outbox| + |waiters| && outbox <= r
      && forall i {:trigger waiters[i]} :: 0 <= i < |waiters| ==>
        r[|outbox| + i] == JobResult(terminal.(jobId := waiters[i].jobId, attempt := waiters[i].attempt))
  {
    if waiters != [] {
      NotifyTellsAll(outbox, waiters[..|waiters| - 1], terminal);
    }
  }

  /** A result frame for `w` that tells what the run came to. */
  predicate TellsWaiter(c: ClientFrame, w: Waiter, d: Dispatch, status: JobStatus, body: ResultBody) {
    && c.JobResult? && c.frame.jobId == w.jobId && c.frame.attempt == w.attempt && !c.frame.replayed
    && Tells(c.frame, d, status, body)
  }

  /** When a task ends, every waiter is sent what the run came to, addressed to it
      and in joining order. */
  lemma FinishTellsEveryWaiter(a: Agent, task: nat, status: JobStatus, body: ResultBody)
    requires task in a.jobs && |a.outbox| + |a.jobs[task].waiters| <= OUTBOX_CAPACITY
    ensures var b, job := Finish(a, task, status, body), a.jobs[task];
      && |b.outbox| == |a.outbox| + |job.waiters|
      && forall i :: 0 <= i < |job.waiters| ==>
            TellsWaiter(b.outbox[|a.outbox| + i], job.waiters[i], job.dispatch, status, body)
  {
    hide Notify, Record;
    var b, job, terminal := Finish(a, task, status, body), a.jobs[task], TerminalFrame(a.jobs[task].dispatch, status, body);
    NotifyTellsAll(a.outbox, job.waiters, terminal);
    forall i | 0 <= i < |job.waiters|
      ensures TellsWaiter(b.outbox[|a.outbox| + i], job.waiters[i], job.dispatch, status, body)
    {
      assert b.outbox[|a.outbox| + i]
          == JobResult(terminal.(jobId := job.waiters[i].jobId, attempt := job.waiters[i].attempt));
    }
  }

  /** What the run came to is recorded and written to the file, unless it was
      cancelled; other results are at most displaced. */
  lemma FinishRecordsResult(a: Agent, task: nat, status: JobStatus, body: ResultBody)
    requires Sound(a) && task in a.jobs
    ensures var b, key := Finish(a, task, status, body), a.jobs[task].dispatch.dedupeKey;
      && (status == Cancelled ==> b.ledger == a.ledger && b.persisted == a.persisted)
      && (status != Cancelled ==> b.persisted == b.ledger)
      && (status != Cancelled && a.capacity > 0 ==>
            key in b.ledger.frames && Tells(b.ledger.frames[key], a.jobs[task].dispatch, status, body))
      && forall k :: k in b.ledger.frames && k != key ==> k in a.ledger.frames && b.ledger.frames[k] == a.ledger.frames[k]
  {
    var d := a.jobs[task].dispatch;
    RecordKeepsOthers(a.ledger, d.dedupeKey, TerminalFrame(d, status, body), a.capacity);
    hide Notify, Record, WellFormed, Consistent, HoldsMostRecent;
  }

  /** Only this task, its key and its waiters are forgotten. */
  lemma FinishForgetsTask(a: Agent, task: nat, status: JobStatus, body: ResultBody)
    requires task in a.jobs
    ensures var b, job := Finish(a, task, status, body), a.jobs[task];
      && b.jobs == a.jobs - {task} && b.running == a.running - {job.dispatch.dedupeKey}
      && (forall j :: j in b.jobsById <==> j in a.jobsById && !Waits(job, j))
      && (forall j :: j in b.jobsById ==> b.jobsById[j] == a.jobsById[j])
  {
    hide Notify, Record;
    var job := a.jobs[task];
    assert forall j :: Waits(job, j) <==> j in (set w | w in job.waiters :: w.jobId);
  }

  // ----- Cancelling ------------------------------------------------------------

  predicate Waits(job: RunningJob, jobId: string) {
    exists i :: 0 <= i < |job.waiters| && job.waiters[i].jobId == jobId
  }

  /** Every job on record is served by the live task its key names. */
  ghost predicate Indexed(a: Agent) {
    forall j :: j in a.jobsById ==>
      a.jobsById[j] in a.running && a.running[a.jobsById[j]] in a.jobs && Waits(a.jobs[a.running[a.jobsById[j]]], j)
  }

  /** And every waiting job is on record, under the key it waits for. */
  ghost predicate Traceable(a: Agent) {
    forall t, j :: t in a.jobs && Waits(a.jobs[t], j) ==>
      j in a.jobsById && a.jobsById[j] == a.jobs[t].dispatch.dedupeKey
  }

  /** A cancel never marks anything but a live task that job waits for. */
  lemma CancelMarksAWaitedTask(a: Agent, jobId: string, t: nat)
    requires Sound(a) && Indexed(a) && t in RequestCancel(a, jobId).cancelled && t !in a.cancelled
    ensures t in a.jobs && Waits(a.jobs[t], jobId)
    ensures RequestCancel(a, jobId) == a.(cancelled := a.cancelled + {t})
  {
  }

  /** Where each job waits for one key only, a cancel marks exactly the live task
      it waits for. */
  lemma CancelMarksExactly(a: Agent, jobId: string)
    requires Sound(a) && Indexed(a) && Traceable(a)
    ensures forall t :: t in RequestCancel(a, jobId).cancelled <==>
              t in a.cancelled || (t in a.jobs && Waits(a.jobs[t], jobId))
  {
  }

  lemma AcceptKeepsIndexed(a: Agent, d: Dispatch, task: nat, now: int)
    requires Sound(a) && task !in a.jobs && Indexed(a)
    ensures Indexed(Accept(a, d, task, now))
    ensures Traceable(a) && OneKeyOnly(a, d) ==> Traceable(Accept(a, d, task, now))
  {
    hide HoldsMostRecent, KeyedByDedupe, Touch;
    if Serves(a, d.capability) && d.dedupeKey !in a.ledger.frames {
      hide Enqueue;
      JoinOrStartKeepsIndexed(a, d, task);
      if Traceable(a) && OneKeyOnly(a, d) { JoinOrStartKeepsTraceable(a, d, task); }
    }
  }

  /** No live task of another key waits for the dispatched job. */
  ghost predicate OneKeyOnly(a: Agent, d: Dispatch) {
    forall t :: t in a.jobs && a.jobs[t].dispatch.dedupeKey != d.dedupeKey ==> !Waits(a.jobs[t], d.jobId)
  }

  lemma JoinOrStartKeepsIndexed(a: Agent, d: Dispatch, task: nat)
    requires Consistent(a) && task !in a.jobs && Indexed(a)
    ensures Indexed(JoinOrStart(a, d, task))
  {
    hide Enqueue, Waits;
    var b := JoinOrStart(a, d, task);
    var t := b.running[d.dedupeKey];
    WaitersGrow(if t in a.jobs then a.jobs[t].waiters else [], Waiter(d.jobId, d.attempt), b.jobs[t]);
  }

  lemma JoinOrStartKeepsTraceable(a: Agent, d: Dispatch, task: nat)
    requires Consistent(a) && task !in a.jobs && Traceable(a) && OneKeyOnly(a, d)
    ensures Traceable(JoinOrStart(a, d, task))
  {
    var b := JoinOrStart(a, d, task);
    var t := b.running[d.dedupeKey];
    assert t in b.jobs && b.jobs[t].dispatch.dedupeKey == d.dedupeKey;
    hide Enqueue, Waits, Consistent;
    WaitersGrow(if t in a.jobs then a.jobs[t].waiters else [], Waiter(d.jobId, d.attempt), b.jobs[t]);
    forall u, j | u in b.jobs && Waits(b.jobs[u], j)
      ensures j in b.jobsById && b.jobsById[j] == b.jobs[u].dispatch.dedupeKey
    {
      if u != t || j != d.jobId {
        assert u in a.jobs && a.jobs[u].dispatch == b.jobs[u].dispatch && Waits(a.jobs[u], j);
      }
    }
  }

  lemma WaitersGrow(before: seq<Waiter>, w: Waiter, job: RunningJob)
    requires job.waiters == before + [w]
    ensures forall j :: Waits(job, j) <==> j == w.jobId || Waits(RunningJob(job.dispatch, before), j)
    ensures before == [] ==> forall j :: !Waits(RunningJob(job.dispatch, before), j)
  {
    assert job.waiters[|before|] == w;
    assert forall i :: 0 <= i < |before| ==> job.waiters[i] == before[i];
  }

  lemma FinishKeepsIndexed(a: Agent, task: nat, status: JobStatus, body: ResultBody)
    requires Sound(a) && task in a.jobs && Indexed(a)
    ensures Indexed(Finish(a, task, status, body))
    ensures Traceable(a) ==> Traceable(Finish(a, task, status, body))
  {
    FinishForgetsTask(a, task, status, body);
    hide Finish, HoldsMostRecent, KeyedByDedupe, Waits;
    ForgettingKeepsIndexed(a, Finish(a, task, status, body), task);
  }

  lemma WaitsForOneTask(a: Agent, t: nat, u: nat, j: string)
    requires Consistent(a) && Traceable(a) && t in a.jobs && u in a.jobs && t != u && Waits(a.jobs[t], j)
    ensures !Waits(a.jobs[u], j) && j in a.jobsById && a.jobsById[j] == a.jobs[t].dispatch.dedupeKey
  {
    hide Waits;
  }

  lemma ForgettingKeepsIndexed(a: Agent, b: Agent, task: nat)
    requires Consistent(a) && task in a.jobs && Indexed(a)
    requires b.jobs == a.jobs - {task} && b.running == a.running - {a.jobs[task].dispatch.dedupeKey}
    requires forall j :: j in b.jobsById <==> j in a.jobsById && !Waits(a.jobs[task], j)
    requires forall j :: j in b.jobsById ==> b.jobsById[j] == a.jobsById[j]
    ensures Indexed(b)
    ensures Traceable(a) ==> Traceable(b)
  {
    hide Waits;
    forall j | j in b.jobsById
      ensures b.jobsById[j] in b.running && b.running[b.jobsById[j]] in b.jobs && Waits(b.jobs[b.running[b.jobsById[j]]], j)
    {
      assert a.running[a.jobsById[j]] != task;
    }
    if Traceable(a) {
      forall t, j | t in b.jobs && Waits(b.jobs[t], j)
        ensures j in b.jobsById && b.jobsById[j] == b.jobs[t].dispatch.dedupeKey
      {
        WaitsForOneTask(a, t, task, j);
      }
    }
  }

  // ----- The agent object -----------------------------------------------------

  class AgentProcess {
    const capacity: nat
    var providers: set<string>
    var granted: set<string>
    var ledger: Ledger
    var persisted: Entries
    var running: map<string, nat>
    var jobs: map<nat, RunningJob>
    var jobsById: map<string, string>
    var cancelled: set<nat>
    var outbox: seq<ClientFrame>
    var nextTask: nat
    ghost var touches: seq<string>

    ghost function State(): Agent
      reads this, ledger
    {
      Agent(capacity, providers, granted, ledger.Contents(), persisted, running, jobs, jobsById,
            cancelled, outbox, touches)
    }

    ghost predicate Valid()
      reads this, ledger
    {
      && ledger.Valid() && ledger.capacity == capacity
      && Sound(State())
      && forall t :: t in jobs ==> t < nextTask
    }

    constructor (capacity: nat)
      ensures Valid() && fresh(ledger) && State() == Fresh(capacity)
    {
      this.capacity := capacity;
      ledger := new Ledger(capacity);
      providers, granted, persisted := {}, {}, NO_ENTRIES;
      running, jobs, jobsById, cancelled := map[], map[], map[], {};
      outbox, nextTask, touches := [], 0, [];
    }

    method AcceptJob(d: Dispatch, now: int)
      requires Valid()
      modifies this, ledger
      ensures Valid() && ledger == old(ledger)
      ensures State() == Accept(old(State()), d, old(nextTask), now)
      ensures || (nextTask == old(nextTask) && jobs.Keys == old(jobs.Keys))
              || (nextTask == old(nextTask) + 1 && jobs.Keys == old(jobs.Keys) + {old(nextTask)})
    {
      hide HoldsMostRecent, KeyedByDedupe, WellFormed, MoveToEnd, Enqueue, JoinOrStart;
      AcceptKeepsSound(State(), d, nextTask, now);
      if d.capability !in providers || d.capability !in granted {
        outbox := Enqueue(outbox, Ack(d.jobId, d.attempt, false, false));
        outbox := Enqueue(outbox, JobResult(RefusalFrame(d, now)));
        return;
      }
      var cached := ledger.Get(d.dedupeKey);
      if cached.Some? {
        touches := touches + [d.dedupeKey];
        outbox := Enqueue(outbox, Ack(d.jobId, d.attempt, true, true));
        outbox := Enqueue(outbox, JobResult(cached.value.(jobId := d.jobId, attempt := d.attempt, replayed := true)));
        return;
      }
      JoinOrStartJob(d);
    }

    method JoinOrStartJob(d: Dispatch)
      requires Consistent(State()) && nextTask !in jobs
      modifies this`running, this`jobs, this`jobsById, this`nextTask, this`outbox
      ensures State() == JoinOrStart(old(State()), d, old(nextTask))
      ensures || (nextTask == old(nextTask) && jobs.Keys == old(jobs.Keys))
              || (nextTask == old(nextTask) + 1 && jobs.Keys == old(jobs.Keys) + {old(nextTask)})
    {
      if d.dedupeKey in running {
        var job := jobs[running[d.dedupeKey]];
        jobs := jobs[running[d.dedupeKey] := job.(waiters := job.waiters + [Waiter(d.jobId, d.attempt)])];
        jobsById := jobsById[d.jobId := d.dedupeKey];
        outbox := Enqueue(outbox, Ack(d.jobId, d.attempt, true, true));
      } else {
        outbox := Enqueue(outbox, Ack(d.jobId, d.attempt, true, false));
        running := running[d.dedupeKey := nextTask];
        jobs := jobs[nextTask := RunningJob(d, [Waiter(d.jobId, d.attempt)])];
        jobsById := jobsById[d.jobId := d.dedupeKey];
        nextTask := nextTask + 1;
      }
    }

    method HandleCancel(jobId: string)
      requires Valid()
      modifies this`cancelled
      ensures Valid()
      ensures State() == RequestCancel(old(State()), jobId)
    {
      if jobId in jobsById && jobsById[jobId] in running {
        cancelled := cancelled + {running[jobsById[jobId]]};
      }
    }

    method FinishJob(task: nat, status: JobStatus, body: ResultBody)
      requires Valid() && task in jobs
      modifies this, ledger
      ensures Valid() && ledger == old(ledger)
      ensures State() == Finish(old(State()), task, status, body)
    {
      hide HoldsMostRecent, KeyedByDedupe, WellFormed, Consistent, Record, Notify;
      FinishKeepsSound(State(), task, status, body);
      var job := jobs[task];
      var terminal := TerminalFrame(job.dispatch, status, body);
      if status != Cancelled {
        ledger.Put(job.dispatch.dedupeKey, terminal);
        persisted := Entries(ledger.order, ledger.frames);
        touches := touches + [job.dispatch.dedupeKey];
      }
      running := running - {job.dispatch.dedupeKey};
      jobs := jobs - {task};
      cancelled := cancelled - {task};
      outbox, jobsById := NotifyWaiters(outbox, jobsById, job.waiters, terminal);
    }
  }

  /** `for job_id, attempt in job.waiters`: forget the job and send its copy. */
  method NotifyWaiters(before: seq<ClientFrame>, known: map<string, string>, waiters: seq<Waiter>, terminal: ResultFrame)
    returns (outbox: seq<ClientFrame>, jobsById: map<string, string>)
    ensures outbox == Notify(before, waiters, terminal)
    ensures jobsById == known - (set w | w in waiters :: w.jobId)
  {
    outbox, jobsById := before, known;
    for i := 0 to |waiters|
      invariant outbox == Notify(before, waiters[..i], terminal)
      invariant jobsById == known - (set w | w in waiters[..i] :: w.jobId)
    {
      var w := waiters[i];
      assert waiters[..i + 1] == waiters[..i] + [w];
      jobsById := jobsById - {w.jobId};
      outbox := Enqueue(outbox, JobResult(terminal.(jobId := w.jobId, attempt := w.attempt)));
      assert waiters[..i + 1][..i] == waiters[..i];
    }
    assert waiters[..|waiters|] == waiters;
  }
}
