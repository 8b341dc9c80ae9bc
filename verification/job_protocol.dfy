/** Control plane, one node and the connections between them as a step system.
    Connections drop, frames queue and get lost, the agent process restarts, and
    the workflow retries; every outcome handed back is still a copy of the
    terminal frame of one execution of that very job. */
module JobProtocol {
  import opened Outcomes
  import opened JobFrames
  import opened ResultLedger
  import opened NodeAgent
  import opened NodeSession

  datatype Connection = Connection(session: Session, down: seq<ServerFrame>, up: seq<ClientFrame>)

  /** What really happened to a dispatch: a run of its capability provider and
      what that came to, or being turned away at the door. */
  datatype Execution =
    | Execution(dispatch: Dispatch, status: JobStatus, body: ResultBody)
    | TurnedAway(dispatch: Dispatch)

  /** What a workflow was given for the job it submitted. */
  datatype Outcome = Outcome(identity: JobIdentity, attempt: int, frame: ResultFrame)

  datatype System = System(
    agent: Agent,
    nextTask: nat,
    attached: Option<nat>,            // the connection the agent is serving
    connections: map<nat, Connection>,
    executions: set<Execution>,       // history
    outcomes: seq<Outcome>)           // history

  datatype Step =
    | Connect(conn: nat, providers: set<string>, granted: set<string>)
    | SubmitJob(conn: nat, identity: JobIdentity, attempt: int)
    | AgentReceive(now: int)
    | AgentFinish(task: nat, status: JobStatus, body: ResultBody)
    | AgentSend
    | AgentLose(index: nat)
    | AgentDisconnect
    | AgentRestart(sameNode: bool)
    | ControlReceive(conn: nat)
    | CollectOutcome(conn: nat, jobId: string)
    | GiveUp(conn: nat, jobId: string)
    | CancelRunning(conn: nat, jobId: string)
    | CloseSession(conn: nat, announce: bool)

  function Start(capacity: nat): System {
    System(Fresh(capacity), 0, None, map[], {}, [])
  }

  function Detach(s: System): System {
    s.(attached := None, agent := s.agent.(cancelled := s.agent.jobs.Keys))
  }

  function Receive(s: System, c: nat, now: int): System
    requires c in s.connections && s.connections[c].down != []
  {
    var conn := s.connections[c];
    var rest := s.(connections := s.connections[c := conn.(down := conn.down[1..])]);
    match conn.down[0]
    case JobDispatch(d) =>
      rest.(agent := Accept(s.agent, d, s.nextTask, now), nextTask := s.nextTask + 1,
            executions := if d.capability in s.agent.providers && d.capability in s.agent.granted then s.executions
                          else s.executions + {TurnedAway(d)})
    case JobCancel(jobId, _) =>
      rest.(agent := RequestCancel(s.agent, jobId))
    case SessionClose =>
      Detach(rest)
  }

  /** One step; a step that is not possible in a state leaves it unchanged. */
  function Apply(dedupe: JobIdentity -> string, s: System, step: Step): System {
    match step
    case Connect(c, providers, granted) =>
      if s.attached.Some? || c in s.connections then s
      else
        s.(attached := Some(c),
           connections := s.connections[c := Connection(Session(true, map[]), [], [])],
           agent := s.agent.(outbox := [], providers := providers, granted := granted))
    case SubmitJob(c, identity, attempt) =>
      if c !in s.connections then s
      else
        var conn := s.connections[c];
        (match Submit(conn.session, identity, attempt, dedupe(identity))
         case Err(_) => s
         case Ok((session, d)) =>
           s.(connections := s.connections[c := conn.(session := session, down := conn.down + [JobDispatch(d)])]))
    case AgentReceive(now) =>
      if s.attached.None? || s.attached.value !in s.connections
         || s.connections[s.attached.value].down == [] then s
      else Receive(s, s.attached.value, now)
    case AgentFinish(task, status, body) =>
      if task !in s.agent.jobs then s
      else
        var d := s.agent.jobs[task].dispatch;
        s.(agent := Finish(s.agent, task, status, body),
           executions := s.executions + {Execution(d, status, body)})
    case AgentSend =>
      if s.attached.None? || s.attached.value !in s.connections || s.agent.outbox == [] then s
      else
        var conn := s.connections[s.attached.value];
        s.(agent := s.agent.(outbox := s.agent.outbox[1..]),
           connections := s.connections[s.attached.value := conn.(up := conn.up + [s.agent.outbox[0]])])
    case AgentLose(i) =>
      if i >= |s.agent.outbox| then s
      else s.(agent := s.agent.(outbox := s.agent.outbox[..i] + s.agent.outbox[i + 1..]))
    case AgentDisconnect => Detach(s)
    case AgentRestart(sameNode) => s.(agent := Restart(s.agent, sameNode), attached := None)
    case ControlReceive(c) =>
      if c !in s.connections || !s.connections[c].session.open || s.connections[c].up == [] then s
      else
        var conn := s.connections[c];
        s.(connections := s.connections[c := conn.(session := Handle(conn.session, conn.up[0]), up := conn.up[1..])])
    case CollectOutcome(c, jobId) =>
      if c !in s.connections || jobId !in s.connections[c].session.pending
         || s.connections[c].session.pending[jobId].result.None? then s
      else
        var conn := s.connections[c];
        var p := conn.session.pending[jobId];
        s.(connections := s.connections[c := conn.(session := Drop(conn.session, jobId))],
           outcomes := s.outcomes + [Outcome(p.identity, p.attempt, p.result.value)])
    case GiveUp(c, jobId) =>
      if c !in s.connections || jobId !in s.connections[c].session.pending then s
      else
        var conn := s.connections[c];
        var p := conn.session.pending[jobId];
        s.(connections := s.connections[c := conn.(session := Drop(conn.session, jobId),
                                                   down := conn.down + [JobCancel(jobId, p.attempt)])])
    case CancelRunning(c, jobId) =>
      if c !in s.connections || jobId !in s.connections[c].session.pending then s
      else
        var conn := s.connections[c];
        s.(connections := s.connections[c := conn.(
             down := conn.down + [JobCancel(jobId, conn.session.pending[jobId].attempt)])])
    case CloseSession(c, announce) =>
      if c !in s.connections then s
      else
        var conn := s.connections[c];
        s.(connections := s.connections[c := conn.(session := Close(conn.session),
             down := if announce then conn.down + [SessionClose] else conn.down)])
  }

  /** The state after a sequence of steps from a freshly started system. */
  function Run(dedupe: JobIdentity -> string, capacity: nat, steps: seq<Step>): System {
    if steps == [] then Start(capacity)
    else Apply(dedupe, Run(dedupe, capacity, steps[..|steps| - 1]), steps[|steps| - 1])
  }

  // ----- What every reachable state satisfies --------------------------------

  ghost predicate HonestKey(dedupe: JobIdentity -> string, d: Dispatch) {
    d.dedupeKey == dedupe(IdentityOf(d))
  }

  ghost predicate Executed(executions: set<Execution>, f: ResultFrame) {
    exists e :: e in executions && e.Execution? && Tells(f, e.dispatch, e.status, e.body)
  }

  ghost predicate Refused(executions: set<Execution>, f: ResultFrame) {
    IsRefusal(f) && exists e :: e in executions && e.TurnedAway? && e.dispatch.dedupeKey == f.dedupeKey
  }

  ghost predicate Genuine(executions: set<Execution>, f: ResultFrame) {
    Refused(executions, f) || Executed(executions, f)
  }

  ghost predicate GenuineUp(executions: set<Execution>, frames: seq<ClientFrame>) {
    forall c :: c in frames && c.JobResult? ==> Genuine(executions, c.frame)
  }

  ghost predicate ExecutionsHonest(dedupe: JobIdentity -> string, executions: set<Execution>) {
    forall e :: e in executions ==> HonestKey(dedupe, e.dispatch)
  }

  ghost predicate LedgerExecuted(executions: set<Execution>, ledger: Entries) {
    forall k :: k in ledger.frames ==> Executed(executions, ledger.frames[k])
  }

  ghost predicate AgentHonest(dedupe: JobIdentity -> string, executions: set<Execution>, a: Agent) {
    && (forall t :: t in a.jobs ==> HonestKey(dedupe, a.jobs[t].dispatch))
    && LedgerExecuted(executions, a.ledger)
    && LedgerExecuted(executions, a.persisted)
    && GenuineUp(executions, a.outbox)
  }

  ghost predicate PendingHonest(dedupe: JobIdentity -> string, executions: set<Execution>, p: PendingJob) {
    && p.dedupeKey == dedupe(p.identity)
    && (p.result.Some? ==>
          && p.result.value.dedupeKey == p.dedupeKey && Genuine(executions, p.result.value)
          && p.result.value.jobId == p.identity.jobId && p.result.value.attempt == p.attempt)
  }

  ghost predicate ConnectionHonest(dedupe: JobIdentity -> string, executions: set<Execution>, c: Connection) {
    && (forall f :: f in c.down && f.JobDispatch? ==> HonestKey(dedupe, f.dispatch))
    && GenuineUp(executions, c.up)
    && (forall j :: j in c.session.pending ==>
          c.session.pending[j].identity.jobId == j && PendingHonest(dedupe, executions, c.session.pending[j]))
  }

  ghost predicate OutcomeHonest(dedupe: JobIdentity -> string, executions: set<Execution>, o: Outcome) {
    && o.frame.dedupeKey == dedupe(o.identity) && Genuine(executions, o.frame)
    && o.frame.jobId == o.identity.jobId && o.frame.attempt == o.attempt
  }

  ghost predicate Invariant(dedupe: JobIdentity -> string, s: System) {
    && Sound(s.agent)
    && (forall t :: t in s.agent.jobs ==> t < s.nextTask)
    && ExecutionsHonest(dedupe, s.executions)
    && AgentHonest(dedupe, s.executions, s.agent)
    && (forall c :: c in s.connections ==> ConnectionHonest(dedupe, s.executions, s.connections[c]))
    && (forall o :: o in s.outcomes ==> OutcomeHonest(dedupe, s.executions, o))
  }

  // ----- Preservation, part by part -------------------------------------------

  lemma AcceptStaysHonest(
    dedupe: JobIdentity -> string, executions: set<Execution>, a: Agent, d: Dispatch, task: nat, now: int)
    requires Sound(a) && AgentHonest(dedupe, executions, a) && HonestKey(dedupe, d)
    requires TurnedAway(d) in executions || (d.capability in a.providers && d.capability in a.granted)
    ensures AgentHonest(dedupe, executions, Accept(a, d, task, now))
  {
    if Serves(a, d.capability) && d.dedupeKey in a.ledger.frames {
      var held := a.ledger.frames[d.dedupeKey];
      var e :| e in executions && e.Execution? && Tells(held, e.dispatch, e.status, e.body);
      assert Tells(held.(jobId := d.jobId, attempt := d.attempt, replayed := true), e.dispatch, e.status, e.body);
    }
  }

  lemma {:induction false} NotifyStaysGenuine(
    executions: set<Execution>, outbox: seq<ClientFrame>, waiters: seq<Waiter>, terminal: ResultFrame)
    requires GenuineUp(executions, outbox) && Executed(executions, terminal)
    ensures GenuineUp(executions, Notify(outbox, waiters, terminal))
  {
    if waiters != [] {
      var n := |waiters| - 1;
      NotifyStaysGenuine(executions, outbox, waiters[..n], terminal);
      var e :| e in executions && e.Execution? && Tells(terminal, e.dispatch, e.status, e.body);
      assert Tells(terminal.(jobId := waiters[n].jobId, attempt := waiters[n].attempt), e.dispatch, e.status, e.body);
    }
  }

  lemma FinishStaysHonest(
    dedupe: JobIdentity -> string, executions: set<Execution>, a: Agent, task: nat, status: JobStatus, body: ResultBody)
    requires task in a.jobs && AgentHonest(dedupe, executions, a)
    requires Execution(a.jobs[task].dispatch, status, body) in executions
    ensures AgentHonest(dedupe, executions, Finish(a, task, status, body))
  {
    var terminal := TerminalFrame(a.jobs[task].dispatch, status, body);
    assert Tells(terminal, a.jobs[task].dispatch, status, body);
    assert Executed(executions, terminal);
    NotifyStaysGenuine(executions, a.outbox, a.jobs[task].waiters, terminal);
  }

  lemma HandleStaysHonest(
    dedupe: JobIdentity -> string, executions: set<Execution>, c: Connection)
    requires ConnectionHonest(dedupe, executions, c) && c.up != []
    ensures ConnectionHonest(dedupe, executions, c.(session := Handle(c.session, c.up[0]), up := c.up[1..]))
  {
  }

  /** More executions make no genuine frame less genuine. */
  lemma GrowingHistory(dedupe: JobIdentity -> string, s: System, more: set<Execution>)
    requires Invariant(dedupe, s) && s.executions <= more && ExecutionsHonest(dedupe, more)
    ensures Invariant(dedupe, s.(executions := more))
  {
  }

  lemma AgentStepKeepsInvariant(dedupe: JobIdentity -> string, s: System, step: Step)
    requires Invariant(dedupe, s)
    requires step.AgentReceive? || step.AgentFinish? || step.AgentSend? || step.AgentLose?
          || step.AgentDisconnect? || step.AgentRestart?
    ensures Invariant(dedupe, Apply(dedupe, s, step))
  {
    match step
    case AgentReceive(now) =>
      if s.attached.Some? && s.attached.value in s.connections && s.connections[s.attached.value].down != [] {
        ReceiveKeepsInvariant(dedupe, s, s.attached.value, now);
      }
    case AgentFinish(task, status, body) =>
      if task in s.agent.jobs {
        var d := s.agent.jobs[task].dispatch;
        var more := s.executions + {Execution(d, status, body)};
        GrowingHistory(dedupe, s, more);
        FinishKeepsSound(s.agent, task, status, body);
        FinishStaysHonest(dedupe, more, s.agent, task, status, body);
      }
    case AgentSend =>
    case AgentLose(i) =>
    case AgentDisconnect =>
    case AgentRestart(sameNode) =>
      RestartKeepsSound(s.agent, sameNode);
  }

  lemma ReplaceConnection(dedupe: JobIdentity -> string, s: System, c: nat, conn: Connection)
    requires Invariant(dedupe, s) && ConnectionHonest(dedupe, s.executions, conn)
    ensures Invariant(dedupe, s.(connections := s.connections[c := conn]))
  {
  }

  lemma ReceiveKeepsInvariant(dedupe: JobIdentity -> string, s: System, c: nat, now: int)
    requires Invariant(dedupe, s) && c in s.connections && s.connections[c].down != []
    ensures Invariant(dedupe, Receive(s, c, now))
  {
    hide ConnectionHonest, Sound, AgentHonest;
    var conn := s.connections[c];
    PopDown(dedupe, s.executions, conn);
    ReplaceConnection(dedupe, s, c, conn.(down := conn.down[1..]));
    CancelIsHarmless(dedupe, s.executions, s.agent);
    if conn.down[0].JobDispatch? {
      var d := conn.down[0].dispatch;
      NewTaskIsFresh(s);
      AcceptKeepsSound(s.agent, d, s.nextTask, now);
      var more := Receive(s, c, now).executions;
      GrowingHistory(dedupe, s.(connections := s.connections[c := conn.(down := conn.down[1..])]), more);
      AcceptStaysHonest(dedupe, more, s.agent, d, s.nextTask, now);
    }
  }

  lemma NewTaskIsFresh(s: System)
    requires forall t :: t in s.agent.jobs ==> t < s.nextTask
    ensures s.nextTask !in s.agent.jobs
    ensures forall d, now, t :: t in Accept(s.agent, d, s.nextTask, now).jobs ==> t < s.nextTask + 1
  {
  }

  lemma PopDown(dedupe: JobIdentity -> string, executions: set<Execution>, c: Connection)
    requires ConnectionHonest(dedupe, executions, c) && c.down != []
    ensures ConnectionHonest(dedupe, executions, c.(down := c.down[1..]))
    ensures c.down[0].JobDispatch? ==> HonestKey(dedupe, c.down[0].dispatch)
  {
  }

  /** Asking tasks to stop changes nothing the invariant speaks about. */
  lemma CancelIsHarmless(dedupe: JobIdentity -> string, executions: set<Execution>, a: Agent)
    requires Sound(a) && AgentHonest(dedupe, executions, a)
    ensures forall c :: Sound(a.(cancelled := c)) && AgentHonest(dedupe, executions, a.(cancelled := c))
  {
  }

  lemma ControlStepKeepsInvariant(dedupe: JobIdentity -> string, s: System, step: Step)
    requires Invariant(dedupe, s)
    requires step.Connect? || step.SubmitJob? || step.ControlReceive? || step.CollectOutcome?
          || step.GiveUp? || step.CancelRunning? || step.CloseSession?
    ensures Invariant(dedupe, Apply(dedupe, s, step))
  {
    var t := Apply(dedupe, s, step);
    if step.Connect? {
      ConnectKeepsInvariant(dedupe, s, step);
    } else if step.conn in s.connections {
      ControlStepIsHonest(dedupe, s, step);
      hide ConnectionHonest, Sound, AgentHonest, OutcomeHonest;
      ReplaceConnection(dedupe, s, step.conn, t.connections[step.conn]);
      assert t == s.(connections := s.connections[step.conn := t.connections[step.conn]], outcomes := t.outcomes);
    }
  }

  lemma ConnectKeepsInvariant(dedupe: JobIdentity -> string, s: System, step: Step)
    requires Invariant(dedupe, s) && step.Connect?
    ensures Invariant(dedupe, Apply(dedupe, s, step))
  {
    assert Sound(s.agent.(outbox := [], providers := step.providers, granted := step.granted));
    ReplaceConnection(dedupe, s, step.conn, Connection(Session(true, map[]), [], []));
  }

  /** A control-plane step leaves its connection honest, and an outcome it hands
      over settles a job under that job's own key. */
  lemma ControlStepIsHonest(dedupe: JobIdentity -> string, s: System, step: Step)
    requires Invariant(dedupe, s)
    requires step.SubmitJob? || step.ControlReceive? || step.CollectOutcome?
          || step.GiveUp? || step.CancelRunning? || step.CloseSession?
    requires step.conn in s.connections
    ensures var t := Apply(dedupe, s, step);
      && step.conn in t.connections
      && t == s.(connections := s.connections[step.conn := t.connections[step.conn]], outcomes := t.outcomes)
      && ConnectionHonest(dedupe, s.executions, t.connections[step.conn])
      && forall o :: o in t.outcomes ==> OutcomeHonest(dedupe, s.executions, o)
  {
    hide Sound, AgentHonest, Genuine, GenuineUp, HonestKey;
    var conn := s.connections[step.conn];
    assert ConnectionHonest(dedupe, s.executions, conn);
    assert s.connections[step.conn := conn] == s.connections;
    if step.ControlReceive? {
      if conn.up != [] {
        HandleStaysHonest(dedupe, s.executions, conn);
      }
    } else if step.SubmitJob? {
      SubmitStaysHonest(dedupe, s.executions, conn, step.identity, step.attempt);
    }
  }

  lemma SubmitStaysHonest(
    dedupe: JobIdentity -> string, executions: set<Execution>, c: Connection, identity: JobIdentity, attempt: int)
    requires ConnectionHonest(dedupe, executions, c)
    ensures match Submit(c.session, identity, attempt, dedupe(identity))
      case Err(_) => true
      case Ok((session, d)) =>
        ConnectionHonest(dedupe, executions, c.(session := session, down := c.down + [JobDispatch(d)]))
  {
  }

  lemma {:induction false} InvariantHolds(dedupe: JobIdentity -> string, capacity: nat, steps: seq<Step>)
    ensures Invariant(dedupe, Run(dedupe, capacity, steps))
  {
    if steps == [] {
      FreshIsSound(capacity);
    } else {
      var n := |steps| - 1;
      InvariantHolds(dedupe, capacity, steps[..n]);
      var s := Run(dedupe, capacity, steps[..n]);
      var step := steps[n];
      if step.AgentReceive? || step.AgentFinish? || step.AgentSend? || step.AgentLose?
         || step.AgentDisconnect? || step.AgentRestart? {
        AgentStepKeepsInvariant(dedupe, s, step);
      } else {
        ControlStepKeepsInvariant(dedupe, s, step);
      }
    }
  }

  // ----- Main results ------------------------------------------------------------

  ghost predicate Injective(dedupe: JobIdentity -> string) {
    forall x, y :: dedupe(x) == dedupe(y) ==> x == y
  }

  /** In every run, an outcome is addressed to the job and attempt it was waited
      for and tells exactly what one execution of the same job, capability and
      parameters came to, or that this very job was turned away at the door. */
  lemma OutcomesComeFromTheSameJob(dedupe: JobIdentity -> string, capacity: nat, steps: seq<Step>, o: Outcome)
    requires Injective(dedupe)
    requires o in Run(dedupe, capacity, steps).outcomes
    ensures o.frame.jobId == o.identity.jobId && o.frame.attempt == o.attempt
    ensures exists e :: e in Run(dedupe, capacity, steps).executions && IdentityOf(e.dispatch) == o.identity
                 && match e
                    case Execution(d, status, body) => Tells(o.frame, d, status, body)
                    case TurnedAway(d) => IsRefusal(o.frame)
  {
    InvariantHolds(dedupe, capacity, steps);
    var s := Run(dedupe, capacity, steps);
    assert OutcomeHonest(dedupe, s.executions, o);
    if Executed(s.executions, o.frame) {
      var e :| e in s.executions && e.Execution? && Tells(o.frame, e.dispatch, e.status, e.body);
      assert dedupe(IdentityOf(e.dispatch)) == dedupe(o.identity);
    } else {
      var e :| e in s.executions && e.TurnedAway? && e.dispatch.dedupeKey == o.frame.dedupeKey;
      assert dedupe(IdentityOf(e.dispatch)) == dedupe(o.identity);
    }
  }

  /** In every run no two live tasks serve the same dedupe key, and a job whose
      result was recorded starts again only once at least `capacity` distinct
      other keys have displaced it. */
  lemma ExecutionsDoNotOverlapOrRepeatEarly(
    dedupe: JobIdentity -> string, capacity: nat, steps: seq<Step>, now: int, d: Dispatch)
    ensures var s := Run(dedupe, capacity, steps);
      && (forall t, u | t in s.agent.jobs && u in s.agent.jobs ::
            s.agent.jobs[t].dispatch.dedupeKey == s.agent.jobs[u].dispatch.dedupeKey ==> t == u)
      && (s.nextTask in Accept(s.agent, d, s.nextTask, now).jobs && d.dedupeKey in s.agent.touches ==>
            |TouchedSince(s.agent.touches, d.dedupeKey) - {d.dedupeKey}| >= s.agent.capacity)
  {
    InvariantHolds(dedupe, capacity, steps);
    var s := Run(dedupe, capacity, steps);
    forall t, u | t in s.agent.jobs && u in s.agent.jobs
      && s.agent.jobs[t].dispatch.dedupeKey == s.agent.jobs[u].dispatch.dedupeKey
      ensures t == u
    {
      OneExecutionPerKey(s.agent, t, u);
    }
    if s.nextTask in Accept(s.agent, d, s.nextTask, now).jobs && d.dedupeKey in s.agent.touches {
      RerunNeedsDisplacement(s.agent, d, s.nextTask, now);
      assert TouchedSince(s.agent.touches, d.dedupeKey) - {d.dedupeKey} == TouchedSince(s.agent.touches, d.dedupeKey);
    }
  }

  /** Steps that neither admit nor finish a job leave the agent's indexes alone or
      start them empty. */
  lemma OtherStepsKeepIndexed(dedupe: JobIdentity -> string, s: System, step: Step)
    requires Indexed(s.agent) && !step.AgentReceive? && !step.AgentFinish?
    ensures Indexed(Apply(dedupe, s, step).agent)
  {
    hide Waits, Submit, Handle, Evict;
    var a, b := s.agent, Apply(dedupe, s, step).agent;
    assert step.AgentRestart? || (b.jobsById == a.jobsById && b.running == a.running && b.jobs == a.jobs);
  }

  lemma ReceiveKeepsIndexed(s: System, c: nat, now: int)
    requires Sound(s.agent) && s.nextTask !in s.agent.jobs && Indexed(s.agent)
    requires c in s.connections && s.connections[c].down != []
    ensures Indexed(Receive(s, c, now).agent)
  {
    hide Waits, Sound, Accept;
    match s.connections[c].down[0]
    case JobDispatch(d) => AcceptKeepsIndexed(s.agent, d, s.nextTask, now);
    case JobCancel(_, _) =>
    case SessionClose =>
  }

  lemma {:induction false} IndexedHolds(dedupe: JobIdentity -> string, capacity: nat, steps: seq<Step>)
    ensures Indexed(Run(dedupe, capacity, steps).agent)
  {
    if steps != [] {
      var n := |steps| - 1;
      var s, step := Run(dedupe, capacity, steps[..n]), steps[n];
      IndexedHolds(dedupe, capacity, steps[..n]);
      InvariantHolds(dedupe, capacity, steps[..n]);
      NewTaskIsFresh(s);
      assert Sound(s.agent);
      hide Invariant, Sound, Indexed, Finish, Receive;
      if step.AgentReceive? {
        if s.attached.Some? && s.attached.value in s.connections && s.connections[s.attached.value].down != [] {
          ReceiveKeepsIndexed(s, s.attached.value, step.now);
        }
      } else if step.AgentFinish? {
        if step.task in s.agent.jobs {
          FinishKeepsIndexed(s.agent, step.task, step.status, step.body);
        }
      } else {
        OtherStepsKeepIndexed(dedupe, s, step);
        hide Apply;
      }
    }
  }

  /** In every run a cancel marks at most one task, and only a live one that the
      named job waits for. */
  lemma CancelsHitTheirJob(dedupe: JobIdentity -> string, capacity: nat, steps: seq<Step>, jobId: string, t: nat)
    requires var a := Run(dedupe, capacity, steps).agent; t in RequestCancel(a, jobId).cancelled && t !in a.cancelled
    ensures var a := Run(dedupe, capacity, steps).agent;
      t in a.jobs && Waits(a.jobs[t], jobId) && RequestCancel(a, jobId) == a.(cancelled := a.cancelled + {t})
  {
    IndexedHolds(dedupe, capacity, steps);
    InvariantHolds(dedupe, capacity, steps);
    CancelMarksAWaitedTask(Run(dedupe, capacity, steps).agent, jobId, t);
  }
}
