/** WebAuthn ceremonies over the shared authority repository. A ceremony is
    several repository calls with other work in between, so every call is its own
    step and any number of ceremonies, freezes and admissions interleave. */
module Ceremonies {
  import opened Outcomes
  import opened HashChain
  import opened Authority
  import opened AuthorityRuns

  /** How far one in-flight ceremony has come, with what it has read so far. */
  datatype Task =
    | RecoveryBegun(epoch: int)
    | RecoveryBegunWith(epoch: int, credentialId: string)
    | RecoveryLoaded(challenge: Challenge)
    | RecoveryReady(challenge: Challenge, credential: Credential)
    | LeaseLoaded(challenge: Challenge)
    | LeaseReady(challenge: Challenge, credential: Credential)
    | RegistrationLoaded(challenge: Challenge)

  /** A freeze that was lifted, and by which challenge. */
  datatype Clearing = Clearing(challengeId: Option<string>, epoch: int)

  datatype World = World(
    repo: State,
    tasks: map<nat, Task>,
    begun: map<string, int>,      // history: recovery challenge -> freeze epoch its begin call saw
    cleared: seq<Clearing>,       // history
    consumed: seq<string>)        // history: challenges consumed, in order

  /** The service's fixed parameters. */
  datatype Service = Service(
    hash: Hash<AuditBody>, payloadDigest: RecoveryPayload -> string,
    commanderId: string, guildId: string, channelScope: string, challengeTtl: int, leaseTtl: int)

  const LEASE_PURPOSE := "lease"
  const BOOTSTRAP_PURPOSE := "bootstrap-registration"

  /** What the browser's answer verified to. */
  datatype Verified = Verified(credentialId: string, publicKey: string, signCount: int)

  datatype Step =
    | BeginRecovery(task: nat)
    | BeginRecoveryCredential(task: nat, credentialId: string)
    | BeginRecoveryStore(task: nat, requestId: string, challengeId: string, value: string, digest: string, now: int)
    | BeginOther(bootstrap: bool, challengeId: string, value: string, digest: string, payloadDigest: string, now: int)
    | Load(task: nat, challengeId: string)
    | ReadCredential(task: nat, credentialId: string)
    | Complete(task: nat, verified: Verified, leaseId: string, anomalyId: string, now: int)
    | Elsewhere(op: Op)           // discord and operator calls: freeze, admit, issue, replace a credential

  const INITIAL_WORLD := World(INITIAL, map[], map[], [], [])

  // ----- Repository calls made by a step ---------------------------------------

  function NewChallenge(c: Service, id: string, value: string, digest: string, purpose: string,
                        payloadDigest: string, payload: Option<RecoveryPayload>, now: int): Challenge
  {
    Challenge(id, value, digest, purpose, c.commanderId, payloadDigest, payload, now, now + c.challengeTtl, None)
  }

  function RecoveryChallenge(c: Service, epoch: int, step: Step): Challenge
    requires step.BeginRecoveryStore?
  {
    var p := RecoveryPayload(step.requestId, epoch, c.commanderId, c.guildId, c.channelScope,
                             step.now, step.now + c.challengeTtl);
    NewChallenge(c, step.challengeId, step.value, step.digest, RECOVERY, c.payloadDigest(p), Some(p), step.now)
  }

  function ServiceLease(c: Service, leaseId: string, credentialId: string, now: int): LeaseRequest {
    LeaseRequest(leaseId, c.commanderId, c.guildId, c.channelScope, credentialId, now, now + c.leaseTtl)
  }

  /** The repository call a completing ceremony makes: an answer from another
      credential, or with a counter that went back, freezes. */
  function CompletionOp(c: Service, t: Task, step: Step): Option<Op>
    requires step.Complete?
  {
    var v := step.verified;
    match t
    case RecoveryReady(ch, cred) =>
      if ch.payload.None? then None
      else if v.credentialId != cred.credentialId || v.signCount < cred.signCount then
        Some(OpFreeze(step.anomalyId, "recovery-authentication-anomaly", step.now))
      else Some(OpRecover(ch.challengeId, ch.digest, ch.payload.value.freezeEpoch, cred.credentialId, v.signCount,
                          ServiceLease(c, step.leaseId, cred.credentialId, step.now), ch.payload.value.requestId, step.now))
    case LeaseReady(ch, cred) =>
      if v.credentialId != cred.credentialId then
        Some(OpFreeze(step.anomalyId, "credential-identity-mismatch", step.now))
      else if v.signCount < cred.signCount then
        Some(OpFreeze(step.anomalyId, "credential-counter-regression", step.now))
      else Some(OpAuthenticate(ch.challengeId, ch.digest, cred.credentialId, v.signCount,
                               ServiceLease(c, step.leaseId, cred.credentialId, step.now), step.now))
    case RegistrationLoaded(ch) =>
      Some(OpRegister(ch.challengeId, ch.digest,
                      Credential(v.credentialId, c.commanderId, v.publicKey, v.signCount, step.now, None), step.now))
    case _ => None
  }

  /** The one repository mutation of a step, if it makes one. */
  function CallOf(c: Service, w: World, step: Step): Option<Op> {
    match step
    case BeginRecoveryStore(t, _, _, _, _, _) =>
      if t in w.tasks && w.tasks[t].RecoveryBegunWith? then Some(OpCreate(RecoveryChallenge(c, w.tasks[t].epoch, step)))
      else None
    case BeginOther(bootstrap, id, value, digest, payloadDigest, now) =>
      Some(OpCreate(NewChallenge(c, id, value, digest, if bootstrap then BOOTSTRAP_PURPOSE else LEASE_PURPOSE,
                                 payloadDigest, None, now)))
    case Complete(t, _, _, _, _) => if t in w.tasks then CompletionOp(c, w.tasks[t], step) else None
    case Elsewhere(op) =>
      if op.OpFreeze? || op.OpAdmit? || op.OpIssue? || op.OpReplaceCredential? then Some(op) else None
    case _ => None
  }

  /** The ceremonies in flight after the step's reads. */
  function Advance(c: Service, w: World, step: Step): map<nat, Task> {
    match step
    case BeginRecovery(t) =>
      if t in w.tasks || !w.repo.frozen then w.tasks else w.tasks[t := RecoveryBegun(w.repo.freezeEpoch)]
    case BeginRecoveryCredential(t, cred) =>
      if t in w.tasks && w.tasks[t].RecoveryBegun? && Available(w.repo, cred)
      then w.tasks[t := RecoveryBegunWith(w.tasks[t].epoch, cred)] else w.tasks
    case Load(t, id) =>
      if t in w.tasks || id !in w.repo.challenges then w.tasks
      else
        var ch := w.repo.challenges[id];
        if ch.purpose == RECOVERY then
          (if ch.payload.Some? && c.payloadDigest(ch.payload.value) == ch.payloadDigest
           then w.tasks[t := RecoveryLoaded(ch)] else w.tasks)
        else if ch.purpose == LEASE_PURPOSE then w.tasks[t := LeaseLoaded(ch)]
        else if ch.purpose == BOOTSTRAP_PURPOSE then w.tasks[t := RegistrationLoaded(ch)]
        else w.tasks
    case ReadCredential(t, cred) =>
      if t !in w.tasks || !Available(w.repo, cred) then w.tasks
      else
        (match w.tasks[t]
         case RecoveryLoaded(ch) => w.tasks[t := RecoveryReady(ch, w.repo.credentials[cred])]
         case LeaseLoaded(ch) => w.tasks[t := LeaseReady(ch, w.repo.credentials[cred])]
         case _ => w.tasks)
    case BeginRecoveryStore(t, _, _, _, _, _) => w.tasks - {t}
    case Complete(t, _, _, _, _) => w.tasks - {t}
    case _ => w.tasks
  }

  predicate Available(s: State, credentialId: string) {
    credentialId in s.credentials && s.credentials[credentialId].revokedAt.None?
  }

  predicate Consumes(s: State, op: Op) {
    op.Consuming() && ConsumeError(s, op.id, op.digest, op.now).None?
  }

  function Apply(c: Service, w: World, step: Step): World {
    var tasks := Advance(c, w, step);
    match CallOf(c, w, step)
    case None => w.(tasks := tasks)
    case Some(op) =>
      var repo := Authority.Apply(c.hash, w.repo, op);
      World(repo, tasks,
        if step.BeginRecoveryStore? && op.OpCreate? && op.challenge.challengeId !in w.repo.challenges
           && op.challenge.challengeId in repo.challenges && step.task in w.tasks && w.tasks[step.task].RecoveryBegunWith?
        then w.begun[op.challenge.challengeId := w.tasks[step.task].epoch] else w.begun,
        if w.repo.frozen && !repo.frozen
        then w.cleared + [Clearing(if op.Consuming() then Some(op.id) else None, w.repo.freezeEpoch)] else w.cleared,
        if Consumes(w.repo, op) then w.consumed + [op.id] else w.consumed)
  }

  function Run(c: Service, steps: seq<Step>): World {
    if steps == [] then INITIAL_WORLD else Apply(c, Run(c, steps[..|steps| - 1]), steps[|steps| - 1])
  }

  // ----- Repository facts ---------------------------------------------------------

  /** Only creating a challenge adds one, and it adds exactly that one. */
  lemma ChallengesOnlyCreated(h: Hash<AuditBody>, s: State, op: Op, id: string)
    requires id in Authority.Apply(h, s, op).challenges && id !in s.challenges
    ensures op.OpCreate? && op.challenge.challengeId == id
    ensures Authority.Apply(h, s, op).challenges[id] == op.challenge
  {
    hide Append, RevokeIn;
  }

  /** Only a recovery naming the current freeze epoch lifts a freeze; an epoch
      advances only by freezing an unfrozen authority. */
  lemma FreezeEpochSteps(h: Hash<AuditBody>, s: State, op: Op)
    ensures var t := Authority.Apply(h, s, op);
      && (s.frozen && !t.frozen ==> op.OpRecover? && op.expectedFreezeEpoch == s.freezeEpoch && Consumes(s, op))
      && (t.freezeEpoch == s.freezeEpoch || (t.freezeEpoch == s.freezeEpoch + 1 && t.frozen && !s.frozen))
      && (t.frozen && !s.frozen ==> t.freezeEpoch == s.freezeEpoch + 1)
  {
    hide Append, RevokeIn;
  }

  // ----- Invariants ---------------------------------------------------------------

  ghost predicate ChallengeHonest(begun: map<string, int>, ch: Challenge) {
    ch.purpose == RECOVERY ==>
      ch.payload.Some? && ch.challengeId in begun && begun[ch.challengeId] == ch.payload.value.freezeEpoch
  }

  ghost predicate ChallengesHonest(w: World) {
    forall id :: id in w.repo.challenges ==>
      w.repo.challenges[id].challengeId == id && ChallengeHonest(w.begun, w.repo.challenges[id])
  }

  ghost predicate TasksHonest(w: World) {
    forall t :: t in w.tasks && (w.tasks[t].RecoveryLoaded? || w.tasks[t].RecoveryReady?) ==>
      w.tasks[t].challenge.purpose == RECOVERY && ChallengeHonest(w.begun, w.tasks[t].challenge)
  }

  ghost predicate BegunKnown(w: World) {
    forall id :: id in w.begun ==> id in w.repo.challenges
  }

  ghost predicate ClearedHonest(w: World) {
    && (forall i :: 0 <= i < |w.cleared| ==>
          && w.cleared[i].challengeId.Some?
          && w.cleared[i].challengeId.value in w.begun
          && w.begun[w.cleared[i].challengeId.value] == w.cleared[i].epoch)
    && (forall i :: 0 <= i < |w.cleared| ==>
          w.cleared[i].epoch < w.repo.freezeEpoch + (if w.repo.frozen then 0 else 1))
    && (forall i, j :: 0 <= i < j < |w.cleared| ==> w.cleared[i].epoch < w.cleared[j].epoch)
  }

  ghost predicate ConsumedOnce(w: World) {
    && (forall i :: 0 <= i < |w.consumed| ==>
          w.consumed[i] in w.repo.challenges && w.repo.challenges[w.consumed[i]].consumedAt.Some?)
    && (forall i, j :: 0 <= i < j < |w.consumed| ==> w.consumed[i] != w.consumed[j])
  }

  ghost predicate Honest(c: Service, w: World) {
    && Invariant(c.hash, w.repo)
    && ChallengesHonest(w) && TasksHonest(w) && BegunKnown(w) && ClearedHonest(w) && ConsumedOnce(w)
  }

  /** What a call does to the history of begun recoveries: at most adds the
      challenge it just created, under the epoch its payload carries. */
  lemma BegunGrows(c: Service, w: World, step: Step)
    requires BegunKnown(w) && Invariant(c.hash, w.repo)
    ensures BegunKnown(Apply(c, w, step))
    ensures forall id :: id in w.begun ==> id in Apply(c, w, step).begun && Apply(c, w, step).begun[id] == w.begun[id]
  {
    var call := CallOf(c, w, step);
    if call.Some? {
      ApplyContinues(c.hash, w.repo, call.value);
    }
    hide Authority.Apply, Invariant, Advance;
  }

  lemma ChallengesStayHonest(c: Service, w: World, step: Step)
    requires ChallengesHonest(w) && BegunKnown(w) && Invariant(c.hash, w.repo)
    ensures ChallengesHonest(Apply(c, w, step))
  {
    hide Authority.Apply, Invariant, Advance;
    BegunGrows(c, w, step);
    var call := CallOf(c, w, step);
    if call.Some? {
      hide CallOf;
      ApplyContinues(c.hash, w.repo, call.value);
      var repo := Authority.Apply(c.hash, w.repo, call.value);
      forall id | id in repo.challenges
        ensures repo.challenges[id].challengeId == id && ChallengeHonest(Apply(c, w, step).begun, repo.challenges[id])
      {
        if id !in w.repo.challenges { NewChallengeIsHonest(c, w, step, id); }
      }
    }
  }

  lemma NewChallengeIsHonest(c: Service, w: World, step: Step, id: string)
    requires id !in w.repo.challenges && id in Apply(c, w, step).repo.challenges
    ensures var after := Apply(c, w, step);
            after.repo.challenges[id].challengeId == id && ChallengeHonest(after.begun, after.repo.challenges[id])
  {
    ChallengesOnlyCreated(c.hash, w.repo, CallOf(c, w, step).value, id);
    hide Authority.Apply, Advance;
  }

  lemma TasksStayHonest(c: Service, w: World, step: Step)
    requires ChallengesHonest(w) && TasksHonest(w) && BegunKnown(w) && Invariant(c.hash, w.repo)
    ensures TasksHonest(Apply(c, w, step))
  {
    BegunGrows(c, w, step);
    hide Authority.Apply, Invariant, CallOf;
  }

  lemma ClearedStaysHonest(c: Service, w: World, step: Step)
    requires TasksHonest(w) && BegunKnown(w) && ClearedHonest(w) && Invariant(c.hash, w.repo)
    ensures ClearedHonest(Apply(c, w, step))
  {
    hide Authority.Apply, Invariant, Advance, ConsumeError;
    BegunGrows(c, w, step);
    var call := CallOf(c, w, step);
    if call.Some? {
      FreezeEpochSteps(c.hash, w.repo, call.value);
    }
  }

  lemma ConsumedStaysOnce(c: Service, w: World, step: Step)
    requires ConsumedOnce(w) && Invariant(c.hash, w.repo)
    ensures ConsumedOnce(Apply(c, w, step))
  {
    hide Authority.Apply, Invariant, Advance, CallOf;
    var call := CallOf(c, w, step);
    if call.Some? {
      ApplyContinues(c.hash, w.repo, call.value);
      if Consumes(w.repo, call.value) {
        AfterConsumption(c.hash, w.repo, call.value);
      }
    }
  }

  lemma {:induction false} HonestHolds(c: Service, steps: seq<Step>)
    ensures Honest(c, Run(c, steps))
  {
    if steps == [] {
      InvariantHolds(c.hash, []);
    } else {
      var w, step := Run(c, steps[..|steps| - 1]), steps[|steps| - 1];
      HonestHolds(c, steps[..|steps| - 1]);
      BegunGrows(c, w, step);
      ChallengesStayHonest(c, w, step);
      TasksStayHonest(c, w, step);
      ClearedStaysHonest(c, w, step);
      ConsumedStaysOnce(c, w, step);
      var call := CallOf(c, w, step);
      if call.Some? {
        ApplyKeepsInvariant(c.hash, w.repo, call.value);
      }
      hide Authority.Apply, Invariant, Advance, CallOf, ChallengesHonest, TasksHonest, BegunKnown, ClearedHonest, ConsumedOnce;
    }
  }

  // ----- Main result ------------------------------------------------------------

  /** Whatever interleaves: a recovery lifts only the freeze it was begun under,
      no freeze is lifted twice, and no challenge is consumed twice. */
  lemma RecoveryLiftsOnlyItsOwnFreeze(c: Service, steps: seq<Step>, i: nat)
    requires i < |Run(c, steps).cleared|
    ensures var w := Run(c, steps);
      && w.cleared[i].challengeId.Some?
      && w.cleared[i].challengeId.value in w.begun
      && w.begun[w.cleared[i].challengeId.value] == w.cleared[i].epoch
      && (forall j :: 0 <= j < |w.cleared| && j != i ==>
            w.cleared[j].epoch != w.cleared[i].epoch && w.cleared[j].challengeId != w.cleared[i].challengeId)
  {
    HonestHolds(c, steps);
  }

  lemma NoChallengeConsumedTwice(c: Service, steps: seq<Step>, i: nat, j: nat)
    requires i < j < |Run(c, steps).consumed|
    ensures Run(c, steps).consumed[i] != Run(c, steps).consumed[j]
  {
    HonestHolds(c, steps);
  }
}
