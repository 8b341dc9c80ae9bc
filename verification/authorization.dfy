/** The authorization engine: taint, schedules, single-use approvals and a hard
    spending ceiling decide each action, and every decision is audited. */
module Authorization {
  import opened Outcomes
  import HashChain

  datatype TrustLabel = OperatorTrusted | VerifiedExternal | ExternalUntrusted | ModelDerived

  datatype ActionClass = Autonomous | Protected | NeverAutonomous

  datatype Tainted = Tainted(value: string, labels: set<TrustLabel>)

  type Cost = c: real | c >= 0.0 witness 0.0

  datatype Action = Action(
    actionId: string, kind: string, classification: ActionClass, payload: map<string, string>, cost: Cost,
    inputs: seq<Tainted>)

  datatype Approval = Approval(
    approvalId: string, actionDigest: string, issuedAt: int, expiresAt: int, signerId: string, signature: string)

  datatype Schedule = Schedule(
    capabilityId: string, kinds: set<string>, scope: map<string, string>, issuedAt: int, expiresAt: int, maxRuns: nat,
    signerId: string, signature: string)

  datatype Request = Request(action: Action, now: int, approval: Option<Approval>, schedule: Option<Schedule>)

  datatype Decision = Decision(actionId: string, actionDigest: string, allowed: bool, reason: string)

  /** How a capability's signature checks out against the configured keys. */
  datatype Verdict = Genuine | NoRoot | Forged

  /** The canonical digest of an action, the audit hash, and the verdicts on
      signed capabilities. */
  datatype Crypto = Crypto(
    digest: Action -> string, hash: HashChain.Hash<Decision>, onApproval: Approval -> Verdict,
    onSchedule: Schedule -> Verdict)

  /** The engine's fields, and the requests it has allowed so far, in order. */
  datatype Engine = Engine(
    ceiling: real, spent: real, consumed: set<string>, runs: map<string, nat>, audit: seq<HashChain.Link<Decision>>,
    allowed: seq<Request>)

  function Fresh(ceiling: real): Engine {
    Engine(ceiling, 0.0, {}, map[], [], [])
  }

  // ----- The checks ---------------------------------------------------------------------------

  predicate HasTaint(inputs: seq<Tainted>) {
    exists i :: 0 <= i < |inputs| && (ExternalUntrusted in inputs[i].labels || ModelDerived in inputs[i].labels)
  }

  predicate Privileged(a: Action) {
    !a.classification.Autonomous?
  }

  predicate WithinScope(a: Action, s: Schedule) {
    forall k :: k in s.scope ==> k in a.payload && a.payload[k] == s.scope[k]
  }

  function RunsOf(e: Engine, id: string): nat {
    if id in e.runs then e.runs[id] else 0
  }

  function TaintProblem(a: Action): Option<string> {
    if Privileged(a) && HasTaint(a.inputs) then Some("tainted input cannot control a privileged sink") else None
  }

  function ScheduleProblem(c: Crypto, e: Engine, q: Request): Option<string> {
    match q.schedule
    case None => None
    case Some(s) =>
      if c.onSchedule(s).NoRoot? then Some("signed schedule verification root is unavailable")
      else if c.onSchedule(s).Forged? then Some("signed schedule is invalid")
      else if q.now < s.issuedAt || q.now >= s.expiresAt then Some("schedule is not currently valid")
      else if q.action.kind !in s.kinds then Some("action kind escapes schedule scope")
      else if !WithinScope(q.action, s) then Some("action payload escapes schedule scope")
      else if RunsOf(e, s.capabilityId) >= s.maxRuns then Some("schedule run limit was reached")
      else None
  }

  function ApprovalProblem(c: Crypto, e: Engine, q: Request): Option<string> {
    if !Privileged(q.action) then None
    else match q.approval
      case None => Some("literal action approval is required")
      case Some(a) =>
        if a.approvalId in e.consumed then Some("approval was already consumed")
        else if c.onApproval(a).NoRoot? then Some("signed approval verification root is unavailable")
        else if c.onApproval(a).Forged? then Some("signed approval is invalid")
        else if q.now < a.issuedAt || q.now >= a.expiresAt then Some("approval is not currently valid")
        else if a.actionDigest != c.digest(q.action) then Some("approval does not match the literal action")
        else None
  }

  function BudgetProblem(e: Engine, amount: Cost): Option<string> {
    if e.spent + amount > e.ceiling then Some("hard monthly spending ceiling would be exceeded") else None
  }

  /** The first check that fails, in the order they are made. */
  function FirstProblem(c: Crypto, e: Engine, q: Request): Option<string> {
    if TaintProblem(q.action).Some? then TaintProblem(q.action)
    else if ScheduleProblem(c, e, q).Some? then ScheduleProblem(c, e, q)
    else if ApprovalProblem(c, e, q).Some? then ApprovalProblem(c, e, q)
    else BudgetProblem(e, q.action.cost)
  }

  function Granted(e: Engine, q: Request): Engine {
    e.(spent := e.spent + q.action.cost,
       consumed := if q.approval.Some? && Privileged(q.action) then e.consumed + {q.approval.value.approvalId} else e.consumed,
       runs := if q.schedule.Some? then
                 e.runs[q.schedule.value.capabilityId := RunsOf(e, q.schedule.value.capabilityId) + 1]
               else e.runs,
       allowed := e.allowed + [q])
  }

  function Audited(c: Crypto, e: Engine, d: Decision): Engine {
    e.(audit := HashChain.Append(c.hash, e.audit, d))
  }

  function DecisionOf(c: Crypto, e: Engine, q: Request): Decision {
    var problem := FirstProblem(c, e, q);
    Decision(q.action.actionId, c.digest(q.action), problem.None?,
             if problem.Some? then problem.value else "authorized")
  }

  function Authorize(c: Crypto, e: Engine, q: Request): Engine {
    Audited(c, if FirstProblem(c, e, q).None? then Granted(e, q) else e, DecisionOf(c, e, q))
  }

  function Run(c: Crypto, ceiling: real, requests: seq<Request>): Engine {
    if requests == [] then Fresh(ceiling)
    else Authorize(c, Run(c, ceiling, requests[..|requests| - 1]), requests[|requests| - 1])
  }

  // ----- What is permitted, stated on its own ----------------------------------------------------------

  predicate CurrentlySigned(verdict: Verdict, issuedAt: int, expiresAt: int, now: int) {
    verdict == Genuine && issuedAt <= now && now < expiresAt
  }

  /** A genuine schedule, current and covering the action's kind and payload. */
  predicate Covers(c: Crypto, s: Schedule, q: Request) {
    && CurrentlySigned(c.onSchedule(s), s.issuedAt, s.expiresAt, q.now) && q.action.kind in s.kinds
    && forall k :: k in s.scope ==> k in q.action.payload && q.action.payload[k] == s.scope[k]
  }

  /** A genuine approval, current and for exactly this action. */
  predicate Approves(c: Crypto, a: Approval, q: Request) {
    CurrentlySigned(c.onApproval(a), a.issuedAt, a.expiresAt, q.now) && a.actionDigest == c.digest(q.action)
  }

  predicate Permitted(c: Crypto, e: Engine, q: Request) {
    && (q.action.classification != Autonomous ==>
          && (forall i :: 0 <= i < |q.action.inputs| ==> q.action.inputs[i].labels <= {OperatorTrusted, VerifiedExternal})
          && q.approval.Some? && Approves(c, q.approval.value, q) && q.approval.value.approvalId !in e.consumed)
    && (q.schedule.Some? ==>
          && Covers(c, q.schedule.value, q)
          && (if q.schedule.value.capabilityId in e.runs then e.runs[q.schedule.value.capabilityId] else 0)
             < q.schedule.value.maxRuns)
    && e.spent + q.action.cost <= e.ceiling
  }

  lemma TaintIsUntrustedLabels(inputs: seq<Tainted>)
    ensures HasTaint(inputs) <==>
              !(forall i :: 0 <= i < |inputs| ==> inputs[i].labels <= {OperatorTrusted, VerifiedExternal})
  {
    forall i | 0 <= i < |inputs|
      ensures inputs[i].labels <= {OperatorTrusted, VerifiedExternal} <==>
                ExternalUntrusted !in inputs[i].labels && ModelDerived !in inputs[i].labels
    {
      var trusted, labels := {OperatorTrusted, VerifiedExternal}, inputs[i].labels;
      assert labels <= trusted ==> ExternalUntrusted !in labels && ModelDerived !in labels by {
        assert ExternalUntrusted !in trusted && ModelDerived !in trusted;
      }
      assert forall l: TrustLabel :: l in labels ==> l in trusted || l == ExternalUntrusted || l == ModelDerived;
    }
  }

  /** The ordered checks let a request through exactly when it is permitted. */
  lemma AllowedExactly(c: Crypto, e: Engine, q: Request)
    ensures DecisionOf(c, e, q).allowed <==> Permitted(c, e, q)
    ensures DecisionOf(c, e, q).actionId == q.action.actionId && DecisionOf(c, e, q).actionDigest == c.digest(q.action)
  {
    TaintIsUntrustedLabels(q.action.inputs);
    hide HasTaint;
  }

  // ----- The invariant ------------------------------------------------------------------------------

  function TotalCost(requests: seq<Request>): real {
    if requests == [] then 0.0 else TotalCost(requests[..|requests| - 1]) + requests[|requests| - 1].action.cost
  }

  predicate Uses(q: Request, id: string) {
    q.schedule.Some? && q.schedule.value.capabilityId == id
  }

  function CountUses(requests: seq<Request>, id: string): nat {
    if requests == [] then 0
    else CountUses(requests[..|requests| - 1], id) + (if Uses(requests[|requests| - 1], id) then 1 else 0)
  }

  predicate Conserves(e: Engine) {
    e.spent == TotalCost(e.allowed) && e.spent <= e.ceiling
  }

  /** What an allowed action had: a privileged one untainted inputs and its own
      approval, a scheduled one a schedule that covers it. */
  predicate Cleared(c: Crypto, q: Request) {
    && (Privileged(q.action) ==>
          !HasTaint(q.action.inputs) && q.approval.Some? && Approves(c, q.approval.value, q))
    && (q.schedule.Some? ==> Covers(c, q.schedule.value, q))
  }

  predicate AllCleared(c: Crypto, e: Engine) {
    forall i :: 0 <= i < |e.allowed| ==> Cleared(c, e.allowed[i])
  }

  predicate Spends(q: Request, id: string) {
    Privileged(q.action) && q.approval.Some? && q.approval.value.approvalId == id
  }

  /** Privileged actions and consumed approvals correspond one to one. */
  ghost predicate ApprovalsOnce(e: Engine) {
    && (forall i, id :: 0 <= i < |e.allowed| && Spends(e.allowed[i], id) ==> id in e.consumed)
    && (forall id :: id in e.consumed ==> exists i :: 0 <= i < |e.allowed| && Spends(e.allowed[i], id))
    && (forall i, j, id :: 0 <= i < j < |e.allowed| && Spends(e.allowed[i], id) ==> !Spends(e.allowed[j], id))
  }

  ghost predicate RunsCounted(e: Engine) {
    forall id :: RunsOf(e, id) == CountUses(e.allowed, id)
  }

  ghost predicate Invariant(c: Crypto, e: Engine) {
    && Conserves(e) && AllCleared(c, e) && ApprovalsOnce(e) && RunsCounted(e)
    && HashChain.Chained(c.hash, e.audit)
  }

  // ----- Each decision keeps it ----------------------------------------------------------------------

  lemma SplitAllowed(s: seq<Request>, q: Request)
    ensures (s + [q])[..|s|] == s && TotalCost(s + [q]) == TotalCost(s) + q.action.cost
    ensures forall id :: CountUses(s + [q], id) == CountUses(s, id) + (if Uses(q, id) then 1 else 0)
  {
  }

  lemma GrantConserves(c: Crypto, e: Engine, q: Request)
    requires Conserves(e) && FirstProblem(c, e, q).None?
    ensures Conserves(Granted(e, q))
  {
  }

  lemma GrantClears(c: Crypto, e: Engine, q: Request)
    requires AllCleared(c, e) && FirstProblem(c, e, q).None?
    ensures AllCleared(c, Granted(e, q))
  {
  }

  lemma GrantSpendsOnce(c: Crypto, e: Engine, q: Request)
    requires ApprovalsOnce(e) && FirstProblem(c, e, q).None?
    ensures ApprovalsOnce(Granted(e, q))
  {
    var g := Granted(e, q);
    forall id | id in g.consumed ensures exists i :: 0 <= i < |g.allowed| && Spends(g.allowed[i], id) {
      if id in e.consumed {
        var i :| 0 <= i < |e.allowed| && Spends(e.allowed[i], id);
        assert Spends(g.allowed[i], id);
      } else {
        assert Spends(g.allowed[|e.allowed|], id);
      }
    }
    assert forall i :: 0 <= i < |e.allowed| ==> g.allowed[i] == e.allowed[i];
  }

  lemma GrantCounts(e: Engine, q: Request)
    requires RunsCounted(e)
    ensures RunsCounted(Granted(e, q))
  {
  }

  lemma AuthorizeKeeps(c: Crypto, e: Engine, q: Request)
    requires Invariant(c, e)
    ensures Invariant(c, Authorize(c, e, q))
  {
    hide Conserves, AllCleared, ApprovalsOnce, RunsCounted, HashChain.Chained, HashChain.Append, FirstProblem;
    HashChain.AppendKeepsChained(c.hash, e.audit, DecisionOf(c, e, q));
    var g := if FirstProblem(c, e, q).None? then Granted(e, q) else e;
    if FirstProblem(c, e, q).None? {
      GrantConserves(c, e, q);
      GrantClears(c, e, q);
      GrantSpendsOnce(c, e, q);
      GrantCounts(e, q);
    }
    AuditTouchesNothingElse(c, g, DecisionOf(c, e, q));
  }

  lemma AuditTouchesNothingElse(c: Crypto, e: Engine, d: Decision)
    ensures Conserves(Audited(c, e, d)) == Conserves(e) && AllCleared(c, Audited(c, e, d)) == AllCleared(c, e)
    ensures ApprovalsOnce(Audited(c, e, d)) == ApprovalsOnce(e) && RunsCounted(Audited(c, e, d)) == RunsCounted(e)
  {
  }

  /** A denial changes the audit log and nothing else. */
  lemma DenialChangesOnlyTheAudit(c: Crypto, e: Engine, q: Request)
    requires FirstProblem(c, e, q).Some?
    ensures Authorize(c, e, q) == e.(audit := Authorize(c, e, q).audit)
    ensures e.audit <= Authorize(c, e, q).audit && |Authorize(c, e, q).audit| == |e.audit| + 1
    ensures !Authorize(c, e, q).audit[|e.audit|].body.allowed
  {
  }

  // ----- Every run --------------------------------------------------------------------------------------

  /** In every run spending is the summed cost of the allowed actions and within
      the ceiling, privileged actions and approvals match one to one, schedule
      runs are counted, and the audit log verifies. */
  lemma {:induction false} InvariantHolds(c: Crypto, ceiling: real, requests: seq<Request>)
    requires ceiling > 0.0
    ensures Invariant(c, Run(c, ceiling, requests))
    ensures |Run(c, ceiling, requests).audit| == |requests|
  {
    if requests != [] {
      hide Invariant;
      InvariantHolds(c, ceiling, requests[..|requests| - 1]);
      AuthorizeKeeps(c, Run(c, ceiling, requests[..|requests| - 1]), requests[|requests| - 1]);
    }
  }

  predicate FixedLimit(requests: seq<Request>, id: string, limit: nat) {
    forall i :: 0 <= i < |requests| && Uses(requests[i], id) ==> requests[i].schedule.value.maxRuns == limit
  }

  lemma LimitKept(c: Crypto, e: Engine, q: Request, id: string, limit: nat)
    requires RunsCounted(e) && CountUses(e.allowed, id) <= limit
    requires Uses(q, id) ==> q.schedule.value.maxRuns == limit
    ensures CountUses(Authorize(c, e, q).allowed, id) <= limit
  {
    SplitAllowed(e.allowed, q);
    assert RunsOf(e, id) == CountUses(e.allowed, id);
    hide HashChain.Append, ApprovalProblem, TaintProblem, BudgetProblem, WithinScope, CountUses;
  }

  /** A schedule id used with one fixed limit is allowed at most that many times. */
  lemma {:induction false} ScheduleLimitHolds(c: Crypto, ceiling: real, requests: seq<Request>, id: string, limit: nat)
    requires ceiling > 0.0 && FixedLimit(requests, id, limit)
    ensures CountUses(Run(c, ceiling, requests).allowed, id) <= limit
  {
    if requests != [] {
      var n := |requests| - 1;
      assert Uses(requests[n], id) ==> requests[n].schedule.value.maxRuns == limit;
      hide Authorize;
      ScheduleLimitHolds(c, ceiling, requests[..n], id, limit);
      InvariantHolds(c, ceiling, requests[..n]);
      hide Conserves, AllCleared, ApprovalsOnce, RunsCounted, HashChain.Chained;
      LimitKept(c, Run(c, ceiling, requests[..n]), requests[n], id, limit);
    }
  }

  /** In every run each allowed request that named a schedule had a genuine one,
      current then, covering its kind and its payload; each privileged one had a
      genuine, current approval of exactly that action and no untrusted input. */
  lemma EveryAllowedRequestWasCovered(c: Crypto, ceiling: real, requests: seq<Request>, q: Request)
    requires ceiling > 0.0 && q in Run(c, ceiling, requests).allowed
    ensures q.schedule.Some? ==>
              var s := q.schedule.value;
              && c.onSchedule(s) == Genuine && s.issuedAt <= q.now < s.expiresAt && q.action.kind in s.kinds
              && forall k :: k in s.scope ==> k in q.action.payload && q.action.payload[k] == s.scope[k]
    ensures q.action.classification != Autonomous ==>
              && q.approval.Some? && c.onApproval(q.approval.value) == Genuine
              && q.approval.value.issuedAt <= q.now < q.approval.value.expiresAt
              && q.approval.value.actionDigest == c.digest(q.action)
              && forall i :: 0 <= i < |q.action.inputs| ==>
                   q.action.inputs[i].labels <= {OperatorTrusted, VerifiedExternal}
  {
    InvariantHolds(c, ceiling, requests);
    var e := Run(c, ceiling, requests);
    var i :| 0 <= i < |e.allowed| && e.allowed[i] == q;
    assert Cleared(c, e.allowed[i]);
    TaintIsUntrustedLabels(q.action.inputs);
  }

  /** No approval ever allows two privileged actions. */
  lemma OneActionPerApproval(c: Crypto, ceiling: real, requests: seq<Request>, i: nat, j: nat)
    requires ceiling > 0.0
    requires var allowed := Run(c, ceiling, requests).allowed;
             i < |allowed| && j < |allowed| && Privileged(allowed[i].action) && Privileged(allowed[j].action)
    ensures var allowed := Run(c, ceiling, requests).allowed;
            allowed[i].approval.Some? && allowed[j].approval.Some?
            && (allowed[i].approval.value.approvalId == allowed[j].approval.value.approvalId ==> i == j)
  {
    InvariantHolds(c, ceiling, requests);
    var e := Run(c, ceiling, requests);
    assert Cleared(c, e.allowed[i]) && Cleared(c, e.allowed[j]);
    var id := e.allowed[i].approval.value.approvalId;
    assert Spends(e.allowed[i], id);
    assert e.allowed[j].approval.value.approvalId == id ==> Spends(e.allowed[j], id);
  }

  class AuthorizationEngine {
    const crypto: Crypto
    const ceiling: real
    var spent: real
    var consumed: set<string>
    var runs: map<string, nat>
    var audit: seq<HashChain.Link<Decision>>
    ghost var allowed: seq<Request>

    ghost function State(): Engine
      reads this
    {
      Engine(ceiling, spent, consumed, runs, audit, allowed)
    }

    ghost predicate Valid()
      reads this
    {
      Invariant(crypto, State())
    }

    constructor (crypto: Crypto, ceiling: real)
      requires ceiling > 0.0
      ensures Valid() && State() == Fresh(ceiling) && this.crypto == crypto
    {
      this.crypto, this.ceiling := crypto, ceiling;
      spent, consumed, runs, audit, allowed := 0.0, {}, map[], [], [];
    }

    /** The budget's own check, made last. */
    method Reserve(amount: Cost) returns (ok: bool)
      modifies this`spent
      ensures ok <==> old(spent) + amount <= ceiling
      ensures spent == if ok then old(spent) + amount else old(spent)
    {
      ok := spent + amount <= ceiling;
      if ok {
        spent := spent + amount;
      }
    }

    method AuthorizeAction(q: Request) returns (d: Decision)
      requires Valid()
      modifies this
      ensures Valid() && State() == Authorize(crypto, old(State()), q)
      ensures d == DecisionOf(crypto, old(State()), q) && (d.allowed <==> Permitted(crypto, old(State()), q))
    {
      hide Invariant, Permitted;
      AllowedExactly(crypto, State(), q);
      AuthorizeKeeps(crypto, State(), q);
      var problem := Check(q);
      if problem.None? {
        Grant(q);
      }
      hide FirstProblem;
      d := Decision(q.action.actionId, crypto.digest(q.action), problem.None?,
                    if problem.Some? then problem.value else "authorized");
      audit := HashChain.Append(crypto.hash, audit, d);
    }

    /** Every check in order, the budget's last; only the budget changes anything. */
    method Check(q: Request) returns (problem: Option<string>)
      modifies this`spent
      ensures problem == FirstProblem(crypto, old(State()), q)
      ensures spent == if problem.None? then old(spent) + q.action.cost else old(spent)
    {
      ghost var before := State();
      var e := Engine(ceiling, spent, consumed, runs, audit, []);
      SameChecks(crypto, before, e, q);
      hide ScheduleProblem, ApprovalProblem, TaintProblem;
      problem := TaintProblem(q.action);
      if problem.None? { problem := ScheduleProblem(crypto, e, q); }
      if problem.None? { problem := ApprovalProblem(crypto, e, q); }
      if problem.None? {
        var reserved := Reserve(q.action.cost);
        if !reserved { problem := Some("hard monthly spending ceiling would be exceeded"); }
      }
    }

    method Grant(q: Request)
      modifies this`consumed, this`runs, this`allowed
      ensures State() == Granted(old(State()), q).(spent := spent)
    {
      if q.approval.Some? && Privileged(q.action) {
        consumed := consumed + {q.approval.value.approvalId};
      }
      if q.schedule.Some? {
        var id := q.schedule.value.capabilityId;
        runs := runs[id := (if id in runs then runs[id] else 0) + 1];
      }
      allowed := allowed + [q];
    }
  }

  /** The checks look at no more than the engine's own fields. */
  lemma SameChecks(c: Crypto, a: Engine, b: Engine, q: Request)
    requires b == a.(allowed := [])
    ensures ScheduleProblem(c, b, q) == ScheduleProblem(c, a, q) && ApprovalProblem(c, b, q) == ApprovalProblem(c, a, q)
  {
  }
}
