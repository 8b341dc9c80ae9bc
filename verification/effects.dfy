/** External effects applied at most once: a ledger with two indexes, and the
    executor that calls the provider between updates to it. */
module Effects {
  import opened Outcomes

  datatype EffectState = Pending | Confirmed | Uncertain | Failed | Compensated

  datatype Intent = Intent(
    effectId: string, key: string, adapter: string, operation: string, payload: string, compensatable: bool)

  datatype Receipt = Receipt(
    effectId: string, key: string, payloadDigest: string, adapter: string, operation: string, compensatable: bool,
    state: EffectState, providerReceipt: Option<string>)

  /** The ledger's two indexes, and the provider calls made so far: the keys
      `apply` was called with and the effects whose compensation went through. */
  datatype Ledger = Ledger(byId: map<string, Receipt>, byKey: map<string, string>, applied: seq<string>, undone: seq<string>)

  const EMPTY := Ledger(map[], map[], [], [])

  datatype Refusal = PayloadDiffers | EffectIdReused | MustReconcile | NoProvider | ProviderFailed | NoSuchEffect | NotCompensatable

  /** What the provider does when `apply` is called. */
  datatype ApplyOutcome = Returned(receipt: string) | Lost | Raised

  function Opened(digest: string -> string, i: Intent): Receipt {
    Receipt(i.effectId, i.key, digest(i.payload), i.adapter, i.operation, i.compensatable, Pending, None)
  }

  /** `reserve`: the receipt and whether it is new. */
  function Reserve(l: Ledger, digest: string -> string, i: Intent): Result<(Ledger, Receipt, bool), Refusal> {
    if i.key in l.byKey && l.byKey[i.key] in l.byId then
      var existing := l.byId[l.byKey[i.key]];
      if existing.payloadDigest != digest(i.payload) then Err(PayloadDiffers) else Ok((l, existing, false))
    else if i.effectId in l.byId then Err(EffectIdReused)
    else
      var receipt := Opened(digest, i);
      Ok((l.(byId := l.byId[i.effectId := receipt], byKey := l.byKey[i.key := i.effectId]), receipt, true))
  }

  /** `provider_receipt or current.provider_receipt`: an empty text does not count. */
  function Moved(r: Receipt, state: EffectState, provided: Option<string>): Receipt {
    r.(state := state, providerReceipt := if provided.Some? && provided.value != "" then provided else r.providerReceipt)
  }

  function Transition(l: Ledger, id: string, state: EffectState, provided: Option<string>): Ledger
    requires id in l.byId
  {
    l.(byId := l.byId[id := Moved(l.byId[id], state, provided)])
  }

  // ----- The executor's operations -----------------------------------------------------------

  function Execute(l: Ledger, providers: set<string>, digest: string -> string, i: Intent, outcome: ApplyOutcome)
    : (Ledger, Result<Receipt, Refusal>)
  {
    match Reserve(l, digest, i)
    case Err(e) => (l, Err(e))
    case Ok((reserved, receipt, created)) =>
      if !created then (reserved, if receipt.state.Uncertain? then Err(MustReconcile) else Ok(receipt))
      else if i.adapter !in providers then (reserved, Err(NoProvider))
      else
        var called := reserved.(applied := reserved.applied + [i.key]);
        match outcome
        case Raised => (called, Err(ProviderFailed))
        case Lost => (Transition(called, i.effectId, Uncertain, None), Err(MustReconcile))
        case Returned(text) =>
          var done := Transition(called, i.effectId, Confirmed, Some(text));
          (done, Ok(done.byId[i.effectId]))
  }

  /** `found` is what the provider's lookup returns; `None` in `answer` when it raises. */
  function Reconcile(l: Ledger, providers: set<string>, id: string, answer: Option<Option<string>>)
    : (Ledger, Result<Receipt, Refusal>)
  {
    if id !in l.byId then (l, Err(NoSuchEffect))
    else if !l.byId[id].state.Uncertain? then (l, Ok(l.byId[id]))
    else if l.byId[id].adapter !in providers then (l, Err(NoProvider))
    else
      match answer
      case None => (l, Err(ProviderFailed))
      case Some(found) =>
        var next := Transition(l, id, if found.None? then Failed else Confirmed, found);
        (next, Ok(next.byId[id]))
  }

  function Compensate(l: Ledger, providers: set<string>, id: string, succeeds: bool): (Ledger, Result<Receipt, Refusal>) {
    if id !in l.byId then (l, Err(NoSuchEffect))
    else if l.byId[id].state.Compensated? then (l, Ok(l.byId[id]))
    else if !l.byId[id].state.Confirmed? || !l.byId[id].compensatable then (l, Err(NotCompensatable))
    else if l.byId[id].adapter !in providers then (l, Err(NoProvider))
    else if !succeeds then (l, Err(ProviderFailed))
    else
      var next := Transition(l.(undone := l.undone + [id]), id, Compensated, None);
      (next, Ok(next.byId[id]))
  }

  // ----- Invariant ------------------------------------------------------------------------------

  /** The indexes are inverse to each other. */
  predicate Inverse(l: Ledger) {
    && (forall k :: k in l.byKey ==> l.byKey[k] in l.byId && l.byId[l.byKey[k]].key == k)
    && (forall id :: id in l.byId ==>
          l.byId[id].effectId == id && l.byId[id].key in l.byKey && l.byKey[l.byId[id].key] == id)
  }

  predicate NoRepeats(s: seq<string>) {
    forall i, j :: 0 <= i < j < |s| ==> s[i] != s[j]
  }

  /** Only reserved keys were ever applied, each once; whatever left the pending
      state was. */
  predicate AppliedOnce(l: Ledger) {
    && NoRepeats(l.applied)
    && (forall k :: k in l.applied ==> k in l.byKey)
    && (forall id :: id in l.byId && !l.byId[id].state.Pending? ==> l.byId[id].key in l.applied)
  }

  predicate UndoneOnce(l: Ledger) {
    NoRepeats(l.undone) && forall id :: id in l.undone ==> id in l.byId && l.byId[id].state.Compensated?
  }

  predicate Invariant(l: Ledger) {
    Inverse(l) && AppliedOnce(l) && UndoneOnce(l)
  }

  predicate AllowedMove(before: EffectState, after: EffectState) {
    || after == before
    || (before.Pending? && (after.Confirmed? || after.Uncertain?))
    || (before.Uncertain? && (after.Confirmed? || after.Failed?))
    || (before.Confirmed? && after.Compensated?)
  }

  /** A receipt never disappears or changes what it is for, and moves as allowed. */
  predicate Evolves(before: Ledger, after: Ledger) {
    && (forall id :: id in before.byId ==>
          && id in after.byId && AllowedMove(before.byId[id].state, after.byId[id].state)
          && after.byId[id] == before.byId[id].(state := after.byId[id].state, providerReceipt := after.byId[id].providerReceipt))
    && (forall k :: k in before.byKey ==> k in after.byKey && after.byKey[k] == before.byKey[k])
    && before.applied <= after.applied && before.undone <= after.undone
  }

  // ----- Runs --------------------------------------------------------------------------------------

  datatype Step =
    | DoExecute(intent: Intent, outcome: ApplyOutcome)
    | DoReconcile(effectId: string, answer: Option<Option<string>>)
    | DoCompensate(effectId: string, succeeds: bool)

  function Apply(l: Ledger, providers: set<string>, digest: string -> string, step: Step): Ledger {
    match step
    case DoExecute(i, outcome) => Execute(l, providers, digest, i, outcome).0
    case DoReconcile(id, answer) => Reconcile(l, providers, id, answer).0
    case DoCompensate(id, succeeds) => Compensate(l, providers, id, succeeds).0
  }

  function Run(providers: set<string>, digest: string -> string, steps: seq<Step>): Ledger {
    if steps == [] then EMPTY
    else Apply(Run(providers, digest, steps[..|steps| - 1]), providers, digest, steps[|steps| - 1])
  }

  lemma TransitionKeeps(l: Ledger, id: string, state: EffectState, provided: Option<string>)
    requires Invariant(l) && id in l.byId && !state.Pending? && l.byId[id].key in l.applied
    requires l.byId[id].state.Compensated? ==> state.Compensated?
    ensures Invariant(Transition(l, id, state, provided))
  {
  }

  lemma ReserveKeeps(l: Ledger, digest: string -> string, i: Intent)
    requires Invariant(l) && Reserve(l, digest, i).Ok?
    ensures var (reserved, receipt, created) := Reserve(l, digest, i).value;
            && Invariant(reserved) && Evolves(l, reserved)
            && (created ==> i.key !in l.applied && reserved.byId[i.effectId].state.Pending? && reserved.applied == l.applied)
  {
    var r := Reserve(l, digest, i).value;
    if r.2 {
      assert i.key !in l.byKey;
      assert forall id :: id in l.byId ==> l.byId[id].key != i.key;
    }
  }

  lemma CallKeeps(l: Ledger, key: string)
    requires Invariant(l) && key in l.byKey && key !in l.applied
    ensures Invariant(l.(applied := l.applied + [key]))
  {
  }

  /** A newly reserved effect takes nothing from the ones before it. */
  lemma NewEffectEvolves(l: Ledger, digest: string -> string, i: Intent, state: EffectState, provided: Option<string>)
    requires i.effectId !in l.byId && i.key !in l.byKey
    ensures var reserved := l.(byId := l.byId[i.effectId := Opened(digest, i)], byKey := l.byKey[i.key := i.effectId],
                               applied := l.applied + [i.key]);
            Evolves(l, reserved) && Evolves(l, Transition(reserved, i.effectId, state, provided))
  {
  }

  lemma ExecuteEvolves(l: Ledger, providers: set<string>, digest: string -> string, i: Intent, outcome: ApplyOutcome)
    requires Inverse(l)
    ensures Evolves(l, Execute(l, providers, digest, i, outcome).0)
  {
    if !(i.key in l.byKey && l.byKey[i.key] in l.byId) && i.effectId !in l.byId {
      assert i.key !in l.byKey;
      NewEffectEvolves(l, digest, i, Uncertain, None);
      NewEffectEvolves(l, digest, i, Confirmed, if outcome.Returned? then Some(outcome.receipt) else None);
    }
    hide Inverse;
  }

  lemma ExecuteKeeps(l: Ledger, providers: set<string>, digest: string -> string, i: Intent, outcome: ApplyOutcome)
    requires Invariant(l)
    ensures Invariant(Execute(l, providers, digest, i, outcome).0)
  {
    if Reserve(l, digest, i).Ok? {
      ReserveKeeps(l, digest, i);
      var (reserved, receipt, created) := Reserve(l, digest, i).value;
      hide Invariant, Evolves;
      if created && i.adapter in providers {
        CallKeeps(reserved, i.key);
        var called := reserved.(applied := reserved.applied + [i.key]);
        if outcome.Lost? { TransitionKeeps(called, i.effectId, Uncertain, None); }
        if outcome.Returned? { TransitionKeeps(called, i.effectId, Confirmed, Some(outcome.receipt)); }
      }
    }
  }

  lemma ReconcileKeeps(l: Ledger, providers: set<string>, id: string, answer: Option<Option<string>>)
    requires Invariant(l)
    ensures Invariant(Reconcile(l, providers, id, answer).0) && Evolves(l, Reconcile(l, providers, id, answer).0)
  {
    if id in l.byId && l.byId[id].state.Uncertain? && answer.Some? {
      TransitionKeeps(l, id, if answer.value.None? then Failed else Confirmed, answer.value);
    }
  }

  lemma CompensateKeeps(l: Ledger, providers: set<string>, id: string, succeeds: bool)
    requires Invariant(l)
    ensures Invariant(Compensate(l, providers, id, succeeds).0)
  {
    if id in l.byId && l.byId[id].state.Confirmed? {
      UndoKeeps(l, id);
    }
    hide Invariant;
  }

  lemma UndoKeeps(l: Ledger, id: string)
    requires Invariant(l) && id in l.byId && l.byId[id].state.Confirmed?
    ensures Invariant(Transition(l.(undone := l.undone + [id]), id, Compensated, None))
  {
    var next := Transition(l.(undone := l.undone + [id]), id, Compensated, None);
    TransitionKeeps(l, id, Compensated, None);
    assert Inverse(next) && AppliedOnce(next);
    hide Inverse, AppliedOnce;
    assert UndoneOnce(next);
  }

  lemma CompensateEvolves(l: Ledger, providers: set<string>, id: string, succeeds: bool)
    ensures Evolves(l, Compensate(l, providers, id, succeeds).0)
  {
  }

  lemma InvariantIsInverse(l: Ledger)
    requires Invariant(l)
    ensures Inverse(l)
  {
  }

  lemma StepKeeps(l: Ledger, providers: set<string>, digest: string -> string, step: Step)
    requires Invariant(l)
    ensures Invariant(Apply(l, providers, digest, step)) && Evolves(l, Apply(l, providers, digest, step))
  {
    hide Invariant, Evolves, Execute, Reconcile, Compensate;
    match step
    case DoExecute(i, outcome) =>
      ExecuteKeeps(l, providers, digest, i, outcome);
      assert Inverse(l) by { InvariantIsInverse(l); }
      ExecuteEvolves(l, providers, digest, i, outcome);
    case DoReconcile(id, answer) => ReconcileKeeps(l, providers, id, answer);
    case DoCompensate(id, succeeds) =>
      CompensateKeeps(l, providers, id, succeeds);
      CompensateEvolves(l, providers, id, succeeds);
  }

  /** In every run each idempotency key reaches a provider at most once and the
      two indexes stay inverse to each other. */
  lemma {:induction false} EveryRunAppliesOnce(providers: set<string>, digest: string -> string, steps: seq<Step>)
    ensures Invariant(Run(providers, digest, steps))
  {
    if steps != [] {
      hide Invariant, Evolves, Apply;
      EveryRunAppliesOnce(providers, digest, steps[..|steps| - 1]);
      StepKeeps(Run(providers, digest, steps[..|steps| - 1]), providers, digest, steps[|steps| - 1]);
    }
  }

  /** Every step of every run moves receipts only as allowed and loses none. */
  lemma EveryStepMovesAsAllowed(providers: set<string>, digest: string -> string, steps: seq<Step>, n: nat)
    requires n < |steps|
    ensures Evolves(Run(providers, digest, steps[..n]), Run(providers, digest, steps[..n + 1]))
  {
    hide Invariant, Evolves, Apply;
    assert steps[..n + 1][..n] == steps[..n];
    EveryRunAppliesOnce(providers, digest, steps[..n]);
    StepKeeps(Run(providers, digest, steps[..n]), providers, digest, steps[n]);
  }

  // ----- What a receipt's state says about the provider ----------------------------------------------

  function Worded(text: string): Option<string> {
    if text == "" then None else Some(text)
  }

  /** The step in which the provider accepts the effect, by answering the call or the lookup. */
  predicate Accepts(step: Step, id: string, receipt: Option<string>) {
    match step
    case DoExecute(i, Returned(text)) => i.effectId == id && receipt == Worded(text)
    case DoReconcile(e, Some(Some(text))) => e == id && receipt == Worded(text)
    case _ => false
  }

  predicate LosesAnswer(step: Step, id: string) {
    step.DoExecute? && step.intent.effectId == id && step.outcome.Lost?
  }

  predicate NeverHeard(step: Step, providers: set<string>, id: string) {
    step.DoExecute? && step.intent.effectId == id && (step.intent.adapter !in providers || step.outcome.Raised?)
  }

  /** The steps account for the receipt: what the provider said is what it records. */
  predicate Explained(providers: set<string>, steps: seq<Step>, r: Receipt) {
    match r.state
    case Pending => r.providerReceipt == None && exists n :: 0 <= n < |steps| && NeverHeard(steps[n], providers, r.effectId)
    case Uncertain => r.providerReceipt == None && exists n :: 0 <= n < |steps| && LosesAnswer(steps[n], r.effectId)
    case Confirmed => exists n :: 0 <= n < |steps| && Accepts(steps[n], r.effectId, r.providerReceipt)
    case Failed =>
      && r.providerReceipt == None
      && (exists n :: 0 <= n < |steps| && LosesAnswer(steps[n], r.effectId))
      && DoReconcile(r.effectId, Some(None)) in steps
    case Compensated =>
      && (exists n :: 0 <= n < |steps| && Accepts(steps[n], r.effectId, r.providerReceipt))
      && DoCompensate(r.effectId, true) in steps
  }

  lemma ExplainedStays(providers: set<string>, steps: seq<Step>, step: Step, r: Receipt)
    requires Explained(providers, steps, r)
    ensures Explained(providers, steps + [step], r)
  {
    forall n | 0 <= n < |steps| ensures (steps + [step])[n] == steps[n] {}
  }

  lemma ExecuteExplains(l: Ledger, providers: set<string>, digest: string -> string, steps: seq<Step>, step: Step, id: string)
    requires step.DoExecute? && id in Apply(l, providers, digest, step).byId && Inverse(l)
    requires id in l.byId ==> Explained(providers, steps, l.byId[id]) && l.byId[id].effectId == id
    ensures Explained(providers, steps + [step], Apply(l, providers, digest, step).byId[id])
  {
    if id in l.byId && Apply(l, providers, digest, step).byId[id] == l.byId[id] {
      ExplainedStays(providers, steps, step, l.byId[id]);
    } else {
      assert (steps + [step])[|steps|] == step;
    }
  }

  lemma AnswerExplains(l: Ledger, providers: set<string>, digest: string -> string, steps: seq<Step>, step: Step, id: string)
    requires !step.DoExecute? && id in l.byId && l.byId[id].effectId == id && Explained(providers, steps, l.byId[id])
    ensures id in Apply(l, providers, digest, step).byId
    ensures Explained(providers, steps + [step], Apply(l, providers, digest, step).byId[id])
  {
    assert (steps + [step])[|steps|] == step;
    ExplainedStays(providers, steps, step, l.byId[id]);
  }

  /** In every run each receipt's state and text are what the provider said: an
      effect is confirmed only when the provider accepted it, with the text it
      gave, failed only when the lookup found nothing, uncertain only when the
      answer was lost. */
  lemma {:induction false} ReceiptsTellWhatTheProviderSaid(
    providers: set<string>, digest: string -> string, steps: seq<Step>, id: string)
    requires id in Run(providers, digest, steps).byId
    ensures var r := Run(providers, digest, steps).byId[id]; r.effectId == id && Explained(providers, steps, r)
  {
    EveryRunAppliesOnce(providers, digest, steps);
    if steps != [] {
      var before, step := steps[..|steps| - 1], steps[|steps| - 1];
      var l := Run(providers, digest, before);
      assert steps == before + [step];
      EveryRunAppliesOnce(providers, digest, before);
      if id in l.byId { ReceiptsTellWhatTheProviderSaid(providers, digest, before, id); }
      hide Explained;
      if step.DoExecute? {
        ExecuteExplains(l, providers, digest, before, step, id);
      } else {
        AnswerExplains(l, providers, digest, before, step, id);
      }
    }
  }

  // ----- The objects -------------------------------------------------------------------------------

  class EffectExecutor {
    const providers: set<string>
    const digest: string -> string
    var byId: map<string, Receipt>
    var byKey: map<string, string>
    ghost var applied: seq<string>
    ghost var undone: seq<string>

    ghost function State(): Ledger
      reads this
    {
      Ledger(byId, byKey, applied, undone)
    }

    ghost predicate Valid()
      reads this
    {
      Invariant(State())
    }

    constructor (providers: set<string>, digest: string -> string)
      ensures Valid() && State() == EMPTY && this.providers == providers && this.digest == digest
    {
      this.providers, this.digest := providers, digest;
      byId, byKey, applied, undone := map[], map[], [], [];
    }

    method ReserveIntent(i: Intent) returns (r: Result<(Receipt, bool), Refusal>)
      requires Valid()
      modifies this
      ensures match Reserve(old(State()), digest, i)
              case Err(e) => r == Err(e) && State() == old(State())
              case Ok((next, receipt, created)) => r == Ok((receipt, created)) && State() == next
    {
      var d := digest(i.payload);
      if i.key in byKey {
        var existing := byId[byKey[i.key]];
        if existing.payloadDigest != d { return Err(PayloadDiffers); }
        return Ok((existing, false));
      }
      if i.effectId in byId { return Err(EffectIdReused); }
      var receipt := Opened(digest, i);
      byId := byId[i.effectId := receipt];
      byKey := byKey[i.key := i.effectId];
      return Ok((receipt, true));
    }

    method TransitionTo(id: string, state: EffectState, provided: Option<string>) returns (r: Receipt)
      requires id in byId
      modifies this`byId
      ensures State() == Transition(old(State()), id, state, provided) && id in byId && r == byId[id]
    {
      r := Moved(byId[id], state, provided);
      byId := byId[id := r];
    }

    method ExecuteIntent(i: Intent, outcome: ApplyOutcome) returns (r: Result<Receipt, Refusal>)
      requires Valid()
      modifies this
      ensures Valid() && (State(), r) == Execute(old(State()), providers, digest, i, outcome)
      ensures i.key in old(byKey) ==>
        var known := old(byId[byKey[i.key]]);
        && State() == old(State())
        && r == (if known.payloadDigest != digest(i.payload) then Err(PayloadDiffers)
                 else if known.state == Uncertain then Err(MustReconcile) else Ok(known))
      ensures i.key !in old(byKey) && i.effectId in old(byId) ==> r == Err(EffectIdReused) && State() == old(State())
      ensures i.key !in old(byKey) && i.effectId !in old(byId) ==>
        && byKey == old(byKey)[i.key := i.effectId] && byId.Keys == old(byId.Keys) + {i.effectId}
        && byId[i.effectId].payloadDigest == digest(i.payload) && byId[i.effectId].adapter == i.adapter
        && applied == old(applied) + (if i.adapter in providers then [i.key] else [])
        && byId[i.effectId].state == (if i.adapter !in providers || outcome.Raised? then Pending
                                      else if outcome.Lost? then Uncertain else Confirmed)
        && (r.Ok? <==> i.adapter in providers && outcome.Returned?)
    {
      ExecuteKeeps(State(), providers, digest, i, outcome);
      var reserved := ReserveIntent(i);
      hide Invariant;
      if reserved.Err? { return Err(reserved.error); }
      var (receipt, created) := reserved.value;
      if !created {
        if receipt.state.Uncertain? { return Err(MustReconcile); }
        return Ok(receipt);
      }
      if i.adapter !in providers { return Err(NoProvider); }
      applied := applied + [i.key];
      match outcome
      case Raised => return Err(ProviderFailed);
      case Lost =>
        var _ := TransitionTo(i.effectId, Uncertain, None);
        return Err(MustReconcile);
      case Returned(text) =>
        var done := TransitionTo(i.effectId, Confirmed, Some(text));
        return Ok(done);
    }

    method ReconcileEffect(id: string, answer: Option<Option<string>>) returns (r: Result<Receipt, Refusal>)
      requires Valid()
      modifies this
      ensures Valid() && (State(), r) == Reconcile(old(State()), providers, id, answer)
      ensures if id in old(byId) && old(byId[id]).state == Uncertain && old(byId[id]).adapter in providers && answer.Some?
        then
          && r.Ok? && byId == old(byId)[id := r.value]
          && r.value.state == (if answer.value == None then Failed else Confirmed)
          && (answer.value.Some? && answer.value.value != "" ==> r.value.providerReceipt == answer.value)
        else State() == old(State()) && (r.Ok? <==> id in byId && byId[id].state != Uncertain)
      ensures byKey == old(byKey) && applied == old(applied) && undone == old(undone)
    {
      ReconcileKeeps(State(), providers, id, answer);
      hide Invariant;
      if id !in byId { return Err(NoSuchEffect); }
      var receipt := byId[id];
      if !receipt.state.Uncertain? { return Ok(receipt); }
      if receipt.adapter !in providers { return Err(NoProvider); }
      if answer.None? { return Err(ProviderFailed); }
      var found := answer.value;
      if found.None? {
        var failed := TransitionTo(id, Failed, None);
        return Ok(failed);
      }
      var confirmed := TransitionTo(id, Confirmed, found);
      return Ok(confirmed);
    }

    method CompensateEffect(id: string, succeeds: bool) returns (r: Result<Receipt, Refusal>)
      requires Valid()
      modifies this
      ensures Valid() && (State(), r) == Compensate(old(State()), providers, id, succeeds)
      ensures if && id in old(byId) && old(byId[id]).state == Confirmed && old(byId[id]).compensatable
                 && old(byId[id]).adapter in providers && succeeds
        then r.Ok? && byId == old(byId)[id := old(byId[id]).(state := Compensated)] && undone == old(undone) + [id]
        else State() == old(State()) && (r.Ok? <==> id in byId && byId[id].state == Compensated)
    {
      CompensateKeeps(State(), providers, id, succeeds);
      hide Invariant;
      if id !in byId { return Err(NoSuchEffect); }
      var receipt := byId[id];
      if receipt.state.Compensated? { return Ok(receipt); }
      if !receipt.state.Confirmed? || !receipt.compensatable { return Err(NotCompensatable); }
      if receipt.adapter !in providers { return Err(NoProvider); }
      if !succeeds { return Err(ProviderFailed); }
      undone := undone + [id];
      var done := TransitionTo(id, Compensated, None);
      return Ok(done);
    }
  }
}
