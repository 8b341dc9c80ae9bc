/** The mutual handshake of `olympus-node/1` with an attacker who owns the
    network: it delivers any frame to anyone, replays any signature it has seen
    and signs with every key it holds. Ed25519 (section 5.1 of RFC 8032) is ideal:
    a signature exists only if the key's holder produced it. */
module Handshake {
  import opened Outcomes

  /** The two canonical payloads; their `purpose` fields keep them apart. */
  datatype Payload =
    | ServerProof(sessionId: string, nodeId: string, nodeNonce: string)
    | NodeProof(sessionId: string, nodeId: string, serverNonce: string, capabilitiesDigest: string)

  /** A signature, identified by who signed what. */
  datatype Signature = Signature(key: string, payload: Payload)

  datatype NodeEntry = NodeEntry(publicKey: string, revoked: bool)

  /** Control-plane end: `NodeSession._handshake`. */
  datatype ServerSession =
    | AwaitHello
    | AwaitAttest(nodeId: string, publicKey: string, nodeNonce: string, serverNonce: string, declared: seq<string>)
    | Established(nodeId: string, publicKey: string, nodeNonce: string, serverNonce: string, declared: seq<string>,
                  proof: Signature)
    | Refused

  datatype NodePhase = AwaitChallenge | Attested(sessionId: string, serverNonce: string) | Aborted

  /** Node end: one call of `NodeAgent.handshake`. */
  datatype NodeRun = NodeRun(nodeId: string, key: string, nonce: string, declared: seq<string>, phase: NodePhase)

  datatype World = World(
    registry: map<string, NodeEntry>,
    sessions: map<string, ServerSession>,
    runs: map<nat, NodeRun>,
    signatures: set<Signature>)

  /** What does not change during a run. */
  datatype Setting = Setting(
    controlKey: string, keyId: string, compromised: set<string>, digest: seq<string> -> string)

  datatype Step =
    | Enroll(nodeId: string, publicKey: string)
    | Revoke(nodeId: string)
    | OpenSession(sessionId: string)
    | FailHandshake(sessionId: string)   // time-out, lost channel or unexpected frame
    | DeliverHello(sessionId: string, protocol: string, nodeId: string, nodeNonce: string, declared: seq<string>, serverNonce: string)
    | DeliverAttest(sessionId: string, claimedSession: string, proof: Signature)
    | BeginRun(run: nat, nodeId: string, key: string, declared: seq<string>, nonce: string)
    | DeliverChallenge(run: nat, protocol: string, keyId: string, sessionId: string, serverNonce: string, serverProof: Signature)
    | AttackerSigns(key: string, payload: Payload)

  const PROTOCOL_ID := "olympus-node/1"

  const EMPTY := World(map[], map[], map[], {})

  /** Session ids and node nonces are drawn fresh: an occupied one is no step. */
  function Apply(c: Setting, w: World, step: Step): World {
    match step
    case Enroll(nodeId, publicKey) =>
      if nodeId in w.registry then w
      else w.(registry := w.registry[nodeId := NodeEntry(publicKey, false)])
    case Revoke(nodeId) =>
      if nodeId !in w.registry then w
      else w.(registry := w.registry[nodeId := w.registry[nodeId].(revoked := true)])
    case OpenSession(sessionId) =>
      if sessionId in w.sessions then w
      else w.(sessions := w.sessions[sessionId := AwaitHello])
    case FailHandshake(sessionId) =>
      if sessionId !in w.sessions || w.sessions[sessionId].Established? then w
      else w.(sessions := w.sessions[sessionId := Refused])
    case DeliverHello(sessionId, protocol, nodeId, nodeNonce, declared, serverNonce) =>
      if sessionId !in w.sessions || w.sessions[sessionId] != AwaitHello then w
      else if protocol != PROTOCOL_ID || nodeId !in w.registry || w.registry[nodeId].revoked then
        w.(sessions := w.sessions[sessionId := Refused])
      else
        w.(sessions := w.sessions[sessionId :=
             AwaitAttest(nodeId, w.registry[nodeId].publicKey, nodeNonce, serverNonce, declared)],
           signatures := w.signatures + {Signature(c.controlKey, ServerProof(sessionId, nodeId, nodeNonce))})
    case DeliverAttest(sessionId, claimedSession, proof) =>
      if sessionId !in w.sessions || !w.sessions[sessionId].AwaitAttest? || proof !in w.signatures then w
      else
        var s := w.sessions[sessionId];
        var expected := Signature(s.publicKey, NodeProof(sessionId, s.nodeId, s.serverNonce, c.digest(s.declared)));
        if claimedSession == sessionId && proof == expected
           && s.nodeId in w.registry && !w.registry[s.nodeId].revoked then
          w.(sessions := w.sessions[sessionId :=
               Established(s.nodeId, s.publicKey, s.nodeNonce, s.serverNonce, s.declared, proof)])
        else w.(sessions := w.sessions[sessionId := Refused])
    case BeginRun(run, nodeId, key, declared, nonce) =>
      if run in w.runs || (exists r :: r in w.runs && w.runs[r].nonce == nonce) then w
      else w.(runs := w.runs[run := NodeRun(nodeId, key, nonce, declared, AwaitChallenge)])
    case DeliverChallenge(run, protocol, keyId, sessionId, serverNonce, serverProof) =>
      if run !in w.runs || w.runs[run].phase != AwaitChallenge || serverProof !in w.signatures then w
      else
        var r := w.runs[run];
        var expected := Signature(c.controlKey, ServerProof(sessionId, r.nodeId, r.nonce));
        if protocol == PROTOCOL_ID && keyId == c.keyId && serverProof == expected then
          w.(runs := w.runs[run := r.(phase := Attested(sessionId, serverNonce))],
             signatures := w.signatures +
               {Signature(r.key, NodeProof(sessionId, r.nodeId, serverNonce, c.digest(r.declared)))})
        else w.(runs := w.runs[run := r.(phase := Aborted)])
    case AttackerSigns(key, payload) =>
      if key !in c.compromised then w
      else w.(signatures := w.signatures + {Signature(key, payload)})
  }

  function Run(c: Setting, steps: seq<Step>): World {
    if steps == [] then EMPTY else Apply(c, Run(c, steps[..|steps| - 1]), steps[|steps| - 1])
  }

  // ----- Invariants -----------------------------------------------------------

  /** A control-plane signature was made by the session it names. */
  ghost predicate ServerSigned(w: World, p: Payload)
    requires p.ServerProof?
  {
    && p.sessionId in w.sessions
    && var s := w.sessions[p.sessionId];
      (s.AwaitAttest? || s.Established?) ==> s.nodeId == p.nodeId && s.nodeNonce == p.nodeNonce
  }

  /** A node signature was made by a run that accepted that session's challenge. */
  ghost predicate NodeSigned(c: Setting, w: World, key: string, p: Payload)
    requires p.NodeProof?
  {
    exists r :: r in w.runs && RunMade(c, w.runs[r], key, p)
  }

  ghost predicate RunMade(c: Setting, run: NodeRun, key: string, p: Payload)
    requires p.NodeProof?
  {
    && run.key == key && run.nodeId == p.nodeId
    && run.phase == Attested(p.sessionId, p.serverNonce)
    && c.digest(run.declared) == p.capabilitiesDigest
  }

  ghost predicate Unforged(c: Setting, w: World, s: Signature) {
    s.key !in c.compromised ==>
      match s.payload
      case ServerProof(_, _, _) => s.key == c.controlKey && ServerSigned(w, s.payload)
      case NodeProof(_, _, _, _) => NodeSigned(c, w, s.key, s.payload)
  }

  ghost predicate SignaturesUnforged(c: Setting, w: World) {
    forall s :: s in w.signatures ==> Unforged(c, w, s)
  }

  /** A session that has not answered a hello has signed nothing. */
  ghost predicate SilentUntilHello(c: Setting, w: World) {
    forall s :: s in w.signatures && s.key !in c.compromised && s.payload.ServerProof? ==>
      s.payload.sessionId in w.sessions && w.sessions[s.payload.sessionId] != AwaitHello
  }

  ghost predicate EstablishedProven(c: Setting, w: World) {
    forall i :: i in w.sessions && w.sessions[i].Established? ==>
      var s := w.sessions[i];
      && s.proof in w.signatures
      && s.proof == Signature(s.publicKey, NodeProof(i, s.nodeId, s.serverNonce, c.digest(s.declared)))
  }

  function AcceptedProof(c: Setting, run: NodeRun): Signature
    requires run.phase.Attested?
  {
    Signature(c.controlKey, ServerProof(run.phase.sessionId, run.nodeId, run.nonce))
  }

  ghost predicate AttestedProven(c: Setting, w: World) {
    forall r :: r in w.runs && w.runs[r].phase.Attested? ==> AcceptedProof(c, w.runs[r]) in w.signatures
  }

  ghost predicate NoncesDistinct(w: World) {
    forall q, r :: q in w.runs && r in w.runs && w.runs[q].nonce == w.runs[r].nonce ==> q == r
  }

  ghost predicate Invariant(c: Setting, w: World) {
    && SignaturesUnforged(c, w) && SilentUntilHello(c, w)
    && EstablishedProven(c, w) && AttestedProven(c, w) && NoncesDistinct(w)
  }

  /** Runs only gain an attestation, sessions only move on: signatures already
      accounted for stay accounted for. */
  ghost predicate Advances(w: World, v: World) {
    && (forall r :: r in w.runs ==> r in v.runs && (w.runs[r].phase.Attested? ==> v.runs[r] == w.runs[r]))
    && (forall i :: i in w.sessions ==>
          && i in v.sessions
          && (v.sessions[i] == w.sessions[i] || v.sessions[i].Refused?
              || (w.sessions[i].AwaitAttest? && v.sessions[i].Established?
                  && v.sessions[i].nodeId == w.sessions[i].nodeId && v.sessions[i].nodeNonce == w.sessions[i].nodeNonce)
              || w.sessions[i] == AwaitHello))
  }

  lemma StaysUnforged(c: Setting, w: World, v: World, s: Signature)
    requires SignaturesUnforged(c, w) && SilentUntilHello(c, w) && Advances(w, v) && s in w.signatures
    ensures Unforged(c, v, s)
  {
  }

  /** Each step adds at most a signature its maker accounts for. */
  lemma SignaturesStayUnforged(c: Setting, w: World, step: Step)
    requires SignaturesUnforged(c, w) && SilentUntilHello(c, w)
    ensures SignaturesUnforged(c, Apply(c, w, step))
  {
    var v := Apply(c, w, step);
    StepAdvances(c, w, step);
    forall s | s in v.signatures ensures Unforged(c, v, s) {
      if s in w.signatures {
        StaysUnforged(c, w, v, s);
      } else if step.DeliverChallenge? {
        assert RunMade(c, v.runs[step.run], s.key, s.payload);
      }
    }
  }

  lemma StepAdvances(c: Setting, w: World, step: Step)
    ensures Advances(w, Apply(c, w, step))
    ensures w.signatures <= Apply(c, w, step).signatures
  {
  }

  lemma SilenceStays(c: Setting, w: World, step: Step)
    requires SilentUntilHello(c, w)
    ensures SilentUntilHello(c, Apply(c, w, step))
  {
  }

  lemma ProofsStay(c: Setting, w: World, step: Step)
    requires EstablishedProven(c, w) && AttestedProven(c, w)
    ensures EstablishedProven(c, Apply(c, w, step)) && AttestedProven(c, Apply(c, w, step))
  {
  }

  lemma NoncesStayDistinct(c: Setting, w: World, step: Step)
    requires NoncesDistinct(w)
    ensures NoncesDistinct(Apply(c, w, step))
  {
  }

  lemma {:induction false} InvariantHolds(c: Setting, steps: seq<Step>)
    ensures Invariant(c, Run(c, steps))
  {
    if steps != [] {
      hide Apply, SignaturesUnforged, SilentUntilHello, EstablishedProven, AttestedProven, NoncesDistinct;
      var w, step := Run(c, steps[..|steps| - 1]), steps[|steps| - 1];
      InvariantHolds(c, steps[..|steps| - 1]);
      SignaturesStayUnforged(c, w, step);
      SilenceStays(c, w, step);
      ProofsStay(c, w, step);
      NoncesStayDistinct(c, w, step);
    }
  }

  // ----- Main results -----------------------------------------------------------

  ghost predicate Injective(digest: seq<string> -> string) {
    forall x, y :: digest(x) == digest(y) ==> x == y
  }

  /** Run `r` is the node end of established session `i`. */
  ghost predicate Partner(w: World, i: string, r: nat) {
    && i in w.sessions && w.sessions[i].Established? && r in w.runs
    && var s, run := w.sessions[i], w.runs[r];
      && run.nodeId == s.nodeId && run.key == s.publicKey
      && run.phase == Attested(i, s.serverNonce)
      && run.nonce == s.nodeNonce
      && run.declared == s.declared
  }

  /** Whenever the control plane completes a handshake for a node whose key, like
      its own, is not in the attacker's hands, that node really took part: one of
      its runs accepted this very session's proof, signed this session's nonce and
      declared exactly the capabilities the control plane holds. */
  lemma EstablishedSessionHasPartner(c: Setting, steps: seq<Step>, i: string) returns (r: nat)
    requires Injective(c.digest) && c.controlKey !in c.compromised
    requires var w := Run(c, steps);
      i in w.sessions && w.sessions[i].Established? && w.sessions[i].publicKey !in c.compromised
    ensures Partner(Run(c, steps), i, r)
    ensures forall q :: Partner(Run(c, steps), i, q) ==> q == r
  {
    InvariantHolds(c, steps);
    var w := Run(c, steps);
    var s := w.sessions[i];
    assert Unforged(c, w, s.proof);
    r :| r in w.runs && RunMade(c, w.runs[r], s.publicKey, s.proof.payload);
    assert AcceptedProof(c, w.runs[r]) in w.signatures;
    assert Unforged(c, w, AcceptedProof(c, w.runs[r]));
    assert Partner(w, i, r);
  }

  /** No run of a node stands behind two sessions, and no proof completes two. */
  lemma DistinctSessionsDistinctProofs(c: Setting, steps: seq<Step>, i: string, j: string)
    requires var w := Run(c, steps);
      i in w.sessions && w.sessions[i].Established? && j in w.sessions && w.sessions[j].Established? && i != j
    ensures Run(c, steps).sessions[i].proof != Run(c, steps).sessions[j].proof
    ensures forall q, r :: Partner(Run(c, steps), i, q) && Partner(Run(c, steps), j, r) ==> q != r
  {
    InvariantHolds(c, steps);
  }

  // ----- Revocation and registered keys --------------------------------------------

  /** A session is established only in answer to a matching proof, and only for a
      node that is enrolled and not revoked at that moment. */
  lemma OnlyEnrolledNodesAreEstablished(c: Setting, w: World, step: Step, i: string)
    requires i in Apply(c, w, step).sessions && Apply(c, w, step).sessions[i].Established?
    requires i in w.sessions ==> !w.sessions[i].Established?
    ensures step.DeliverAttest? && step.sessionId == i && step.claimedSession == i
    ensures var s := Apply(c, w, step).sessions[i];
      && s.nodeId in w.registry && !w.registry[s.nodeId].revoked && s.proof == step.proof
  {
  }

  /** A hello is answered only for the protocol, and for an enrolled, unrevoked node. */
  lemma OnlyEnrolledNodesAreChallenged(c: Setting, w: World, step: Step, i: string)
    requires i in Apply(c, w, step).sessions && Apply(c, w, step).sessions[i].AwaitAttest?
    requires i in w.sessions ==> !w.sessions[i].AwaitAttest?
    ensures step.DeliverHello? && step.sessionId == i && step.protocol == PROTOCOL_ID
    ensures var s := Apply(c, w, step).sessions[i];
      && s.nodeId == step.nodeId && s.nodeId in w.registry && !w.registry[s.nodeId].revoked
      && s.publicKey == w.registry[s.nodeId].publicKey
      && s.nodeNonce == step.nodeNonce && s.serverNonce == step.serverNonce && s.declared == step.declared
  {
  }

  /** A node answers only a challenge of the protocol and the pinned key whose proof
      covers its own identity and nonce. */
  lemma OnlyGenuineChallengesAreAnswered(c: Setting, w: World, step: Step, r: nat)
    requires r in Apply(c, w, step).runs && Apply(c, w, step).runs[r].phase.Attested?
    requires r in w.runs ==> !w.runs[r].phase.Attested?
    ensures step.DeliverChallenge? && step.run == r && step.protocol == PROTOCOL_ID && step.keyId == c.keyId
    ensures r in w.runs && step.serverProof in w.signatures && step.serverProof.key == c.controlKey
    ensures step.serverProof.payload == ServerProof(step.sessionId, w.runs[r].nodeId, w.runs[r].nonce)
  {
  }

  lemma {:induction false} RevocationLasts(c: Setting, steps: seq<Step>, k: nat, n: string)
    requires k <= |steps| && n in Run(c, steps[..k]).registry
    ensures n in Run(c, steps).registry
    ensures Run(c, steps).registry[n].publicKey == Run(c, steps[..k]).registry[n].publicKey
    ensures Run(c, steps[..k]).registry[n].revoked ==> Run(c, steps).registry[n].revoked
    decreases |steps|
  {
    if k == |steps| {
      assert steps[..k] == steps;
    } else {
      assert steps[..|steps| - 1][..k] == steps[..k];
      RevocationLasts(c, steps[..|steps| - 1], k, n);
    }
  }

  /** Once a node is revoked, no later step establishes a session for it. */
  lemma NoSessionAfterRevocation(c: Setting, steps: seq<Step>, k: nat, j: nat, n: string, i: string)
    requires k <= j < |steps| && n in Run(c, steps[..k]).registry && Run(c, steps[..k]).registry[n].revoked
    requires i in Run(c, steps[..j + 1]).sessions && Run(c, steps[..j + 1]).sessions[i].Established?
    requires Run(c, steps[..j + 1]).sessions[i].nodeId == n
    ensures i in Run(c, steps[..j]).sessions && Run(c, steps[..j]).sessions[i].Established?
  {
    assert steps[..j][..k] == steps[..k] && steps[..j + 1][..j] == steps[..j];
    RevocationLasts(c, steps[..j], k, n);
    var w := Run(c, steps[..j]);
    if !(i in w.sessions && w.sessions[i].Established?) {
      OnlyEnrolledNodesAreEstablished(c, w, steps[j], i);
    }
  }

  ghost predicate KeysRegistered(w: World) {
    forall i :: i in w.sessions && (w.sessions[i].AwaitAttest? || w.sessions[i].Established?) ==>
      w.sessions[i].nodeId in w.registry && w.sessions[i].publicKey == w.registry[w.sessions[i].nodeId].publicKey
  }

  /** Every session checks proofs under the key its node enrolled with. */
  lemma {:induction false} SessionsUseRegisteredKeys(c: Setting, steps: seq<Step>)
    ensures KeysRegistered(Run(c, steps))
  {
    if steps != [] {
      SessionsUseRegisteredKeys(c, steps[..|steps| - 1]);
      hide KeysRegistered, Apply;
      StepKeepsKeys(c, Run(c, steps[..|steps| - 1]), steps[|steps| - 1]);
    }
  }

  lemma StepKeepsKeys(c: Setting, w: World, step: Step)
    requires KeysRegistered(w)
    ensures KeysRegistered(Apply(c, w, step))
  {
  }

  /** An undisturbed exchange of an enrolled node does complete, with what both
      ends declared. */
  lemma UndisturbedHandshakeCompletes(c: Setting, w: World, i: string, r: nat, serverNonce: string)
    requires i in w.sessions && w.sessions[i] == AwaitHello
    requires r in w.runs && w.runs[r].phase == AwaitChallenge
    requires w.runs[r].nodeId in w.registry && w.registry[w.runs[r].nodeId] == NodeEntry(w.runs[r].key, false)
    ensures var run := w.runs[r];
      var proof := Signature(c.controlKey, ServerProof(i, run.nodeId, run.nonce));
      var answer := Signature(run.key, NodeProof(i, run.nodeId, serverNonce, c.digest(run.declared)));
      var w1 := Apply(c, w, DeliverHello(i, PROTOCOL_ID, run.nodeId, run.nonce, run.declared, serverNonce));
      var w2 := Apply(c, w1, DeliverChallenge(r, PROTOCOL_ID, c.keyId, i, serverNonce, proof));
      var w3 := Apply(c, w2, DeliverAttest(i, i, answer));
      && w3.sessions[i] == Established(run.nodeId, run.key, run.nonce, serverNonce, run.declared, answer)
      && Partner(w3, i, r)
  {
  }
}
