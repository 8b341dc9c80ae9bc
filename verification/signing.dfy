/** Signed attestations over exported segments and their verification against a
    pinned keyring. Ed25519 (section 5.1 of RFC 8032) is taken as ideal: a
    signature is the pair of the key that made it and what was signed. */
module Signing {
  import opened AuditSegments
  import opened Outcomes
  import AuditExport
  import ExportKeys
  import PythonText

  const SIGNING_ALGORITHM := "ED25519_SHA_512"
  const SCHEMA_VERSION := 1
  const MAX_STATEMENT_BYTES := 4096

  datatype Attestation = Attestation(
    schemaVersion: int, chain: string, firstSequence: int, lastSequence: int, firstPreviousHash: string,
    lastEventHash: string, segmentDigest: string, bucket: string, objectKey: string, versionId: string,
    retentionMode: string, retentionUntil: string, signerKeyId: string, signedAt: string)

  datatype Signature = Made(publicKey: string, statement: Attestation) | Noise

  /** A sidecar document as parsed. */
  datatype Sidecar = Malformed | Document(algorithm: string, attestation: Attestation, signature: Signature)

  datatype Evidence = Evidence(objectKey: string, versionId: string, body: Segment, sidecar: Sidecar)

  datatype TrustedSigner = TrustedSigner(
    keyId: string, publicKey: string, isEd25519: bool, notBefore: int, notAfter: int, revokedAt: Option<int>)

  type Keyring = map<string, TrustedSigner>

  /** What depends on encodings: the digest of a segment body, the size of a
      statement in bytes, and the moment an ISO-8601 text with offset denotes. */
  datatype Encoding = Encoding(digest: Segment -> string, size: Attestation -> nat, moment: string -> Option<int>)

  datatype Problem =
    | MalformedAttestation | ObjectIdentityMismatch | SegmentDigestMismatch | ChainLinkMismatch
    | UnknownSigner | UntrustedSigner | InvalidSignature

  predicate TrustedAt(s: TrustedSigner, moment: int) {
    && s.notBefore <= moment <= s.notAfter
    && (s.revokedAt.Some? ==> moment < s.revokedAt.value)
  }

  /** Identity first, then bytes, position, trust and the signature itself. */
  function VerifySignedSegment(
    enc: Encoding, item: Evidence, keyring: Keyring, bucket: string, expectedPrevious: Option<string>,
    expectedFirst: Option<int>, expectedChain: Option<string>): Result<Attestation, Problem>
  {
    if item.sidecar.Malformed? || item.sidecar.algorithm != SIGNING_ALGORITHM
       || item.sidecar.attestation.schemaVersion != SCHEMA_VERSION then Err(MalformedAttestation)
    else
      var a := item.sidecar.attestation;
      if a.bucket != bucket || a.objectKey != item.objectKey || a.versionId != item.versionId then
        Err(ObjectIdentityMismatch)
      else if enc.digest(item.body) != a.segmentDigest then Err(SegmentDigestMismatch)
      else if expectedChain.Some? && a.chain != expectedChain.value then Err(ChainLinkMismatch)
      else if expectedFirst.Some? && a.firstSequence != expectedFirst.value then Err(ChainLinkMismatch)
      else if expectedPrevious.Some? && a.firstPreviousHash != expectedPrevious.value then Err(ChainLinkMismatch)
      else if a.signerKeyId !in keyring then Err(UnknownSigner)
      else if enc.moment(a.signedAt).None? then Err(MalformedAttestation)
      else
        var signer := keyring[a.signerKeyId];
        if !TrustedAt(signer, enc.moment(a.signedAt).value) || !signer.isEd25519 then Err(UntrustedSigner)
        else if enc.size(a) > MAX_STATEMENT_BYTES then Err(MalformedAttestation)
        else if item.sidecar.signature != Made(signer.publicKey, a) then Err(InvalidSignature)
        else Ok(a)
  }

  // ----- A whole chain ----------------------------------------------------------------

  datatype Verification = Verification(segments: nat, events: int, lastSequence: int, problem: Option<Problem>)

  /** The state between two items: what the next one must continue. */
  datatype Position = Position(events: int, lastSequence: int, previousHash: string, problem: Option<Problem>)

  function Advance(enc: Encoding, p: Position, item: Evidence, keyring: Keyring, bucket: string, chain: string)
    : Position
  {
    if p.problem.Some? then p
    else
      match VerifySignedSegment(
          enc, item, keyring, bucket, Some(p.previousHash), Some(p.lastSequence + 1), Some(chain))
      case Err(problem) => p.(problem := Some(problem))
      case Ok(a) => Position(p.events + (a.lastSequence - a.firstSequence + 1), a.lastSequence, a.lastEventHash, None)
  }

  function AdvanceAll(
    enc: Encoding, items: seq<Evidence>, keyring: Keyring, bucket: string, chain: string, genesis: string): Position
  {
    if items == [] then Position(0, 0, genesis, None)
    else
      var n := |items| - 1;
      Advance(enc, AdvanceAll(enc, items[..n], keyring, bucket, chain, genesis), items[n], keyring, bucket, chain)
  }

  predicate Authentic(
    enc: Encoding, items: seq<Evidence>, keyring: Keyring, bucket: string, chain: string, genesis: string)
  {
    AdvanceAll(enc, items, keyring, bucket, chain, genesis).problem.None?
  }

  method VerifyExportedChain(
    enc: Encoding, items: seq<Evidence>, keyring: Keyring, bucket: string, chain: string, genesis: string)
    returns (r: Verification)
    ensures r.problem.None? <==> Authentic(enc, items, keyring, bucket, chain, genesis)
    ensures r.segments == |items| && r.events == r.lastSequence
    ensures var p := AdvanceAll(enc, items, keyring, bucket, chain, genesis);
            r.events == p.events && r.lastSequence == p.lastSequence && r.problem == p.problem
  {
    var expectedSequence, expectedPrevious, events, lastSequence := 1, genesis, 0, 0;
    var problem: Option<Problem> := None;
    hide VerifySignedSegment;
    for i := 0 to |items|
      invariant problem.None? && events == lastSequence && expectedSequence == lastSequence + 1
      invariant AdvanceAll(enc, items[..i], keyring, bucket, chain, genesis)
             == Position(events, lastSequence, expectedPrevious, None)
    {
      assert items[..i + 1][..i] == items[..i];
      var checked := VerifySignedSegment(enc, items[i], keyring, bucket, Some(expectedPrevious),
                                         Some(expectedSequence), Some(chain));
      if checked.Err? {
        StopsAtFirstProblem(enc, items, keyring, bucket, chain, genesis, i + 1);
        return Verification(|items|, events, lastSequence, Some(checked.error));
      }
      var a := checked.value;
      AcceptedContinues(enc, items[i], keyring, bucket, expectedPrevious, expectedSequence, chain);
      events := events + (a.lastSequence - a.firstSequence + 1);
      lastSequence := a.lastSequence;
      expectedSequence := a.lastSequence + 1;
      expectedPrevious := a.lastEventHash;
    }
    assert items[..|items|] == items;
    return Verification(|items|, events, lastSequence, None);
  }

  lemma AcceptedContinues(
    enc: Encoding, item: Evidence, keyring: Keyring, bucket: string, previous: string, first: int, chain: string)
    ensures var r := VerifySignedSegment(enc, item, keyring, bucket, Some(previous), Some(first), Some(chain));
            r.Ok? ==> r.value.firstSequence == first && r.value.firstPreviousHash == previous && r.value.chain == chain
  {
  }

  lemma {:induction false} StopsAtFirstProblem(
    enc: Encoding, items: seq<Evidence>, keyring: Keyring, bucket: string, chain: string, genesis: string, n: nat)
    requires n <= |items| && AdvanceAll(enc, items[..n], keyring, bucket, chain, genesis).problem.Some?
    ensures AdvanceAll(enc, items, keyring, bucket, chain, genesis)
         == AdvanceAll(enc, items[..n], keyring, bucket, chain, genesis)
    decreases |items|
  {
    if n < |items| {
      assert items[..|items| - 1][..n] == items[..n];
      StopsAtFirstProblem(enc, items[..|items| - 1], keyring, bucket, chain, genesis, n);
    } else {
      assert items[..n] == items;
    }
  }

  // ----- Genuine exports ------------------------------------------------------------------

  /** What the exporter signs right after a segment was stored. */
  function BuildAttestation(
    enc: Encoding, s: Segment, bucket: string, key: string, version: string, mode: string, until: string,
    signerKeyId: string, signedAt: string): Attestation
  {
    Attestation(SCHEMA_VERSION, s.chain, s.firstSequence, s.lastSequence, s.firstPreviousHash, s.lastEventHash,
                enc.digest(s), bucket, key, version, mode, until, signerKeyId, signedAt)
  }

  /** One genuinely exported item: the stored segment with an attestation about
      exactly it, signed by a key pinned and trusted at the time of signing. */
  ghost predicate GenuineItem(enc: Encoding, item: Evidence, keyring: Keyring, bucket: string, chain: string) {
    && item.sidecar.Document? && item.body.chain == chain && item.body.firstSequence <= item.body.lastSequence
    && var a := item.sidecar.attestation;
       && a == BuildAttestation(enc, item.body, bucket, item.objectKey, item.versionId, a.retentionMode,
                                a.retentionUntil, a.signerKeyId, a.signedAt)
       && a.signerKeyId in keyring
       && var signer := keyring[a.signerKeyId];
          && item.sidecar == Document(SIGNING_ALGORITHM, a, Made(signer.publicKey, a))
          && signer.isEd25519 && enc.moment(a.signedAt).Some? && TrustedAt(signer, enc.moment(a.signedAt).value)
          && enc.size(a) <= MAX_STATEMENT_BYTES
  }

  function SequenceUpTo(items: seq<Evidence>, i: nat): int
    requires i <= |items|
  {
    if i == 0 then 0 else items[i - 1].body.lastSequence
  }

  function HashUpTo(items: seq<Evidence>, genesis: string, i: nat): string
    requires i <= |items|
  {
    if i == 0 then genesis else items[i - 1].body.lastEventHash
  }

  /** A genuine export: genuine items whose segments follow one another. */
  ghost predicate GenuineExport(
    enc: Encoding, items: seq<Evidence>, keyring: Keyring, bucket: string, chain: string, genesis: string)
  {
    && Contiguous(items, genesis)
    && forall i :: 0 <= i < |items| ==> GenuineItem(enc, items[i], keyring, bucket, chain)
  }

  predicate Contiguous(items: seq<Evidence>, genesis: string) {
    forall i {:trigger ContinuesAt(items, genesis, i)} :: 0 <= i < |items| ==> ContinuesAt(items, genesis, i)
  }

  predicate ContinuesAt(items: seq<Evidence>, genesis: string, i: nat)
    requires i < |items|
  {
    && items[i].body.firstSequence == SequenceUpTo(items, i) + 1 <= items[i].body.lastSequence
    && items[i].body.firstPreviousHash == HashUpTo(items, genesis, i)
  }

  /** Nobody but the exporter signed: whatever a pinned key signed about this
      bucket and chain is the attestation of a genuine item. */
  ghost predicate Unforged(
    evidence: seq<Evidence>, genuine: seq<Evidence>, keyring: Keyring, bucket: string, chain: string)
  {
    forall i :: 0 <= i < |evidence| ==> UnforgedItem(evidence[i], genuine, keyring, bucket, chain)
  }

  predicate Pinned(keyring: Keyring, publicKey: string) {
    exists id :: id in keyring && keyring[id].publicKey == publicKey
  }

  ghost predicate UnforgedItem(item: Evidence, genuine: seq<Evidence>, keyring: Keyring, bucket: string, chain: string) {
    item.sidecar.Document? && item.sidecar.signature.Made? ==>
      var Made(publicKey, a) := item.sidecar.signature;
      Pinned(keyring, publicKey) && a.bucket == bucket && a.chain == chain ==>
        exists j :: 0 <= j < |genuine| && genuine[j].sidecar.Document? && genuine[j].sidecar.attestation == a
  }

  ghost predicate DigestInjective(enc: Encoding) {
    forall s, t :: enc.digest(s) == enc.digest(t) ==> s == t
  }

  /** Later segments start later. */
  lemma {:induction false} RangesAscend(items: seq<Evidence>, genesis: string, i: nat, j: nat)
    requires Contiguous(items, genesis) && i < j <= |items|
    ensures items[i].body.firstSequence <= SequenceUpTo(items, j)
    decreases j
  {
    assert ContinuesAt(items, genesis, j - 1);
    if i < j - 1 {
      RangesAscend(items, genesis, i, j - 1);
    }
  }

  lemma StartsDiffer(items: seq<Evidence>, genesis: string, j: nat, n: nat)
    requires Contiguous(items, genesis) && j < |items| && n <= |items|
    requires items[j].body.firstSequence == SequenceUpTo(items, n) + 1
    ensures j == n
  {
    assert ContinuesAt(items, genesis, j);
    assert n < |items| ==> ContinuesAt(items, genesis, n);
    if j < n {
      RangesAscend(items, genesis, j, n);
    } else if n < j {
      RangesAscend(items, genesis, n, j);
    }
  }

  /** A genuine item is accepted where its segment belongs. */
  lemma GenuineAccepted(enc: Encoding, item: Evidence, keyring: Keyring, bucket: string, chain: string)
    requires GenuineItem(enc, item, keyring, bucket, chain)
    ensures VerifySignedSegment(enc, item, keyring, bucket, Some(item.body.firstPreviousHash),
                                Some(item.body.firstSequence), Some(chain)) == Ok(item.sidecar.attestation)
  {
  }

  /** What acceptance says about an item, whoever made it up. */
  lemma AcceptedFacts(
    enc: Encoding, item: Evidence, keyring: Keyring, bucket: string, previous: string, first: int, chain: string)
    requires VerifySignedSegment(enc, item, keyring, bucket, Some(previous), Some(first), Some(chain)).Ok?
    ensures item.sidecar.Document? && item.sidecar.algorithm == SIGNING_ALGORITHM
    ensures var a := item.sidecar.attestation;
            && VerifySignedSegment(enc, item, keyring, bucket, Some(previous), Some(first), Some(chain)) == Ok(a)
            && a.objectKey == item.objectKey && a.versionId == item.versionId && a.segmentDigest == enc.digest(item.body)
            && a.bucket == bucket && a.chain == chain && a.firstSequence == first
            && a.schemaVersion == 1 && a.firstPreviousHash == previous && enc.size(a) <= 4096
            && a.signerKeyId in keyring && item.sidecar.signature == Made(keyring[a.signerKeyId].publicKey, a)
            && PinnedThen(keyring[a.signerKeyId], enc.moment(a.signedAt))
  {
  }

  /** An Ed25519 key inside its window and not yet revoked when it signed. */
  predicate PinnedThen(s: TrustedSigner, signed: Option<int>) {
    && s.isEd25519 && signed.Some? && s.notBefore <= signed.value && signed.value <= s.notAfter
    && (s.revokedAt == None || signed.value < s.revokedAt.value)
  }

  /** A segment is accepted exactly when its sidecar is a well-formed statement
      about this very object and bytes, at the expected place, signed with a key
      pinned and trusted at the time it names. */
  lemma AcceptsExactly(
    enc: Encoding, item: Evidence, keyring: Keyring, bucket: string, previous: Option<string>, first: Option<int>,
    chain: Option<string>)
    ensures VerifySignedSegment(enc, item, keyring, bucket, previous, first, chain).Ok? <==>
              && item.sidecar.Document? && item.sidecar.algorithm == "ED25519_SHA_512"
              && var a := item.sidecar.attestation;
                 && a.schemaVersion == 1 && a.bucket == bucket && a.objectKey == item.objectKey
                 && a.versionId == item.versionId && a.segmentDigest == enc.digest(item.body) && enc.size(a) <= 4096
                 && (chain == None || chain == Some(a.chain)) && (first == None || first == Some(a.firstSequence))
                 && (previous == None || previous == Some(a.firstPreviousHash))
                 && a.signerKeyId in keyring && PinnedThen(keyring[a.signerKeyId], enc.moment(a.signedAt))
                 && item.sidecar.signature == Made(keyring[a.signerKeyId].publicKey, a)
  {
  }

  /** An accepted item that carries a genuine item's attestation is that item. */
  lemma SameAttestationSameItem(
    enc: Encoding, item: Evidence, genuine: Evidence, keyring: Keyring, bucket: string, previous: string, first: int,
    chain: string)
    requires DigestInjective(enc) && GenuineItem(enc, genuine, keyring, bucket, chain)
    requires VerifySignedSegment(enc, item, keyring, bucket, Some(previous), Some(first), Some(chain)).Ok?
    requires item.sidecar.Document? && item.sidecar.attestation == genuine.sidecar.attestation
    ensures item == genuine
  {
  }

  /** The item accepted at position `n` is the genuine item `n`. */
  lemma AcceptedIsNext(
    enc: Encoding, item: Evidence, genuine: seq<Evidence>, keyring: Keyring, bucket: string, chain: string,
    genesis: string, n: nat)
    requires DigestInjective(enc) && GenuineExport(enc, genuine, keyring, bucket, chain, genesis) && n <= |genuine|
    requires UnforgedItem(item, genuine, keyring, bucket, chain)
    requires VerifySignedSegment(enc, item, keyring, bucket, Some(HashUpTo(genuine, genesis, n)),
                                 Some(SequenceUpTo(genuine, n) + 1), Some(chain)).Ok?
    ensures n < |genuine| && item == genuine[n]
  {
    var previous, first := HashUpTo(genuine, genesis, n), SequenceUpTo(genuine, n) + 1;
    AcceptedFacts(enc, item, keyring, bucket, previous, first, chain);
    hide VerifySignedSegment, Contiguous;
    var a := item.sidecar.attestation;
    assert Pinned(keyring, keyring[a.signerKeyId].publicKey);
    var j :| 0 <= j < |genuine| && genuine[j].sidecar.Document? && genuine[j].sidecar.attestation == a;
    GenuineStart(enc, genuine[j], keyring, bucket, chain);
    hide GenuineItem;
    StartsDiffer(genuine, genesis, j, n);
    SameAttestationSameItem(enc, item, genuine[j], keyring, bucket, previous, first, chain);
  }

  lemma GenuineStart(enc: Encoding, item: Evidence, keyring: Keyring, bucket: string, chain: string)
    requires GenuineItem(enc, item, keyring, bucket, chain)
    ensures item.body.firstSequence == item.sidecar.attestation.firstSequence
  {
  }

  /** Accepted evidence stands where the genuine export stands after as many items. */
  ghost predicate StandsAt(p: Position, genuine: seq<Evidence>, genesis: string, n: nat) {
    && n <= |genuine| && p.events == p.lastSequence == SequenceUpTo(genuine, n)
    && p.previousHash == HashUpTo(genuine, genesis, n) && p.problem.None?
  }

  lemma AdvanceGenuine(
    enc: Encoding, p: Position, genuine: seq<Evidence>, keyring: Keyring, bucket: string, chain: string,
    genesis: string, n: nat)
    requires GenuineExport(enc, genuine, keyring, bucket, chain, genesis) && n < |genuine|
    requires StandsAt(p, genuine, genesis, n)
    ensures StandsAt(Advance(enc, p, genuine[n], keyring, bucket, chain), genuine, genesis, n + 1)
  {
    GenuineAccepted(enc, genuine[n], keyring, bucket, chain);
    assert ContinuesAt(genuine, genesis, n);
    hide VerifySignedSegment;
  }

  /** Evidence, whatever its origin, is judged authentic exactly when it is a
      prefix of the genuine export, item for item. */
  lemma {:induction false} AuthenticExactlyPrefixes(
    enc: Encoding, evidence: seq<Evidence>, genuine: seq<Evidence>, keyring: Keyring, bucket: string, chain: string,
    genesis: string)
    requires DigestInjective(enc) && GenuineExport(enc, genuine, keyring, bucket, chain, genesis)
    requires Unforged(evidence, genuine, keyring, bucket, chain)
    ensures Authentic(enc, evidence, keyring, bucket, chain, genesis) <==> evidence <= genuine
    ensures evidence <= genuine ==>
              StandsAt(AdvanceAll(enc, evidence, keyring, bucket, chain, genesis), genuine, genesis, |evidence|)
  {
    hide DigestInjective, GenuineExport, Unforged;
    if evidence != [] {
      var n := |evidence| - 1;
      UnforgedPrefix(evidence, genuine, keyring, bucket, chain);
      AuthenticExactlyPrefixes(enc, evidence[..n], genuine, keyring, bucket, chain, genesis);
      var p := AdvanceAll(enc, evidence[..n], keyring, bucket, chain, genesis);
      hide VerifySignedSegment, UnforgedItem;
      assert evidence == evidence[..n] + [evidence[n]];
      if evidence <= genuine {
        assert evidence[..n] <= genuine && evidence[n] == genuine[n];
        AdvanceGenuine(enc, p, genuine, keyring, bucket, chain, genesis, n);
      } else if Authentic(enc, evidence, keyring, bucket, chain, genesis) {
        AcceptedIsNext(enc, evidence[n], genuine, keyring, bucket, chain, genesis, n);
      }
    }
  }

  lemma UnforgedPrefix(
    evidence: seq<Evidence>, genuine: seq<Evidence>, keyring: Keyring, bucket: string, chain: string)
    requires evidence != [] && Unforged(evidence, genuine, keyring, bucket, chain)
    ensures Unforged(evidence[..|evidence| - 1], genuine, keyring, bucket, chain)
    ensures UnforgedItem(evidence[|evidence| - 1], genuine, keyring, bucket, chain)
  {
  }

  /** Items of the export in any order, with omissions and repeats, are unforged;
      so such a list is authentic exactly when it is a prefix. */
  lemma RearrangedItemsAreUnforged(
    enc: Encoding, evidence: seq<Evidence>, genuine: seq<Evidence>, keyring: Keyring, bucket: string, chain: string,
    genesis: string)
    requires DigestInjective(enc) && GenuineExport(enc, genuine, keyring, bucket, chain, genesis)
    requires forall i :: 0 <= i < |evidence| ==> evidence[i] in genuine
    ensures Unforged(evidence, genuine, keyring, bucket, chain)
    ensures Authentic(enc, evidence, keyring, bucket, chain, genesis) <==> evidence <= genuine
  {
    forall i | 0 <= i < |evidence| ensures UnforgedItem(evidence[i], genuine, keyring, bucket, chain) {
      var j :| 0 <= j < |genuine| && genuine[j] == evidence[i];
      assert GenuineItem(enc, genuine[j], keyring, bucket, chain);
    }
    AuthenticExactlyPrefixes(enc, evidence, genuine, keyring, bucket, chain, genesis);
  }

  /** The items hold the ranges of an archived chain, in order. */
  ghost predicate HoldRanges(chain: string, log: seq<Event>, cuts: seq<nat>, items: seq<Evidence>) {
    && AuditExport.AreCuts(cuts, |log|) && |items| == |cuts| - 1
    && forall i :: 0 <= i < |items| ==> items[i].body == AuditExport.RangeSegment(chain, log, cuts, i)
  }

  lemma RangesAreContiguous(chain: string, log: seq<Event>, cuts: seq<nat>, items: seq<Evidence>)
    requires IsLog(log) && HoldRanges(chain, log, cuts, items)
    ensures Contiguous(items, GENESIS_HASH)
    ensures forall n :: 0 <= n <= |items| ==> SequenceUpTo(items, n) == cuts[n]
  {
    forall n | 0 <= n <= |items| ensures SequenceUpTo(items, n) == cuts[n] {
      if n > 0 { RangeEnds(chain, log, cuts, n - 1); }
    }
    forall i | 0 <= i < |items| ensures ContinuesAt(items, GENESIS_HASH, i) {
      RangeEnds(chain, log, cuts, i);
      if i > 0 { RangeEnds(chain, log, cuts, i - 1); }
    }
  }

  /** The signed segments of an archived chain form a genuine export, and any
      prefix of them is authentic up to its own last sequence number. */
  lemma SignedArchiveIsAuthentic(
    enc: Encoding, log: seq<Event>, objects: AuditExport.Objects, cuts: seq<nat>, items: seq<Evidence>,
    keyring: Keyring, bucket: string, chain: string, n: nat)
    requires DigestInjective(enc) && IsLog(log) && AuditExport.Archived(chain, log, objects, cuts)
    requires HoldRanges(chain, log, cuts, items) && n <= |items|
    requires forall i :: 0 <= i < |items| ==> GenuineItem(enc, items[i], keyring, bucket, chain)
    ensures GenuineExport(enc, items, keyring, bucket, chain, GENESIS_HASH)
    ensures var p := AdvanceAll(enc, items[..n], keyring, bucket, chain, GENESIS_HASH);
            p.problem.None? && p.events == p.lastSequence == cuts[n]
  {
    hide GenuineItem, IsLog, AuditExport.Archived;
    RangesAreContiguous(chain, log, cuts, items);
    hide HoldRanges, DigestInjective, Contiguous, AuditExport.AreCuts;
    assert items[..n] <= items;
    RearrangedItemsAreUnforged(enc, items[..n], items, keyring, bucket, chain, GENESIS_HASH);
    AuthenticExactlyPrefixes(enc, items[..n], items, keyring, bucket, chain, GENESIS_HASH);
  }

  lemma RangeEnds(chain: string, log: seq<Event>, cuts: seq<nat>, i: nat)
    requires IsLog(log) && AuditExport.AreCuts(cuts, |log|) && i + 1 < |cuts|
    ensures var s := AuditExport.RangeSegment(chain, log, cuts, i);
            && s.firstSequence == cuts[i] + 1 <= s.lastSequence == cuts[i + 1]
            && s.firstPreviousHash == HashBefore(log, cuts[i]) && s.lastEventHash == HashBefore(log, cuts[i + 1])
  {
    var window := log[cuts[i]..cuts[i + 1]];
    assert EntryAt(log, cuts[i]) && EntryAt(log, cuts[i + 1] - 1);
    assert window[0] == log[cuts[i]] && window[|window| - 1] == log[cuts[i + 1] - 1];
  }

  // ----- From the store to the verdict ---------------------------------------------------

  /** What is kept outside the objects' own bytes: the version the store reports for
      a key and the attestation document written for it. */
  datatype Filing = Filing(version: string -> string, document: string -> Sidecar)

  function Filed(f: Filing, objects: AuditExport.Objects, key: string): Evidence
    requires key in objects && objects[key].SegmentBody?
  {
    var sidecarKey := ExportKeys.SignatureKey(key);
    Evidence(key, f.version(key), objects[key].segment,
             if sidecarKey in objects && objects[sidecarKey] == AuditExport.AttestationBody(key) then f.document(key)
             else Malformed)
  }

  predicate Collectable(objects: AuditExport.Objects, key: string) {
    key in objects && objects[key].SegmentBody? && ExportKeys.SignatureKey(key) in objects
  }

  predicate AllCollectable(objects: AuditExport.Objects, keys: seq<string>) {
    forall i :: 0 <= i < |keys| ==> Collectable(objects, keys[i])
  }

  function FiledAll(f: Filing, objects: AuditExport.Objects, keys: seq<string>): (r: seq<Evidence>)
    requires AllCollectable(objects, keys)
    ensures |r| == |keys| && forall i :: 0 <= i < |keys| ==> r[i] == Filed(f, objects, keys[i])
  {
    seq(|keys|, i requires 0 <= i < |keys| => Filed(f, objects, keys[i]))
  }

  /** `collect_evidence`: one item per segment key in listing order, or nothing when
      a segment or a sidecar is missing. */
  method CollectEvidence(f: Filing, chain: string, objects: AuditExport.Objects) returns (r: Option<seq<Evidence>>)
    ensures var keys := AuditExport.SegmentKeys(chain, objects);
            r == if AllCollectable(objects, keys) then Some(FiledAll(f, objects, keys)) else None
  {
    var keys := AuditExport.SegmentKeys(chain, objects);
    hide AuditExport.SegmentKeys;
    var evidence: seq<Evidence> := [];
    for i := 0 to |keys|
      invariant |evidence| == i
      invariant forall j :: 0 <= j < i ==> Collectable(objects, keys[j]) && evidence[j] == Filed(f, objects, keys[j])
    {
      if !Collectable(objects, keys[i]) { return None; }
      evidence := evidence + [Filed(f, objects, keys[i])];
    }
    assert AllCollectable(objects, keys) && evidence == FiledAll(f, objects, keys);
    return Some(evidence);
  }

  /** The signer did what it was asked: each stored segment's document is a genuine
      attestation of it. */
  ghost predicate HonestSigner(
    enc: Encoding, f: Filing, objects: AuditExport.Objects, keyring: Keyring, bucket: string, chain: string)
  {
    forall k :: k in objects && AuditExport.IsSegmentKey(chain, k) && objects[k].SegmentBody? ==>
      GenuineItem(enc, Evidence(k, f.version(k), objects[k].segment, f.document(k)), keyring, bucket, chain)
  }

  lemma FiledIsGenuine(
    enc: Encoding, f: Filing, keyring: Keyring, bucket: string, chain: string, log: seq<Event>,
    objects: AuditExport.Objects, cuts: seq<nat>, i: nat)
    requires AuditExport.Archived(chain, log, objects, cuts) && AuditExport.AllAttested(chain, objects)
    requires HonestSigner(enc, f, objects, keyring, bucket, chain) && i + 1 < |cuts|
    ensures |AuditExport.SegmentKeys(chain, objects)| == |cuts| - 1
    ensures var key := AuditExport.SegmentKeys(chain, objects)[i];
            && Collectable(objects, key) && GenuineItem(enc, Filed(f, objects, key), keyring, bucket, chain)
            && Filed(f, objects, key).body == AuditExport.RangeSegment(chain, log, cuts, i)
  {
    StoredRange(chain, log, objects, cuts, i);
    hide AuditExport.Archived, AuditExport.AllAttested, AuditExport.SegmentKeys, GenuineItem, AuditExport.IsSegmentKey;
  }

  lemma CollectedIsAuthentic(
    enc: Encoding, f: Filing, keyring: Keyring, bucket: string, chain: string, log: seq<Event>,
    objects: AuditExport.Objects, cuts: seq<nat>, keys: seq<string>)
    requires DigestInjective(enc) && IsLog(log) && keys == AuditExport.SegmentKeys(chain, objects)
    requires AuditExport.Archived(chain, log, objects, cuts) && AuditExport.AllAttested(chain, objects)
    requires HonestSigner(enc, f, objects, keyring, bucket, chain)
    ensures AllCollectable(objects, keys)
    ensures var p := AdvanceAll(enc, FiledAll(f, objects, keys), keyring, bucket, chain, GENESIS_HASH);
            p.problem.None? && p.events == p.lastSequence == AuditExport.HighWater(cuts)
  {
    assert |keys| == |cuts| - 1 && AuditExport.AreCuts(cuts, |log|);
    hide AuditExport.Archived, AuditExport.AllAttested, AuditExport.SegmentKeys, GenuineItem, IsLog, DigestInjective,
         AuditExport.AreCuts, AdvanceAll, AuditExport.RangeSegment, Collectable, Filed, HonestSigner;
    forall i | 0 <= i < |keys|
      ensures Collectable(objects, keys[i]) && GenuineItem(enc, Filed(f, objects, keys[i]), keyring, bucket, chain)
           && Filed(f, objects, keys[i]).body == AuditExport.RangeSegment(chain, log, cuts, i)
    {
      FiledIsGenuine(enc, f, keyring, bucket, chain, log, objects, cuts, i);
    }
    var items := FiledAll(f, objects, keys);
    hide FiledAll;
    assert items[..|items|] == items;
    SignedArchiveIsAuthentic(enc, log, objects, cuts, items, keyring, bucket, chain, |items|);
  }

  /** After any schedule of completed signed exports the evidence can be collected
      from the store, and it is authentic up to the last exported event. */
  lemma SignedExportIsAuthentic(
    enc: Encoding, f: Filing, keyring: Keyring, bucket: string, chain: string, log: seq<Event>,
    steps: seq<AuditExport.Step>) returns (exported: nat)
    requires DigestInjective(enc) && AuditExport.InRange(log) && !PythonText.Blank(chain)
    requires AuditExport.SignedAndCompleted(chain, log, steps)
    requires HonestSigner(enc, f, AuditExport.Run(chain, steps), keyring, bucket, chain)
    ensures var objects := AuditExport.Run(chain, steps);
            var keys := AuditExport.SegmentKeys(chain, objects);
            && AuditExport.LastExported(chain, objects) == Some(exported) && AllCollectable(objects, keys)
            && var p := AdvanceAll(enc, FiledAll(f, objects, keys), keyring, bucket, chain, GENESIS_HASH);
               p.problem.None? && p.events == p.lastSequence == exported
  {
    var objects := AuditExport.Run(chain, steps);
    var cuts := AuditExport.SignedRunsAttestEverything(chain, log, steps);
    exported := AuditExport.HighWater(cuts);
    AuditExport.ResumesAtHighWater(chain, log, objects, cuts);
    hide AuditExport.Archived, AuditExport.Run, AuditExport.SegmentKeys, AuditExport.AllAttested, HonestSigner;
    CollectedIsAuthentic(enc, f, keyring, bucket, chain, log, objects, cuts, AuditExport.SegmentKeys(chain, objects));
  }

  lemma StoredRange(chain: string, log: seq<Event>, objects: AuditExport.Objects, cuts: seq<nat>, i: nat)
    requires AuditExport.Archived(chain, log, objects, cuts) && AuditExport.AllAttested(chain, objects) && i + 1 < |cuts|
    ensures var keys := AuditExport.SegmentKeys(chain, objects);
            && |keys| == |cuts| - 1 && keys[i] in objects && AuditExport.IsSegmentKey(chain, keys[i])
            && objects[keys[i]] == AuditExport.SegmentBody(AuditExport.RangeSegment(chain, log, cuts, i))
            && ExportKeys.SignatureKey(keys[i]) in objects
            && objects[ExportKeys.SignatureKey(keys[i])] == AuditExport.AttestationBody(keys[i])
  {
    var key := AuditExport.RangeKey(chain, cuts, i);
    assert AuditExport.RangeKeys(chain, cuts)[i] == key;
    ExportKeys.SegmentKeyIsNoSidecar(chain, cuts[i] + 1, cuts[i + 1]);
  }
}
