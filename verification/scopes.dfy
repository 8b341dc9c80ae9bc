/** Capability scopes over file paths: which paths a grant covers, on the control
    plane and again on the node. */
module Scopes {
  import opened Outcomes
  import opened PosixPaths

  datatype Platform = Linux | Windows | MacOs | Unknown

  /** Windows path rules are not modelled; they enter as functions. */
  datatype WindowsRules = WindowsRules(normalize: string -> Result<Path, PathError>, lower: string -> string)

  const MAX_FILE_READ_BYTES := 200_000
  const MAX_FILE_WRITE_BYTES := 262_144

  datatype Scope =
    | ReadScope(roots: seq<string>, maxBytes: int, platform: Platform)
    | WriteScope(roots: seq<string>, maxBytes: int, allowOverwrite: bool, platform: Platform)

  function NormalizeOn(w: WindowsRules, raw: string, platform: Platform): Result<Path, PathError> {
    if platform.Windows? then w.normalize(raw) else Normalize(raw)
  }

  function Folded(w: WindowsRules, parts: seq<string>): seq<string> {
    seq(|parts|, i requires 0 <= i < |parts| => w.lower(parts[i]))
  }

  function Comparable(w: WindowsRules, p: Path, platform: Platform): seq<string> {
    if platform.Windows? then Folded(w, p.Parts()) else p.Parts()
  }

  /** Component by component, not by string prefix. */
  predicate IsWithin(w: WindowsRules, root: Path, candidate: Path, platform: Platform) {
    Comparable(w, root, platform) <= Comparable(w, candidate, platform)
  }

  // ----- Well-formed scopes ------------------------------------------------------------

  predicate ValidRoot(w: WindowsRules, root: string, platform: Platform) {
    NormalizeOn(w, root, platform).Ok? && |NormalizeOn(w, root, platform).value.Parts()| > 1
  }

  /** What constructing the scope insists on. */
  predicate Valid(w: WindowsRules, s: Scope) {
    && s.roots != []
    && 1 <= s.maxBytes <= (if s.ReadScope? then MAX_FILE_READ_BYTES else MAX_FILE_WRITE_BYTES)
    && forall i :: 0 <= i < |s.roots| ==> ValidRoot(w, s.roots[i], s.platform)
  }

  function RootAt(w: WindowsRules, s: Scope, i: nat): Path
    requires Valid(w, s) && i < |s.roots|
  {
    NormalizeOn(w, s.roots[i], s.platform).value
  }

  /** Index of the first granted root that contains the path, from `i` on. */
  function FirstRoot(w: WindowsRules, s: Scope, candidate: Path, i: nat): (r: Option<nat>)
    requires Valid(w, s) && i <= |s.roots|
    ensures r.Some? ==> i <= r.value < |s.roots| && IsWithin(w, RootAt(w, s, r.value), candidate, s.platform)
    ensures r.Some? ==> forall j :: i <= j < r.value ==> !IsWithin(w, RootAt(w, s, j), candidate, s.platform)
    ensures r.None? ==> forall j :: i <= j < |s.roots| ==> !IsWithin(w, RootAt(w, s, j), candidate, s.platform)
    decreases |s.roots| - i
  {
    if i == |s.roots| then None
    else if IsWithin(w, RootAt(w, s, i), candidate, s.platform) then Some(i)
    else FirstRoot(w, s, candidate, i + 1)
  }

  /** What `resolve` returns: the normalised path, if the first root containing it
      exists and, for writing, is not the path itself. */
  function Resolved(w: WindowsRules, s: Scope, raw: string): Result<Path, PathError>
    requires Valid(w, s)
  {
    match NormalizeOn(w, raw, s.platform)
    case Err(e) => Err(e)
    case Ok(candidate) =>
      match FirstRoot(w, s, candidate, 0)
      case None => Err(NotAllowed)
      case Some(i) =>
        if s.WriteScope? && candidate.Parts() == RootAt(w, s, i).Parts() then Err(NotAllowed) else Ok(candidate)
  }

  method ResolveInScope(w: WindowsRules, s: Scope, raw: string) returns (r: Result<Path, PathError>)
    requires Valid(w, s)
    ensures r == Resolved(w, s, raw)
  {
    var candidate := NormalizeOn(w, raw, s.platform);
    if candidate.Err? { return Err(candidate.error); }
    for i := 0 to |s.roots|
      invariant FirstRoot(w, s, candidate.value, 0) == FirstRoot(w, s, candidate.value, i)
    {
      var root := RootAt(w, s, i);
      if IsWithin(w, root, candidate.value, s.platform) {
        if s.WriteScope? && candidate.value.Parts() == root.Parts() {
          return Err(NotAllowed);
        }
        return Ok(candidate.value);
      }
    }
    return Err(NotAllowed);
  }

  /** The node's own search for the root of an accepted path. */
  method ContainingRoot(w: WindowsRules, s: Scope, target: Path) returns (r: Option<Path>)
    requires Valid(w, s)
    ensures r.Some? <==> FirstRoot(w, s, target, 0).Some?
    ensures r.Some? ==> r.value == RootAt(w, s, FirstRoot(w, s, target, 0).value)
  {
    hide IsWithin, Valid, RootAt, NormalizeOn, Path.Parts;
    for i := 0 to |s.roots|
      invariant FirstRoot(w, s, target, 0) == FirstRoot(w, s, target, i)
    {
      var candidate := RootAt(w, s, i);
      var n := |candidate.Parts()|;
      var prefix := if n <= |target.Parts()| then target.Parts()[..n] else target.Parts();
      PrefixTest(w, candidate, target, s.platform);
      if s.platform.Windows? {
        if Folded(w, prefix) == Folded(w, candidate.Parts()) { return Some(candidate); }
      } else if prefix == candidate.Parts() {
        return Some(candidate);
      }
    }
    return None;
  }

  /** Comparing a cut-off prefix and asking for containment are the same test. */
  lemma PrefixTest(w: WindowsRules, root: Path, target: Path, platform: Platform)
    ensures var n := |root.Parts()|;
            var prefix := if n <= |target.Parts()| then target.Parts()[..n] else target.Parts();
            IsWithin(w, root, target, platform) <==>
              if platform.Windows? then Folded(w, prefix) == Folded(w, root.Parts()) else prefix == root.Parts()
  {
  }

  /** Below the root: `target.parts[len(root.parts):]`. */
  function RelativeParts(root: Path, target: Path): seq<string> {
    if |root.Parts()| <= |target.Parts()| then target.Parts()[|root.Parts()|..] else []
  }

  /** On POSIX an accepted path is a granted root followed by plain child steps,
      the node finds that root again, and a write names something below it. */
  lemma AcceptedPathIsBelowRoot(w: WindowsRules, s: Scope, raw: string) returns (i: nat)
    requires Valid(w, s) && !s.platform.Windows? && Resolved(w, s, raw).Ok?
    ensures i < |s.roots| && FirstRoot(w, s, Resolved(w, s, raw).value, 0) == Some(i)
    ensures var root, target := RootAt(w, s, i), Resolved(w, s, raw).value;
            && target.anchor == root.anchor && Clean(target.names) && Clean(root.names) && root.names != []
            && target.names == root.names + RelativeParts(root, target)
            && (s.WriteScope? ==> RelativeParts(root, target) != [])
  {
    var target := Resolved(w, s, raw).value;
    i := FirstRoot(w, s, target, 0).value;
    assert ValidRoot(w, s.roots[i], s.platform);
    NormalizedIsClean(raw);
    NormalizedIsClean(s.roots[i]);
    BelowRoot(RootAt(w, s, i), target);
  }

  lemma BelowRoot(root: Path, target: Path)
    requires root.anchor != "" && target.anchor != "" && root.Parts() <= target.Parts()
    ensures target.anchor == root.anchor && target.names == root.names + RelativeParts(root, target)
    ensures RelativeParts(root, target) == [] ==> target.Parts() == root.Parts()
  {
    var n := |root.names|;
    assert target.Parts()[0] == root.Parts()[0];
    assert target.Parts()[n + 1..] == target.names[n..];
    assert target.Parts()[1..n + 1] == target.names[..n];
    assert root.Parts()[1..n + 1] == root.names;
  }

  /** A path is accepted exactly when it normalises into some root and, for
      writing, the first such root is not the path itself. */
  lemma AcceptsExactly(w: WindowsRules, s: Scope, raw: string)
    requires Valid(w, s)
    ensures Resolved(w, s, raw).Ok? <==>
              && NormalizeOn(w, raw, s.platform).Ok?
              && exists j :: 0 <= j < |s.roots| && AdmittedBy(w, s, NormalizeOn(w, raw, s.platform).value, j)
    ensures Resolved(w, s, raw).Ok? ==> Resolved(w, s, raw).value == NormalizeOn(w, raw, s.platform).value
  {
    if NormalizeOn(w, raw, s.platform).Ok? {
      FirstRootDecides(w, s, NormalizeOn(w, raw, s.platform).value);
    }
    hide Valid, AdmittedBy, NormalizeOn, RootAt, FirstRoot, Path.Parts;
  }

  lemma FirstRootDecides(w: WindowsRules, s: Scope, candidate: Path)
    requires Valid(w, s)
    ensures var first := FirstRoot(w, s, candidate, 0);
            (exists j :: 0 <= j < |s.roots| && AdmittedBy(w, s, candidate, j)) <==>
              first.Some? && !(s.WriteScope? && candidate.Parts() == RootAt(w, s, first.value).Parts())
  {
    hide Valid, IsWithin, NormalizeOn, RootAt, FirstRoot, Path.Parts;
    var first := FirstRoot(w, s, candidate, 0);
    if first.Some? && !(s.WriteScope? && candidate.Parts() == RootAt(w, s, first.value).Parts()) {
      assert AdmittedBy(w, s, candidate, first.value);
    }
    if j :| 0 <= j < |s.roots| && AdmittedBy(w, s, candidate, j) {
      assert s.WriteScope? ==> first == Some(j);
    }
  }

  /** Root `j` contains the path, and a write goes strictly below the first such root. */
  predicate AdmittedBy(w: WindowsRules, s: Scope, candidate: Path, j: nat)
    requires Valid(w, s) && j < |s.roots|
  {
    && IsWithin(w, RootAt(w, s, j), candidate, s.platform)
    && (s.WriteScope? ==>
          && candidate.Parts() != RootAt(w, s, j).Parts()
          && forall i :: 0 <= i < j ==> !IsWithin(w, RootAt(w, s, i), candidate, s.platform))
  }

  // ----- Scope documents ---------------------------------------------------------------------

  const FILE_READ := "fs.read@1"
  const FILE_LIST := "fs.list@1"
  const FILE_WRITE := "fs.write@1"

  datatype NumberField = Absent | Number(value: int) | NotANumber

  /** A scope as it is submitted and as it is stored; `roots` is `None` when it is
      missing or not a list. */
  datatype ScopeDocument = ScopeDocument(roots: Option<seq<string>>, maxBytes: NumberField, allowOverwrite: bool)

  predicate RequiresScope(capability: string) {
    capability in {FILE_READ, FILE_LIST, FILE_WRITE}
  }

  /** `from_mapping` of the scope class the capability uses, validation included. */
  function Build(w: WindowsRules, capability: string, d: ScopeDocument, platform: Platform): (r: Option<Scope>)
    ensures r.Some? ==> Valid(w, r.value) && r.value.platform == platform
  {
    if d.roots.None? || d.roots.value == [] || d.maxBytes.NotANumber? then None
    else
      var scope :=
        if capability == FILE_WRITE then
          WriteScope(d.roots.value, if d.maxBytes.Number? then d.maxBytes.value else MAX_FILE_WRITE_BYTES,
                     d.allowOverwrite, platform)
        else
          ReadScope(d.roots.value, if d.maxBytes.Number? then d.maxBytes.value else MAX_FILE_READ_BYTES, platform);
      if Valid(w, scope) then Some(scope) else None
  }

  function ToDocument(s: Scope): ScopeDocument {
    ScopeDocument(Some(s.roots), Number(s.maxBytes), if s.WriteScope? then s.allowOverwrite else false)
  }

  /** Reading back a stored scope gives the scope that was stored. */
  lemma DocumentRoundTrip(w: WindowsRules, capability: string, d: ScopeDocument, platform: Platform)
    requires Build(w, capability, d, platform).Some?
    ensures Build(w, capability, ToDocument(Build(w, capability, d, platform).value), platform)
         == Build(w, capability, d, platform)
  {
  }

  type Documents = map<string, ScopeDocument>

  predicate AllBuild(w: WindowsRules, documents: Documents, platform: Platform) {
    forall c :: c in documents ==> RequiresScope(c) && Build(w, c, documents[c], platform).Some?
  }

  function Canonical(w: WindowsRules, documents: Documents, platform: Platform): Documents
    requires AllBuild(w, documents, platform)
  {
    map c | c in documents :: ToDocument(Build(w, c, documents[c], platform).value)
  }

  /** `_encode_scopes`: every document is rebuilt through its typed scope, and one
      that cannot be is refused. */
  method EncodeScopes(w: WindowsRules, documents: Documents, platform: Platform) returns (r: Option<Documents>)
    ensures r.Some? <==> AllBuild(w, documents, platform)
    ensures r.Some? ==> r.value == Canonical(w, documents, platform) && AllBuild(w, r.value, platform)
  {
    var encoded: Documents := map[];
    var remaining := documents.Keys;
    while remaining != {}
      invariant remaining <= documents.Keys && encoded.Keys == documents.Keys - remaining
      invariant forall c :: c in encoded ==>
        RequiresScope(c) && Build(w, c, documents[c], platform).Some?
        && encoded[c] == ToDocument(Build(w, c, documents[c], platform).value)
      decreases remaining
    {
      var c :| c in remaining;
      var scope := Build(w, c, documents[c], platform);
      if !RequiresScope(c) || scope.None? {
        return None;
      }
      encoded := encoded[c := ToDocument(scope.value)];
      remaining := remaining - {c};
    }
    CanonicalBuilds(w, documents, platform);
    return Some(encoded);
  }

  /** Stored scopes parse on the platform they were encoded for, to what was meant. */
  lemma CanonicalBuilds(w: WindowsRules, documents: Documents, platform: Platform)
    requires AllBuild(w, documents, platform)
    ensures AllBuild(w, Canonical(w, documents, platform), platform)
    ensures forall c :: c in documents ==>
              Build(w, c, Canonical(w, documents, platform)[c], platform) == Build(w, c, documents[c], platform)
  {
  }

  /** `parse_scopes`: `None` where a stored file scope no longer builds; scopes of
      unknown capabilities are ignored. */
  function ParseScopes(w: WindowsRules, documents: Documents, platform: Platform): Option<map<string, Scope>> {
    if forall c :: c in documents && RequiresScope(c) ==> Build(w, c, documents[c], platform).Some? then
      Some(map c | c in documents && RequiresScope(c) :: Build(w, c, documents[c], platform).value)
    else None
  }

  datatype Parameters = Parameters(path: Option<string>, maxBytes: NumberField)

  /** `assert_scoped_dispatch`: whether it lets the request pass. */
  predicate ScopedDispatch(w: WindowsRules, capability: string, scopes: map<string, Scope>, p: Parameters)
    requires forall c :: c in scopes ==> Valid(w, scopes[c])
  {
    RequiresScope(capability) ==>
      && capability in scopes && p.path.Some?
      && Resolved(w, scopes[capability], p.path.value).Ok?
      && (p.maxBytes.Absent? || (p.maxBytes.Number? && 1 <= p.maxBytes.value <= scopes[capability].maxBytes))
  }
}
