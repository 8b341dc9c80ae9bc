/** The bounded execution-graph compiler: validation, the layered topological
    sort and the digest over its result. */
module GraphCompiler {
  import opened Outcomes
  import opened PythonText
  import opened Lexical

  datatype GraphNode = GraphNode(
    nodeId: string,
    operation: string,
    dependsOn: seq<string>,
    sideEffecting: bool,
    trustLabels: seq<string>,
    timeoutSeconds: int,
    maximumAttempts: int)

  /** What the digest covers, before encoding and hashing. */
  datatype CanonicalGraph = CanonicalGraph(
    jobId: string, maximumFanOut: int, maximumNodes: int, nodes: seq<GraphNode>)

  datatype CompiledGraph = CompiledGraph(
    jobId: string, nodes: seq<GraphNode>, maximumNodes: int, maximumFanOut: int, digest: string)

  datatype CompileError =
    | EmptyJobId
    | NodeLimitOutOfRange
    | FanOutLimitOutOfRange
    | NodeBoundExceeded
    | DuplicateIdentity
    | UnknownDependency
    | FanOutExceeded
    | DependencyCycle

  type Graph = map<string, GraphNode>

  // ----- Dependency structure -------------------------------------------

  function DependencySet(node: GraphNode): set<string> {
    set d | d in node.dependsOn
  }

  /** Nodes are filed under their own identity and depend on known nodes only. */
  predicate WellFormed(g: Graph) {
    forall v :: v in g ==> g[v].nodeId == v && DependencySet(g[v]) <= g.Keys
  }

  /** `p` follows dependency edges from each element to the next. */
  ghost predicate IsPath(g: Graph, p: seq<string>) {
    && (forall i :: 0 <= i < |p| ==> p[i] in g)
    && (forall i :: 0 <= i < |p| - 1 ==> p[i + 1] in g[p[i]].dependsOn)
  }

  ghost predicate IsCycle(g: Graph, p: seq<string>) {
    |p| >= 2 && IsPath(g, p) && p[0] == p[|p| - 1]
  }

  ghost predicate Acyclic(g: Graph) {
    forall p :: !IsCycle(g, p)
  }

  /** Some chain of `k` dependency edges starts at `v`. */
  ghost predicate HasChain(g: Graph, v: string, k: nat)
    requires WellFormed(g) && v in g
    decreases k
  {
    k == 0 || exists d :: d in g[v].dependsOn && HasChain(g, d, k - 1)
  }

  /** `k` is the length of the longest dependency chain starting at `v`. */
  ghost predicate DepthIs(g: Graph, v: string, k: nat)
    requires WellFormed(g) && v in g
  {
    HasChain(g, v, k) && !HasChain(g, v, k + 1)
  }

  ghost predicate HasDepth(g: Graph, v: string)
    requires WellFormed(g) && v in g
  {
    exists k: nat :: DepthIs(g, v, k)
  }

  /** Order by (longest dependency chain, identity). */
  ghost predicate Precedes(g: Graph, u: string, v: string)
    requires WellFormed(g) && u in g && v in g
  {
    exists j: nat, k: nat :: DepthIs(g, u, j) && DepthIs(g, v, k) && (j < k || (j == k && Less(u, v)))
  }

  ghost predicate SortedByDepth(g: Graph, ids: seq<string>)
    requires WellFormed(g)
  {
    && (forall i :: 0 <= i < |ids| ==> ids[i] in g && HasDepth(g, ids[i]))
    && (forall i, j :: 0 <= i < j < |ids| ==> Precedes(g, ids[i], ids[j]))
  }

  function Lookup(g: Graph, ids: seq<string>): (r: seq<GraphNode>)
    requires forall v :: v in ids ==> v in g
  {
    seq(|ids|, i requires 0 <= i < |ids| => g[ids[i]])
  }

  /** `ordered` lists every node of `g` once, by (longest chain, identity). */
  ghost predicate CanonicalOrder(g: Graph, ordered: seq<GraphNode>)
    requires WellFormed(g)
  {
    exists ids :: SortedByDepth(g, ids) && (forall v :: v in g ==> v in ids) && ordered == Lookup(g, ids)
  }

  // ----- Chains and depths ----------------------------------------------

  lemma {:induction false} ChainShortens(g: Graph, v: string, j: nat, k: nat)
    requires WellFormed(g) && v in g && j <= k && HasChain(g, v, k)
    ensures HasChain(g, v, j)
    decreases j
  {
    if j > 0 {
      var d :| d in g[v].dependsOn && HasChain(g, d, k - 1);
      ChainShortens(g, d, j - 1, k - 1);
    }
  }

  lemma DepthUnique(g: Graph, v: string, j: nat, k: nat)
    requires WellFormed(g) && v in g && DepthIs(g, v, j) && DepthIs(g, v, k)
    ensures j == k
  {
    if j < k {
      ChainShortens(g, v, j + 1, k);
    } else if k < j {
      ChainShortens(g, v, k + 1, j);
    }
  }

  lemma {:induction false} DepthBelow(g: Graph, v: string, k: nat) returns (j: nat)
    requires WellFormed(g) && v in g && !HasChain(g, v, k)
    ensures j < k && DepthIs(g, v, j)
    decreases k
  {
    if HasChain(g, v, k - 1) {
      j := k - 1;
    } else {
      j := DepthBelow(g, v, k - 1);
    }
  }

  lemma PrecedesAsymmetric(g: Graph, u: string, v: string)
    requires WellFormed(g) && u in g && v in g && Precedes(g, u, v)
    ensures u != v && !Precedes(g, v, u)
  {
    var j: nat, k: nat :| DepthIs(g, u, j) && DepthIs(g, v, k) && (j < k || (j == k && Less(u, v)));
    Irreflexive(u);
    if u == v {
      DepthUnique(g, u, j, k);
    }
    if Precedes(g, v, u) {
      var k': nat, j': nat :| DepthIs(g, v, k') && DepthIs(g, u, j') && (k' < j' || (k' == j' && Less(v, u)));
      DepthUnique(g, u, j, j');
      DepthUnique(g, v, k, k');
      Transitive(u, v, u);
    }
  }

  /** The order by (longest chain, identity) leaves no choice. */
  lemma {:induction false} SortedByDepthUnique(g: Graph, a: seq<string>, b: seq<string>)
    requires WellFormed(g) && SortedByDepth(g, a) && SortedByDepth(g, b)
    requires forall v :: v in a <==> v in b
    ensures a == b
  {
    assert b != [] ==> b[0] in b;
    if a != [] {
      assert a[0] in b && b[0] in a;
      var i :| 0 <= i < |a| && a[i] == b[0];
      var j :| 0 <= j < |b| && b[j] == a[0];
      if i > 0 && j > 0 {
        PrecedesAsymmetric(g, a[0], b[0]);
      }
      assert a[0] == b[0];
      TailOfSorted(g, a);
      TailOfSorted(g, b);
      SortedByDepthUnique(g, a[1..], b[1..]);
    }
  }

  lemma TailOfSorted(g: Graph, a: seq<string>)
    requires WellFormed(g) && a != [] && SortedByDepth(g, a)
    ensures SortedByDepth(g, a[1..])
    ensures forall v :: v in a[1..] <==> v in a && v != a[0]
  {
    forall i | 1 <= i < |a| ensures a[i] != a[0] {
      PrecedesAsymmetric(g, a[0], a[i]);
    }
    assert a == [a[0]] + a[1..];
  }

  lemma CanonicalOrderUnique(g: Graph, a: seq<GraphNode>, b: seq<GraphNode>)
    requires WellFormed(g) && CanonicalOrder(g, a) && CanonicalOrder(g, b)
    ensures a == b
  {
    var x :| SortedByDepth(g, x) && (forall v :: v in g ==> v in x) && a == Lookup(g, x);
    var y :| SortedByDepth(g, y) && (forall v :: v in g ==> v in y) && b == Lookup(g, y);
    SortedByDepthUnique(g, x, y);
  }

  /** A canonical order puts every dependency before the nodes that need it. */
  lemma DependenciesComeFirst(g: Graph, ordered: seq<GraphNode>, i: nat, d: string)
    requires WellFormed(g) && CanonicalOrder(g, ordered)
    requires i < |ordered| && d in ordered[i].dependsOn
    ensures exists j :: 0 <= j < i && ordered[j].nodeId == d
  {
    var ids :| SortedByDepth(g, ids) && (forall v :: v in g ==> v in ids) && ordered == Lookup(g, ids);
    assert d in DependencySet(g[ids[i]]);
    var j :| 0 <= j < |ids| && ids[j] == d;
    NeverBeforeOwnDependency(g, ids[i], d);
    assert j < i;
    assert ordered[j].nodeId == d;
  }

  lemma NeverBeforeOwnDependency(g: Graph, v: string, d: string)
    requires WellFormed(g) && v in g && d in g[v].dependsOn
    ensures d in g && !Precedes(g, v, d)
    ensures v == d ==> !HasDepth(g, v)
  {
    assert d in DependencySet(g[v]);
    if Precedes(g, v, d) {
      var j: nat, k: nat :| DepthIs(g, v, j) && DepthIs(g, d, k) && (j < k || (j == k && Less(v, d)));
      assert HasChain(g, v, k + 1);
      ChainShortens(g, v, j + 1, k + 1);
    }
  }

  // ----- Cycles ------------------------------------------------------------

  /** From any point of a cycle there are chains of every length. */
  lemma {:induction false} CycleHasChains(g: Graph, p: seq<string>, i: nat, n: nat)
    requires WellFormed(g) && IsCycle(g, p) && i < |p|
    ensures HasChain(g, p[i], n)
    decreases n
  {
    if n > 0 {
      var next := if i == |p| - 1 then 1 else i + 1;
      assert p[next] in g[p[i]].dependsOn;
      CycleHasChains(g, p, next, n - 1);
    }
  }

  lemma BoundedChainsMeanAcyclic(g: Graph, k: nat)
    requires WellFormed(g) && forall v :: v in g ==> !HasChain(g, v, k)
    ensures Acyclic(g)
  {
    forall p ensures !IsCycle(g, p) {
      if IsCycle(g, p) {
        CycleHasChains(g, p, 0, k);
      }
    }
  }

  /** Every node of `stuck` depends on some node of `stuck`. */
  ghost predicate Stuck(g: Graph, stuck: set<string>) {
    stuck <= g.Keys && forall v {:trigger Blocked(g, stuck, v)} :: v in stuck ==> Blocked(g, stuck, v)
  }

  ghost predicate Blocked(g: Graph, stuck: set<string>, v: string) {
    v in g && exists d :: d in g[v].dependsOn && d in stuck
  }

  lemma {:induction false} WalkInside(g: Graph, stuck: set<string>, v: string, n: nat) returns (p: seq<string>)
    requires Stuck(g, stuck) && v in stuck
    ensures |p| == n + 1 && p[0] == v && IsPath(g, p)
    ensures forall i :: 0 <= i < |p| ==> p[i] in stuck
    decreases n
  {
    p := [v];
    if n > 0 {
      assert Blocked(g, stuck, v);
      var d :| d in g[v].dependsOn && d in stuck;
      var rest := WalkInside(g, stuck, d, n - 1);
      p := p + rest;
    }
  }

  ghost predicate Distinct(p: seq<string>) {
    forall i, j :: 0 <= i < j < |p| ==> p[i] != p[j]
  }

  lemma {:induction false} DistinctFits(p: seq<string>, s: set<string>)
    requires Distinct(p) && forall i :: 0 <= i < |p| ==> p[i] in s
    ensures |p| <= |s|
  {
    if p != [] {
      DistinctFits(p[1..], s - {p[0]});
    }
  }

  /** A walk longer than the set it stays in visits some node twice. */
  lemma WalkRepeats(p: seq<string>, s: set<string>) returns (i: nat, j: nat)
    requires |p| > |s| && forall i :: 0 <= i < |p| ==> p[i] in s
    ensures i < j < |p| && p[i] == p[j]
  {
    if Distinct(p) {
      DistinctFits(p, s);
    }
    i, j :| 0 <= i < j < |p| && p[i] == p[j];
  }

  /** A non-empty set of mutually blocked nodes contains a cycle. */
  lemma StuckMeansCycle(g: Graph, stuck: set<string>)
    requires Stuck(g, stuck) && stuck != {}
    ensures !Acyclic(g)
  {
    var v :| v in stuck;
    var p := WalkInside(g, stuck, v, |stuck|);
    var i, j := WalkRepeats(p, stuck);
    LoopIsCycle(g, p, i, j);
  }

  lemma LoopIsCycle(g: Graph, p: seq<string>, i: nat, j: nat)
    requires IsPath(g, p) && i < j < |p| && p[i] == p[j]
    ensures IsCycle(g, p[i..j + 1])
  {
  }

  // ----- The sort --------------------------------------------------------

  /** What `remaining` holds once the nodes with chains shorter than `k` are placed. */
  ghost predicate LayerState(g: Graph, remaining: map<string, set<string>>, k: nat)
    requires WellFormed(g)
  {
    && remaining.Keys <= g.Keys
    && (forall v :: v in g ==> (v in remaining <==> HasChain(g, v, k)))
    && (forall v :: v in remaining ==>
          remaining[v] == set d | d in g[v].dependsOn && HasChain(g, d, k))
  }

  ghost predicate Placed(g: Graph, ids: seq<string>, k: nat)
    requires WellFormed(g)
  {
    SortedByDepth(g, ids) && forall v :: v in g ==> (v in ids <==> !HasChain(g, v, k))
  }

  function Ready(remaining: map<string, set<string>>): set<string> {
    set v | v in remaining && remaining[v] == {}
  }

  function Strip(remaining: map<string, set<string>>, ready: set<string>): map<string, set<string>> {
    map v | v in remaining && v !in ready :: remaining[v] - ready
  }

  /** Kahn's algorithm by layers: succeeds exactly on acyclic graphs, and then
      with the one order by (longest dependency chain, identity). */
  method TopologicalOrder(byId: Graph) returns (r: Option<seq<GraphNode>>)
    requires WellFormed(byId)
    ensures r.Some? <==> Acyclic(byId)
    ensures r.Some? ==> CanonicalOrder(byId, r.value)
  {
    hide LayerState, Placed, Acyclic, CanonicalOrder;
    var remaining := map v | v in byId :: DependencySet(byId[v]);
    var ordered: seq<GraphNode> := [];
    ghost var ids: seq<string> := [];
    ghost var k: nat := 0;
    FirstLayer(byId, remaining);
    while remaining != map[]
      invariant LayerState(byId, remaining, k)
      invariant Placed(byId, ids, k)
      invariant forall v :: v in ids ==> v in byId
      invariant ordered == Lookup(byId, ids)
      decreases remaining.Keys
    {
      var ready := Sorted(Ready(remaining));
      if ready == [] {
        BlockedLayer(byId, remaining, k);
        return None;
      }
      Advance(byId, remaining, ids, ready, k);
      ordered, remaining := PlaceLayer(byId, ordered, remaining, ready);
      ids := ids + ready;
      k := k + 1;
    }
    LastLayer(byId, ids, k);
    return Some(ordered);
  }

  /** Append the ready nodes, drop them, and drop them as dependencies. */
  method PlaceLayer(byId: Graph, placed: seq<GraphNode>, before: map<string, set<string>>, ready: seq<string>)
    returns (ordered: seq<GraphNode>, remaining: map<string, set<string>>)
    requires forall v :: v in ready ==> v in byId
    requires forall v :: v in ready <==> v in Ready(before)
    ensures ordered == placed + Lookup(byId, ready)
    ensures remaining == Strip(before, Ready(before))
  {
    ordered, remaining := placed, before;
    for i := 0 to |ready|
      invariant ordered == placed + Lookup(byId, ready[..i])
      invariant remaining == before - (set v | v in ready[..i])
    {
      ordered := ordered + [byId[ready[i]]];
      remaining := remaining - {ready[i]};
      assert ready[..i + 1] == ready[..i] + [ready[i]];
    }
    assert ready[..|ready|] == ready;
    var placedIds := set v | v in ready;
    assert placedIds == Ready(before);
    remaining := map v | v in remaining :: remaining[v] - placedIds;
  }

  lemma FirstLayer(g: Graph, remaining: map<string, set<string>>)
    requires WellFormed(g) && remaining == map v | v in g :: DependencySet(g[v])
    ensures LayerState(g, remaining, 0) && Placed(g, [], 0)
  {
  }

  lemma LastLayer(g: Graph, ids: seq<string>, k: nat)
    requires WellFormed(g) && LayerState(g, map[], k) && Placed(g, ids, k)
    ensures (forall v :: v in ids ==> v in g) && Acyclic(g) && CanonicalOrder(g, Lookup(g, ids))
  {
    BoundedChainsMeanAcyclic(g, k);
    assert forall v :: v in g ==> v in ids;
  }

  /** One round moves both halves of the state to the next depth. */
  lemma Advance(g: Graph, remaining: map<string, set<string>>, ids: seq<string>, ready: seq<string>, k: nat)
    requires WellFormed(g) && LayerState(g, remaining, k) && Placed(g, ids, k)
    requires Ascending(ready) && ready != [] && forall v :: v in ready <==> v in Ready(remaining)
    ensures LayerState(g, Strip(remaining, Ready(remaining)), k + 1)
    ensures Placed(g, ids + ready, k + 1)
    ensures forall v :: v in ids + ready ==> v in g
    ensures Lookup(g, ids + ready) == Lookup(g, ids) + Lookup(g, ready)
    ensures Strip(remaining, Ready(remaining)).Keys < remaining.Keys
  {
    hide HasChain, Precedes;
    NextLayer(g, remaining, k);
    LayerExtends(g, ids, ready, k);
    assert ready[0] in ready;
    assert ready[0] !in Strip(remaining, Ready(remaining));
  }

  /** Nodes left when nothing is ready block each other. */
  lemma BlockedLayer(g: Graph, remaining: map<string, set<string>>, k: nat)
    requires WellFormed(g) && LayerState(g, remaining, k) && remaining != map[]
    requires Ready(remaining) == {}
    ensures !Acyclic(g)
  {
    forall v | v in remaining ensures Blocked(g, remaining.Keys, v) {
      assert v !in Ready(remaining);
      var d :| d in remaining[v];
      assert d in DependencySet(g[v]);
    }
    StuckMeansCycle(g, remaining.Keys);
  }

  /** A remaining node is ready exactly when its longest chain has `k` edges. */
  lemma ReadyIsNextDepth(g: Graph, remaining: map<string, set<string>>, k: nat, v: string)
    requires WellFormed(g) && LayerState(g, remaining, k) && v in g
    ensures v in Ready(remaining) <==> DepthIs(g, v, k)
    ensures v in remaining && v !in Ready(remaining) <==> HasChain(g, v, k + 1)
  {
    if v in remaining && remaining[v] != {} {
      var d :| d in remaining[v];
      assert d in g[v].dependsOn && HasChain(g, d, k);
    }
    if HasChain(g, v, k + 1) {
      ChainShortens(g, v, k, k + 1);
      var d :| d in g[v].dependsOn && HasChain(g, d, k);
      assert d in remaining[v];
    }
  }

  lemma NextLayer(g: Graph, remaining: map<string, set<string>>, k: nat)
    requires WellFormed(g) && LayerState(g, remaining, k)
    ensures forall v :: v in g ==> (v in Ready(remaining) <==> DepthIs(g, v, k))
    ensures LayerState(g, Strip(remaining, Ready(remaining)), k + 1)
  {
    var ready := Ready(remaining);
    var next := Strip(remaining, ready);
    forall v | v in g
      ensures v in ready <==> DepthIs(g, v, k)
      ensures v in next <==> HasChain(g, v, k + 1)
    {
      ReadyIsNextDepth(g, remaining, k, v);
    }
    forall v | v in next
      ensures next[v] == set d | d in g[v].dependsOn && HasChain(g, d, k + 1)
    {
      forall d | d in g[v].dependsOn ensures d in next[v] <==> HasChain(g, d, k + 1) {
        assert d in DependencySet(g[v]);
        ReadyIsNextDepth(g, remaining, k, d);
      }
    }
  }

  /** Appending one ascending layer keeps the whole order sorted. */
  lemma LayerExtends(g: Graph, ids: seq<string>, ready: seq<string>, k: nat)
    requires WellFormed(g) && Placed(g, ids, k) && Ascending(ready)
    requires forall v :: v in ready ==> v in g
    requires forall v :: v in g ==> (v in ready <==> DepthIs(g, v, k))
    ensures Placed(g, ids + ready, k + 1)
  {
    var all := ids + ready;
    forall i, j | 0 <= i < j < |all| ensures Precedes(g, all[i], all[j]) {
      LayerPrecedes(g, ids, ready, k, i, j);
    }
    forall v | v in g ensures v in all <==> !HasChain(g, v, k + 1) {
      if HasChain(g, v, k + 1) {
        ChainShortens(g, v, k, k + 1);
      }
    }
  }

  lemma LayerPrecedes(g: Graph, ids: seq<string>, ready: seq<string>, k: nat, i: nat, j: nat)
    requires WellFormed(g) && Placed(g, ids, k) && Ascending(ready)
    requires forall v :: v in ready ==> v in g && DepthIs(g, v, k)
    requires i < j < |ids + ready|
    ensures Precedes(g, (ids + ready)[i], (ids + ready)[j])
  {
    var u, v := (ids + ready)[i], (ids + ready)[j];
    if i < |ids| <= j {
      assert u in ids && v in ready;
      var d := DepthBelow(g, u, k);
    } else if |ids| <= i {
      assert u == ready[i - |ids|] && v == ready[j - |ids|];
      assert u in ready && v in ready && Less(u, v);
    }
  }

  // ----- Compilation -----------------------------------------------------

  predicate UniqueIds(nodes: seq<GraphNode>) {
    forall i, j :: 0 <= i < j < |nodes| ==> nodes[i].nodeId != nodes[j].nodeId
  }

  ghost function Ids(nodes: seq<GraphNode>): set<string> {
    set n | n in nodes :: n.nodeId
  }

  ghost predicate KnownDependencies(nodes: seq<GraphNode>) {
    forall n, d :: n in nodes && d in n.dependsOn ==> d in Ids(nodes)
  }

  /** The nodes that depend directly on `id`. */
  ghost function Dependents(nodes: seq<GraphNode>, id: string): set<GraphNode> {
    set n | n in nodes && id in n.dependsOn
  }

  /** `g` files exactly the given nodes under their identities. */
  ghost predicate GraphOf(nodes: seq<GraphNode>, g: Graph) {
    && (forall n :: n in nodes ==> n.nodeId in g && g[n.nodeId] == n)
    && (forall v :: v in g ==> g[v] in nodes && g[v].nodeId == v)
  }

  /** What compilation must answer, stated without an algorithm: the first
      violated bound, or the canonical order of the dependency graph. */
  ghost predicate IsCompilation(
    h: CanonicalGraph -> string, jobId: string, nodes: seq<GraphNode>, maximumNodes: int, maximumFanOut: int,
    r: Result<CompiledGraph, CompileError>)
  {
    if Blank(jobId) then r == Err(EmptyJobId)
    else if !(1 <= maximumNodes <= 256) then r == Err(NodeLimitOutOfRange)
    else if !(1 <= maximumFanOut <= 16) then r == Err(FanOutLimitOutOfRange)
    else if nodes == [] || |nodes| > maximumNodes then r == Err(NodeBoundExceeded)
    else if !UniqueIds(nodes) then r == Err(DuplicateIdentity)
    else if !KnownDependencies(nodes) then r == Err(UnknownDependency)
    else if exists n :: n in nodes && |Dependents(nodes, n.nodeId)| > maximumFanOut then r == Err(FanOutExceeded)
    else exists g :: GraphOf(nodes, g) && WellFormed(g) && GraphAnswer(h, jobId, g, maximumNodes, maximumFanOut, r)
  }

  ghost predicate GraphAnswer(
    h: CanonicalGraph -> string, jobId: string, g: Graph, maximumNodes: int, maximumFanOut: int,
    r: Result<CompiledGraph, CompileError>)
    requires WellFormed(g)
  {
    if !Acyclic(g) then r == Err(DependencyCycle)
    else
      && r.Ok?
      && CanonicalOrder(g, r.value.nodes)
      && r.value == CompiledGraph(jobId, r.value.nodes, maximumNodes, maximumFanOut,
           h(CanonicalGraph(jobId, maximumFanOut, maximumNodes, r.value.nodes)))
  }

  method CompileExecutionGraph(
    h: CanonicalGraph -> string, jobId: string, nodes: seq<GraphNode>, maximumNodes: int, maximumFanOut: int)
    returns (r: Result<CompiledGraph, CompileError>)
    ensures IsCompilation(h, jobId, nodes, maximumNodes, maximumFanOut, r)
  {
    if Blank(jobId) { return Err(EmptyJobId); }
    if maximumNodes < 1 || maximumNodes > 256 { return Err(NodeLimitOutOfRange); }
    if maximumFanOut < 1 || maximumFanOut > 16 { return Err(FanOutLimitOutOfRange); }
    if nodes == [] || |nodes| > maximumNodes { return Err(NodeBoundExceeded); }
    var byId := IndexById(nodes);
    if |byId| != |nodes| { return Err(DuplicateIdentity); }
    var unknown := set n, d | n in nodes && d in n.dependsOn && d !in byId :: d;
    if unknown != {} {
      UnknownIsReal(nodes, byId, unknown);
      return Err(UnknownDependency);
    }
    KnownIsReal(nodes, byId, unknown);
    var exceeded := ExceedsFanOut(nodes, maximumFanOut);
    if exceeded { return Err(FanOutExceeded); }
    hide Acyclic, CanonicalOrder, Blank, KnownDependencies, Dependents;
    var ordered := TopologicalOrder(byId);
    match ordered {
      case None =>
        r := Err(DependencyCycle);
      case Some(sorted) =>
        var digest := h(CanonicalGraph(jobId, maximumFanOut, maximumNodes, sorted));
        r := Ok(CompiledGraph(jobId, sorted, maximumNodes, maximumFanOut, digest));
    }
    assert GraphAnswer(h, jobId, byId, maximumNodes, maximumFanOut, r);
  }

  /** `{node.node_id: node for node in nodes}`, and what its size reveals. */
  method IndexById(nodes: seq<GraphNode>) returns (byId: Graph)
    ensures |byId| <= |nodes|
    ensures |byId| == |nodes| <==> UniqueIds(nodes)
    ensures UniqueIds(nodes) ==> GraphOf(nodes, byId)
  {
    byId := map[];
    for i := 0 to |nodes|
      invariant byId == Index(nodes[..i])
    {
      byId := byId[nodes[i].nodeId := nodes[i]];
      assert nodes[..i + 1][..i] == nodes[..i];
    }
    assert nodes[..|nodes|] == nodes;
    IndexContents(nodes);
    IdsCount(nodes);
    if UniqueIds(nodes) {
      UniqueIndex(nodes);
    }
  }

  function Index(nodes: seq<GraphNode>): Graph {
    if nodes == [] then map[]
    else
      var last := nodes[|nodes| - 1];
      Index(nodes[..|nodes| - 1])[last.nodeId := last]
  }

  lemma {:induction false} IndexContents(nodes: seq<GraphNode>)
    ensures Index(nodes).Keys == Ids(nodes)
    ensures forall v :: v in Index(nodes) ==> Index(nodes)[v] in nodes && Index(nodes)[v].nodeId == v
  {
    if nodes != [] {
      var init, last := nodes[..|nodes| - 1], nodes[|nodes| - 1];
      IndexContents(init);
      IdsOfLast(nodes);
      assert nodes == init + [last];
    }
  }

  lemma IdsOfLast(nodes: seq<GraphNode>)
    requires nodes != []
    ensures Ids(nodes) == Ids(nodes[..|nodes| - 1]) + {nodes[|nodes| - 1].nodeId}
  {
  }

  lemma {:induction false} IdsCount(nodes: seq<GraphNode>)
    ensures |Ids(nodes)| <= |nodes|
    ensures |Ids(nodes)| == |nodes| <==> UniqueIds(nodes)
  {
    if nodes != [] {
      var n := |nodes| - 1;
      IdsCount(nodes[..n]);
      IdsOfLast(nodes);
      UniqueStep(nodes);
      hide UniqueIds, Ids;
    }
  }

  lemma UniqueStep(nodes: seq<GraphNode>)
    requires nodes != []
    ensures var n := |nodes| - 1;
            UniqueIds(nodes) <==> UniqueIds(nodes[..n]) && nodes[n].nodeId !in Ids(nodes[..n])
  {
  }

  lemma UniqueIndex(nodes: seq<GraphNode>)
    requires UniqueIds(nodes)
    ensures GraphOf(nodes, Index(nodes))
  {
  }

  lemma GraphOfKeys(nodes: seq<GraphNode>, g: Graph)
    requires GraphOf(nodes, g)
    ensures g.Keys == Ids(nodes)
  {
  }

  lemma UnknownIsReal(nodes: seq<GraphNode>, byId: Graph, unknown: set<string>)
    requires GraphOf(nodes, byId) && unknown != {}
    requires unknown == set n, d | n in nodes && d in n.dependsOn && d !in byId :: d
    ensures !KnownDependencies(nodes)
  {
    GraphOfKeys(nodes, byId);
    var d :| d in unknown;
    var n :| n in nodes && d in n.dependsOn && d !in byId;
  }

  lemma KnownIsReal(nodes: seq<GraphNode>, byId: Graph, unknown: set<string>)
    requires GraphOf(nodes, byId) && unknown == {}
    requires unknown == set n, d | n in nodes && d in n.dependsOn && d !in byId :: d
    ensures KnownDependencies(nodes) && WellFormed(byId)
  {
    GraphOfKeys(nodes, byId);
    forall n, d | n in nodes && d in n.dependsOn ensures d in byId {
      assert d !in unknown;
    }
  }

  /** `any(sum(id in c.depends_on for c in nodes) > bound for id in by_id)`. */
  method ExceedsFanOut(nodes: seq<GraphNode>, bound: int) returns (exceeded: bool)
    requires UniqueIds(nodes)
    ensures exceeded <==> exists n :: n in nodes && |Dependents(nodes, n.nodeId)| > bound
  {
    exceeded := false;
    for i := 0 to |nodes|
      invariant exceeded <==> exists j :: 0 <= j < i && |Dependents(nodes, nodes[j].nodeId)| > bound
    {
      var count := CountDependents(nodes, nodes[i].nodeId);
      exceeded := exceeded || count > bound;
    }
  }

  method CountDependents(nodes: seq<GraphNode>, id: string) returns (count: nat)
    requires UniqueIds(nodes)
    ensures count == |Dependents(nodes, id)|
  {
    count := 0;
    for i := 0 to |nodes|
      invariant count == |Dependents(nodes[..i], id)|
    {
      hide UniqueIds, Dependents;
      DependentsOfMore(nodes, i, id);
      if id in nodes[i].dependsOn {
        count := count + 1;
      }
    }
    assert nodes[..|nodes|] == nodes;
  }

  lemma DependentsOfMore(nodes: seq<GraphNode>, i: nat, id: string)
    requires UniqueIds(nodes) && i < |nodes|
    ensures |Dependents(nodes[..i + 1], id)| == |Dependents(nodes[..i], id)| + (if id in nodes[i].dependsOn then 1 else 0)
  {
    var n := nodes[i];
    assert nodes[..i + 1] == nodes[..i] + [n];
    assert n !in nodes[..i];
    if id in n.dependsOn {
      assert Dependents(nodes[..i + 1], id) == Dependents(nodes[..i], id) + {n};
    } else {
      assert Dependents(nodes[..i + 1], id) == Dependents(nodes[..i], id);
    }
  }

  // ----- Canonicity ------------------------------------------------------

  /** Permuting the submitted nodes changes neither the verdict nor the order
      nor the digest. */
  lemma CompilationIgnoresInputOrder(
    h: CanonicalGraph -> string, jobId: string, a: seq<GraphNode>, b: seq<GraphNode>,
    maximumNodes: int, maximumFanOut: int,
    ra: Result<CompiledGraph, CompileError>, rb: Result<CompiledGraph, CompileError>)
    requires multiset(a) == multiset(b)
    requires IsCompilation(h, jobId, a, maximumNodes, maximumFanOut, ra)
    requires IsCompilation(h, jobId, b, maximumNodes, maximumFanOut, rb)
    ensures ra == rb
  {
    hide Acyclic, CanonicalOrder, Blank, WellFormed;
    assert |a| == |multiset(a)| == |multiset(b)| == |b|;
    SameMembers(a, b);
    UniqueIdsIgnoreOrder(a, b);
    UniqueIdsIgnoreOrder(b, a);
    assert Ids(a) == Ids(b);
    forall id ensures Dependents(a, id) == Dependents(b, id) {
    }
    forall g ensures GraphOf(a, g) <==> GraphOf(b, g) {
    }
    forall g, g' | GraphOf(a, g) && GraphOf(a, g') ensures g == g' {
    }
    forall g | WellFormed(g) && GraphAnswer(h, jobId, g, maximumNodes, maximumFanOut, ra)
            && GraphAnswer(h, jobId, g, maximumNodes, maximumFanOut, rb)
      ensures ra == rb
    {
      if Acyclic(g) {
        CanonicalOrderUnique(g, ra.value.nodes, rb.value.nodes);
      }
    }
  }

  lemma SameMembers(a: seq<GraphNode>, b: seq<GraphNode>)
    requires multiset(a) == multiset(b)
    ensures forall n :: n in a <==> n in b
  {
    assert forall n :: n in a <==> n in multiset(a);
    assert forall n :: n in b <==> n in multiset(b);
  }

  lemma UniqueIdsIgnoreOrder(a: seq<GraphNode>, b: seq<GraphNode>)
    requires multiset(a) == multiset(b)
    ensures UniqueIds(a) ==> UniqueIds(b)
  {
    if i, j :| UniqueIds(a) && 0 <= i < j < |b| && b[i].nodeId == b[j].nodeId {
      SameMembers(a, b);
      assert b[i] in a && b[j] in a;
      assert b[i] == b[j];
      OnceEach(a, b[i]);
      TwiceSeen(b, i, j);
    }
  }

  lemma {:induction false} OnceEach(a: seq<GraphNode>, n: GraphNode)
    requires UniqueIds(a)
    ensures multiset(a)[n] <= 1
  {
    if a != [] {
      OnceEach(a[1..], n);
      assert a == [a[0]] + a[1..];
      if n == a[0] {
        assert n !in a[1..];
      }
    }
  }

  lemma TwiceSeen(b: seq<GraphNode>, i: nat, j: nat)
    requires i < j < |b| && b[i] == b[j]
    ensures multiset(b)[b[i]] >= 2
  {
    assert b == b[..j] + b[j..];
    assert b[i] in b[..j] && b[i] in b[j..];
    assert multiset(b) == multiset(b[..j]) + multiset(b[j..]);
  }
}
