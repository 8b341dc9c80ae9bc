/** The node's bounded record of terminal results: an ordered dictionary with
    least-recently-touched eviction, and what absence from it implies. */
module ResultLedger {
  import opened Outcomes
  import opened JobFrames

  /** An `OrderedDict`: `order` lists the keys of `frames`, oldest first. */
  datatype Entries = Entries(order: seq<string>, frames: map<string, ResultFrame>)

  predicate Distinct(s: seq<string>) {
    forall i, j :: 0 <= i < j < |s| ==> s[i] != s[j]
  }

  ghost predicate WellFormed(e: Entries) {
    Distinct(e.order) && forall k :: k in e.order <==> k in e.frames
  }

  function Without(s: seq<string>, k: string): (r: seq<string>)
    ensures forall x :: x in r <==> x in s && x != k
    ensures Distinct(s) ==> Distinct(r)
    ensures |r| <= |s|
  {
    if s == [] then []
    else
      var n := |s| - 1;
      assert s == s[..n] + [s[n]];
      assert Distinct(s) ==> s[n] !in s[..n];
      if s[n] == k then Without(s[..n], k) else Without(s[..n], k) + [s[n]]
  }

  function LastN(s: seq<string>, n: nat): seq<string> {
    if |s| <= n then s else s[|s| - n..]
  }

  function MoveToEnd(s: seq<string>, k: string): (r: seq<string>)
    ensures forall x :: x in r <==> x in s || x == k
    ensures Distinct(s) ==> Distinct(r)
  {
    var rest := Without(s, k);
    assert forall i :: 0 <= i < |rest| ==> rest[i] in rest;
    rest + [k]
  }

  /** The entries restricted to the last `capacity` keys. */
  function Evict(e: Entries, capacity: nat): Entries {
    var kept := LastN(e.order, capacity);
    Entries(kept, Restrict(e.frames, kept))
  }

  function Restrict(frames: map<string, ResultFrame>, kept: seq<string>): map<string, ResultFrame> {
    map k | k in frames && k in kept :: frames[k]
  }

  function Touch(e: Entries, k: string): Entries {
    e.(order := MoveToEnd(e.order, k))
  }

  function Record(e: Entries, k: string, f: ResultFrame, capacity: nat): Entries {
    Evict(Entries(MoveToEnd(e.order, k), e.frames[k := f]), capacity)
  }

  class Ledger {
    const capacity: nat
    var order: seq<string>
    var frames: map<string, ResultFrame>

    ghost function Contents(): Entries
      reads this
    {
      Entries(order, frames)
    }

    ghost predicate Valid()
      reads this
    {
      WellFormed(Contents()) && |order| <= capacity
    }

    constructor (capacity: nat)
      ensures Valid() && this.capacity == capacity && Contents() == Entries([], map[])
    {
      this.capacity := capacity;
      order := [];
      frames := map[];
    }

    /** A hit moves the entry to the young end; a miss changes nothing. */
    method Get(k: string) returns (r: Option<ResultFrame>)
      requires Valid()
      modifies this
      ensures Valid()
      ensures k in old(frames) ==> r == Some(old(frames)[k]) && Contents() == Touch(old(Contents()), k)
      ensures k !in old(frames) ==> r == None && Contents() == old(Contents())
    {
      if k in frames {
        r := Some(frames[k]);
        TouchKeepsSize(order, k);
        order := MoveToEnd(order, k);
      } else {
        r := None;
      }
    }

    /** Insert at the young end, then drop from the old end while too long. */
    method Put(k: string, f: ResultFrame)
      requires Valid()
      modifies this
      ensures Valid()
      ensures Contents() == Record(old(Contents()), k, f, capacity)
      ensures capacity > 0 ==> k in frames && frames[k] == f
    {
      order := MoveToEnd(order, k);
      frames := frames[k := f];
      ghost var grown := Contents();
      assert Record(old(Contents()), k, f, capacity) == Evict(grown, capacity);
      EvictNone(grown);
      DropOldest(grown);
      EvictWellFormed(grown, capacity);
      if capacity > 0 {
        YoungestStays(grown, capacity);
      }
    }

    method DropOldest(ghost grown: Entries)
      requires WellFormed(grown) && Contents() == grown == Evict(grown, |order|)
      modifies this
      ensures Contents() == Evict(grown, capacity) && |order| <= capacity
    {
      hide Evict, WellFormed;
      while |order| > capacity
        invariant |order| <= |grown.order| && Contents() == Evict(grown, |order|)
        invariant |order| >= capacity || |order| == |grown.order|
      {
        var oldest := order[0];
        EvictOne(grown, |order|);
        order := order[1..];
        frames := frames - {oldest};
      }
      EvictSame(grown, |order|, capacity);
    }
  }

  lemma YoungestStays(e: Entries, n: nat)
    requires WellFormed(e) && e.order != [] && n > 0
    ensures var k := e.order[|e.order| - 1]; k in Evict(e, n).frames && Evict(e, n).frames[k] == e.frames[k]
  {
  }

  /** A recorded frame is held, unless nothing is; what else is held was held before. */
  lemma RecordKeepsOthers(e: Entries, k: string, f: ResultFrame, capacity: nat)
    requires WellFormed(e)
    ensures var r := Record(e, k, f, capacity);
            && (capacity > 0 ==> k in r.frames && r.frames[k] == f)
            && forall x :: x in r.frames && x != k ==> x in e.frames && r.frames[x] == e.frames[x]
  {
    var grown := Entries(MoveToEnd(e.order, k), e.frames[k := f]);
    assert WellFormed(grown);
    if capacity > 0 { YoungestStays(grown, capacity); }
  }

  lemma EvictSame(e: Entries, n: nat, capacity: nat)
    requires n <= capacity && (n == capacity || n == |e.order|)
    ensures Evict(e, n) == Evict(e, capacity)
  {
  }

  lemma EvictNone(e: Entries)
    requires WellFormed(e)
    ensures Evict(e, |e.order|) == e
  {
  }

  lemma EvictWellFormed(e: Entries, n: nat)
    requires WellFormed(e)
    ensures WellFormed(Evict(e, n))
  {
  }

  /** Dropping the oldest of the `n` kept entries keeps the last `n - 1`. */
  lemma EvictOne(e: Entries, n: nat)
    requires WellFormed(e) && 0 < n <= |e.order|
    ensures var kept := Evict(e, n);
      Evict(e, n - 1) == Entries(kept.order[1..], kept.frames - {kept.order[0]})
  {
    EvictWellFormed(e, n);
    var kept, less := Evict(e, n), Evict(e, n - 1);
    DropFirst(kept.order);
    assert less.order == kept.order[1..];
    RestrictLess(e.frames, less.order, kept.order, kept.order[0]);
  }

  lemma RestrictLess(frames: map<string, ResultFrame>, less: seq<string>, kept: seq<string>, x: string)
    requires forall y :: y in less <==> y in kept && y != x
    ensures Restrict(frames, less) == Restrict(frames, kept) - {x}
  {
  }

  lemma DropFirst(s: seq<string>)
    requires s != [] && Distinct(s)
    ensures Distinct(s[1..])
    ensures forall x :: x in s[1..] <==> x in s && x != s[0]
  {
  }

  lemma {:induction false} TouchKeepsSize(s: seq<string>, k: string)
    requires Distinct(s) && k in s
    ensures |MoveToEnd(s, k)| == |s|
  {
    var n := |s| - 1;
    if s[n] == k {
      WithoutAbsent(s[..n], k);
    } else {
      TouchKeepsSize(s[..n], k);
    }
  }

  lemma {:induction false} WithoutAbsent(s: seq<string>, k: string)
    requires k !in s
    ensures Without(s, k) == s
  {
    if s != [] {
      var n := |s| - 1;
      WithoutAbsent(s[..n], k);
      assert s == s[..n] + [s[n]];
    }
  }

  // ----- Recency ------------------------------------------------------------

  /** The distinct keys of a touch history, ordered by last touch. */
  ghost function Recent(touches: seq<string>): (r: seq<string>)
    ensures Distinct(r)
    ensures forall x :: x in r <==> x in touches
  {
    if touches == [] then []
    else
      var n := |touches| - 1;
      assert touches == touches[..n] + [touches[n]];
      MoveToEnd(Recent(touches[..n]), touches[n])
  }

  /** The keys touched after the last touch of `k`. */
  ghost function TouchedSince(touches: seq<string>, k: string): set<string> {
    if touches == [] then {}
    else
      var n := |touches| - 1;
      if touches[n] == k then {} else TouchedSince(touches[..n], k) + {touches[n]}
  }

  /** Keeping only the last `n` keys before a touch loses nothing the last `n`
      keys after it would show. */
  lemma TouchThenTruncate(r: seq<string>, k: string, n: nat)
    requires Distinct(r)
    ensures LastN(MoveToEnd(r, k), n) == LastN(MoveToEnd(LastN(r, n), k), n)
  {
    if |r| > n > 0 {
      var cut := |r| - n;
      assert r == r[..cut] + r[cut..];
      TouchBehind(r[..cut], r[cut..], k);
    }
  }

  lemma TouchBehind(a: seq<string>, b: seq<string>, k: string)
    requires Distinct(a + b)
    ensures LastN(MoveToEnd(a + b, k), |b|) == LastN(MoveToEnd(b, k), |b|)
  {
    hide Without;
    assert Distinct(b) by {
      assert (a + b)[|a|..] == b;
    }
    WithoutSplits(a, b, k);
    assert MoveToEnd(a + b, k) == Without(a, k) + MoveToEnd(b, k);
    if k in b {
      TouchKeepsSize(b, k);
    } else {
      WithoutAbsent(b, k);
    }
    LastNOfSuffix(Without(a, k), MoveToEnd(b, k), |b|);
  }

  lemma LastNOfSuffix(a: seq<string>, b: seq<string>, n: nat)
    requires |b| >= n
    ensures LastN(a + b, n) == LastN(b, n)
  {
  }

  lemma {:induction false} WithoutSplits(a: seq<string>, b: seq<string>, k: string)
    ensures Without(a + b, k) == Without(a, k) + Without(b, k)
  {
    if b == [] {
      assert a + b == a;
    } else {
      var n := |b| - 1;
      WithoutSplits(a, b[..n], k);
      assert (a + b)[..|a + b| - 1] == a + b[..n] && (a + b)[|a + b| - 1] == b[n];
      hide Distinct;
      var front := Without(a, k);
      assert front + (Without(b[..n], k) + [b[n]]) == front + Without(b[..n], k) + [b[n]];
    }
  }

  /** The ledger always holds the most recently touched keys. */
  ghost predicate HoldsMostRecent(e: Entries, touches: seq<string>, capacity: nat) {
    e.order == LastN(Recent(touches), capacity)
  }

  lemma RecentOfTouch(touches: seq<string>, k: string)
    ensures Recent(touches + [k]) == MoveToEnd(Recent(touches), k)
  {
  }

  lemma HitKeepsMostRecent(e: Entries, touches: seq<string>, k: string, capacity: nat)
    requires WellFormed(e) && HoldsMostRecent(e, touches, capacity) && k in e.frames
    ensures HoldsMostRecent(Touch(e, k), touches + [k], capacity)
  {
    RecentOfTouch(touches, k);
    TouchThenTruncate(Recent(touches), k, capacity);
    TouchKeepsSize(e.order, k);
  }

  lemma RecordKeepsMostRecent(e: Entries, touches: seq<string>, k: string, f: ResultFrame, capacity: nat)
    requires WellFormed(e) && HoldsMostRecent(e, touches, capacity)
    ensures WellFormed(Record(e, k, f, capacity))
    ensures HoldsMostRecent(Record(e, k, f, capacity), touches + [k], capacity)
  {
    RecentOfTouch(touches, k);
    TouchThenTruncate(Recent(touches), k, capacity);
  }

  /** A key that was touched and is no longer held has been pushed out by at
      least `capacity` distinct other keys touched since. */
  lemma AbsenceMeansDisplaced(e: Entries, touches: seq<string>, k: string, capacity: nat)
    requires HoldsMostRecent(e, touches, capacity) && k in touches && k !in e.order
    ensures k !in TouchedSince(touches, k)
    ensures |TouchedSince(touches, k)| >= capacity
  {
    var r := Recent(touches);
    var p :| 0 <= p < |r| && r[p] == k;
    SuffixIsTouchedSince(touches, k, p);
    if p + capacity >= |r| { InLastN(r, p, capacity); }
    DistinctSetSize(r[p + 1..]);
    NotTouchedSince(touches, k);
  }

  lemma InLastN(r: seq<string>, p: nat, n: nat)
    requires p < |r| <= p + n
    ensures r[p] in LastN(r, n)
  {
  }

  lemma {:induction false} NotTouchedSince(touches: seq<string>, k: string)
    ensures k !in TouchedSince(touches, k)
  {
    if touches != [] {
      NotTouchedSince(touches[..|touches| - 1], k);
    }
  }

  /** Behind `k` in recency order stand exactly the keys touched since `k`. */
  lemma {:induction false} SuffixIsTouchedSince(touches: seq<string>, k: string, p: nat)
    requires p < |Recent(touches)| && Recent(touches)[p] == k
    ensures Members(Recent(touches)[p + 1..]) == TouchedSince(touches, k)
  {
    var n := |touches| - 1;
    var t, before, after := touches[n], Recent(touches[..n]), Recent(touches);
    if t == k {
      assert after[|after| - 1] == k;
      assert p == |after| - 1;
    } else {
      assert k in before;
      var q :| 0 <= q < |before| && before[q] == k;
      SuffixIsTouchedSince(touches[..n], k, q);
      SuffixAfterTouch(before, q, t, p);
    }
  }

  /** Touching `t` behind `s[q]` appends it to what stands behind `s[q]`. */
  lemma SuffixAfterTouch(s: seq<string>, q: nat, t: string, p: nat)
    requires Distinct(s) && q < |s| && s[q] != t
    requires p < |MoveToEnd(s, t)| && MoveToEnd(s, t)[p] == s[q]
    ensures Members(MoveToEnd(s, t)[p + 1..]) == Members(s[q + 1..]) + {t}
  {
    SplitAt(s, q, t);
    var front, behind := Without(s[..q], t) + [s[q]], Without(s[q + 1..], t) + [t];
    assert MoveToEnd(s, t) == front + behind;
    assert MoveToEnd(s, t)[|front| - 1] == s[q];
    assert p == |front| - 1;
    assert MoveToEnd(s, t)[p + 1..] == behind;
  }

  lemma SplitAt(s: seq<string>, q: nat, t: string)
    requires q < |s| && s[q] != t
    ensures Without(s, t) == Without(s[..q], t) + [s[q]] + Without(s[q + 1..], t)
  {
    assert s == s[..q] + ([s[q]] + s[q + 1..]);
    WithoutSplits(s[..q], [s[q]] + s[q + 1..], t);
    WithoutSplits([s[q]], s[q + 1..], t);
    WithoutAbsent([s[q]], t);
  }

  ghost function Members(s: seq<string>): set<string> {
    set x | x in s
  }

  lemma {:induction false} DistinctSetSize(s: seq<string>)
    requires Distinct(s)
    ensures |Members(s)| == |s|
  {
    if s != [] {
      DropFirst(s);
      DistinctSetSize(s[1..]);
      assert Members(s) == {s[0]} + Members(s[1..]);
    }
  }
}
