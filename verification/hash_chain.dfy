/** The tamper-evident log shape shared by the authority, node-mesh and
    authorization audits: numbered events, each naming the hash of the one before.
    The hash is a parameter; where a result needs it, it is required injective. */
module HashChain {

  const GENESIS := "0000000000000000000000000000000000000000000000000000000000000000"

  datatype Link<B> = Link(sequence: int, body: B, previousHash: string, eventHash: string)

  /** Hash of (sequence, body, previous hash) over its canonical encoding. */
  type Hash<!B> = (int, B, string) -> string

  ghost predicate Injective<B(!new)>(h: Hash<B>) {
    forall i, b, p, j, c, q :: h(i, b, p) == h(j, c, q) ==> i == j && b == c && p == q
  }

  function Head<B>(events: seq<Link<B>>): string {
    if events == [] then GENESIS else events[|events| - 1].eventHash
  }

  predicate LinksAt<B(==)>(h: Hash<B>, events: seq<Link<B>>, i: nat)
    requires i < |events|
  {
    && events[i].sequence == i + 1
    && events[i].previousHash == Head(events[..i])
    && events[i].eventHash == h(i + 1, events[i].body, events[i].previousHash)
  }

  /** Every event carries its number, its predecessor's hash and its own hash. */
  predicate Chained<B(==)>(h: Hash<B>, events: seq<Link<B>>) {
    forall i :: 0 <= i < |events| ==> LinksAt(h, events, i)
  }

  function Append<B>(h: Hash<B>, events: seq<Link<B>>, body: B): seq<Link<B>> {
    var n := |events| + 1;
    events + [Link(n, body, Head(events), h(n, body, Head(events)))]
  }

  lemma AppendAddsOne<B>(h: Hash<B>, events: seq<Link<B>>, body: B)
    ensures events <= Append(h, events, body) && |Append(h, events, body)| == |events| + 1
    ensures Append(h, events, body)[|events|].body == body
  {
  }

  lemma AppendKeepsChained<B>(h: Hash<B>, events: seq<Link<B>>, body: B)
    requires Chained(h, events)
    ensures Chained(h, Append(h, events, body))
  {
    var longer := Append(h, events, body);
    forall i | 0 <= i < |longer| ensures LinksAt(h, longer, i) {
      assert longer[..i] == events[..i];
      if i < |events| {
        assert LinksAt(h, events, i);
      } else {
        assert events[..i] == events;
      }
    }
  }

  /** `verify`: walk the log with a running hash. */
  method VerifyChain<B(==)>(h: Hash<B>, events: seq<Link<B>>) returns (ok: bool)
    ensures ok <==> Chained(h, events)
  {
    var previous := GENESIS;
    for i := 0 to |events|
      invariant previous == Head(events[..i])
      invariant forall j :: 0 <= j < i ==> LinksAt(h, events, j)
    {
      var e := events[i];
      if e.sequence != i + 1 || e.previousHash != previous
         || e.eventHash != h(e.sequence, e.body, e.previousHash) {
        assert !LinksAt(h, events, i);
        return false;
      }
      previous := e.eventHash;
      assert events[..i + 1][i] == e;
    }
    return true;
  }

  /** Two verifying logs that share one event hash agree up to that event. */
  lemma {:induction false} SharedHashMeansSharedHistory<B(!new)>(
    h: Hash<B>, a: seq<Link<B>>, b: seq<Link<B>>, i: nat, j: nat)
    requires Injective(h) && Chained(h, a) && Chained(h, b)
    requires i < |a| && j < |b| && a[i].eventHash == b[j].eventHash
    ensures i == j && a[..i + 1] == b[..j + 1]
    decreases i
  {
    assert LinksAt(h, a, i) && LinksAt(h, b, j);
    assert i == j && a[i] == b[j];
    if i > 0 {
      assert a[..i][i - 1] == a[i - 1] && b[..i][i - 1] == b[i - 1];
      SharedHashMeansSharedHistory(h, a, b, i - 1, j - 1);
    }
    assert a[..i + 1] == a[..i] + [a[i]] && b[..i + 1] == b[..i] + [b[i]];
  }
}
