/** Reading an exported chain back: is it complete and unbroken, and which
    events does it restore? */
module AuditVerification {
  import opened AuditExport
  import opened AuditSegments
  import opened ExportKeys
  import opened Outcomes
  import PythonText

  /** What `verify` carries from one stored segment to the next. */
  datatype Audit = Audit(
    problems: nat, expectedSequence: int, expectedPrevious: string, events: nat, lastSequence: int)

  const START := Audit(0, 1, GENESIS_HASH, 0, 0)

  /** The hash the event at index `i` must link to, and at the end the hash the
      whole run leaves behind. */
  function LinkTo(previous: string, events: seq<Event>, i: nat): string
    requires i <= |events|
  {
    if i == 0 then previous else events[i - 1].eventHash
  }

  function EndHash(previous: string, events: seq<Event>): string {
    LinkTo(previous, events, |events|)
  }

  /** Every event links to the one before it, the first one to `previous`. */
  predicate Linked(previous: string, events: seq<Event>) {
    forall i {:trigger LinkedAt(previous, events, i)} :: 0 <= i < |events| ==> LinkedAt(previous, events, i)
  }

  predicate LinkedAt(previous: string, events: seq<Event>, i: nat)
    requires i < |events|
  {
    events[i].previousHash == LinkTo(previous, events, i)
  }

  predicate SelfConsistent(s: Segment) {
    Linked(s.firstPreviousHash, s.events) && EndHash(s.firstPreviousHash, s.events) == s.lastEventHash
  }

  function Count(b: bool): nat {
    if b then 1 else 0
  }

  function ExamineSegment(a: Audit, s: Segment): Audit {
    Audit(
      a.problems
      + Count(s.firstSequence != a.expectedSequence)
      + Count(s.firstPreviousHash != a.expectedPrevious)
      + Count(|s.events| != s.lastSequence - s.firstSequence + 1)
      + Count(!SelfConsistent(s)),
      s.lastSequence + 1, s.lastEventHash, a.events + |s.events|, s.lastSequence)
  }

  /** One listed key; `None` when the document is JSON of another shape, on which
      `verify` raises. */
  function Examine(a: Audit, objects: Objects, key: string): Option<Audit> {
    if key !in objects then Some(a.(problems := a.problems + 1))
    else match objects[key]
      case NotJson => Some(a.(problems := a.problems + 1))
      case SegmentBody(s) => Some(ExamineSegment(a, s))
      case _ => None
  }

  function ExamineAll(objects: Objects, keys: seq<string>): Option<Audit> {
    if keys == [] then Some(START)
    else match ExamineAll(objects, keys[..|keys| - 1])
      case None => None
      case Some(a) => Examine(a, objects, keys[|keys| - 1])
  }

  // ----- What an intact verdict means -----------------------------------------------

  predicate AllSegments(objects: Objects, keys: seq<string>) {
    forall i :: 0 <= i < |keys| ==> keys[i] in objects && objects[keys[i]].SegmentBody?
  }

  function SegmentAt(objects: Objects, keys: seq<string>, i: nat): Segment
    requires AllSegments(objects, keys) && i < |keys|
  {
    objects[keys[i]].segment
  }

  /** The stored events in listing order. */
  function AllEvents(objects: Objects, keys: seq<string>): seq<Event>
    requires AllSegments(objects, keys)
  {
    if keys == [] then []
    else AllEvents(objects, keys[..|keys| - 1]) + SegmentAt(objects, keys, |keys| - 1).events
  }

  /** The sequence number and hash that the segment at index `i` must continue. */
  function SequenceBefore(objects: Objects, keys: seq<string>, i: nat): int
    requires AllSegments(objects, keys) && i <= |keys|
  {
    if i == 0 then 0 else SegmentAt(objects, keys, i - 1).lastSequence
  }

  function HashBeforeSegment(objects: Objects, keys: seq<string>, i: nat): string
    requires AllSegments(objects, keys) && i <= |keys|
  {
    if i == 0 then GENESIS_HASH else SegmentAt(objects, keys, i - 1).lastEventHash
  }

  predicate Continues(s: Segment, sequence: int, hash: string) {
    && s.firstSequence == sequence + 1
    && s.firstPreviousHash == hash
    && |s.events| == s.lastSequence - s.firstSequence + 1
    && SelfConsistent(s)
  }

  /** The stored segments follow one another without gap or overlap from
      sequence 1, and each one's events link up. */
  ghost predicate Unbroken(objects: Objects, keys: seq<string>) {
    && AllSegments(objects, keys)
    && forall i :: 0 <= i < |keys| ==> ContinuesAt(objects, keys, i)
  }

  ghost predicate ContinuesAt(objects: Objects, keys: seq<string>, i: nat)
    requires AllSegments(objects, keys) && i < |keys|
  {
    Continues(SegmentAt(objects, keys, i), SequenceBefore(objects, keys, i), HashBeforeSegment(objects, keys, i))
  }

  lemma SameBefore(objects: Objects, keys: seq<string>, n: nat, i: nat)
    requires i < n <= |keys| && AllSegments(objects, keys)
    ensures AllSegments(objects, keys[..n]) && ContinuesAt(objects, keys[..n], i) == ContinuesAt(objects, keys, i)
  {
  }

  /** What makes an unbroken chain with one more segment unbroken. */
  ghost predicate Extends(objects: Objects, before: seq<string>, key: string) {
    && AllSegments(objects, before) && key in objects && objects[key].SegmentBody?
    && Continues(objects[key].segment, SequenceBefore(objects, before, |before|),
                 HashBeforeSegment(objects, before, |before|))
  }

  lemma ExtendsMeansContinues(objects: Objects, keys: seq<string>)
    requires keys != [] && AllSegments(objects, keys)
    ensures Extends(objects, keys[..|keys| - 1], keys[|keys| - 1]) <==> ContinuesAt(objects, keys, |keys| - 1)
  {
  }

  lemma AllSegmentsStep(objects: Objects, keys: seq<string>)
    requires keys != []
    ensures AllSegments(objects, keys) <==>
              AllSegments(objects, keys[..|keys| - 1])
              && keys[|keys| - 1] in objects && objects[keys[|keys| - 1]].SegmentBody?
  {
  }

  lemma UnbrokenStep(objects: Objects, keys: seq<string>)
    requires keys != []
    ensures Unbroken(objects, keys) <==>
              Unbroken(objects, keys[..|keys| - 1]) && Extends(objects, keys[..|keys| - 1], keys[|keys| - 1])
  {
    var n := |keys| - 1;
    var before := keys[..n];
    AllSegmentsStep(objects, keys);
    hide AllSegments;
    if AllSegments(objects, keys) {
      ExtendsMeansContinues(objects, keys);
      forall i | 0 <= i < n
        ensures ContinuesAt(objects, before, i) == ContinuesAt(objects, keys, i)
      {
        SameBefore(objects, keys, n, i);
      }
      hide ContinuesAt, Extends;
      if Unbroken(objects, keys) {
        assert ContinuesAt(objects, keys, n);
      }
    }
  }

  /** `verify` finds no problem exactly when the chain is unbroken, and then the
      number of events is the last sequence number. */
  lemma {:induction false} IntactMeansUnbroken(objects: Objects, keys: seq<string>)
    ensures var r := ExamineAll(objects, keys);
            && (Unbroken(objects, keys) <==> r.Some? && r.value.problems == 0)
            && (Unbroken(objects, keys) ==>
                  && r.value.expectedSequence == r.value.lastSequence + 1
                  && r.value.lastSequence == SequenceBefore(objects, keys, |keys|)
                  && r.value.expectedPrevious == HashBeforeSegment(objects, keys, |keys|)
                  && r.value.events == r.value.lastSequence == |AllEvents(objects, keys)|)
  {
    if keys != [] {
      IntactMeansUnbroken(objects, keys[..|keys| - 1]);
      UnbrokenStep(objects, keys);
      hide SelfConsistent;
      assert Unbroken(objects, keys) ==> SegmentAt(objects, keys, |keys| - 1) == objects[keys[|keys| - 1]].segment;
      hide Unbroken;
    }
  }

  lemma JoinLinked(previous: string, a: seq<Event>, b: seq<Event>)
    requires Linked(previous, a) && Linked(EndHash(previous, a), b)
    ensures Linked(previous, a + b) && EndHash(previous, a + b) == EndHash(EndHash(previous, a), b)
  {
    var c := a + b;
    forall i | 0 <= i < |c| ensures LinkedAt(previous, c, i) {
      if i < |a| {
        assert LinkedAt(previous, a, i);
      } else {
        assert LinkedAt(EndHash(previous, a), b, i - |a|);
        assert LinkTo(previous, c, i) == LinkTo(EndHash(previous, a), b, i - |a|);
      }
    }
  }

  /** An intact verdict covers the whole chain: all stored events link one to the
      next from the genesis hash. */
  lemma {:induction false} UnbrokenEventsLink(objects: Objects, keys: seq<string>)
    requires Unbroken(objects, keys)
    ensures Linked(GENESIS_HASH, AllEvents(objects, keys))
    ensures EndHash(GENESIS_HASH, AllEvents(objects, keys)) == HashBeforeSegment(objects, keys, |keys|)
  {
    if keys != [] {
      var n := |keys| - 1;
      UnbrokenStep(objects, keys);
      UnbrokenEventsLink(objects, keys[..n]);
      hide Unbroken, Linked, EndHash;
      JoinLinked(GENESIS_HASH, AllEvents(objects, keys[..n]), SegmentAt(objects, keys, n).events);
    }
  }

  // ----- Restoring ---------------------------------------------------------------------

  /** The events gathered from the listed keys; `None` where parsing raises. */
  function Gather(objects: Objects, keys: seq<string>): Option<seq<Event>> {
    if keys == [] then Some([])
    else
      var key := keys[|keys| - 1];
      match Gather(objects, keys[..|keys| - 1])
      case None => None
      case Some(events) =>
        if key !in objects then Some(events)
        else if objects[key].SegmentBody? then Some(events + objects[key].segment.events)
        else None
  }

  function Restored(chain: string, objects: Objects): Option<seq<Event>> {
    match Gather(objects, SegmentKeys(chain, objects))
    case None => None
    case Some(events) => Some(SortEvents(events))
  }

  lemma {:induction false} GatherAll(objects: Objects, keys: seq<string>)
    requires AllSegments(objects, keys)
    ensures Gather(objects, keys) == Some(AllEvents(objects, keys))
  {
    if keys != [] {
      AllSegmentsStep(objects, keys);
      GatherAll(objects, keys[..|keys| - 1]);
    }
  }

  // ----- The exported chain -------------------------------------------------------------

  lemma SliceContinues(chain: string, log: seq<Event>, a: nat, b: nat)
    requires IsLog(log) && a < b <= |log|
    ensures Continues(SegmentOf(chain, log[a..b]), a, HashBefore(log, a))
    ensures SegmentOf(chain, log[a..b]).lastSequence == b
    ensures SegmentOf(chain, log[a..b]).lastEventHash == HashBefore(log, b)
  {
    var events := log[a..b];
    assert EntryAt(log, a) && EntryAt(log, b - 1);
    forall i | 0 <= i < |events| ensures LinkedAt(log[a].previousHash, events, i) {
      assert EntryAt(log, a + i);
      assert i > 0 ==> events[i - 1] == log[a + i - 1];
    }
  }

  /** The listed segments are unbroken and hold the log's first `c` events. */
  ghost predicate ReadsBack(objects: Objects, keys: seq<string>, log: seq<Event>, c: nat) {
    && c <= |log| && Unbroken(objects, keys) && AllEvents(objects, keys) == log[..c]
    && SequenceBefore(objects, keys, |keys|) == c && HashBeforeSegment(objects, keys, |keys|) == HashBefore(log, c)
  }

  lemma ReadOneMore(
    chain: string, log: seq<Event>, objects: Objects, before: seq<string>, key: string, a: nat, b: nat)
    requires ReadsBack(objects, before, log, a) && a < b <= |log| && IsLog(log)
    requires key in objects && objects[key] == SegmentBody(SegmentOf(chain, log[a..b]))
    ensures ReadsBack(objects, before + [key], log, b)
  {
    SliceContinues(chain, log, a, b);
    hide IsLog, Continues, HashBefore;
    assert (before + [key])[..|before|] == before;
    UnbrokenStep(objects, before + [key]);
    hide Unbroken;
    assert log[..b] == log[..a] + log[a..b];
  }

  /** The key at index `i` holds the log's range between two cuts. */
  ghost predicate RangeAt(chain: string, log: seq<Event>, objects: Objects, cuts: seq<nat>, keys: seq<string>, i: nat)
    requires i < |keys| && i + 1 < |cuts|
  {
    && cuts[i] < cuts[i + 1] <= |log| && keys[i] in objects
    && objects[keys[i]] == SegmentBody(SegmentOf(chain, log[cuts[i]..cuts[i + 1]]))
  }

  lemma RangeStored(chain: string, log: seq<Event>, objects: Objects, cuts: seq<nat>, i: nat)
    requires Archived(chain, log, objects, cuts) && i + 1 < |cuts|
    ensures RangeAt(chain, log, objects, cuts, RangeKeys(chain, cuts), i)
  {
    hide SegmentKeys;
    assert RangeKeys(chain, cuts)[i] == RangeKey(chain, cuts, i);
  }

  lemma ReadsNothing(objects: Objects, log: seq<Event>)
    ensures ReadsBack(objects, [], log, 0)
  {
  }

  /** The first `n` ranges read back as the log up to cut `n`. */
  lemma {:induction false} RangesReadBack(
    chain: string, log: seq<Event>, objects: Objects, cuts: seq<nat>, keys: seq<string>, n: nat)
    requires IsLog(log) && |cuts| == |keys| + 1 && cuts[0] == 0 && n <= |keys|
    requires forall i :: 0 <= i < |keys| ==> RangeAt(chain, log, objects, cuts, keys, i)
    ensures ReadsBack(objects, keys[..n], log, cuts[n])
  {
    hide IsLog, ReadsBack;
    if n == 0 {
      ReadsNothing(objects, log);
      assert keys[..0] == [];
    } else {
      RangesReadBack(chain, log, objects, cuts, keys, n - 1);
      assert RangeAt(chain, log, objects, cuts, keys, n - 1);
      ReadOneMore(chain, log, objects, keys[..n - 1], keys[n - 1], cuts[n - 1], cuts[n]);
      assert keys[..n] == keys[..n - 1] + [keys[n - 1]];
    }
  }

  /** All ranges of an archive together read back as the exported prefix. */
  lemma ArchiveReadsBack(chain: string, log: seq<Event>, objects: Objects, cuts: seq<nat>)
    requires IsLog(log) && Archived(chain, log, objects, cuts)
    ensures ReadsBack(objects, RangeKeys(chain, cuts), log, HighWater(cuts))
  {
    var keys := RangeKeys(chain, cuts);
    assert |cuts| == |keys| + 1 && cuts[0] == 0;
    hide Archived, RangeAt, IsLog, RangeKeys, ReadsBack;
    forall i | 0 <= i < |keys| ensures RangeAt(chain, log, objects, cuts, keys, i) {
      RangeStored(chain, log, objects, cuts, i);
    }
    RangesReadBack(chain, log, objects, cuts, keys, |keys|);
    assert keys[..|keys|] == keys;
  }

  lemma LogIsOrdered(log: seq<Event>)
    requires IsLog(log)
    ensures StrictlyInOrder(log)
  {
    LogSequences(log);
  }

  /** Over every schedule of exports of a gap-free chain, crashed or not: the
      store verifies as intact, its event count is its last sequence number, and
      restoring returns exactly the exported prefix of the log. */
  lemma ExportedChainVerifiesAndRestores(chain: string, log: seq<Event>, steps: seq<Step>) returns (exported: nat)
    requires Schedule(chain, log, steps)
    ensures exported <= |log|
    ensures LastExported(chain, Run(chain, steps)) == Some(exported)
    ensures var r := ExamineAll(Run(chain, steps), SegmentKeys(chain, Run(chain, steps)));
            r.Some? && r.value.problems == 0 && r.value.events == r.value.lastSequence == exported
    ensures Restored(chain, Run(chain, steps)) == Some(log[..exported])
  {
    var objects := Run(chain, steps);
    var cuts := ScheduleArchives(chain, log, steps);
    exported := HighWater(cuts);
    ResumesAtHighWater(chain, log, objects, cuts);
    var keys := RangeKeys(chain, cuts);
    ArchiveReadsBack(chain, log, objects, cuts);
    IntactMeansUnbroken(objects, keys);
    GatherAll(objects, keys);
    PrefixIsLog(log, exported);
    LogIsOrdered(log[..exported]);
    SortPermutes(log[..exported]);
    OrderIsUnique(SortEvents(log[..exported]), log[..exported]);
  }
}
