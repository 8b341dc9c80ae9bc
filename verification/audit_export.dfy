/** Copying a hash-chained log into write-once storage, run after run, with a
    crash possible after any put. */
module AuditExport {
  import opened AuditSegments
  import opened ExportKeys
  import opened Lexical
  import opened Outcomes
  import PythonText

  /** The bytes of a stored object. Segment and attestation bodies are
      canonical encodings, so they are as good as what they encode. */
  datatype Blob = SegmentBody(segment: Segment) | AttestationBody(segmentKey: string) | OtherJson | NotJson

  type Objects = map<string, Blob>

  // ----- Reading the store ------------------------------------------------------

  predicate IsSegmentKey(chain: string, key: string) {
    Prefix(chain) <= key && !EndsWith(key, SIGNATURE_SUFFIX)
  }

  function SegmentKeySet(chain: string, objects: Objects): set<string> {
    set k | k in objects && IsSegmentKey(chain, k)
  }

  /** Every segment key of the chain, in listing order. */
  function SegmentKeys(chain: string, objects: Objects): seq<string> {
    Sorted(SegmentKeySet(chain, objects))
  }

  /** Where the last run stopped, read from storage; `None` when the last key is
      not a range, which makes the exporter raise. */
  function LastExported(chain: string, objects: Objects): Option<nat> {
    var keys := SegmentKeys(chain, objects);
    if keys == [] then Some(0) else LastOfKey(keys[|keys| - 1])
  }

  // ----- Writing it -----------------------------------------------------------------

  function KeyOf(s: Segment): string
    requires Proper(s)
  {
    Key(s.chain, s.firstSequence, s.lastSequence)
  }

  datatype Ending = Completed | Crashed | Rewritten

  /** An export under way: what is stored and what the run will report. */
  datatype Progress = Progress(
    objects: Objects, written: nat, exported: nat, present: seq<string>, lastSequence: int, ending: Ending)

  predicate AllProper(segments: seq<Segment>) {
    forall i :: 0 <= i < |segments| ==> Proper(segments[i])
  }

  function PutIfAbsent(objects: Objects, key: string, body: Blob): Objects {
    if key in objects then objects else objects[key := body]
  }

  /** The store once a new segment and, if asked for, its attestation are in it. */
  function StoredWith(objects: Objects, s: Segment, signed: bool): Objects
    requires Proper(s)
  {
    var stored := objects[KeyOf(s) := SegmentBody(s)];
    if signed then PutIfAbsent(stored, SignatureKey(KeyOf(s)), AttestationBody(KeyOf(s))) else stored
  }

  /** One segment: put it, put its attestation, or find one of them already there
      and compare the segment with what is stored. */
  function PutSegment(p: Progress, s: Segment, signed: bool): Progress
    requires Proper(s)
  {
    var key, body := KeyOf(s), SegmentBody(s);
    if key in p.objects && p.objects[key] != body then p.(ending := Rewritten)
    else if key in p.objects then p.(present := p.present + [key], lastSequence := s.lastSequence)
    else if signed && SignatureKey(key) in p.objects then
      p.(objects := StoredWith(p.objects, s, signed), present := p.present + [key], lastSequence := s.lastSequence)
    else
      p.(objects := StoredWith(p.objects, s, signed), written := p.written + 1,
         exported := p.exported + |s.events|, lastSequence := s.lastSequence)
  }

  /** The puts a segment would make. */
  function PutsOf(p: Progress, s: Segment, signed: bool): nat
    requires Proper(s)
  {
    if KeyOf(s) in p.objects then 0
    else if signed && SignatureKey(KeyOf(s)) !in p.objects then 2
    else 1
  }

  /** What a crash in the middle of a segment leaves behind. */
  function CrashInside(p: Progress, s: Segment, puts: nat): Progress
    requires Proper(s)
  {
    p.(objects := if puts == 0 then p.objects else p.objects[KeyOf(s) := SegmentBody(s)], ending := Crashed)
  }

  /** The export loop, cut short once `puts` objects have been written. */
  function PutSegments(p: Progress, segments: seq<Segment>, signed: bool, puts: nat): Progress
    requires AllProper(segments)
    decreases |segments|
  {
    if segments == [] || !p.ending.Completed? then p
    else if PutsOf(p, segments[0], signed) > puts then CrashInside(p, segments[0], puts)
    else
      PutSegments(PutSegment(p, segments[0], signed), segments[1..], signed, puts - PutsOf(p, segments[0], signed))
  }

  datatype Refusal = UnreadableKey | BadChain(error: SegmentError)

  /** One whole run of `export`. */
  function ExportRun(
    chain: string, objects: Objects, events: seq<Event>, maxEvents: int, signed: bool, puts: nat
  ): Result<Progress, Refusal> {
    match LastExported(chain, objects)
    case None => Err(UnreadableKey)
    case Some(start) =>
      match Segments(events, chain, start, maxEvents)
      case Err(e) => Err(BadChain(e))
      case Ok(segments) =>
        SegmentsAreProper(events, chain, start, maxEvents);
        Ok(PutSegments(Progress(objects, 0, 0, [], start, Completed), segments, signed, puts))
  }

  function ObjectsAfter(objects: Objects, r: Result<Progress, Refusal>): Objects {
    if r.Ok? then r.value.objects else objects
  }

  // ----- The archive invariant ----------------------------------------------------------

  /** Boundaries of the exported ranges: 0 first, strictly increasing. */
  predicate AreCuts(cuts: seq<nat>, limit: nat) {
    && cuts != [] && cuts[0] == 0 && cuts[|cuts| - 1] <= limit
    && forall i, j :: 0 <= i < j < |cuts| ==> cuts[i] < cuts[j]
  }

  function HighWater(cuts: seq<nat>): nat
    requires cuts != []
  {
    cuts[|cuts| - 1]
  }

  function RangeKey(chain: string, cuts: seq<nat>, i: nat): string
    requires i + 1 < |cuts|
  {
    Key(chain, cuts[i] + 1, cuts[i + 1])
  }

  function RangeKeys(chain: string, cuts: seq<nat>): (r: seq<string>)
    requires cuts != []
    ensures |r| == |cuts| - 1
    ensures forall i :: 0 <= i < |r| ==> r[i] == RangeKey(chain, cuts, i)
  {
    seq(|cuts| - 1, i requires 0 <= i < |cuts| - 1 => RangeKey(chain, cuts, i))
  }

  function RangeSegment(chain: string, log: seq<Event>, cuts: seq<nat>, i: nat): Segment
    requires AreCuts(cuts, |log|) && i + 1 < |cuts|
  {
    SegmentOf(chain, log[cuts[i]..cuts[i + 1]])
  }

  /** The chain's objects are exactly consecutive ranges of the log from its start. */
  ghost predicate Archived(chain: string, log: seq<Event>, objects: Objects, cuts: seq<nat>) {
    && AreCuts(cuts, |log|)
    && SegmentKeys(chain, objects) == RangeKeys(chain, cuts)
    && forall i :: 0 <= i < |cuts| - 1 ==>
         RangeKey(chain, cuts, i) in objects
         && objects[RangeKey(chain, cuts, i)] == SegmentBody(RangeSegment(chain, log, cuts, i))
  }

  ghost predicate InRange(log: seq<Event>) {
    IsLog(log) && |log| < Pow10(WIDTH)
  }

  lemma RangeKeysAscend(chain: string, cuts: seq<nat>, limit: nat)
    requires AreCuts(cuts, limit) && limit < Pow10(WIDTH)
    ensures Ascending(RangeKeys(chain, cuts))
  {
    hide Less, Pow10, Key, Padded;
    forall i, j | 0 <= i < j < |cuts| - 1
      ensures Less(RangeKeys(chain, cuts)[i], RangeKeys(chain, cuts)[j])
    {
      KeysSortNumerically(chain, cuts[i] + 1, cuts[i + 1], cuts[j] + 1, cuts[j + 1]);
    }
  }

  /** The range after the high-water mark is not stored yet. */
  lemma NextKeyIsNew(chain: string, log: seq<Event>, objects: Objects, cuts: seq<nat>, next: nat)
    requires Archived(chain, log, objects, cuts) && |log| < Pow10(WIDTH)
    requires HighWater(cuts) < next <= |log|
    ensures Key(chain, HighWater(cuts) + 1, next) !in objects
  {
    hide Less, Pow10, Key, Padded, EndsWith, Sorted;
    var key := Key(chain, HighWater(cuts) + 1, next);
    if key in objects {
      SegmentKeyIsNoSidecar(chain, HighWater(cuts) + 1, next);
      assert key in SegmentKeys(chain, objects);
      var i :| 0 <= i < |cuts| - 1 && RangeKeys(chain, cuts)[i] == key;
      KeysSortNumerically(chain, cuts[i] + 1, cuts[i + 1], HighWater(cuts) + 1, next);
      Irreflexive(key);
    }
  }

  lemma RangeKeysGrow(chain: string, cuts: seq<nat>, next: nat)
    requires cuts != []
    ensures RangeKeys(chain, cuts + [next]) == RangeKeys(chain, cuts) + [Key(chain, HighWater(cuts) + 1, next)]
  {
    hide Key;
    forall i | 0 <= i < |cuts|
      ensures RangeKeys(chain, cuts + [next])[i] == (RangeKeys(chain, cuts) + [Key(chain, HighWater(cuts) + 1, next)])[i]
    {
    }
  }

  lemma ListingGrows(chain: string, objects: Objects, key: string, body: Blob, listed: seq<string>)
    requires IsSegmentKey(chain, key) && SegmentKeys(chain, objects) == listed && Ascending(listed + [key])
    ensures SegmentKeys(chain, objects[key := body]) == listed + [key]
  {
    hide Less, Ascending, IsSegmentKey;
    assert SegmentKeySet(chain, objects[key := body]) == SegmentKeySet(chain, objects) + {key};
    AscendingUnique(SegmentKeys(chain, objects[key := body]), listed + [key]);
  }

  lemma MoreCuts(cuts: seq<nat>, limit: nat, next: nat)
    requires AreCuts(cuts, limit) && HighWater(cuts) < next <= limit
    ensures AreCuts(cuts + [next], limit)
  {
  }

  lemma KeysWithNext(chain: string, limit: nat, objects: Objects, cuts: seq<nat>, next: nat, body: Blob)
    requires AreCuts(cuts, limit) && HighWater(cuts) < next <= limit < Pow10(WIDTH)
    requires SegmentKeys(chain, objects) == RangeKeys(chain, cuts)
    ensures SegmentKeys(chain, objects[Key(chain, HighWater(cuts) + 1, next) := body])
         == RangeKeys(chain, cuts + [next])
  {
    MoreCuts(cuts, limit, next);
    var key := Key(chain, HighWater(cuts) + 1, next);
    SegmentKeyIsNoSidecar(chain, HighWater(cuts) + 1, next);
    RangeKeysGrow(chain, cuts, next);
    RangeKeysAscend(chain, cuts + [next], limit);
    assert IsSegmentKey(chain, key);
    hide *;
    ListingGrows(chain, objects, key, body, RangeKeys(chain, cuts));
  }

  /** Adding the next range keeps the archive, one cut longer. */
  lemma AddRange(chain: string, log: seq<Event>, objects: Objects, cuts: seq<nat>, next: nat)
    requires Archived(chain, log, objects, cuts) && |log| < Pow10(WIDTH)
    requires HighWater(cuts) < next <= |log|
    ensures var s := SegmentOf(chain, log[HighWater(cuts)..next]);
            Archived(chain, log, objects[Key(chain, HighWater(cuts) + 1, next) := SegmentBody(s)], cuts + [next])
  {
    hide Pow10, Key, SegmentKeys, RangeKeys;
    var s := SegmentOf(chain, log[HighWater(cuts)..next]);
    var key := Key(chain, HighWater(cuts) + 1, next);
    var after := objects[key := SegmentBody(s)];
    var more := cuts + [next];
    NextKeyIsNew(chain, log, objects, cuts, next);
    KeysWithNext(chain, |log|, objects, cuts, next, SegmentBody(s));
    forall i | 0 <= i < |more| - 1
      ensures RangeKey(chain, more, i) in after
           && after[RangeKey(chain, more, i)] == SegmentBody(RangeSegment(chain, log, more, i))
    {
      if i < |cuts| - 1 {
        assert RangeKey(chain, more, i) == RangeKey(chain, cuts, i);
        assert RangeSegment(chain, log, more, i) == RangeSegment(chain, log, cuts, i);
      }
    }
  }

  /** Objects that are not segments of this chain do not disturb its archive. */
  lemma AddOther(chain: string, log: seq<Event>, objects: Objects, cuts: seq<nat>, key: string, body: Blob)
    requires Archived(chain, log, objects, cuts) && !IsSegmentKey(chain, key)
    ensures Archived(chain, log, objects[key := body], cuts)
  {
    hide Key, EndsWith, Sorted;
    var after := objects[key := body];
    assert SegmentKeySet(chain, after) == SegmentKeySet(chain, objects);
    forall i | 0 <= i < |cuts| - 1
      ensures RangeKey(chain, cuts, i) in after
           && after[RangeKey(chain, cuts, i)] == SegmentBody(RangeSegment(chain, log, cuts, i))
    {
      SegmentKeyIsNoSidecar(chain, cuts[i] + 1, cuts[i + 1]);
    }
  }

  /** Storage alone tells where to resume. */
  lemma ResumesAtHighWater(chain: string, log: seq<Event>, objects: Objects, cuts: seq<nat>)
    requires Archived(chain, log, objects, cuts) && |log| < Pow10(WIDTH)
    ensures LastExported(chain, objects) == Some(HighWater(cuts))
  {
    hide Pow10, Key, LastOfKey, Sorted;
    if |cuts| > 1 {
      var i := |cuts| - 2;
      KeyParsesBack(chain, cuts[i] + 1, cuts[i + 1]);
    }
  }

  // ----- One run -------------------------------------------------------------------------

  function NextCut(s: nat, v: nat, size: nat): nat {
    if s + size <= v then s + size else v
  }

  /** The first window of what is pending, and the ones after it. */
  lemma FirstWindow(chain: string, log: seq<Event>, s: nat, v: nat, size: nat)
    requires size > 0 && s < v <= |log| && IsLog(log) && !PythonText.Blank(chain)
    ensures var n, segments := NextCut(s, v, size), Windows(chain, log[s..v], size);
            && s < n <= v && segments != []
            && segments[0] == SegmentOf(chain, log[s..n]) && segments[1..] == Windows(chain, log[n..v], size)
            && Proper(segments[0]) && KeyOf(segments[0]) == Key(chain, s + 1, n)
            && segments[0].chain == chain && segments[0].firstSequence == s + 1 && segments[0].lastSequence == n
  {
    var n := NextCut(s, v, size);
    hide Key, PythonText.Blank;
    LogSequences(log);
    if n < v {
      assert log[s..v][..size] == log[s..n];
      assert log[s..v][size..] == log[n..v];
    } else {
      assert log[n..v] == [];
    }
    assert log[s..n][0] == log[s] && log[s..n][n - s - 1] == log[n - 1];
  }

  /** `s` is the log's range from the high-water mark to `next`. */
  ghost predicate NextRange(chain: string, log: seq<Event>, cuts: seq<nat>, next: nat, s: Segment) {
    && AreCuts(cuts, |log|) && HighWater(cuts) < next <= |log|
    && s == SegmentOf(chain, log[HighWater(cuts)..next])
    && Proper(s) && KeyOf(s) == Key(chain, HighWater(cuts) + 1, next)
    && s.chain == chain && s.firstSequence == HighWater(cuts) + 1 && s.lastSequence == next
  }

  /** Storing the next range moves the high-water mark to its end, with or
      without a signature beside it. */
  lemma AddNextRange(
    chain: string, log: seq<Event>, objects: Objects, cuts: seq<nat>, next: nat, s: Segment, signed: bool)
    requires Proper(s) && NextRange(chain, log, cuts, next, s)
    requires InRange(log) && Archived(chain, log, objects, cuts)
    ensures KeyOf(s) !in objects && Archived(chain, log, StoredWith(objects, s, signed), cuts + [next])
  {
    NextKeyIsNew(chain, log, objects, cuts, next);
    AddRange(chain, log, objects, cuts, next);
    SegmentKeyIsNoSidecar(chain, HighWater(cuts) + 1, next);
    var key := KeyOf(s);
    assert !IsSegmentKey(chain, SignatureKey(key));
    hide Archived, InRange, NextRange, IsSegmentKey;
    AddOther(chain, log, objects[key := SegmentBody(s)], cuts + [next], SignatureKey(key), AttestationBody(key));
  }

  lemma PutNewSegment(p: Progress, s: Segment, signed: bool, puts: nat)
    requires Proper(s) && KeyOf(s) !in p.objects
    ensures PutsOf(p, s, signed) > 0
    ensures PutSegment(p, s, signed).objects == StoredWith(p.objects, s, signed)
    ensures PutSegment(p, s, signed).ending == p.ending && PutSegment(p, s, signed).lastSequence == s.lastSequence
    ensures CrashInside(p, s, puts).objects == if puts == 0 then p.objects else StoredWith(p.objects, s, false)
  {
  }

  /** Where a run may leave the archive: somewhere between where it began and
      the last event it saw, and exactly there unless it was cut short. */
  ghost predicate LeftAt(chain: string, log: seq<Event>, r: Progress, cuts: seq<nat>, low: nat, v: nat) {
    && Archived(chain, log, r.objects, cuts) && low <= HighWater(cuts) <= v
    && !r.ending.Rewritten?
    && (r.ending.Completed? ==> HighWater(cuts) == v == r.lastSequence)
  }

  /** Whether the run survives its next segment or not, it leaves an archive. */
  lemma StoreNext(
    chain: string, log: seq<Event>, p: Progress, cuts: seq<nat>, next: nat, s: Segment, signed: bool, puts: nat)
    requires Proper(s) && NextRange(chain, log, cuts, next, s) && InRange(log) && p.ending.Completed?
    requires Archived(chain, log, p.objects, cuts)
    ensures PutsOf(p, s, signed) > 0
    ensures LeftAt(chain, log, PutSegment(p, s, signed), cuts + [next], next, next)
    ensures PutSegment(p, s, signed).ending.Completed?
    ensures CrashInside(p, s, puts).ending.Crashed?
    ensures Archived(chain, log, CrashInside(p, s, puts).objects, if puts == 0 then cuts else cuts + [next])
  {
    AddNextRange(chain, log, p.objects, cuts, next, s, signed);
    AddNextRange(chain, log, p.objects, cuts, next, s, false);
    PutNewSegment(p, s, signed, puts);
    assert s.lastSequence == next;
    hide Archived, StoredWith, NextRange, Proper, PutSegment, PutsOf, InRange;
    assert HighWater(cuts + [next]) == next;
  }

  lemma NextSegment(chain: string, log: seq<Event>, cuts: seq<nat>, v: nat, size: nat, segments: seq<Segment>)
    requires IsLog(log) && !PythonText.Blank(chain) && size > 0 && AreCuts(cuts, |log|) && HighWater(cuts) < v <= |log|
    requires segments == Windows(chain, log[HighWater(cuts)..v], size) && AllProper(segments)
    ensures var n := NextCut(HighWater(cuts), v, size);
            && n <= v && segments != [] && NextRange(chain, log, cuts, n, segments[0])
            && segments[1..] == Windows(chain, log[n..v], size) && AllProper(segments[1..])
  {
    var s := HighWater(cuts);
    hide IsLog, Windows, PythonText.Blank, Key, AreCuts, SegmentOf, Proper;
    FirstWindow(chain, log, s, v, size);
    assert NextRange(chain, log, cuts, NextCut(s, v, size), segments[0]);
    hide NextRange, KeyOf;
  }

  /** The export loop, one segment at a time. */
  lemma LoopStep(p: Progress, segments: seq<Segment>, signed: bool, puts: nat)
    requires AllProper(segments) && p.ending.Completed? && segments != []
    ensures AllProper(segments[1..]) && Proper(segments[0])
    ensures PutSegments(p, segments, signed, puts)
         == if PutsOf(p, segments[0], signed) > puts then CrashInside(p, segments[0], puts)
            else PutSegments(PutSegment(p, segments[0], signed), segments[1..], signed, puts - PutsOf(p, segments[0], signed))
  {
  }

  lemma {:induction false} RunKeepsArchive(
    chain: string, log: seq<Event>, p: Progress, cuts: seq<nat>, v: nat, size: nat, segments: seq<Segment>,
    signed: bool, puts: nat) returns (more: seq<nat>)
    requires InRange(log) && !PythonText.Blank(chain) && size > 0 && p.ending.Completed?
    requires cuts != [] && LeftAt(chain, log, p, cuts, HighWater(cuts), HighWater(cuts))
    requires HighWater(cuts) <= v <= |log| && segments == Windows(chain, log[HighWater(cuts)..v], size)
    requires AllProper(segments) && AreCuts(cuts, |log|)
    ensures LeftAt(chain, log, PutSegments(p, segments, signed, puts), more, HighWater(cuts), v)
    decreases |segments|
  {
    hide Archived, AreCuts, Proper, IsLog, PutSegment, PutsOf, CrashInside, PythonText.Blank, AllProper;
    if HighWater(cuts) == v {
      more := cuts;
      assert log[v..v] == [];
      return;
    }
    NextSegment(chain, log, cuts, v, size, segments);
    LoopStep(p, segments, signed, puts);
    hide Windows, PutSegments;
    var n, first := NextCut(HighWater(cuts), v, size), segments[0];
    StoreNext(chain, log, p, cuts, n, first, signed, puts);
    MoreCuts(cuts, |log|, n);
    hide NextRange, InRange;
    assert HighWater(cuts + [n]) == n;
    if PutsOf(p, first, signed) > puts {
      more := if puts == 0 then cuts else cuts + [n];
    } else {
      more := RunKeepsArchive(chain, log, PutSegment(p, first, signed), cuts + [n], v, size, segments[1..], signed,
                              puts - PutsOf(p, first, signed));
    }
  }

  /** A run sees the first `v` events of the log, in whatever order. */
  predicate Sees(log: seq<Event>, events: seq<Event>, v: nat) {
    v <= |log| && multiset(events) == multiset(log[..v])
  }

  lemma PendingForRun(log: seq<Event>, events: seq<Event>, v: nat, start: nat)
    requires IsLog(log) && Sees(log, events, v)
    ensures SortEvents(PendingAfter(events, start)) == if start <= v then log[start..v] else []
  {
    PrefixIsLog(log, v);
    PendingIsTail(log[..v], events, start);
    assert start <= v ==> log[..v][start..] == log[start..v];
  }

  lemma SegmentsOfRun(chain: string, log: seq<Event>, events: seq<Event>, v: nat, start: nat, maxEvents: int)
    requires IsLog(log) && Sees(log, events, v) && !PythonText.Blank(chain)
    ensures var r := Segments(events, chain, start, maxEvents);
            if start >= v || maxEvents < 0 then r == Ok([])
            else if maxEvents == 0 then r == Err(ZeroStep)
            else r == Ok(Windows(chain, log[start..v], maxEvents))
  {
    PendingForRun(log, events, v, start);
    LogSequences(log);
    hide SortEvents, PendingAfter, PythonText.Blank, Windows;
    if start < v {
      var pending := log[start..v];
      assert forall i :: 0 <= i < |pending| ==> pending[i] == log[start + i];
      assert GapFree(pending);
    } else {
      assert start == v ==> log[start..v] == [];
    }
  }

  /** One run of `export`, crashed or not, leaves an archive that reaches at
      least as far as before; a run that completes reaches the last event seen. */
  lemma ExportKeepsArchive(
    chain: string, log: seq<Event>, objects: Objects, cuts: seq<nat>, events: seq<Event>, v: nat, maxEvents: int,
    signed: bool, puts: nat) returns (more: seq<nat>)
    requires InRange(log) && !PythonText.Blank(chain) && Sees(log, events, v) && Archived(chain, log, objects, cuts)
    ensures var r := ExportRun(chain, objects, events, maxEvents, signed, puts);
            && Archived(chain, log, ObjectsAfter(objects, r), more) && HighWater(more) >= HighWater(cuts)
            && (maxEvents > 0 ==> r.Ok? && !r.value.ending.Rewritten?)
            && (maxEvents > 0 && r.value.ending.Completed? ==>
                  HighWater(more) == r.value.lastSequence == if v > HighWater(cuts) then v else HighWater(cuts))
  {
    ResumesAtHighWater(chain, log, objects, cuts);
    var start := HighWater(cuts);
    SegmentsOfRun(chain, log, events, v, start, maxEvents);
    assert cuts != [] && AreCuts(cuts, |log|);
    hide Archived, AreCuts, LastExported, Segments, IsLog, PythonText.Blank, Pow10;
    var p := Progress(objects, 0, 0, [], start, Completed);
    more := cuts;
    if maxEvents > 0 && start < v {
      SegmentsAreProper(events, chain, start, maxEvents);
      var segments := Windows(chain, log[start..v], maxEvents);
      hide PutSegments, Windows;
      more := RunKeepsArchive(chain, log, p, cuts, v, maxEvents, segments, signed, puts);
    }
  }

  // ----- What a run reports ---------------------------------------------------------------

  /** Attestations stand only beside their segments. */
  ghost predicate NoStraySidecars(chain: string, objects: Objects) {
    forall key :: SignatureKey(key) in objects && Prefix(chain) <= key ==> key in objects
  }

  lemma SidecarsStayPaired(chain: string, objects: Objects, s: Segment, signed: bool)
    requires Proper(s) && s.chain == chain && NoStraySidecars(chain, objects)
    ensures NoStraySidecars(chain, StoredWith(objects, s, signed))
  {
    var segmentKey, after := KeyOf(s), StoredWith(objects, s, signed);
    SegmentKeyIsNoSidecar(chain, s.firstSequence, s.lastSequence);
    hide Key, Proper;
    forall key | SignatureKey(key) in after && Prefix(chain) <= key ensures key in after {
      assert EndsWith(SignatureKey(key), SIGNATURE_SUFFIX);
      if SignatureKey(key) == SignatureKey(segmentKey) {
        assert SignatureKey(key)[..|key|] == key && SignatureKey(segmentKey)[..|segmentKey|] == segmentKey;
      }
    }
  }

  /** From one store to a later one nothing is replaced, every new segment has its
      attestation beside it if the exporter signs, and otherwise no sidecar is new. */
  ghost predicate Attested(before: Objects, after: Objects, signed: bool) {
    && (forall k :: k in before ==> k in after && after[k] == before[k])
    && (forall k :: k in after && k !in before ==>
          if EndsWith(k, SIGNATURE_SUFFIX) then signed
          else signed ==> SignatureKey(k) in after && after[SignatureKey(k)] == AttestationBody(k))
  }

  lemma AttestedAdds(a: Objects, b: Objects, c: Objects, signed: bool)
    requires Attested(a, b, signed) && Attested(b, c, signed)
    ensures Attested(a, c, signed)
  {
    hide EndsWith;
  }

  lemma NextIsAttested(objects: Objects, s: Segment, signed: bool)
    requires Proper(s) && KeyOf(s) !in objects && SignatureKey(KeyOf(s)) !in objects
    ensures Attested(objects, StoredWith(objects, s, signed), signed)
  {
    SegmentKeyIsNoSidecar(s.chain, s.firstSequence, s.lastSequence);
    assert |SignatureKey(KeyOf(s))| > |KeyOf(s)|;
    hide Key, EndsWith, SignatureKey, Attested;
    PairIsAttested(objects, KeyOf(s), SegmentBody(s));
  }

  lemma PairIsAttested(objects: Objects, key: string, body: Blob)
    requires key !in objects && SignatureKey(key) !in objects && SignatureKey(key) != key
    requires !EndsWith(key, SIGNATURE_SUFFIX) && EndsWith(SignatureKey(key), SIGNATURE_SUFFIX)
    ensures Attested(objects, objects[key := body], false)
    ensures Attested(objects, objects[key := body][SignatureKey(key) := AttestationBody(key)], true)
  {
    hide EndsWith, SignatureKey;
  }

  /** The report after the next segment is stored. */
  lemma NextIsCounted(chain: string, p: Progress, s: Segment, signed: bool)
    requires Proper(s) && s.chain == chain && NoStraySidecars(chain, p.objects) && KeyOf(s) !in p.objects
    ensures var r := PutSegment(p, s, signed);
            && NoStraySidecars(chain, r.objects) && r.written == p.written + 1 && r.present == p.present
            && r.exported == p.exported + (s.lastSequence - s.firstSequence + 1)
            && Attested(p.objects, r.objects, signed)
  {
    SegmentKeyIsNoSidecar(chain, s.firstSequence, s.lastSequence);
    SidecarsStayPaired(chain, p.objects, s, signed);
    hide Key, NoStraySidecars, Attested;
    assert SignatureKey(KeyOf(s)) !in p.objects by { Unpaired(chain, p.objects, KeyOf(s)); }
    NextIsAttested(p.objects, s, signed);
  }

  lemma Unpaired(chain: string, objects: Objects, key: string)
    requires NoStraySidecars(chain, objects) && Prefix(chain) <= key && key !in objects
    ensures SignatureKey(key) !in objects
  {
  }

  /** From `p` to `r` so many segments and events were newly written and attested. */
  ghost predicate Counted(chain: string, p: Progress, r: Progress, signed: bool, segments: int, events: int) {
    && NoStraySidecars(chain, r.objects) && Attested(p.objects, r.objects, signed) && r.present == p.present
    && r.written == p.written + segments && r.exported == p.exported + events
  }

  lemma CountedAdds(chain: string, p: Progress, q: Progress, r: Progress, signed: bool, s: int, e: int, t: int, f: int)
    requires Counted(chain, p, q, signed, s, e) && Counted(chain, q, r, signed, t, f)
    ensures Counted(chain, p, r, signed, s + t, e + f)
  {
    AttestedAdds(p.objects, q.objects, r.objects, signed);
  }

  lemma NextReports(
    chain: string, log: seq<Event>, p: Progress, cuts: seq<nat>, next: nat, s: Segment, signed: bool)
    requires Proper(s) && NextRange(chain, log, cuts, next, s) && InRange(log) && NoStraySidecars(chain, p.objects)
    requires Archived(chain, log, p.objects, cuts)
    ensures Counted(chain, p, PutSegment(p, s, signed), signed, 1, next - HighWater(cuts))
  {
    AddNextRange(chain, log, p.objects, cuts, next, s, signed);
    NextIsCounted(chain, p, s, signed);
  }

  /** A run that completes reports every event from where it began as exported, by
      as many writes as there were segments, and finds nothing already present. */
  lemma {:induction false} CompletedRunReports(
    chain: string, log: seq<Event>, p: Progress, cuts: seq<nat>, v: nat, size: nat, segments: seq<Segment>,
    signed: bool, puts: nat)
    requires InRange(log) && !PythonText.Blank(chain) && size > 0 && p.ending.Completed?
    requires cuts != [] && LeftAt(chain, log, p, cuts, HighWater(cuts), HighWater(cuts))
    requires HighWater(cuts) <= v <= |log| && segments == Windows(chain, log[HighWater(cuts)..v], size)
    requires AllProper(segments) && AreCuts(cuts, |log|) && NoStraySidecars(chain, p.objects)
    ensures var r := PutSegments(p, segments, signed, puts);
            r.ending.Completed? ==> Counted(chain, p, r, signed, |segments|, v - HighWater(cuts))
    decreases |segments|
  {
    hide Archived, AreCuts, Proper, IsLog, PutSegment, PutsOf, CrashInside, PythonText.Blank, AllProper, NoStraySidecars;
    if HighWater(cuts) == v {
      assert log[v..v] == [];
      return;
    }
    NextSegment(chain, log, cuts, v, size, segments);
    LoopStep(p, segments, signed, puts);
    hide Windows, PutSegments;
    var n, first := NextCut(HighWater(cuts), v, size), segments[0];
    StoreNext(chain, log, p, cuts, n, first, signed, puts);
    NextReports(chain, log, p, cuts, n, first, signed);
    MoreCuts(cuts, |log|, n);
    hide NextRange, InRange;
    assert HighWater(cuts + [n]) == n;
    if PutsOf(p, first, signed) <= puts {
      var next, left := PutSegment(p, first, signed), puts - PutsOf(p, first, signed);
      assert NoStraySidecars(chain, next.objects);
      hide Counted;
      CompletedRunReports(chain, log, next, cuts + [n], v, size, segments[1..], signed, left);
      var result := PutSegments(p, segments, signed, puts);
      if result.ending.Completed? {
        CountedAdds(chain, p, next, result, signed, 1, n - HighWater(cuts), |segments| - 1, v - n);
      }
    }
  }

  /** The report of a completed `export` adds up: its events are the ones between
      the old high-water mark and the last sequence it names, all newly written;
      and each segment it wrote has its attestation exactly if it signs. */
  lemma CompletedExportReports(
    chain: string, log: seq<Event>, objects: Objects, cuts: seq<nat>, events: seq<Event>, v: nat, maxEvents: int,
    signed: bool, puts: nat)
    requires InRange(log) && !PythonText.Blank(chain) && Sees(log, events, v) && Archived(chain, log, objects, cuts)
    requires NoStraySidecars(chain, objects) && maxEvents > 0
    ensures var r := ExportRun(chain, objects, events, maxEvents, signed, puts);
            r.Ok? && (r.value.ending.Completed? ==>
              && r.value.exported == (if v > HighWater(cuts) then v - HighWater(cuts) else 0) && r.value.present == []
              && (r.value.written == 0 <==> v <= HighWater(cuts))
              && Attested(objects, r.value.objects, signed) && NoStraySidecars(chain, r.value.objects))
  {
    var start, p := HighWater(cuts), Progress(objects, 0, 0, [], HighWater(cuts), Completed);
    assert AreCuts(cuts, |log|);
    if start < v {
      RunPutsWindows(chain, log, objects, cuts, events, v, maxEvents, signed, puts);
      var segments := Windows(chain, log[start..v], maxEvents);
      assert segments != [];
      hide ExportRun, Windows, Sees, AllProper, InRange, PythonText.Blank, NoStraySidecars, Archived, AreCuts, PutSegments,
           Attested;
      CompletedRunReports(chain, log, p, cuts, v, maxEvents, segments, signed, puts);
    } else {
      ResumesAtHighWater(chain, log, objects, cuts);
      SegmentsOfRun(chain, log, events, v, start, maxEvents);
      hide LastExported, Segments, Archived, InRange, NoStraySidecars;
    }
  }

  lemma RunPutsWindows(
    chain: string, log: seq<Event>, objects: Objects, cuts: seq<nat>, events: seq<Event>, v: nat, maxEvents: int,
    signed: bool, puts: nat)
    requires InRange(log) && !PythonText.Blank(chain) && Sees(log, events, v) && Archived(chain, log, objects, cuts)
    requires maxEvents > 0 && v >= HighWater(cuts)
    ensures var segments := Windows(chain, log[HighWater(cuts)..v], maxEvents);
            && AllProper(segments)
            && ExportRun(chain, objects, events, maxEvents, signed, puts)
               == Ok(PutSegments(Progress(objects, 0, 0, [], HighWater(cuts), Completed), segments, signed, puts))
  {
    ResumesAtHighWater(chain, log, objects, cuts);
    SegmentsOfRun(chain, log, events, v, HighWater(cuts), maxEvents);
    SegmentsAreProper(events, chain, HighWater(cuts), maxEvents);
    assert HighWater(cuts) == v ==> log[HighWater(cuts)..v] == [];
    hide Archived, LastExported, Segments, IsLog, PythonText.Blank, Pow10, PutSegments, Sees;
  }

  /** Whatever is exported from whatever store, nothing stored is ever replaced. */
  lemma {:induction false} ExportNeverOverwrites(p: Progress, segments: seq<Segment>, signed: bool, puts: nat)
    requires AllProper(segments)
    ensures var r := PutSegments(p, segments, signed, puts);
            forall k :: k in p.objects ==> k in r.objects && r.objects[k] == p.objects[k]
    decreases |segments|
  {
    if segments != [] && p.ending.Completed? {
      LoopStep(p, segments, signed, puts);
      hide PutSegments, KeyOf, SignatureKey, Proper;
      if PutsOf(p, segments[0], signed) <= puts {
        ExportNeverOverwrites(PutSegment(p, segments[0], signed), segments[1..], signed,
                              puts - PutsOf(p, segments[0], signed));
      }
    }
  }

  /** A stored segment that differs from the local chain stops the run, untouched;
      an equal one is passed over and reported. */
  lemma StoredSegmentIsCompared(p: Progress, s: Segment, signed: bool)
    requires Proper(s) && KeyOf(s) in p.objects && p.ending.Completed?
    ensures var r := PutSegment(p, s, signed);
            && r.objects == p.objects && r.written == p.written && r.exported == p.exported
            && (r.ending.Rewritten? <==> p.objects[KeyOf(s)] != SegmentBody(s))
            && (r.ending.Completed? <==> p.objects[KeyOf(s)] == SegmentBody(s))
            && (r.ending.Completed? ==> r.present == p.present + [KeyOf(s)] && r.lastSequence == s.lastSequence)
  {
  }

  // ----- Signed chains ---------------------------------------------------------------------

  /** Every segment of the chain has its attestation beside it. */
  ghost predicate AllAttested(chain: string, objects: Objects) {
    forall k :: k in objects && IsSegmentKey(chain, k) ==>
      SignatureKey(k) in objects && objects[SignatureKey(k)] == AttestationBody(k)
  }

  lemma AttestedStays(chain: string, before: Objects, after: Objects)
    requires AllAttested(chain, before) && Attested(before, after, true)
    ensures AllAttested(chain, after)
  {
    hide EndsWith;
  }

  // ----- Schedules ----------------------------------------------------------------------

  /** A run of the exporter, or any put that is not a segment of this chain. */
  datatype Step =
    | Export(visible: nat, events: seq<Event>, maxEvents: int, signed: bool, puts: nat)
    | OtherPut(key: string, body: Blob)

  predicate Possible(chain: string, log: seq<Event>, step: Step) {
    match step
    case Export(visible, events, _, _, _) => Sees(log, events, visible)
    case OtherPut(key, _) => !IsSegmentKey(chain, key)
  }

  function Apply(chain: string, objects: Objects, step: Step): Objects {
    match step
    case Export(_, events, maxEvents, signed, puts) =>
      ObjectsAfter(objects, ExportRun(chain, objects, events, maxEvents, signed, puts))
    case OtherPut(key, body) => PutIfAbsent(objects, key, body)
  }

  function Run(chain: string, steps: seq<Step>): Objects {
    if steps == [] then map[] else Apply(chain, Run(chain, steps[..|steps| - 1]), steps[|steps| - 1])
  }

  ghost predicate Schedule(chain: string, log: seq<Event>, steps: seq<Step>) {
    && InRange(log) && !PythonText.Blank(chain)
    && forall i :: 0 <= i < |steps| ==> Possible(chain, log, steps[i])
  }

  /** After any schedule the store holds consecutive ranges of the log from its
      start, and nothing else that counts as a segment of the chain. */
  lemma {:induction false} ScheduleArchives(chain: string, log: seq<Event>, steps: seq<Step>)
    returns (cuts: seq<nat>)
    requires Schedule(chain, log, steps)
    ensures Archived(chain, log, Run(chain, steps), cuts)
  {
    if steps == [] {
      cuts := [0];
      assert SegmentKeySet(chain, map[]) == {};
    } else {
      var n := |steps| - 1;
      var before := ScheduleArchives(chain, log, steps[..n]);
      hide Archived, InRange, PythonText.Blank, Sees, IsSegmentKey, ExportRun;
      assert Possible(chain, log, steps[n]);
      match steps[n]
      case Export(visible, events, maxEvents, signed, puts) =>
        cuts := ExportKeepsArchive(chain, log, Run(chain, steps[..n]), before, events, visible, maxEvents, signed, puts);
      case OtherPut(key, body) =>
        cuts := before;
        AddOther(chain, log, Run(chain, steps[..n]), before, key, body);
    }
  }

  /** A schedule of completed signed runs, with other puts outside the chain. */
  ghost predicate SignedAndCompleted(chain: string, log: seq<Event>, steps: seq<Step>) {
    forall i :: 0 <= i < |steps| ==> SignedStep(chain, log, Run(chain, steps[..i]), steps[i])
  }

  ghost predicate SignedStep(chain: string, log: seq<Event>, objects: Objects, step: Step) {
    match step
    case Export(visible, events, maxEvents, signed, puts) =>
      && Sees(log, events, visible) && maxEvents > 0 && signed
      && var r := ExportRun(chain, objects, events, maxEvents, signed, puts); r.Ok? ==> r.value.ending.Completed?
    case OtherPut(key, _) => !(Prefix(chain) <= key)
  }

  lemma OtherPutStaysAttested(chain: string, objects: Objects, key: string, body: Blob)
    requires NoStraySidecars(chain, objects) && AllAttested(chain, objects) && !(Prefix(chain) <= key)
    ensures NoStraySidecars(chain, PutIfAbsent(objects, key, body)) && AllAttested(chain, PutIfAbsent(objects, key, body))
  {
    forall k | Prefix(chain) <= k ensures Prefix(chain) <= SignatureKey(k) {
    }
    hide EndsWith;
  }

  /** After completed signed runs every archived segment is attested. */
  lemma {:induction false} SignedRunsAttestEverything(chain: string, log: seq<Event>, steps: seq<Step>)
    returns (cuts: seq<nat>)
    requires InRange(log) && !PythonText.Blank(chain) && SignedAndCompleted(chain, log, steps)
    ensures Archived(chain, log, Run(chain, steps), cuts)
    ensures AllAttested(chain, Run(chain, steps)) && NoStraySidecars(chain, Run(chain, steps))
  {
    if steps == [] {
      cuts := [0];
      assert SegmentKeySet(chain, map[]) == {};
    } else {
      var n := |steps| - 1;
      assert forall i :: 0 <= i < n ==> steps[..n][..i] == steps[..i];
      var before := SignedRunsAttestEverything(chain, log, steps[..n]);
      var objects := Run(chain, steps[..n]);
      assert SignedStep(chain, log, objects, steps[n]);
      hide Archived, InRange, PythonText.Blank, Sees, ExportRun, AllAttested, NoStraySidecars, SignedAndCompleted;
      match steps[n]
      case Export(visible, events, maxEvents, signed, puts) =>
        cuts := ExportKeepsArchive(chain, log, objects, before, events, visible, maxEvents, signed, puts);
        CompletedExportReports(chain, log, objects, before, events, visible, maxEvents, signed, puts);
        AttestedStays(chain, objects, Run(chain, steps));
      case OtherPut(key, body) =>
        cuts := before;
        AddOther(chain, log, objects, before, key, body);
        OtherPutStaysAttested(chain, objects, key, body);
    }
  }
}
