/** The exporter and its write-once store as objects, proved to do what the
    functions of AuditExport and AuditVerification say. */
module AuditExporterObject {
  import opened AuditExport
  import opened AuditSegments
  import opened AuditVerification
  import opened ExportKeys
  import opened Lexical
  import opened Outcomes
  import PythonText

  class WriteOnceStore {
    var objects: map<string, Blob>

    constructor ()
      ensures objects == map[]
    {
      objects := map[];
    }

    /** Nothing already stored is ever replaced. */
    method PutOnce(key: string, body: Blob) returns (stored: bool)
      modifies this
      ensures stored == (key !in old(objects))
      ensures objects == PutIfAbsent(old(objects), key, body)
      ensures forall k :: k in old(objects) ==> k in objects && objects[k] == old(objects)[k]
    {
      if key in objects {
        return false;
      }
      objects := objects[key := body];
      stored := true;
    }

    method Get(key: string) returns (body: Option<Blob>)
      ensures body == if key in objects then Some(objects[key]) else None
    {
      return if key in objects then Some(objects[key]) else None;
    }

    method ListKeys(prefix: string) returns (keys: seq<string>)
      ensures Ascending(keys)
      ensures forall k :: k in keys <==> k in objects && prefix <= k
    {
      return Sorted(set k | k in objects && prefix <= k);
    }
  }

  class AuditExporter {
    const store: WriteOnceStore
    const chain: string
    const maxEvents: int
    const signs: bool

    constructor (store: WriteOnceStore, chain: string, maxEvents: int, signs: bool)
      requires !PythonText.Blank(chain)
      ensures this.store == store && this.chain == chain && this.maxEvents == maxEvents && this.signs == signs
    {
      this.store, this.chain, this.maxEvents, this.signs := store, chain, maxEvents, signs;
    }

    /** Listing, then dropping the sidecars, leaves the segments in order. */
    method ListSegmentKeys() returns (keys: seq<string>)
      ensures keys == SegmentKeys(chain, store.objects)
    {
      var listed := store.ListKeys(Prefix(chain));
      keys := [];
      for i := 0 to |listed|
        invariant Ascending(keys)
        invariant forall k :: k in keys <==> k in listed[..i] && !EndsWith(k, SIGNATURE_SUFFIX)
      {
        assert listed[..i + 1] == listed[..i] + [listed[i]];
        hide EndsWith;
        if !EndsWith(listed[i], SIGNATURE_SUFFIX) {
          AscendingGrows(keys, listed, i);
          keys := keys + [listed[i]];
        }
      }
      assert listed[..|listed|] == listed;
      hide Ascending, EndsWith;
      AscendingUnique(keys, SegmentKeys(chain, store.objects));
    }

    method LastExportedSequence() returns (last: Option<nat>)
      ensures last == LastExported(chain, store.objects)
    {
      var keys := ListSegmentKeys();
      if keys == [] {
        return Some(0);
      }
      return LastOfKey(keys[|keys| - 1]);
    }

    /** One run over `events`, stopped by a crash once `puts` objects have been
        written. */
    method Export(events: seq<Event>, puts: nat) returns (r: Result<Progress, Refusal>)
      modifies store
      ensures r == ExportRun(chain, old(store.objects), events, maxEvents, signs, puts)
      ensures store.objects == ObjectsAfter(old(store.objects), r)
      ensures forall k :: k in old(store.objects) ==> k in store.objects && store.objects[k] == old(store.objects)[k]
    {
      var start := LastExportedSequence();
      if start.None? {
        return Err(UnreadableKey);
      }
      var built := BuildSegments(events, chain, start.value, maxEvents);
      if built.Err? {
        return Err(BadChain(built.error));
      }
      SegmentsAreProper(events, chain, start.value, maxEvents);
      var segments := built.value;
      hide Segments, Proper;
      ExportNeverOverwrites(Progress(store.objects, 0, 0, [], start.value, Completed), segments, signs, puts);
      var p := WriteSegments(segments, start.value, puts);
      return Ok(p);
    }

    method WriteSegments(segments: seq<Segment>, start: nat, puts: nat) returns (p: Progress)
      requires AllProper(segments)
      modifies store
      ensures p == PutSegments(Progress(old(store.objects), 0, 0, [], start, Completed), segments, signs, puts)
      ensures store.objects == p.objects
    {
      var budget := puts;
      p := Progress(store.objects, 0, 0, [], start, Completed);
      ghost var opening := p;
      for i := 0 to |segments|
        invariant p.ending.Completed? && store.objects == p.objects
        invariant PutSegments(opening, segments, signs, puts) == PutSegments(p, segments[i..], signs, budget)
      {
        assert segments[i..][1..] == segments[i + 1..];
        p, budget := WriteSegment(p, segments[i], budget);
        if !p.ending.Completed? {
          return;
        }
      }
    }

    method WriteSegment(p: Progress, s: Segment, budget: nat) returns (q: Progress, left: nat)
      requires Proper(s) && p.ending.Completed? && p.objects == store.objects
      modifies store
      ensures store.objects == q.objects
      ensures PutsOf(p, s, signs) > budget ==> q == CrashInside(p, s, budget)
      ensures PutsOf(p, s, signs) <= budget ==> q == PutSegment(p, s, signs) && left == budget - PutsOf(p, s, signs)
      ensures KeyOf(s) !in p.objects && q.ending.Completed? ==>
        && KeyOf(s) in store.objects && store.objects[KeyOf(s)] == SegmentBody(s)
        && (signs && SignatureKey(KeyOf(s)) !in p.objects ==>
              SignatureKey(KeyOf(s)) in store.objects
              && store.objects[SignatureKey(KeyOf(s))] == AttestationBody(KeyOf(s)))
      ensures forall k :: k in store.objects && k !in p.objects ==>
        k == KeyOf(s) || (signs && k == SignatureKey(KeyOf(s)))
    {
      left := budget;
      var key := KeyOf(s);
      var existing := store.Get(key);
      if existing.Some? {
        if existing.value != SegmentBody(s) {
          return p.(ending := Rewritten), left;
        }
        return p.(present := p.present + [key], lastSequence := s.lastSequence), left;
      }
      if left == 0 {
        return p.(ending := Crashed), left;
      }
      var _ := store.PutOnce(key, SegmentBody(s));
      left := left - 1;
      if signs {
        var sidecar := SignatureKey(key);
        assert sidecar != key by { assert |sidecar| > |key|; }
        var present := store.Get(sidecar);
        if present.Some? {
          return p.(objects := store.objects, present := p.present + [key], lastSequence := s.lastSequence), left;
        }
        if left == 0 {
          return p.(objects := store.objects, ending := Crashed), left;
        }
        var _ := store.PutOnce(sidecar, AttestationBody(key));
        left := left - 1;
      }
      return p.(objects := store.objects, written := p.written + 1, exported := p.exported + |s.events|,
                lastSequence := s.lastSequence), left;
    }

    /** Intact exactly when the stored chain is unbroken; `None` where a document
        of another shape makes the source raise. */
    method Verify() returns (r: Option<Audit>, intact: bool)
      ensures r == ExamineAll(store.objects, SegmentKeys(chain, store.objects))
      ensures intact == Unbroken(store.objects, SegmentKeys(chain, store.objects))
    {
      var keys := ListSegmentKeys();
      IntactMeansUnbroken(store.objects, keys);
      r := VerifyKeys(keys);
      intact := r.Some? && r.value.problems == 0;
    }

    method VerifyKeys(keys: seq<string>) returns (r: Option<Audit>)
      ensures r == ExamineAll(store.objects, keys)
    {
      hide ExamineSegment;
      var a := START;
      for i := 0 to |keys|
        invariant ExamineAll(store.objects, keys[..i]) == Some(a)
      {
        assert keys[..i + 1][..i] == keys[..i];
        var raw := store.Get(keys[i]);
        match raw
        case None => a := a.(problems := a.problems + 1);
        case Some(NotJson) => a := a.(problems := a.problems + 1);
        case Some(SegmentBody(s)) => a := VerifySegment(a, s);
        case _ =>
          StuckOnce(store.objects, keys, i + 1);
          return None;
      }
      assert keys[..|keys|] == keys;
      return Some(a);
    }

    method VerifySegment(a: Audit, s: Segment) returns (r: Audit)
      ensures r == ExamineSegment(a, s)
    {
      var problems := a.problems;
      if s.firstSequence != a.expectedSequence { problems := problems + 1; }
      if s.firstPreviousHash != a.expectedPrevious { problems := problems + 1; }
      if |s.events| != s.lastSequence - s.firstSequence + 1 { problems := problems + 1; }
      var previous, i := s.firstPreviousHash, 0;
      while i < |s.events| && s.events[i].previousHash == previous
        invariant 0 <= i <= |s.events| && previous == LinkTo(s.firstPreviousHash, s.events, i)
        invariant forall j {:trigger LinkedAt(s.firstPreviousHash, s.events, j)} :: 0 <= j < i ==>
          LinkedAt(s.firstPreviousHash, s.events, j)
      {
        previous := s.events[i].eventHash;
        i := i + 1;
      }
      assert i < |s.events| ==> !LinkedAt(s.firstPreviousHash, s.events, i);
      if i < |s.events| || previous != s.lastEventHash {
        problems := problems + 1;
      }
      return Audit(problems, s.lastSequence + 1, s.lastEventHash, a.events + |s.events|, s.lastSequence);
    }

    method Restore() returns (r: Option<seq<Event>>)
      ensures r == Restored(chain, store.objects)
    {
      var keys := ListSegmentKeys();
      hide SegmentKeys, SortEvents;
      var restored: seq<Event> := [];
      for i := 0 to |keys|
        invariant Gather(store.objects, keys[..i]) == Some(restored)
      {
        assert keys[..i + 1][..i] == keys[..i];
        var raw := store.Get(keys[i]);
        match raw
        case None =>
        case Some(SegmentBody(s)) => restored := restored + s.events;
        case Some(_) =>
          LostOnce(store.objects, keys, i + 1);
          return None;
      }
      assert keys[..|keys|] == keys;
      return Some(SortEvents(restored));
    }
  }

  lemma AscendingGrows(keys: seq<string>, listed: seq<string>, i: nat)
    requires Ascending(keys) && Ascending(listed) && i < |listed|
    requires forall k :: k in keys ==> k in listed[..i]
    ensures Ascending(keys + [listed[i]])
  {
    forall j | 0 <= j < |keys| ensures Less(keys[j], listed[i]) {
      assert keys[j] in listed[..i];
      var m :| 0 <= m < i && listed[..i][m] == keys[j];
      assert listed[m] == keys[j];
    }
  }

  lemma {:induction false} StuckOnce(objects: map<string, Blob>, keys: seq<string>, n: nat)
    requires n <= |keys| && ExamineAll(objects, keys[..n]).None?
    ensures ExamineAll(objects, keys).None?
    decreases |keys|
  {
    if n < |keys| {
      assert keys[..|keys| - 1][..n] == keys[..n];
      StuckOnce(objects, keys[..|keys| - 1], n);
    } else {
      assert keys[..n] == keys;
    }
  }

  lemma {:induction false} LostOnce(objects: map<string, Blob>, keys: seq<string>, n: nat)
    requires n <= |keys| && Gather(objects, keys[..n]).None?
    ensures Gather(objects, keys).None?
    decreases |keys|
  {
    if n < |keys| {
      assert keys[..|keys| - 1][..n] == keys[..n];
      LostOnce(objects, keys[..|keys| - 1], n);
    } else {
      assert keys[..n] == keys;
    }
  }
}
