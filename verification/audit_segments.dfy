/** Cutting a hash-chained log into contiguous segments for export. */
module AuditSegments {
  import opened Outcomes
  import PythonText

  const GENESIS_HASH := "0000000000000000000000000000000000000000000000000000000000000000"

  /** One exported event: its number, its two links and everything else. */
  datatype Event = Event(sequence: int, content: string, previousHash: string, eventHash: string)

  datatype Segment = Segment(
    chain: string, firstSequence: int, lastSequence: int, firstPreviousHash: string, lastEventHash: string,
    events: seq<Event>)

  datatype SegmentError = ChainGap | ZeroStep | InvalidSegment

  /** A gap-free chain from sequence 1, each event linked to the one before. */
  predicate IsLog(log: seq<Event>) {
    forall i {:trigger EntryAt(log, i)} :: 0 <= i < |log| ==> EntryAt(log, i)
  }

  predicate EntryAt(log: seq<Event>, i: nat)
    requires i < |log|
  {
    log[i].sequence == i + 1 && log[i].previousHash == HashBefore(log, i)
  }

  /** The hash an event at index `i` must link to. */
  function HashBefore(log: seq<Event>, i: nat): string
    requires i <= |log|
  {
    if i == 0 then GENESIS_HASH else log[i - 1].eventHash
  }

  function SegmentOf(chain: string, window: seq<Event>): Segment
    requires window != []
  {
    Segment(chain, window[0].sequence, window[|window| - 1].sequence, window[0].previousHash,
            window[|window| - 1].eventHash, window)
  }

  // ----- Selecting and ordering what is pending ---------------------------------

  function PendingAfter(events: seq<Event>, startAfter: int): seq<Event> {
    if events == [] then []
    else
      var n := |events| - 1;
      PendingAfter(events[..n], startAfter) + (if events[n].sequence > startAfter then [events[n]] else [])
  }

  predicate InOrder(s: seq<Event>) {
    forall i, j :: 0 <= i < j < |s| ==> s[i].sequence <= s[j].sequence
  }

  predicate StrictlyInOrder(s: seq<Event>) {
    forall i, j :: 0 <= i < j < |s| ==> s[i].sequence < s[j].sequence
  }

  /** Stable insertion into an ordered list. */
  function Insert(e: Event, s: seq<Event>): (r: seq<Event>)
    requires InOrder(s)
    ensures r != [] && InOrder(r)
    ensures r[|r| - 1].sequence == if s == [] || e.sequence >= s[|s| - 1].sequence then e.sequence else s[|s| - 1].sequence
  {
    if s == [] then [e]
    else
      var n := |s| - 1;
      if e.sequence >= s[n].sequence then s + [e] else Insert(e, s[..n]) + [s[n]]
  }

  /** `sort(key=lambda event: event.sequence)`. */
  function SortEvents(s: seq<Event>): (r: seq<Event>)
    ensures InOrder(r)
  {
    if s == [] then [] else Insert(s[|s| - 1], SortEvents(s[..|s| - 1]))
  }

  lemma SplitLast(s: seq<Event>)
    requires s != []
    ensures multiset(s) == multiset(s[..|s| - 1]) + multiset{s[|s| - 1]}
  {
    assert s == s[..|s| - 1] + [s[|s| - 1]];
  }

  lemma {:induction false} InsertAdds(e: Event, s: seq<Event>)
    requires InOrder(s)
    ensures multiset(Insert(e, s)) == multiset(s) + multiset{e}
  {
    if s != [] && e.sequence < s[|s| - 1].sequence {
      hide InOrder;
      InsertAdds(e, s[..|s| - 1]);
      SplitLast(s);
    }
  }

  /** Sorting loses no event and invents none. */
  lemma {:induction false} SortPermutes(s: seq<Event>)
    ensures multiset(SortEvents(s)) == multiset(s)
  {
    if s != [] {
      SortPermutes(s[..|s| - 1]);
      InsertAdds(s[|s| - 1], SortEvents(s[..|s| - 1]));
      SplitLast(s);
    }
  }

  lemma SameLast(a: seq<Event>, b: seq<Event>)
    requires InOrder(a) && StrictlyInOrder(b) && multiset(a) == multiset(b) && a != [] && b != []
    ensures a[|a| - 1] == b[|b| - 1]
  {
    assert a[|a| - 1] in multiset(b) && b[|b| - 1] in multiset(a);
    var i :| 0 <= i < |a| && a[i] == b[|b| - 1];
    var j :| 0 <= j < |b| && b[j] == a[|a| - 1];
  }

  lemma SameFront(a: seq<Event>, b: seq<Event>)
    requires multiset(a) == multiset(b) && a != [] && b != [] && a[|a| - 1] == b[|b| - 1]
    ensures multiset(a[..|a| - 1]) == multiset(b[..|b| - 1])
  {
    SplitLast(a);
    SplitLast(b);
    assert multiset(a[..|a| - 1]) == multiset(a) - multiset{a[|a| - 1]};
    assert multiset(b[..|b| - 1]) == multiset(b) - multiset{b[|b| - 1]};
  }

  /** An ordered listing of strictly ordered events is that listing. */
  lemma {:induction false} OrderIsUnique(a: seq<Event>, b: seq<Event>)
    requires InOrder(a) && StrictlyInOrder(b) && multiset(a) == multiset(b)
    ensures a == b
  {
    assert |a| == |multiset(a)| == |multiset(b)| == |b|;
    if a != [] {
      SameLast(a, b);
      SameFront(a, b);
      OrderIsUnique(a[..|a| - 1], b[..|b| - 1]);
      hide InOrder, StrictlyInOrder;
      assert a == a[..|a| - 1] + [a[|a| - 1]];
      assert b == b[..|b| - 1] + [b[|b| - 1]];
    }
  }

  lemma {:induction false} PendingCounts(events: seq<Event>, startAfter: int, e: Event)
    ensures multiset(PendingAfter(events, startAfter))[e] == if e.sequence > startAfter then multiset(events)[e] else 0
  {
    if events != [] {
      var n := |events| - 1;
      assert events == events[..n] + [events[n]];
      PendingCounts(events[..n], startAfter, e);
    }
  }

  lemma PrefixIsLog(log: seq<Event>, n: nat)
    requires IsLog(log) && n <= |log|
    ensures IsLog(log[..n])
  {
    forall i | 0 <= i < n ensures EntryAt(log[..n], i) {
      assert EntryAt(log, i);
    }
  }

  lemma LogSequences(log: seq<Event>)
    requires IsLog(log)
    ensures forall i :: 0 <= i < |log| ==> log[i].sequence == i + 1
  {
    forall i | 0 <= i < |log| ensures log[i].sequence == i + 1 {
      assert EntryAt(log, i);
    }
  }

  lemma {:induction false} PendingOfLog(log: seq<Event>, startAfter: nat)
    requires IsLog(log) && startAfter <= |log|
    ensures PendingAfter(log, startAfter) == log[startAfter..]
  {
    if log != [] {
      var n := |log| - 1;
      assert EntryAt(log, n);
      if startAfter <= n {
        PrefixIsLog(log, n);
        PendingOfLog(log[..n], startAfter);
        assert log[startAfter..] == log[..n][startAfter..] + [log[n]];
      } else {
        LogSequences(log);
        NonePending(log, startAfter);
      }
    }
  }

  lemma {:induction false} NonePending(log: seq<Event>, startAfter: int)
    requires forall i :: 0 <= i < |log| ==> log[i].sequence <= startAfter
    ensures PendingAfter(log, startAfter) == []
  {
    if log != [] {
      NonePending(log[..|log| - 1], startAfter);
    }
  }

  /** However the events arrive, what is pending is the tail of the log in order. */
  lemma PendingIsTail(log: seq<Event>, events: seq<Event>, startAfter: nat)
    requires IsLog(log) && multiset(events) == multiset(log)
    ensures SortEvents(PendingAfter(events, startAfter)) == if startAfter <= |log| then log[startAfter..] else []
  {
    forall e ensures multiset(PendingAfter(events, startAfter))[e] == multiset(PendingAfter(log, startAfter))[e] {
      PendingCounts(events, startAfter, e);
      PendingCounts(log, startAfter, e);
    }
    assert multiset(PendingAfter(events, startAfter)) == multiset(PendingAfter(log, startAfter));
    SortPermutes(PendingAfter(events, startAfter));
    LogSequences(log);
    if startAfter <= |log| {
      PendingOfLog(log, startAfter);
      OrderIsUnique(SortEvents(PendingAfter(events, startAfter)), log[startAfter..]);
    } else {
      NonePending(log, startAfter);
      OrderIsUnique(SortEvents(PendingAfter(events, startAfter)), []);
    }
  }

  // ----- Windows --------------------------------------------------------------------

  function Windows(chain: string, pending: seq<Event>, size: nat): seq<Segment>
    requires size > 0
    decreases |pending|
  {
    if pending == [] then []
    else if |pending| <= size then [SegmentOf(chain, pending)]
    else [SegmentOf(chain, pending[..size])] + Windows(chain, pending[size..], size)
  }

  /** The windows still to be cut when the loop stands at `offset`. */
  function WindowsFrom(chain: string, pending: seq<Event>, offset: nat, size: nat): seq<Segment>
    requires size > 0
  {
    if offset <= |pending| then Windows(chain, pending[offset..], size) else []
  }

  function WindowAt(chain: string, pending: seq<Event>, size: nat, offset: nat): Segment
    requires size > 0 && offset < |pending|
  {
    SegmentOf(chain, pending[offset..if offset + size <= |pending| then offset + size else |pending|])
  }

  lemma NextWindow(chain: string, pending: seq<Event>, offset: nat, size: nat)
    requires size > 0 && offset < |pending|
    ensures WindowsFrom(chain, pending, offset, size)
         == [WindowAt(chain, pending, size, offset)] + WindowsFrom(chain, pending, offset + size, size)
  {
    var rest := pending[offset..];
    if |rest| > size {
      assert rest[size..] == pending[offset + size..];
      assert rest[..size] == pending[offset..offset + size];
    } else {
      assert rest == pending[offset..|pending|];
    }
  }

  predicate GapFree(s: seq<Event>) {
    forall i :: 0 <= i < |s| ==> s[i].sequence == s[0].sequence + i
  }

  /** What `build_segments` returns. A negative step makes `range` empty and a
      zero step makes it raise; both only once there is something to export. */
  function Segments(events: seq<Event>, chain: string, startAfter: int, maxEvents: int)
    : Result<seq<Segment>, SegmentError>
  {
    var pending := SortEvents(PendingAfter(events, startAfter));
    if pending == [] then Ok([])
    else if !GapFree(pending) then Err(ChainGap)
    else if maxEvents == 0 then Err(ZeroStep)
    else if maxEvents < 0 then Ok([])
    else if pending[0].sequence < 1 || PythonText.Blank(chain) then Err(InvalidSegment)
    else Ok(Windows(chain, pending, maxEvents))
  }

  /** What the segment type itself insists on. */
  predicate Proper(s: Segment) {
    1 <= s.firstSequence <= s.lastSequence
    && |s.events| == s.lastSequence - s.firstSequence + 1
    && !PythonText.Blank(s.chain)
  }

  lemma {:induction false} WindowsAreProper(chain: string, pending: seq<Event>, size: nat)
    requires size > 0 && GapFree(pending) && !PythonText.Blank(chain)
    requires pending != [] ==> pending[0].sequence >= 1
    ensures forall i :: 0 <= i < |Windows(chain, pending, size)| ==> Proper(Windows(chain, pending, size)[i])
    decreases |pending|
  {
    if |pending| > size {
      assert pending[size].sequence == pending[0].sequence + size;
      WindowsAreProper(chain, pending[size..], size);
    }
  }

  lemma SegmentsAreProper(events: seq<Event>, chain: string, startAfter: int, maxEvents: int)
    ensures var r := Segments(events, chain, startAfter, maxEvents);
            r.Ok? ==> forall i :: 0 <= i < |r.value| ==> Proper(r.value[i])
  {
    var pending := SortEvents(PendingAfter(events, startAfter));
    if GapFree(pending) && pending != [] && maxEvents > 0 && pending[0].sequence >= 1 && !PythonText.Blank(chain) {
      WindowsAreProper(chain, pending, maxEvents);
    }
  }

  method BuildSegments(events: seq<Event>, chain: string, startAfter: int, maxEvents: int)
    returns (r: Result<seq<Segment>, SegmentError>)
    ensures r == Segments(events, chain, startAfter, maxEvents)
  {
    var selected := Select(events, startAfter);
    SortPermutes(selected);
    var pending := SortEvents(selected);
    assert |multiset(pending)| == |multiset(selected)|;
    if selected == [] {
      return Ok([]);
    }
    var gapFree := CheckGaps(pending);
    if !gapFree { return Err(ChainGap); }
    if maxEvents == 0 { return Err(ZeroStep); }
    if maxEvents < 0 { return Ok([]); }
    if pending[0].sequence < 1 || PythonText.Blank(chain) { return Err(InvalidSegment); }
    var segments := CutWindows(chain, pending, maxEvents);
    return Ok(segments);
  }

  method Select(events: seq<Event>, startAfter: int) returns (selected: seq<Event>)
    ensures selected == PendingAfter(events, startAfter)
  {
    selected := [];
    for i := 0 to |events|
      invariant selected == PendingAfter(events[..i], startAfter)
    {
      assert events[..i + 1][..i] == events[..i];
      if events[i].sequence > startAfter {
        selected := selected + [events[i]];
      }
    }
    assert events[..|events|] == events;
  }

  method CheckGaps(pending: seq<Event>) returns (r: bool)
    requires pending != []
    ensures r == GapFree(pending)
  {
    var expected := pending[0].sequence;
    for i := 0 to |pending|
      invariant expected == pending[0].sequence + i
      invariant forall j :: 0 <= j < i ==> pending[j].sequence == pending[0].sequence + j
    {
      if pending[i].sequence != expected {
        return false;
      }
      expected := expected + 1;
    }
    return true;
  }

  /** `done` are the windows of `pending` before `offset`. */
  ghost predicate CutUpTo(chain: string, pending: seq<Event>, size: nat, offset: nat, done: seq<Segment>)
    requires size > 0
  {
    done + WindowsFrom(chain, pending, offset, size) == Windows(chain, pending, size)
  }

  lemma CutOneMore(chain: string, pending: seq<Event>, size: nat, offset: nat, done: seq<Segment>)
    requires size > 0 && offset < |pending| && CutUpTo(chain, pending, size, offset, done)
    ensures CutUpTo(chain, pending, size, offset + size, done + [WindowAt(chain, pending, size, offset)])
  {
    NextWindow(chain, pending, offset, size);
    var w, rest := WindowAt(chain, pending, size, offset), WindowsFrom(chain, pending, offset + size, size);
    hide Windows, WindowsFrom, WindowAt;
    assert done + ([w] + rest) == done + [w] + rest;
  }

  lemma CutNothing(chain: string, pending: seq<Event>, size: nat)
    requires size > 0
    ensures CutUpTo(chain, pending, size, 0, [])
  {
  }

  lemma CutAll(chain: string, pending: seq<Event>, size: nat, offset: nat, done: seq<Segment>)
    requires size > 0 && offset >= |pending| && CutUpTo(chain, pending, size, offset, done)
    ensures done == Windows(chain, pending, size)
  {
  }

  method CutWindows(chain: string, pending: seq<Event>, size: nat) returns (segments: seq<Segment>)
    requires size > 0
    ensures segments == Windows(chain, pending, size)
  {
    hide CutUpTo, Windows;
    segments := [];
    var offset := 0;
    CutNothing(chain, pending, size);
    while offset < |pending|
      invariant 0 <= offset && CutUpTo(chain, pending, size, offset, segments)
      decreases |pending| - offset
    {
      CutOneMore(chain, pending, size, offset, segments);
      var end := if offset + size <= |pending| then offset + size else |pending|;
      segments := segments + [SegmentOf(chain, pending[offset..end])];
      offset := offset + size;
    }
    CutAll(chain, pending, size, offset, segments);
  }
}
