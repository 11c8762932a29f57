/** What `getNoteSvgInfoByParent` records about a note or a rest, found by walking up its
    parent links to the page, and the start and end times taken from the event map. The
    engine's objects are reduced to identities and the facts the walk reads. */
module ExportNotes {
  import opened Wrappers

  datatype SegmentType = ChordRest | BeginBarLine | HeaderClef | KeySig | TimeSig | Breath | EndBarLine | OtherSegment

  /** A segment of a measure: its identity, its type, and for each track that holds a chord
      the identities of the chord's notes in order. */
  datatype Segment = Segment(id: nat, segmentType: SegmentType, chords: map<int, seq<nat>>)

  /** The number of ChordRest segments in `segs`. */
  function CountChordRest(segs: seq<Segment>): nat {
    if |segs| == 0 then 0
    else CountChordRest(segs[..|segs| - 1]) + (if segs[|segs| - 1].segmentType == ChordRest then 1 else 0)
  }

  lemma {:induction false} CountChordRestMonotone(segs: seq<Segment>, a: nat, b: nat)
    requires a <= b <= |segs|
    ensures CountChordRest(segs[..a]) <= CountChordRest(segs[..b])
  {
    if a < b {
      assert segs[..b][..b - 1] == segs[..b - 1];
      CountChordRestMonotone(segs, a, b - 1);
    }
  }

  /** The position of the first segment with identity `id`. */
  function FirstPosition(segs: seq<Segment>, id: nat): (r: Option<nat>)
    ensures r.Some? ==> r.value < |segs| && segs[r.value].id == id
                        && forall q :: 0 <= q < r.value ==> segs[q].id != id
    ensures r.None? ==> forall q :: 0 <= q < |segs| ==> segs[q].id != id
  {
    if |segs| == 0 then None
    else if segs[0].id == id then Some(0)
    else
      match FirstPosition(segs[1..], id)
      case Some(p) => Some(p + 1)
      case None => None
  }

  /** The segment-index loop: the number of ChordRest segments from the first segment of the
      measure up to and including the note's own segment, minus one. */
  method SegmentIndexIn(segs: seq<Segment>, id: nat) returns (found: bool, index: int)
    ensures found == FirstPosition(segs, id).Some?
    ensures found ==> index == CountChordRest(segs[..FirstPosition(segs, id).value + 1]) - 1
  {
    index := -1;
    found := false;
    var j := 0;
    while j < |segs|
      invariant 0 <= j <= |segs|
      invariant index == CountChordRest(segs[..j]) - 1
      invariant forall q :: 0 <= q < j ==> segs[q].id != id
    {
      if segs[j].segmentType == ChordRest {
        index := index + 1;
      }
      assert segs[..j + 1][..j] == segs[..j];
      if segs[j].id == id {
        found := true;
        return;
      }
      j := j + 1;
    }
  }

  /** A ChordRest segment's index counts the ChordRest segments before it, and lies within
      the measure's ChordRest segments. */
  lemma SegmentIndexRange(segs: seq<Segment>, p: nat)
    requires p < |segs| && segs[p].segmentType == ChordRest
    ensures CountChordRest(segs[..p + 1]) - 1 == CountChordRest(segs[..p])
    ensures 0 <= CountChordRest(segs[..p + 1]) - 1 < CountChordRest(segs)
  {
    assert segs[..p + 1][..p] == segs[..p];
    assert segs[..|segs|] == segs;
    CountChordRestMonotone(segs, p + 1, |segs|);
  }

  /** Different ChordRest segments of one measure get different indices, in their order. */
  lemma SegmentIndexStrictlyIncreasing(segs: seq<Segment>, p: nat, q: nat)
    requires p < q < |segs|
    requires segs[p].segmentType == ChordRest && segs[q].segmentType == ChordRest
    ensures CountChordRest(segs[..p + 1]) < CountChordRest(segs[..q + 1])
  {
    assert segs[..q + 1][..q] == segs[..q];
    CountChordRestMonotone(segs, p + 1, q);
  }

  /** The position of the last `x` in `s`. */
  function LastPosition(s: seq<nat>, x: nat): (r: Option<nat>)
    ensures r.Some? ==> r.value < |s| && s[r.value] == x
                        && forall k :: r.value < k < |s| ==> s[k] != x
    ensures r.None? ==> x !in s
  {
    if |s| == 0 then None
    else if s[|s| - 1] == x then Some(|s| - 1)
    else
      var r := LastPosition(s[..|s| - 1], x);
      assert s == s[..|s| - 1] + [s[|s| - 1]];
      r
  }

  /** The chord's note loop, which has no break: the last position holding the note, or
      `current` when the chord does not hold it. */
  method NoteIndexIn(notes: seq<nat>, note: nat, current: int) returns (r: int)
    ensures LastPosition(notes, note).Some? ==> r == LastPosition(notes, note).value
    ensures LastPosition(notes, note).None? ==> r == current
  {
    r := current;
    var t := 0;
    while t < |notes|
      invariant 0 <= t <= |notes|
      invariant LastPosition(notes[..t], note).Some? ==> r == LastPosition(notes[..t], note).value
      invariant LastPosition(notes[..t], note).None? ==> r == current
    {
      assert notes[..t + 1][..t] == notes[..t];
      if notes[t] == note {
        r := t;
      }
      t := t + 1;
    }
    assert notes[..|notes|] == notes;
  }

  /** `QList::indexOf`: the first position of `x`, or -1. */
  function IndexOf(xs: seq<nat>, x: nat): (r: int)
    ensures -1 <= r < |xs|
    ensures r >= 0 ==> xs[r] == x && forall k :: 0 <= k < r ==> xs[k] != x
    ensures r == -1 <==> x !in xs
  {
    if |xs| == 0 then -1
    else if xs[0] == x then 0
    else
      var r := IndexOf(xs[1..], x);
      assert xs == [xs[0]] + xs[1..];
      if r == -1 then -1 else r + 1
  }

  /** One parent link above a note or a rest, with what the walk reads there. */
  datatype Ancestor =
    | SegmentOf(segment: Segment, measureSegments: seq<Segment>)   // a segment and its measure's segment list
    | MeasureOf(no: int)                                           // a measure and `measure->no()`
    | SystemOf(systemId: nat, pageSystems: seq<nat>)               // a system and its page's systems
    | OtherAncestor                                                // a chord, or anything else

  /** What `toJson` writes of a note; every field starts as 0 (`ExportNote()` zero-initialises). */
  datatype NoteInfo = NoteInfo(
    noteValue: int, staffIndex: int, trackIndex: int,
    segmentIndex: int, measureIndex: int, systemIndex: int, noteIndex: int,
    startTime: int, endTime: int)

  datatype Field = SegmentField | MeasureField | SystemField | NoteField

  /** The value one parent link gives a field, or None when it leaves the field alone. For
      a rest `note` is None and no chord is consulted. */
  function FieldAt(a: Ancestor, f: Field, track: int, note: Option<nat>): Option<int> {
    match (a, f)
    case (SegmentOf(seg, segs), SegmentField) =>
      (match FirstPosition(segs, seg.id)
       case Some(p) => Some(CountChordRest(segs[..p + 1]) - 1)
       case None => None)
    case (SegmentOf(seg, segs), NoteField) =>
      if FirstPosition(segs, seg.id).Some? && note.Some? && track in seg.chords then
        (match LastPosition(seg.chords[track], note.value)
         case Some(t) => Some(t)
         case None => None)
      else None
    case (MeasureOf(no), MeasureField) => Some(no)
    case (SystemOf(id, systems), SystemField) => Some(IndexOf(systems, id))
    case _ => None
  }

  /** The value the walk leaves in a field: the last one set, going up the chain. */
  function LastField(chain: seq<Ancestor>, f: Field, track: int, note: Option<nat>): Option<int> {
    if |chain| == 0 then None
    else if FieldAt(chain[|chain| - 1], f, track, note).Some? then FieldAt(chain[|chain| - 1], f, track, note)
    else LastField(chain[..|chain| - 1], f, track, note)
  }

  /** One more parent link: it sets the field when it gives it a value. */
  lemma LastFieldStep(chain: seq<Ancestor>, i: nat, f: Field, track: int, note: Option<nat>)
    requires i < |chain|
    ensures LastField(chain[..i + 1], f, track, note)
            == if FieldAt(chain[i], f, track, note).Some? then FieldAt(chain[i], f, track, note)
               else LastField(chain[..i], f, track, note)
  {
    assert chain[..i + 1][..i] == chain[..i];
  }

  /** The field holds the value of the outermost parent link that sets it, and stays unset
      (0 in the record) when no link does. */
  lemma {:induction false} LastFieldOutermost(chain: seq<Ancestor>, f: Field, track: int, note: Option<nat>)
    ensures LastField(chain, f, track, note).Some? ==>
              exists i :: 0 <= i < |chain| && FieldAt(chain[i], f, track, note) == LastField(chain, f, track, note)
                          && forall j :: i < j < |chain| ==> FieldAt(chain[j], f, track, note).None?
    ensures LastField(chain, f, track, note).None? ==>
              forall i :: 0 <= i < |chain| ==> FieldAt(chain[i], f, track, note).None?
  {
    if |chain| > 0 && FieldAt(chain[|chain| - 1], f, track, note).None? {
      var init := chain[..|chain| - 1];
      LastFieldOutermost(init, f, track, note);
      assert forall i :: 0 <= i < |init| ==> init[i] == chain[i];
    }
  }

  /** The walk's result for a note of pitch `pitch` on staff `staffIdx` and track `track`. */
  function NoteInfoOf(pitch: int, staffIdx: int, track: int, note: nat, chain: seq<Ancestor>): NoteInfo {
    NoteInfo(pitch, staffIdx, track,
             LastField(chain, SegmentField, track, Some(note)).GetOr(0),
             LastField(chain, MeasureField, track, Some(note)).GetOr(0),
             LastField(chain, SystemField, track, Some(note)).GetOr(0),
             LastField(chain, NoteField, track, Some(note)).GetOr(0),
             0, 0)
  }

  /** The walk's result for a rest: no pitch, no track, no chord position. */
  function RestInfoOf(staffIdx: int, chain: seq<Ancestor>): NoteInfo {
    NoteInfo(0, staffIdx, 0,
             LastField(chain, SegmentField, 0, None).GetOr(0),
             LastField(chain, MeasureField, 0, None).GetOr(0),
             LastField(chain, SystemField, 0, None).GetOr(0),
             0, 0, 0)
  }

  /** One turn of the walk: what the parent link `a` does to the four fields. */
  method VisitAncestor(a: Ancestor, track: int, note: Option<nat>,
                       segmentIndex: int, measureIndex: int, systemIndex: int, noteIndex: int)
    returns (segmentIndex': int, measureIndex': int, systemIndex': int, noteIndex': int)
    ensures segmentIndex' == FieldAt(a, SegmentField, track, note).GetOr(segmentIndex)
    ensures measureIndex' == FieldAt(a, MeasureField, track, note).GetOr(measureIndex)
    ensures systemIndex' == FieldAt(a, SystemField, track, note).GetOr(systemIndex)
    ensures noteIndex' == FieldAt(a, NoteField, track, note).GetOr(noteIndex)
  {
    segmentIndex', measureIndex', systemIndex', noteIndex' := segmentIndex, measureIndex, systemIndex, noteIndex;
    match a {
      case SegmentOf(segment, segs) =>
        var found, index := SegmentIndexIn(segs, segment.id);
        if found {
          segmentIndex' := index;
          if note.Some? && track in segment.chords {
            noteIndex' := NoteIndexIn(segment.chords[track], note.value, noteIndex);
          }
        }
      case MeasureOf(no) =>
        measureIndex' := no;
      case SystemOf(id, systems) =>
        systemIndex' := IndexOf(systems, id);
      case OtherAncestor =>
    }
  }

  /** The loop over parent links shared by both overloads. */
  method ParentWalk(chain: seq<Ancestor>, track: int, note: Option<nat>)
    returns (segmentIndex: int, measureIndex: int, systemIndex: int, noteIndex: int)
    ensures segmentIndex == LastField(chain, SegmentField, track, note).GetOr(0)
    ensures measureIndex == LastField(chain, MeasureField, track, note).GetOr(0)
    ensures systemIndex == LastField(chain, SystemField, track, note).GetOr(0)
    ensures noteIndex == LastField(chain, NoteField, track, note).GetOr(0)
  {
    segmentIndex, measureIndex, systemIndex, noteIndex := 0, 0, 0, 0;
    var i := 0;
    while i < |chain|
      invariant 0 <= i <= |chain|
      invariant segmentIndex == LastField(chain[..i], SegmentField, track, note).GetOr(0)
      invariant measureIndex == LastField(chain[..i], MeasureField, track, note).GetOr(0)
      invariant systemIndex == LastField(chain[..i], SystemField, track, note).GetOr(0)
      invariant noteIndex == LastField(chain[..i], NoteField, track, note).GetOr(0)
    {
      LastFieldStep(chain, i, SegmentField, track, note);
      LastFieldStep(chain, i, MeasureField, track, note);
      LastFieldStep(chain, i, SystemField, track, note);
      LastFieldStep(chain, i, NoteField, track, note);
      segmentIndex, measureIndex, systemIndex, noteIndex :=
        VisitAncestor(chain[i], track, note, segmentIndex, measureIndex, systemIndex, noteIndex);
      i := i + 1;
    }
    assert chain[..|chain|] == chain;
  }

  /** `getNoteSvgInfoByParent(Note*)`. */
  method GetNoteSvgInfo(pitch: int, staffIdx: int, track: int, note: nat, chain: seq<Ancestor>)
    returns (info: NoteInfo)
    ensures info == NoteInfoOf(pitch, staffIdx, track, note, chain)
  {
    var segmentIndex, measureIndex, systemIndex, noteIndex := ParentWalk(chain, track, Some(note));
    info := NoteInfo(pitch, staffIdx, track, segmentIndex, measureIndex, systemIndex, noteIndex, 0, 0);
  }

  /** `getNoteSvgInfoByParent(Rest*)`. */
  method GetRestSvgInfo(staffIdx: int, chain: seq<Ancestor>) returns (info: NoteInfo)
    ensures info == RestInfoOf(staffIdx, chain)
  {
    var segmentIndex, measureIndex, systemIndex, _ := ParentWalk(chain, 0, None);
    info := NoteInfo(0, staffIdx, 0, segmentIndex, measureIndex, systemIndex, 0, 0, 0);
  }

  /** For the chain the engine builds above a note (chord, segment, measure, system) the
      walk reports the segment's ChordRest index, the measure number, the system's position
      on the page and the note's last position in its chord. */
  lemma NoteInfoOfEngineChain(pitch: int, staffIdx: int, track: int, note: nat,
                              chord: seq<nat>, seg: Segment, segs: seq<Segment>,
                              no: int, systemId: nat, systems: seq<nat>, p: nat, t: nat)
    requires p < |segs| && segs[p] == seg && forall q :: 0 <= q < p ==> segs[q].id != seg.id
    requires track in seg.chords && seg.chords[track] == chord
    requires t < |chord| && chord[t] == note && forall k :: t < k < |chord| ==> chord[k] != note
    ensures var info := NoteInfoOf(pitch, staffIdx, track, note,
                                   [OtherAncestor, SegmentOf(seg, segs), MeasureOf(no), SystemOf(systemId, systems)]);
            info.segmentIndex == CountChordRest(segs[..p + 1]) - 1
            && info.measureIndex == no
            && info.systemIndex == IndexOf(systems, systemId)
            && info.noteIndex == t
  {
    var chain := [OtherAncestor, SegmentOf(seg, segs), MeasureOf(no), SystemOf(systemId, systems)];
    var n := Some(note);
    assert FirstPosition(segs, seg.id) == Some(p);
    assert LastPosition(chord, note) == Some(t);
    assert chain[..4] == chain;
    // The system link sets only the system field, the measure link only the measure field,
    // and the segment link the segment and chord-position fields.
    LastFieldStep(chain, 3, SystemField, track, n);
    LastFieldStep(chain, 3, MeasureField, track, n);
    LastFieldStep(chain, 2, MeasureField, track, n);
    LastFieldStep(chain, 3, SegmentField, track, n);
    LastFieldStep(chain, 2, SegmentField, track, n);
    LastFieldStep(chain, 1, SegmentField, track, n);
    LastFieldStep(chain, 3, NoteField, track, n);
    LastFieldStep(chain, 2, NoteField, track, n);
    LastFieldStep(chain, 1, NoteField, track, n);
  }

  // ---------------------------------------------------------------------------
  // Start and end times from the event map

  /** An entry of the event map: its tick and the note it plays, if any. */
  datatype Event = Event(tick: int, note: Option<nat>)

  /** The ticks of the events that play `note`, in map order. */
  function MatchingTicks(events: seq<Event>, note: nat): seq<int> {
    if |events| == 0 then []
    else
      MatchingTicks(events[..|events| - 1], note)
      + (if events[|events| - 1].note == Some(note) then [events[|events| - 1].tick] else [])
  }

  function Min(s: seq<int>): (m: int)
    requires |s| > 0
    ensures m in s && forall k :: 0 <= k < |s| ==> m <= s[k]
  {
    if |s| == 1 then s[0]
    else
      var m := Min(s[..|s| - 1]);
      assert s == s[..|s| - 1] + [s[|s| - 1]];
      if s[|s| - 1] < m then s[|s| - 1] else m
  }

  predicate Sorted(s: seq<int>) {
    forall i, j :: 0 <= i < j < |s| ==> s[i] <= s[j]
  }

  /** The order of a `std::multimap` keyed by tick. */
  predicate NondecreasingTicks(events: seq<Event>) {
    forall i, j :: 0 <= i < j < |events| ==> events[i].tick <= events[j].tick
  }

  lemma {:induction false} MatchingTicksBounded(events: seq<Event>, note: nat, bound: int)
    requires forall k :: 0 <= k < |events| ==> events[k].tick <= bound
    ensures forall x :: x in MatchingTicks(events, note) ==> x <= bound
  {
    if |events| > 0 {
      MatchingTicksBounded(events[..|events| - 1], note, bound);
    }
  }

  lemma {:induction false} MatchingTicksSorted(events: seq<Event>, note: nat)
    requires NondecreasingTicks(events)
    ensures Sorted(MatchingTicks(events, note))
  {
    if |events| > 0 {
      var init := events[..|events| - 1];
      MatchingTicksSorted(init, note);
      MatchingTicksBounded(init, note, events[|events| - 1].tick);
      var m := MatchingTicks(init, note);
      if events[|events| - 1].note == Some(note) {
        var s := m + [events[|events| - 1].tick];
        forall i, j | 0 <= i < j < |s| ensures s[i] <= s[j] {
          if j == |m| {
            assert s[i] == m[i] && m[i] in m;
          }
        }
      }
    }
  }

  lemma MatchingTicksStep(events: seq<Event>, i: nat, note: nat)
    requires i < |events|
    ensures MatchingTicks(events[..i + 1], note)
            == MatchingTicks(events[..i], note) + (if events[i].note == Some(note) then [events[i].tick] else [])
  {
    assert events[..i + 1][..i] == events[..i];
  }

  lemma MinAppend(m: seq<int>, x: int)
    requires |m| > 0
    ensures Min(m + [x]) == if x < Min(m) then x else Min(m)
  {
    assert (m + [x])[..|m|] == m;
  }

  /** The times of a note whose matching ticks are `m` in nondecreasing order: the first and
      the last; a single match leaves the end at 0, no match leaves both at 0. */
  function SortedTimes(m: seq<int>): (int, int) {
    if |m| == 0 then (0, 0)
    else if |m| == 1 then (m[0], 0)
    else (m[0], m[|m| - 1])
  }

  /** (startTime, endTime) after the event loop has seen the matching ticks `m` in turn: the
      first match sets the start; a later, earlier-timed match moves the old start to the end
      and becomes the start; any other match becomes the end. */
  function FoldTimes(m: seq<int>): (int, int) {
    if |m| == 0 then (0, 0)
    else if |m| == 1 then (m[0], 0)
    else
      var (start, end) := FoldTimes(m[..|m| - 1]);
      var time := m[|m| - 1];
      if start > time then (time, start) else (start, time)
  }

  /** The start is the earliest match, whatever the order of the ticks. */
  lemma {:induction false} FoldTimesStartIsMin(m: seq<int>)
    requires |m| > 0
    ensures FoldTimes(m).0 == Min(m)
  {
    if |m| > 1 {
      FoldTimesStartIsMin(m[..|m| - 1]);
      MinAppend(m[..|m| - 1], m[|m| - 1]);
      assert m[..|m| - 1] + [m[|m| - 1]] == m;
    }
  }

  /** With two or more matches the end is one of them and no earlier than the start. */
  lemma {:induction false} FoldTimesEndIsMatch(m: seq<int>)
    requires |m| >= 2
    ensures FoldTimes(m).0 <= FoldTimes(m).1 && FoldTimes(m).1 in m
  {
    var init := m[..|m| - 1];
    assert m == init + [m[|m| - 1]];
    if |m| > 2 {
      FoldTimesEndIsMatch(init);
    }
    FoldTimesStartIsMin(init);
  }

  /** With the ticks in nondecreasing order the start is the first match and the end the last. */
  lemma {:induction false} FoldTimesSorted(m: seq<int>)
    requires Sorted(m)
    ensures FoldTimes(m) == SortedTimes(m)
  {
    if |m| > 2 {
      var init := m[..|m| - 1];
      FoldTimesSorted(init);
      assert init[0] == m[0];
    }
  }

  /** The event loop of `write` for one note. Whatever the order, the start is the earliest
      matching tick and, with two or more matches, the end is a matching tick no earlier than
      the start; in map order the start is the first match and the end the last. */
  method NoteTimes(events: seq<Event>, note: nat) returns (startTime: int, endTime: int)
    ensures (startTime, endTime) == FoldTimes(MatchingTicks(events, note))
    ensures |MatchingTicks(events, note)| == 0 ==> startTime == 0 && endTime == 0
    ensures |MatchingTicks(events, note)| > 0 ==> startTime == Min(MatchingTicks(events, note))
    ensures |MatchingTicks(events, note)| == 1 ==> endTime == 0
    ensures |MatchingTicks(events, note)| >= 2 ==> startTime <= endTime && endTime in MatchingTicks(events, note)
    ensures NondecreasingTicks(events) ==> (startTime, endTime) == SortedTimes(MatchingTicks(events, note))
  {
    startTime, endTime := 0, 0;
    var isStartHaveValue := false;
    ghost var m: seq<int> := [];
    var i := 0;
    while i < |events|
      invariant 0 <= i <= |events|
      invariant m == MatchingTicks(events[..i], note)
      invariant isStartHaveValue == (|m| > 0)
      invariant (startTime, endTime) == FoldTimes(m)
    {
      MatchingTicksStep(events, i, note);
      if events[i].note == Some(note) {
        var time := events[i].tick;
        assert (m + [time])[..|m|] == m;
        if !isStartHaveValue {
          startTime := time;
          isStartHaveValue := true;
        } else if startTime > time {
          endTime := startTime;
          startTime := time;
        } else {
          endTime := time;
        }
        m := m + [time];
      }
      i := i + 1;
    }
    assert events[..|events|] == events;
    if |m| > 0 {
      FoldTimesStartIsMin(m);
    }
    if |m| >= 2 {
      FoldTimesEndIsMatch(m);
    }
    if NondecreasingTicks(events) {
      MatchingTicksSorted(events, note);
      FoldTimesSorted(m);
    }
  }
}
