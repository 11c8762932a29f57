/** `SvgWriter::write` for one page: the page-number check, the staff-lines pass, the count
    of notes on earlier pages, the notes-colour option, and the second pass that gives every
    drawn element its colour and SVG attributes and collects the exported notes. Painting
    and geometry are left out; a painted element is recorded with its colour and attributes. */
module SvgWriter {
  import opened Wrappers
  import opened Strings
  import opened Decimal
  import opened ExportNotes
  import opened StaffLinesPass

  /** A `QColor`, kept as an opaque value. */
  datatype Color = Color(rgba: nat)

  /** The element types the second pass tells apart, with what it reads from each. */
  datatype Kind =
    | NoteElem(ref: nat, pitch: int, track: int, chain: seq<Ancestor>)   // a note; `ref` names it in the event map
    | RestElem(chain: seq<Ancestor>)
    | BarLineElem(measureNo: Option<int>)                  // `no()` of the grandparent when it is a measure
    | BeamElem(firstMeasureNo: Option<int>, firstStaffIdx: int)  // of the beam's first chord or rest
    | StaffLinesElem
    | OtherElem

  /** An element of a page: its type, `visible()`, `color()`, `hasStaff()`, `staffIdx()` and the
      `no()` of `findMeasure()` (None when there is no measure). */
  datatype Element = Element(kind: Kind, visible: bool, color: Color, hasStaff: bool,
                             staffIdx: int, measureNo: Option<int>)

  datatype Page = Page(systems: seq<SystemLayout>, elements: seq<Element>)

  /** The value of an SVG attribute, by what it is written from; `AttrText` writes it. */
  datatype AttrValue =
    | StaffValue(measureNo: int, staffIdx: int)
    | NoteIdValue(info: NoteInfo)
    | BarLineIdValue(no: int)

  /** What the second pass records of a painted element: its position in the page's list,
      the colour it is painted with and its SVG attributes. */
  datatype Painted = Painted(index: nat, color: Color, attrs: map<string, AttrValue>)

  /** The export of one page. */
  datatype SheetMusic = SheetMusic(staffLines: seq<StaffLinesDraw>, painted: seq<Painted>, notes: seq<NoteInfo>)

  datatype WriteError = PageOutOfRange

  /** The write options this model reads: `PAGE_NUMBER` and the entries of `NOTES_COLORS`,
      in the order the option map lists its keys; None when the option is not given. */
  datatype Options = Options(pageNumber: Option<int>, notesColors: Option<seq<(string, Color)>>)

  /** `PAGE_NUMBER`, 0 when it is not given. */
  function PageNumber(options: Options): (p: int)
    ensures options.pageNumber.None? ==> p == 0
    ensures options.pageNumber.Some? ==> p == options.pageNumber.value
  {
    options.pageNumber.GetOr(0)
  }

  /** The entries of `NOTES_COLORS`; none when it is not given. */
  function NotesColorEntries(options: Options): (entries: seq<(string, Color)>)
    ensures options.notesColors.None? ==> entries == []
    ensures options.notesColors.Some? ==> entries == options.notesColors.value
  {
    options.notesColors.GetOr([])
  }

  // ---- Attribute text ----

  /** Integers written with `QString::number` and joined by '-'. */
  function Dashed(xs: seq<int>): (s: string)
    requires |xs| > 0
    ensures |s| > 0
  {
    if |xs| == 1 then IntToDecimal(xs[0]) else IntToDecimal(xs[0]) + "-" + Dashed(xs[1..])
  }

  /** The '-' that ends the first field: the first one after the field's own sign position. */
  function FieldEnd(s: string): (r: Option<nat>)
    ensures r.Some? ==> 1 <= r.value < |s| && s[r.value] == '-'
  {
    if |s| == 0 then None
    else match FirstIndexOf(s[1..], '-')
         case None => None
         case Some(i) => Some(i + 1)
  }

  /** Splits text written by `Dashed` into its numbers; None when a field is not one. */
  function ParseDashed(s: string): Option<seq<int>>
    decreases |s|
  {
    match FieldEnd(s)
    case None =>
      (match ParseSigned(s)
       case Some(v) => Some([v])
       case None => None)
    case Some(i) =>
      (match (ParseSigned(s[..i]), ParseDashed(s[i + 1..]))
       case (Some(v), Some(vs)) => Some([v] + vs)
       case _ => None)
  }

  /** A number written alone has no field-ending '-'. */
  lemma FieldEndOfNumber(x: int)
    ensures FieldEnd(IntToDecimal(x)).None?
  {
    var d := IntToDecimal(x);
    assert '-' !in d[1..];
  }

  /** A number followed by '-' ends its field at that '-'. */
  lemma FieldEndOfNumberDash(x: int, t: string)
    ensures FieldEnd(IntToDecimal(x) + "-" + t) == Some(|IntToDecimal(x)|)
  {
    var d := IntToDecimal(x);
    var s := d + "-" + t;
    assert '-' !in d[1..];
    assert s[1..] == d[1..] + "-" + t;
    assert s[1..][..|d| - 1] == d[1..];
    FirstIndexOfIs(s[1..], '-', |d| - 1);
  }

  /** A number alone reads back as itself. */
  lemma ParseDashedOfNumber(x: int)
    ensures ParseDashed(IntToDecimal(x)) == Some([x])
  {
    ParseIntToDecimal(x);
    FieldEndOfNumber(x);
  }

  /** A number, '-' and more text read back as the number followed by what the rest reads as. */
  lemma ParseDashedOfCons(x: int, t: string, xs: seq<int>)
    requires ParseDashed(t) == Some(xs)
    ensures ParseDashed(IntToDecimal(x) + "-" + t) == Some([x] + xs)
  {
    var d := IntToDecimal(x);
    var s := d + "-" + t;
    ParseIntToDecimal(x);
    FieldEndOfNumberDash(x, t);
    assert s[..|d|] == d;
    assert s[|d| + 1..] == t;
  }

  /** Text written by `Dashed` reads back as the numbers it was written from. */
  lemma {:induction false} ParseDashedOfDashed(xs: seq<int>)
    requires |xs| > 0
    ensures ParseDashed(Dashed(xs)) == Some(xs)
  {
    if |xs| == 1 {
      ParseDashedOfNumber(xs[0]);
      assert [xs[0]] == xs;
    } else {
      ParseDashedOfDashed(xs[1..]);
      ParseDashedOfCons(xs[0], Dashed(xs[1..]), xs[1..]);
      assert [xs[0]] + xs[1..] == xs;
    }
  }

  /** The "staff" attribute: the measure number and the staff index. */
  function StaffAttribute(measureNo: int, staffIdx: int): string {
    Dashed([measureNo, staffIdx])
  }

  /** The "staff" attribute reads back as the measure number and the staff index. */
  lemma StaffAttributeParses(measureNo: int, staffIdx: int)
    ensures ParseDashed(StaffAttribute(measureNo, staffIdx)) == Some([measureNo, staffIdx])
  {
    ParseDashedOfDashed([measureNo, staffIdx]);
  }

  /** The fields of a note's SVG id, in the order they are written. */
  function IdFields(info: NoteInfo): seq<int> {
    [info.systemIndex, info.measureIndex, info.segmentIndex, info.trackIndex,
     info.staffIndex, info.noteValue, info.startTime, info.endTime]
  }

  /** The "id" attribute of a note. */
  function NoteSvgId(info: NoteInfo): string {
    "note-" + Dashed(IdFields(info))
  }

  /** A note's id is "note-" followed by text that reads back as its fields. */
  lemma NoteSvgIdParses(info: NoteInfo)
    ensures |NoteSvgId(info)| > 5 && NoteSvgId(info)[..5] == "note-"
    ensures ParseDashed(NoteSvgId(info)[5..]) == Some(IdFields(info))
  {
    ParseDashedOfDashed(IdFields(info));
    assert NoteSvgId(info)[5..] == Dashed(IdFields(info));
  }

  /** Two notes get the same id only when every field the id shows agrees. */
  lemma NoteSvgIdInjective(a: NoteInfo, b: NoteInfo)
    requires NoteSvgId(a) == NoteSvgId(b)
    ensures IdFields(a) == IdFields(b)
  {
    NoteSvgIdParses(a);
    NoteSvgIdParses(b);
  }

  /** The "id" attribute of a bar line in measure `no`. */
  function BarLineId(no: int): string {
    "svgId" + IntToDecimal(no)
  }

  /** A bar line's id is "svgId" followed by its measure number. */
  lemma BarLineIdParses(no: int)
    ensures |BarLineId(no)| > 5 && BarLineId(no)[..5] == "svgId"
    ensures ParseSigned(BarLineId(no)[5..]) == Some(no)
  {
    ParseIntToDecimal(no);
    assert BarLineId(no)[5..] == IntToDecimal(no);
  }

  /** The text of an attribute value. */
  function AttrText(v: AttrValue): string {
    match v
    case StaffValue(measureNo, staffIdx) => StaffAttribute(measureNo, staffIdx)
    case NoteIdValue(info) => NoteSvgId(info)
    case BarLineIdValue(no) => BarLineId(no)
  }

  /** The attributes as `setAttrabute` receives them: names and texts. */
  function AttributeTexts(attrs: map<string, AttrValue>): (texts: map<string, string>)
    ensures texts.Keys == attrs.Keys
  {
    map key | key in attrs :: AttrText(attrs[key])
  }

  /** The text of an attribute determines what it was written from: a "staff" text its
      measure and staff, a bar line id its measure, and a note id every field it shows. */
  lemma AttrTextInjective(a: AttrValue, b: AttrValue)
    requires AttrText(a) == AttrText(b)
    ensures a.StaffValue? <==> b.StaffValue?
    ensures a.BarLineIdValue? <==> b.BarLineIdValue?
    ensures a.NoteIdValue? <==> b.NoteIdValue?
    ensures a.NoteIdValue? ==> IdFields(a.info) == IdFields(b.info)
    ensures !a.NoteIdValue? ==> a == b
  {
    AttrTextParses(a);
    AttrTextParses(b);
  }

  /** How each attribute text reads back, and how its first character tells the kinds apart. */
  lemma AttrTextParses(v: AttrValue)
    ensures |AttrText(v)| > 0
    ensures v.StaffValue? ==> ParseDashed(AttrText(v)) == Some([v.measureNo, v.staffIdx])
                              && (AttrText(v)[0] == '-' || IsDigit(AttrText(v)[0]))
    ensures v.NoteIdValue? ==> AttrText(v)[..5] == "note-" && ParseDashed(AttrText(v)[5..]) == Some(IdFields(v.info))
    ensures v.BarLineIdValue? ==> AttrText(v)[..5] == "svgId" && ParseSigned(AttrText(v)[5..]) == Some(v.no)
  {
    match v
    case StaffValue(m, s) =>
      StaffAttributeParses(m, s);
      assert AttrText(v)[0] == IntToDecimal(m)[0];
    case NoteIdValue(info) =>
      NoteSvgIdParses(info);
    case BarLineIdValue(no) =>
      BarLineIdParses(no);
  }

  // ---- The second pass ----

  /** The second pass paints an element: visible and not a staff-lines element. */
  predicate Drawn(e: Element) {
    e.visible && !e.kind.StaffLinesElem?
  }

  predicate DrawnNote(e: Element) {
    e.visible && e.kind.NoteElem?
  }

  /** The NOTE elements among the first `n` elements, visible or not. */
  function NotesIn(es: seq<Element>, n: nat): nat
    requires n <= |es|
  {
    if n == 0 then 0 else NotesIn(es, n - 1) + (if es[n - 1].kind.NoteElem? then 1 else 0)
  }

  /** The visible NOTE elements among the first `n` elements. */
  function DrawnNotesIn(es: seq<Element>, n: nat): nat
    requires n <= |es|
  {
    if n == 0 then 0 else DrawnNotesIn(es, n - 1) + (if DrawnNote(es[n - 1]) then 1 else 0)
  }

  /** The NOTE elements on the first `n` pages. */
  function NotesOnPages(pages: seq<Page>, n: nat): nat
    requires n <= |pages|
  {
    if n == 0 then 0 else NotesOnPages(pages, n - 1) + NotesIn(pages[n - 1].elements, |pages[n - 1].elements|)
  }

  /** `lastNoteIndex` before the second pass: one less than the notes on earlier pages. */
  method LastNoteIndex(pages: seq<Page>, pageNumber: nat) returns (lastNoteIndex: int)
    requires pageNumber <= |pages|
    ensures lastNoteIndex == NotesOnPages(pages, pageNumber) - 1
  {
    lastNoteIndex := -1;
    var i := 0;
    while i < pageNumber
      invariant 0 <= i <= pageNumber
      invariant lastNoteIndex == NotesOnPages(pages, i) - 1
    {
      var es := pages[i].elements;
      var j := 0;
      while j < |es|
        invariant 0 <= j <= |es|
        invariant lastNoteIndex == NotesOnPages(pages, i) + NotesIn(es, j) - 1
      {
        if es[j].kind.NoteElem? {
          lastNoteIndex := lastNoteIndex + 1;
        }
        j := j + 1;
      }
      i := i + 1;
    }
  }

  /** The key of the i-th notes-colour entry: the note number as `toInt` reads it. */
  function KeyAt(entries: seq<(string, Color)>, i: nat): int
    requires i < |entries|
  {
    QStringToInt(entries[i].0)
  }

  /** The colour map after the first `n` entries; a later entry with the same number wins. */
  function ColorsOf(entries: seq<(string, Color)>, n: nat): map<int, Color>
    requires n <= |entries|
  {
    if n == 0 then map[] else ColorsOf(entries, n - 1)[KeyAt(entries, n - 1) := entries[n - 1].1]
  }

  /** `parseNotesColors`. */
  method ParseNotesColors(entries: seq<(string, Color)>) returns (result: map<int, Color>)
    ensures result == ColorsOf(entries, |entries|)
  {
    result := map[];
    var i := 0;
    while i < |entries|
      invariant 0 <= i <= |entries|
      invariant result == ColorsOf(entries, i)
    {
      result := result[QStringToInt(entries[i].0) := entries[i].1];
      i := i + 1;
    }
  }

  /** A note number is in the map exactly when some entry's key reads as it. */
  lemma {:induction false} ColorsOfKeys(entries: seq<(string, Color)>, n: nat, k: int)
    requires n <= |entries|
    ensures k in ColorsOf(entries, n) <==> exists i :: 0 <= i < n && KeyAt(entries, i) == k
  {
    if n > 0 {
      ColorsOfKeys(entries, n - 1, k);
    }
  }

  /** The colour of a note number is that of the last entry whose key reads as it. */
  lemma {:induction false} ColorsOfLast(entries: seq<(string, Color)>, n: nat, i: nat)
    requires i < n <= |entries|
    requires forall j :: i < j < n ==> KeyAt(entries, j) != KeyAt(entries, i)
    ensures KeyAt(entries, i) in ColorsOf(entries, n)
    ensures ColorsOf(entries, n)[KeyAt(entries, i)] == entries[i].1
  {
    if i < n - 1 {
      ColorsOfLast(entries, n - 1, i);
    }
  }

  /** The colour a note with colour index `index` is painted with: the option's colour for
      that index when there is one, and its own colour otherwise. */
  function NoteColor(own: Color, index: int, colors: map<int, Color>): (c: Color)
    ensures index in colors ==> c == colors[index]
    ensures index !in colors ==> c == own
  {
    if |colors| > 0 && index in colors then colors[index] else own
  }

  /** The note record exported for a note element, with the times of its events. */
  function ExportedNote(e: Element, events: seq<Event>): (info: NoteInfo)
    requires e.kind.NoteElem?
  {
    var times := FoldTimes(MatchingTicks(events, e.kind.ref));
    NoteInfoOf(e.kind.pitch, e.staffIdx, e.kind.track, e.kind.ref, e.kind.chain)
      .(startTime := times.0, endTime := times.1)
  }

  /** An exported note carries its walk record and the times of its events: with the events
      in nondecreasing tick order, the first and the last matching tick, and the start never
      after the end once there are two matches. */
  lemma ExportedNoteTimes(e: Element, events: seq<Event>)
    requires e.kind.NoteElem?
    ensures var info := ExportedNote(e, events);
            var m := MatchingTicks(events, e.kind.ref);
            info.(startTime := 0, endTime := 0) == NoteInfoOf(e.kind.pitch, e.staffIdx, e.kind.track, e.kind.ref, e.kind.chain)
            && (NondecreasingTicks(events) ==> (info.startTime, info.endTime) == SortedTimes(m))
            && (|m| >= 2 ==> info.startTime <= info.endTime)
  {
    var m := MatchingTicks(events, e.kind.ref);
    if NondecreasingTicks(events) {
      MatchingTicksSorted(events, e.kind.ref);
      FoldTimesSorted(m);
    }
    if |m| >= 2 {
      FoldTimesEndIsMatch(m);
    }
  }

  /** The "staff" attribute every element with a staff and a measure gets. */
  function StaffAttributes(e: Element): map<string, AttrValue> {
    if e.hasStaff && e.measureNo.Some? then map["staff" := StaffValue(e.measureNo.value, e.staffIdx)]
    else map[]
  }

  /** The attributes set on a drawn element. */
  function Attributes(e: Element, events: seq<Event>): map<string, AttrValue> {
    match e.kind
    case NoteElem(_, _, _, _) => StaffAttributes(e)["id" := NoteIdValue(ExportedNote(e, events))]
    case BarLineElem(Some(no)) => StaffAttributes(e)["id" := BarLineIdValue(no)]
    case BeamElem(Some(no), staffIdx) => StaffAttributes(e)["staff" := StaffValue(no, staffIdx)]
    case _ => StaffAttributes(e)
  }

  /** The attributes a drawn element gets: "staff" with the beam's first chord's measure and
      staff for a beam that has one, and otherwise with its own when it has a staff and a
      measure; "id" with the exported note for a note and with the measure number for a bar
      line in a measure; nothing else. */
  lemma AttributesMeaning(e: Element, events: seq<Event>)
    ensures "staff" in Attributes(e, events) <==>
              (e.hasStaff && e.measureNo.Some?) || (e.kind.BeamElem? && e.kind.firstMeasureNo.Some?)
    ensures e.kind.BeamElem? && e.kind.firstMeasureNo.Some? ==>
              Attributes(e, events)["staff"] == StaffValue(e.kind.firstMeasureNo.value, e.kind.firstStaffIdx)
    ensures !(e.kind.BeamElem? && e.kind.firstMeasureNo.Some?) && e.hasStaff && e.measureNo.Some? ==>
              Attributes(e, events)["staff"] == StaffValue(e.measureNo.value, e.staffIdx)
    ensures "id" in Attributes(e, events) <==> e.kind.NoteElem? || (e.kind.BarLineElem? && e.kind.measureNo.Some?)
    ensures e.kind.NoteElem? ==> Attributes(e, events)["id"] == NoteIdValue(ExportedNote(e, events))
    ensures e.kind.BarLineElem? && e.kind.measureNo.Some? ==>
              Attributes(e, events)["id"] == BarLineIdValue(e.kind.measureNo.value)
    ensures forall key :: key in Attributes(e, events) ==> key == "staff" || key == "id"
  {
  }

  /** How the j-th element is painted, given its colour index. */
  function PaintOf(e: Element, j: nat, index: int, colors: map<int, Color>, events: seq<Event>): Painted {
    Painted(j, if e.kind.NoteElem? then NoteColor(e.color, index, colors) else e.color, Attributes(e, events))
  }

  /** The second pass over the first `n` elements, starting from `lastNoteIndex` `start`. */
  function PaintedIn(es: seq<Element>, n: nat, start: int, colors: map<int, Color>, events: seq<Event>): seq<Painted>
    requires n <= |es|
  {
    if n == 0 then []
    else PaintedIn(es, n - 1, start, colors, events)
         + (if Drawn(es[n - 1]) then [PaintOf(es[n - 1], n - 1, start + DrawnNotesIn(es, n - 1) + 1, colors, events)] else [])
  }

  /** The notes exported from the first `n` elements. */
  function NotesExported(es: seq<Element>, n: nat, events: seq<Event>): seq<NoteInfo>
    requires n <= |es|
  {
    if n == 0 then []
    else NotesExported(es, n - 1, events) + (if DrawnNote(es[n - 1]) then [ExportedNote(es[n - 1], events)] else [])
  }

  lemma PaintedInStep(es: seq<Element>, j: nat, start: int, colors: map<int, Color>, events: seq<Event>)
    requires j < |es|
    ensures Drawn(es[j]) ==>
              PaintedIn(es, j + 1, start, colors, events)
              == PaintedIn(es, j, start, colors, events) + [PaintOf(es[j], j, start + DrawnNotesIn(es, j) + 1, colors, events)]
    ensures !Drawn(es[j]) ==> PaintedIn(es, j + 1, start, colors, events) == PaintedIn(es, j, start, colors, events)
  {
  }

  lemma NotesExportedStep(es: seq<Element>, j: nat, events: seq<Event>)
    requires j < |es|
    ensures DrawnNote(es[j]) ==> NotesExported(es, j + 1, events) == NotesExported(es, j, events) + [ExportedNote(es[j], events)]
    ensures !DrawnNote(es[j]) ==> NotesExported(es, j + 1, events) == NotesExported(es, j, events)
  {
  }

  /** One drawn element of the second pass: its colour (with the running `lastNoteIndex`
      `counter`, which only notes advance and only when there are note colours), its
      attributes, and the note it exports. `index` is the colour index the specification
      gives the element; the counter agrees with it whenever there are note colours. */
  method DrawElement(e: Element, j: nat, counter: int, ghost index: int, colors: map<int, Color>, events: seq<Event>)
    returns (painted: Painted, exported: NoteInfo, next: int)
    requires Drawn(e)
    requires |colors| > 0 ==> index == counter + 1
    ensures painted == PaintOf(e, j, index, colors, events)
    ensures e.kind.NoteElem? ==> exported == ExportedNote(e, events)
    ensures next == if e.kind.NoteElem? && |colors| > 0 then counter + 1 else counter
  {
    var attrs := StaffAttributes(e);
    var color := e.color;
    next := counter;
    exported := NoteInfo(0, 0, 0, 0, 0, 0, 0, 0, 0);
    match e.kind {
      case NoteElem(ref, pitch, track, chain) =>
        if |colors| > 0 {
          next := counter + 1;
          color := NoteColor(color, next, colors);
        }
        var info := GetNoteSvgInfo(pitch, e.staffIdx, track, ref, chain);
        var startTime, endTime := NoteTimes(events, ref);
        info := info.(startTime := startTime, endTime := endTime);
        attrs := attrs["id" := NoteIdValue(info)];
        exported := info;
      case RestElem(chain) =>
        var restInfo := GetRestSvgInfo(e.staffIdx, chain);
      case BarLineElem(no) =>
        if no.Some? {
          attrs := attrs["id" := BarLineIdValue(no.value)];
        }
      case BeamElem(no, staffIdx) =>
        if no.Some? {
          attrs := attrs["staff" := StaffValue(no.value, staffIdx)];
        }
      case StaffLinesElem =>
      case OtherElem =>
    }
    painted := Painted(j, color, attrs);
  }

  /** The second pass over a page's elements (already in stable z-order). */
  method SecondPass(es: seq<Element>, lastNoteIndex: int, colors: map<int, Color>, events: seq<Event>)
    returns (painted: seq<Painted>, notes: seq<NoteInfo>)
    ensures painted == PaintedIn(es, |es|, lastNoteIndex, colors, events)
    ensures notes == NotesExported(es, |es|, events)
  {
    painted := [];
    notes := [];
    var counter := lastNoteIndex;
    var j := 0;
    while j < |es|
      invariant 0 <= j <= |es|
      invariant painted == PaintedIn(es, j, lastNoteIndex, colors, events)
      invariant notes == NotesExported(es, j, events)
      invariant |colors| > 0 ==> counter == lastNoteIndex + DrawnNotesIn(es, j)
    {
      var e := es[j];
      PaintedInStep(es, j, lastNoteIndex, colors, events);
      NotesExportedStep(es, j, events);
      if e.visible && !e.kind.StaffLinesElem? {
        ghost var index := lastNoteIndex + DrawnNotesIn(es, j) + 1;
        var one, exported, next := DrawElement(e, j, counter, index, colors, events);
        painted := painted + [one];
        if e.kind.NoteElem? {
          notes := notes + [exported];
        }
        counter := next;
      }
      j := j + 1;
    }
  }

  /** The second pass paints only drawn elements, each once and in list order. */
  lemma {:induction false} PaintedInElements(es: seq<Element>, n: nat, start: int, colors: map<int, Color>, events: seq<Event>)
    requires n <= |es|
    ensures forall k :: 0 <= k < |PaintedIn(es, n, start, colors, events)| ==>
              PaintedIn(es, n, start, colors, events)[k].index < n && Drawn(es[PaintedIn(es, n, start, colors, events)[k].index])
    ensures forall k1, k2 :: 0 <= k1 < k2 < |PaintedIn(es, n, start, colors, events)| ==>
              PaintedIn(es, n, start, colors, events)[k1].index < PaintedIn(es, n, start, colors, events)[k2].index
  {
    if n > 0 {
      PaintedInElements(es, n - 1, start, colors, events);
      var before := PaintedIn(es, n - 1, start, colors, events);
      if Drawn(es[n - 1]) {
        var x := PaintOf(es[n - 1], n - 1, start + DrawnNotesIn(es, n - 1) + 1, colors, events);
        assert x.index == n - 1;
        assert PaintedIn(es, n, start, colors, events) == before + [x];
      } else {
        assert PaintedIn(es, n, start, colors, events) == before;
      }
    }
  }

  /** Every drawn element is painted: where the second pass records the one at position j,
      with its colour index `start` plus one plus the drawn notes before it. */
  lemma {:induction false} PaintedPosition(es: seq<Element>, n: nat, start: int, colors: map<int, Color>, events: seq<Event>, j: nat)
    returns (k: nat)
    requires j < n <= |es| && Drawn(es[j])
    ensures k < |PaintedIn(es, n, start, colors, events)|
    ensures PaintedIn(es, n, start, colors, events)[k] == PaintOf(es[j], j, start + DrawnNotesIn(es, j) + 1, colors, events)
  {
    if j < n - 1 {
      k := PaintedPosition(es, n - 1, start, colors, events, j);
    } else {
      k := |PaintedIn(es, n - 1, start, colors, events)|;
    }
  }

  /** The exported notes are the drawn notes, in order: the one at position j is exported at
      position `DrawnNotesIn(es, j)`. */
  lemma {:induction false} NotesExportedOrder(es: seq<Element>, n: nat, events: seq<Event>)
    requires n <= |es|
    ensures |NotesExported(es, n, events)| == DrawnNotesIn(es, n)
    ensures forall j :: 0 <= j < n && DrawnNote(es[j]) ==>
              DrawnNotesIn(es, j) < DrawnNotesIn(es, n) && NotesExported(es, n, events)[DrawnNotesIn(es, j)] == ExportedNote(es[j], events)
  {
    if n > 0 {
      NotesExportedOrder(es, n - 1, events);
      DrawnNotesMonotone(es, n - 1);
    }
  }

  lemma {:induction false} DrawnNotesMonotone(es: seq<Element>, n: nat)
    requires n <= |es|
    ensures forall j :: 0 <= j <= n ==> DrawnNotesIn(es, j) <= DrawnNotesIn(es, n)
  {
    if n > 0 {
      DrawnNotesMonotone(es, n - 1);
    }
  }

  // ---- write ----

  /** Every system of every page has no more staves than the score. */
  predicate PagesKnown(pages: seq<Page>, scoreStaffShown: seq<bool>) {
    forall p :: 0 <= p < |pages| ==> StavesKnown(pages[p].systems, scoreStaffShown)
  }

  /** `SvgWriter::write` for the page `PAGE_NUMBER` of a score whose pages are `pages`, whose
      staves are shown as `scoreStaffShown` and whose rendered events are `events`. */
  method Write(pages: seq<Page>, scoreStaffShown: seq<bool>, events: seq<Event>, options: Options)
    returns (r: Result<SheetMusic, WriteError>)
    requires PagesKnown(pages, scoreStaffShown)
    ensures r.Err? <==> !(0 <= PageNumber(options) < |pages|)
    ensures r.Ok? ==>
              var page := pages[PageNumber(options)];
              var entries := NotesColorEntries(options);
              r.value.staffLines == PageDraws(page.systems, scoreStaffShown, |page.systems|)
              && r.value.painted == PaintedIn(page.elements, |page.elements|, NotesOnPages(pages, PageNumber(options)) - 1,
                                              ColorsOf(entries, |entries|), events)
              && r.value.notes == NotesExported(page.elements, |page.elements|, events)
  {
    var pageNumber := options.pageNumber.GetOr(0);
    if pageNumber < 0 || pageNumber >= |pages| {
      return Err(PageOutOfRange);
    }
    var page := pages[pageNumber];
    var staffLines := FirstPass(page.systems, scoreStaffShown);
    var lastNoteIndex := LastNoteIndex(pages, pageNumber);
    var colors := ParseNotesColors(options.notesColors.GetOr([]));
    var painted, notes := SecondPass(page.elements, lastNoteIndex, colors, events);
    r := Ok(SheetMusic(staffLines, painted, notes));
  }

  /** Some painted record is the element at position j, painted with colour c. */
  predicate PaintedWith(painted: seq<Painted>, j: nat, c: Color) {
    exists k :: 0 <= k < |painted| && painted[k].index == j && painted[k].color == c
  }

  /** A drawn note is painted with the colour of index `start` plus one plus the drawn notes
      before it. */
  lemma PaintedNoteColour(es: seq<Element>, start: int, colors: map<int, Color>, events: seq<Event>, j: nat)
    requires j < |es| && DrawnNote(es[j])
    ensures PaintedWith(PaintedIn(es, |es|, start, colors, events), j,
                        NoteColor(es[j].color, start + DrawnNotesIn(es, j) + 1, colors))
  {
    var k := PaintedPosition(es, |es|, start, colors, events, j);
    var x := PaintOf(es[j], j, start + DrawnNotesIn(es, j) + 1, colors, events);
    assert x.index == j && x.color == NoteColor(es[j].color, start + DrawnNotesIn(es, j) + 1, colors);
  }

  /** The colour index of the drawn note at position j of page p is the number of NOTE
      elements on all earlier pages plus the visible notes before it on page p. */
  lemma NoteColourIndex(pages: seq<Page>, p: nat, colors: map<int, Color>, events: seq<Event>, j: nat)
    requires p < |pages| && j < |pages[p].elements| && DrawnNote(pages[p].elements[j])
    ensures PaintedWith(PaintedIn(pages[p].elements, |pages[p].elements|, NotesOnPages(pages, p) - 1, colors, events), j,
                        NoteColor(pages[p].elements[j].color, NotesOnPages(pages, p) + DrawnNotesIn(pages[p].elements, j), colors))
  {
    var es := pages[p].elements;
    var start := NotesOnPages(pages, p) - 1;
    PaintedNoteColour(es, start, colors, events, j);
    assert start + DrawnNotesIn(es, j) + 1 == NotesOnPages(pages, p) + DrawnNotesIn(es, j);
  }
}
