# Score export and file-controller bookkeeping, in Dafny

This project models three pieces of a MuseScore-derived notation editor, and proves
properties of each. The engraving engine and Qt are not modelled: their objects become
identities, sequences, maps and integer ticks.

- **Element and tuplet maps** (`elementmap.cpp`, module `ElementMaps`). `ElementMap` is a
  class with a `map` field. `FindNew` looks up a key and answers null when the key is
  absent. `Add` inserts or overwrites one entry. `TupletMap::findNew` is a first-match
  search over a list of (old, new) pairs, written as a recursive function.
- **Score-file controller** (`filescorecontroller.cpp`, module `FileScoreControl`). The
  recent-files list is a move-to-front update. `saveScore` defaults a missing suffix. A new
  score's save name falls back from the title to the file name. Four load errors can be
  ignored. `closeOpenedProject` decides whether closing goes ahead. The configuration and
  the current project are fields of a `FileScoreController` class. Dialog answers and save
  outcomes are method parameters.
- **SVG writer bookkeeping** (`svgwriter.cpp`):
  - `SheetMusicJson` models `ExportSheetMusicJson::toJson`, the comma-joined arrays.
  - `ExportNotes` models both `getNoteSvgInfoByParent` overloads and the start/end fold over
    the event map. They cover the parent walk, the ChordRest segment index, the chord
    position and the system index.
  - `StaffLinesPass` models the first pass. Staff lines are drawn per system or per
    measure, as the `byMeasure` flag decides.
  - `SvgWriter` models `SvgWriter::write` for one page:
    - the page-number check;
    - the count of notes on earlier pages (`lastNoteIndex`);
    - `parseNotesColors` and the colour override;
    - the second pass, which chooses the elements to paint, sets their "staff" and "id"
      attributes, and collects the exported notes.
  - `Decimal` gives `QString::number` and `QString::toInt` for integers. `Strings` gives
    first- and last-occurrence searches.

Each loop of the source that updates variables or state is a `method`. The early-return
search of `TupletMap::findNew` is a recursive function. Each method is proved equal to a
specification function on its inputs (`MeasureDraws`, `PaintedIn`, `ColorsOf`, `FoldTimes`, ...). Lemmas
then prove what those functions mean: membership, order, round trips and bounds.

## Model

| member | source | states |
|---|---|---|
| ElementMaps.ElementMap.FindNew | src/engraving/libmscore/elementmap.cpp:33-36 | the stored copy for a key that has an entry, the null pointer for one that has none |
| ElementMaps.ElementMap.Add | src/engraving/libmscore/elementmap.cpp:38-41 | insert-or-assign: afterwards `FindNew(o) == n`, an earlier entry for `o` is overwritten, and every other key keeps its copy |
| ElementMaps.TupletMap.FindNew | src/engraving/libmscore/elementmap.cpp:47-55 | the new tuplet of the first pair in list order whose old tuplet matches; null when no pair matches; being a value, the list is not changed |
| ElementMaps.FirstMatchExists | src/engraving/libmscore/elementmap.cpp:49-53 | when some pair has the key, a first match exists at or before it |
| ElementMaps.FindNewFound | src/engraving/libmscore/elementmap.cpp:49-53 | when some pair at position k has the key, the answer is the new tuplet of a matching pair at or before k |
| FileScoreControl.MoveToFront | src/userscores/internal/filescorecontroller.cpp:607-612 | after erasing the first occurrence and inserting at the head, the head is the path |
| FileScoreControl.Prepended | src/userscores/internal/filescorecontroller.cpp:599-613 | an empty path leaves the list unchanged; otherwise the path becomes the head |
| FileScoreControl.RemoveFirstAt | src/userscores/internal/filescorecontroller.cpp:607-610 | erasing at the position `std::find` returns is removing the first occurrence, and no erase happens when the path is absent |
| FileScoreControl.RemoveFirstMultiset | src/userscores/internal/filescorecontroller.cpp:607-610 | the erase removes exactly one occurrence of the path and nothing else |
| FileScoreControl.RemoveFirstWithout | src/userscores/internal/filescorecontroller.cpp:607-610 | the erase keeps all other paths in their order |
| FileScoreControl.MoveToFrontCount | src/userscores/internal/filescorecontroller.cpp:607-612 | the path's count is unchanged when present and 1 when absent; a path that occurred at most once occurs exactly once afterwards |
| FileScoreControl.MoveToFrontLength | src/userscores/internal/filescorecontroller.cpp:607-612 | the list grows by one when the path was absent and keeps its length when it was present |
| FileScoreControl.MoveToFrontOrder | src/userscores/internal/filescorecontroller.cpp:608-612 | the relative order of all other paths is preserved |
| FileScoreControl.FileScoreController.PrependToRecentScoreList | src/userscores/internal/filescorecontroller.cpp:599-615 | the find/erase/insert loop leaves the configuration's list equal to `Prepended` of the old list |
| FileScoreControl.FileScoreController.ClearRecentScores | src/userscores/internal/filescorecontroller.cpp:476-480 | the configuration's recent list becomes empty |
| FileScoreControl.Suffix | src/userscores/internal/filescorecontroller.cpp:343 | the suffix taken after the file name's last '.' contains neither '.' nor '/' |
| FileScoreControl.SuffixOfAppended | src/userscores/internal/filescorecontroller.cpp:343-345 | appending "." and an extension without '.' or '/' makes that extension the suffix |
| FileScoreControl.SuffixOfDefault | src/userscores/internal/filescorecontroller.cpp:343-345 | a path with the default suffix appended has the suffix "mscz" |
| FileScoreControl.WithDefaultSuffixHasSuffix | src/userscores/internal/filescorecontroller.cpp:343-345 | the saved path always has a suffix, and defaulting it again changes nothing |
| FileScoreControl.SaveTarget | src/userscores/internal/filescorecontroller.cpp:329-347 | a project that was not newly created is saved in place; a cancelled dialog saves nothing; the default suffix is appended exactly when the chosen path has none |
| FileScoreControl.FileScoreController.SaveScore | src/userscores/internal/filescorecontroller.cpp:329-348 | the path handed to `doSaveScore` is `SaveTarget`, and the recent list is updated as `RecentAfterSave` says |
| FileScoreControl.FileScoreController.DoSaveScore | src/userscores/internal/filescorecontroller.cpp:570-585 | a failed save leaves the recent list alone; a successful one prepends the path |
| FileScoreControl.DefaultSavingFileName | src/userscores/internal/filescorecontroller.cpp:587-597 | the title when it is non-empty, else the file name; the result is empty only when both are |
| FileScoreControl.IsIgnorable | src/userscores/internal/filescorecontroller.cpp:438-453 | an error is ignorable exactly when it is one of FileTooOld, FileTooNew, FileCorrupted, FileOld300Format |
| FileScoreControl.CheckCanIgnoreError | src/userscores/internal/filescorecontroller.cpp:436-469 | true only for an ignorable error; for an ignorable error, true exactly when the user answers Ignore |
| FileScoreControl.FileScoreController.IsProjectOpened | src/userscores/internal/filescorecontroller.cpp:617-620 | true exactly when some project is current |
| FileScoreControl.FileScoreController.IsProjectOpenedAt | src/userscores/internal/filescorecontroller.cpp:103-116 | true exactly when a project is current and its path is the given one |
| FileScoreControl.FileScoreController.AskAboutSavingScore | src/userscores/internal/filescorecontroller.cpp:303-327 | DontSave without asking when the warning is switched off; otherwise the user's answer, and the "show again" answer is stored |
| FileScoreControl.FileScoreController.CloseOpenedProject | src/userscores/internal/filescorecontroller.cpp:282-301 | returns false exactly when a project needs saving and the answer is Cancel, and then keeps the project and the recent list; otherwise clears the current project, so none is open, saving first when the answer is Save; whenever the project needs saving and the warning is on, the "show again" answer is stored, on Cancel too |
| SheetMusicJson.JoinLength | src/importexport/imagesexport/internal/svgwriter.cpp:121-146 | the joined text is exactly as long as the items plus one comma between each two neighbours |
| SheetMusicJson.JoinItemAt | src/importexport/imagesexport/internal/svgwriter.cpp:121-146 | whatever the items hold, commas included, item k stands unchanged at its offset and is followed by a comma exactly when it is not the last, so nothing precedes the first or follows the last |
| SheetMusicJson.JoinItemBeforeLast | src/importexport/imagesexport/internal/svgwriter.cpp:123-125 | every item but the last is followed by the comma the loop writes |
| SheetMusicJson.AppendArray | src/importexport/imagesexport/internal/svgwriter.cpp:139-146 | the iterator loop appends exactly `Join` of the items |
| SheetMusicJson.ToJson | src/importexport/imagesexport/internal/svgwriter.cpp:117-150 | the object holds "systems", "measures" and "notes", in that order, each as a joined array |
| ExportNotes.SegmentIndexIn | src/importexport/imagesexport/internal/svgwriter.cpp:249-258 | when the segment is found, the index is the number of ChordRest segments up to and including it, minus one |
| ExportNotes.SegmentIndexRange | src/importexport/imagesexport/internal/svgwriter.cpp:166-176 | a ChordRest segment's index counts the ChordRest segments before it and is below the measure's total |
| ExportNotes.SegmentIndexStrictlyIncreasing | src/importexport/imagesexport/internal/svgwriter.cpp:251-258 | later ChordRest segments get strictly larger indices |
| ExportNotes.LastPosition | src/importexport/imagesexport/internal/svgwriter.cpp:275-284 | the last position holding the note, with no later one; None when the chord does not hold it |
| ExportNotes.NoteIndexIn | src/importexport/imagesexport/internal/svgwriter.cpp:273-284 | the loop without break leaves the note's last position in the chord, or the old value when the chord lacks it |
| ExportNotes.IndexOf | src/importexport/imagesexport/internal/svgwriter.cpp:303-309 | `QList::indexOf`: the first position of the system, -1 exactly when absent |
| ExportNotes.LastFieldOutermost | src/importexport/imagesexport/internal/svgwriter.cpp:243-313 | a field holds the value of the outermost parent link that sets it; it stays 0 when none does |
| ExportNotes.VisitAncestor | src/importexport/imagesexport/internal/svgwriter.cpp:246-309 | one parent link sets the fields it gives a value, and leaves the others unchanged |
| ExportNotes.ParentWalk | src/importexport/imagesexport/internal/svgwriter.cpp:243-313 | after the walk, each field is the last value set going up the chain, or 0 |
| ExportNotes.GetNoteSvgInfo | src/importexport/imagesexport/internal/svgwriter.cpp:234-315 | the note's record: pitch, staff, track and the fields of the walk |
| ExportNotes.GetRestSvgInfo | src/importexport/imagesexport/internal/svgwriter.cpp:152-203 | the rest's record: no pitch, no track, no chord position, and the fields of the walk |
| ExportNotes.NoteInfoOfEngineChain | src/importexport/imagesexport/internal/svgwriter.cpp:234-315 | for chord, segment, measure and system links, the record holds the ChordRest index, the measure number, the system's position on the page and the note's position in its chord |
| ExportNotes.MatchingTicksSorted | src/importexport/imagesexport/internal/svgwriter.cpp:527-529 | events in multimap order yield the note's ticks in nondecreasing order |
| ExportNotes.FoldTimesStartIsMin | src/importexport/imagesexport/internal/svgwriter.cpp:532-539 | whatever the order of the ticks, the start is the earliest matching tick |
| ExportNotes.FoldTimesEndIsMatch | src/importexport/imagesexport/internal/svgwriter.cpp:535-543 | with two or more matches, the end is a matching tick that is no earlier than the start |
| ExportNotes.FoldTimesSorted | src/importexport/imagesexport/internal/svgwriter.cpp:527-546 | with sorted ticks, the start is the first match and the end the last; one match leaves the end at 0 |
| ExportNotes.NoteTimes | src/importexport/imagesexport/internal/svgwriter.cpp:525-546 | the event loop's start and end: 0 and 0 without matches, start the minimum, with two matches start <= end, in tick order first and last |
| Decimal.IntToDecimal | src/importexport/imagesexport/internal/svgwriter.cpp:503 | `QString::number`: a minus sign exactly for negative numbers, and digits otherwise |
| Decimal.NatToDecimal | src/importexport/imagesexport/internal/svgwriter.cpp:503 | the digits of a natural number, with no leading zero: the first digit is '0' only for 0 |
| Decimal.ParseIntToDecimal | src/importexport/imagesexport/internal/svgwriter.cpp:503 | decimal text read back with an optional sign gives the number again |
| Decimal.QStringToInt | src/importexport/imagesexport/internal/svgwriter.cpp:647 | `toInt`: the value of a number that fits in 32 bits, and 0 when the text is not a number or the number does not fit |
| Decimal.ToIntOfNumber | src/importexport/imagesexport/internal/svgwriter.cpp:647 | `toInt` inverts `QString::number` on every 32-bit int |
| StaffLinesPass.ByMeasure | src/importexport/imagesexport/internal/svgwriter.cpp:430-436 | the flag is set exactly when some entry of the chain is a box or a measure invisible on the staff |
| StaffLinesPass.DrawByMeasure | src/importexport/imagesexport/internal/svgwriter.cpp:438-445 | per-measure drawing paints the lines of each measure visible on the staff, in chain order |
| StaffLinesPass.DrawStaff | src/importexport/imagesexport/internal/svgwriter.cpp:404-459 | one staff is skipped, drawn by measure or drawn once for the system, as `StaffDraws` says |
| StaffLinesPass.DrawSystem | src/importexport/imagesexport/internal/svgwriter.cpp:404-460 | a system's staves are drawn in order |
| StaffLinesPass.FirstPass | src/importexport/imagesexport/internal/svgwriter.cpp:393-461 | the first pass draws `PageDraws` of the page's systems |
| StaffLinesPass.MeasureDrawsMembers | src/importexport/imagesexport/internal/svgwriter.cpp:439-445 | per-measure draws are exactly the measures visible on the staff |
| StaffLinesPass.StaffDrawsMembers | src/importexport/imagesexport/internal/svgwriter.cpp:404-459 | a staff's draws are exactly the expected ones: painted, and whole-system or per-measure as `byMeasure` decides |
| StaffLinesPass.SystemDrawsMembers | src/importexport/imagesexport/internal/svgwriter.cpp:404-460 | a system's draws are exactly the expected draws of its staves |
| StaffLinesPass.PageDrawsMembers | src/importexport/imagesexport/internal/svgwriter.cpp:394-461 | the page's draws are exactly the expected draws of its systems |
| StaffLinesPass.SystemLinesDrawn | src/importexport/imagesexport/internal/svgwriter.cpp:430-459 | a system's staff lines are drawn in one piece exactly when the staff is painted and every entry of the chain is a measure visible on it |
| StaffLinesPass.MeasureLinesDrawn | src/importexport/imagesexport/internal/svgwriter.cpp:430-445 | a measure's staff lines are drawn exactly when the staff is painted, some entry forces per-measure drawing and that measure is visible |
| SvgWriter.ParseDashedOfDashed | src/importexport/imagesexport/internal/svgwriter.cpp:548 | numbers joined by '-' read back as those numbers, negative ones included |
| SvgWriter.StaffAttributeParses | src/importexport/imagesexport/internal/svgwriter.cpp:503 | the "staff" attribute reads back as the measure number and the staff index |
| SvgWriter.NoteSvgIdParses | src/importexport/imagesexport/internal/svgwriter.cpp:548 | a note id is "note-" followed by text that reads back as its eight fields |
| SvgWriter.NoteSvgIdInjective | src/importexport/imagesexport/internal/svgwriter.cpp:548-549 | two notes get the same id only when all eight fields agree |
| SvgWriter.BarLineIdParses | src/importexport/imagesexport/internal/svgwriter.cpp:579 | a bar line id is "svgId" followed by the measure number |
| SvgWriter.AttributeTexts | src/importexport/imagesexport/internal/svgwriter.cpp:598 | rendering a painted element's attributes to the texts `setAttrabute` receives keeps exactly the attributes' names (a standalone rendering: painted records keep the values) |
| SvgWriter.AttrTextParses | src/importexport/imagesexport/internal/svgwriter.cpp:497-593 | each attribute text reads back as what it was written from, and starts with "note-", "svgId", a digit or '-' |
| SvgWriter.AttrTextInjective | src/importexport/imagesexport/internal/svgwriter.cpp:497-593 | equal texts come from values of the same kind, with the same fields |
| SvgWriter.LastNoteIndex | src/importexport/imagesexport/internal/svgwriter.cpp:467-474 | the nested count is one less than the NOTE elements on the earlier pages |
| SvgWriter.ParseNotesColors | src/importexport/imagesexport/internal/svgwriter.cpp:641-651 | the map loop yields `ColorsOf` of the option's entries |
| SvgWriter.ColorsOfKeys | src/importexport/imagesexport/internal/svgwriter.cpp:646-648 | a note number is a key exactly when some entry's name reads as it |
| SvgWriter.ColorsOfLast | src/importexport/imagesexport/internal/svgwriter.cpp:646-648 | a number's colour is that of the last entry whose name reads as it |
| SvgWriter.NoteColor | src/importexport/imagesexport/internal/svgwriter.cpp:513-521 | a note's colour is replaced only when its index is a key of the map; otherwise it keeps its own |
| SvgWriter.ExportedNoteTimes | src/importexport/imagesexport/internal/svgwriter.cpp:525-552 | an exported note is its walk record plus event times: first and last tick in map order, and start <= end with two matches |
| SvgWriter.AttributesMeaning | src/importexport/imagesexport/internal/svgwriter.cpp:497-595 | "staff" carries the beam's first chord's measure and staff when there is one, else the element's own when it has a staff and a measure; "id" is set exactly for notes and for bar lines in a measure; no other attribute is set |
| SvgWriter.DrawElement | src/importexport/imagesexport/internal/svgwriter.cpp:494-599 | one drawn element gets `PaintOf` colour and attributes; the counter advances only for notes and only with note colours |
| SvgWriter.SecondPass | src/importexport/imagesexport/internal/svgwriter.cpp:479-601 | the loop records `PaintedIn` and exports `NotesExported` of the page's elements |
| SvgWriter.PaintedInElements | src/importexport/imagesexport/internal/svgwriter.cpp:479-492 | only visible elements other than staff lines are painted, each once, in list order |
| SvgWriter.PaintedPosition | src/importexport/imagesexport/internal/svgwriter.cpp:479-599 | every drawn element is painted, with colour index one plus the start plus the drawn notes before it |
| SvgWriter.NotesExportedOrder | src/importexport/imagesexport/internal/svgwriter.cpp:509-552 | the exported notes are the visible notes in page order, one each |
| SvgWriter.PaintedNoteColour | src/importexport/imagesexport/internal/svgwriter.cpp:513-520 | a drawn note is painted with `NoteColor` of its running index |
| SvgWriter.NoteColourIndex | src/importexport/imagesexport/internal/svgwriter.cpp:467-515 | the colour index of the k-th visible note of a page is the count of NOTE elements on earlier pages plus k |
| SvgWriter.Write | src/importexport/imagesexport/internal/svgwriter.cpp:355-601 | fails exactly when `PAGE_NUMBER` (0 when not given) is outside the pages; otherwise, with no note colours when `NOTES_COLORS` is not given, returns the first pass's draws, the second pass's painted elements (colour index starting from `lastNoteIndex`) and the exported notes |

## Left out

- Painting and geometry are not modelled: `SvgGenerator`, `Painter`, `paintElement`, `endDraw`, page boxes, trim margins, the `lastX` stretch of whole-system staff lines and `pixelRatio`. These are rendering through a library that is not part of this model, and floating-point geometry. A painted element is recorded only by its position, colour and attributes.
- Event times are integer ticks. The division by `MScore::division`, the float fields of `ExportNote`, `int(time*1000)` in `ExportNote::toJson` and `QString::number` of the float times inside a note id are float conversions. `IdFields` writes the tick values instead.
- `ExportNote::toJson`, `ExportSystem::toJson` and `ExportMeasure::toJson` are not modelled: the item texts are inputs to `SheetMusicJson.ToJson`. The latter two have malformed format strings.
- The systems loop at the end of `write` and the stable sort of the notes list are left out: `write` fills no systems or measures and discards the JSON string, so they have no effect on any result.
- Tempo and time-signature lookups, `renderMidi`, `findMeasure`, `measure->no()`, staff visibility and the first-pass chain walk are engine calls. Their results are inputs: `Element` fields, `SystemLayout`, `scoreStaffShown`, and `Event`s.
- The stable sort by `elementLessThan` is an engine order. The second pass takes the page's elements already in that order.
- The null checks of `notation` and `score` in `write` are left out: both are assertions about the caller, not outcomes.
- `SvgWriter.Write` requires `PagesKnown`, which holds because the engine gives no system more staves than the score.
- The effects `write` has beyond its result are not modelled. `setPrinting(true)` and the `pdfPrinting`/`svgPrinting` flags are set before the page-number check. An out-of-range page returns before the cleanup, so those flags stay set, and `Write`'s error leaves no trace of this. `setColor` and `setAttrabute` change the score's elements permanently; a `Painted` record gives the colour and attributes they receive.
- The `printf` in the rest branch is console output and is left out.
- The rest branch computes a record and drops it. `DrawElement` computes it too and exports nothing for it.
- A beam with no chords, where the source calls `first()` on an empty list, is not modelled: a beam always carries its first chord's measure (if any) and staff.
- `findFile`, `openFolder`, `saveOnline`, `importPdf`, `exportScore`, `newProject`, `saveScoreAs`, `saveScoreCopy`, `saveSelection`, `continueLastSession` and `init` are left out. They are file-system I/O, asynchronous upload, URL opening, dispatcher wiring and dialog-driven export.
- `GetSysTimeMicros` reads the system clock and is left out.
- `doOpenProject` is left out: it loads through the engine and multi-instance provider, and opens windows.
- The platform recent-files controller call in `prependToRecentScoreList` and `clearRecentScores` is an opaque effect. Only the configuration's list is modelled.
- The configuration's `defaultSavingFilePath(fileName)` is not part of this model: `DefaultSavingFileName` gives the name handed to it.
- `io::suffix` is modelled with '/' as the only separator.
- `UserScoresConfiguration::DEFAULT_FILE_SUFFIX` is taken to be ".mscz": its definition is not part of this model.
- `doSaveScore()` with no argument saves in place with an empty path, which `prependToRecentScoreList` then ignores. The header with its default argument is not part of this model.
- `TupletMap::add` and the rest of `tupletmap.h` are not part of this model.
- Decimal.QStringToInt: it does not model the leading and trailing whitespace `toInt` accepts, nor bases other than 10.
- A painted element's attributes are kept by what they are written from (`AttrValue`), not as text. `AttrText` gives the text, and the parsing lemmas show that no information is lost.
