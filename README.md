# MIDI-to-tablature converter core, modelled in Dafny

This project models the conversion core of the guitar-tablature backend
(`backend/midi_to_tab.py`, class `MidiToTabConverter`). A list of MIDI notes
goes through these steps:

1. **Position choice** (`_find_best_position`). The converter scans the six
   strings of a standard-tuned guitar (E2 A2 D3 G3 B3 E4, string 0 = low E)
   and keeps every string on which the pitch needs a fret in 0..24. It
   scores each such position as `|string - 2.5| + 0.1 * fret`. It then
   sorts by score and takes the first.
2. **Per-note conversion** (`_convert_notes_to_tab`). Each note gets its best
   position. A note no string can play is dropped.
3. **Chord grouping** (`_group_notes_by_time`). One pass over the tablature
   notes. A note within the tolerance of the current group's anchor joins
   the group. The anchor is the time of the group's first note. Any other
   note closes the group and starts a new one.
4. **Chord records** (`_create_chord_data`). Six string slots start at -1.
   Each note whose string number is 0..5 overwrites its slot. The record
   also holds the anchor time, the longest duration and the note count.
5. **Note names** (`get_note_name`). A pitch is written as its pitch-class
   name followed by the octave `pitch // 12 - 1`.

Modules, one per concern: `Wrappers` (an `Option`), `Numbers` (`Abs`), `Tuning`, `FretChoice`,
`Conversion`, `ChordData`, `Grouping` and `NoteNames`. The loops of the source
are `method`s with loop invariants. Each method is proved equal to a
functional specification (`BestPosition`, `ConvertNotes`, `ChordOf`,
`ChordsFor`). The lemmas then prove what the source promises about those
functions. `CreateChordData` keeps the source's in-place update of a
six-slot `array`.

Modelling choices:

- Times and durations are integer milliseconds rather than float seconds.
  The grouping tolerance is a `nat` parameter; the source's 0.05 s is
  `Grouping.DefaultToleranceMs` = 50.
- Scores are kept multiplied by ten: `5 * |2 * string - 5| + fret`, which is
  exact. For a fixed pitch, the six strings score `pitch - 15`, `- 30`,
  `- 45`, `- 50`, `- 44` and `- 39` (strings 0..5). These are integers
  differing by at least 1, i.e. 0.1 before scaling. Float rounding of the
  source's scores is far below that and cannot change their order.
- The sort followed by `[0]` is modelled as a selection loop that keeps the
  first candidate of least score. `FirstMinIsSortedHead` proves this is
  exactly what a stable sort puts first. `ScoresDistinct` proves there are
  never ties.
- Python's `//` and `%` by 12 agree with Dafny's Euclidean operators, so
  `GetNoteName` is defined for every integer pitch. The octave is written in
  decimal with a leading `-` when negative, as Python's `str` does.
- String 0 is the low E (pitch 40) and string 5 the high E (pitch 64).
- Each note's position is chosen on its own, by the score above.
- Repeated pitches in a chord are not merged: the note count counts every
  note, and a later note on the same string overwrites an earlier one.

## Model

| member | source | states |
|---|---|---|
| Tuning.TuningTable | backend/midi_to_tab.py:34-43 | The tuning table has six strings, numbered by position, tuned strictly upwards from 40 to 64. |
| Tuning.ReachableRange | backend/midi_to_tab.py:34-43 | Some string can play a pitch with a fret in 0..24 exactly when the pitch is in 40..88. |
| FretChoice.FindBestPosition | backend/midi_to_tab.py:117-139 | The scan-then-pick method returns the first least-score candidate. It returns None exactly for pitches outside 40..88. A returned position is a real string with a fret in range that sounds the pitch. It agrees with the fixed preference order G, D, B, high E, A, low E. |
| FretChoice.CandidatesMembers | backend/midi_to_tab.py:122-132 | A candidate is listed exactly when its string reaches the pitch, with fret = pitch − open pitch and the scaled score. |
| FretChoice.FirstMinIsSortedHead | backend/midi_to_tab.py:138-139 | The chosen candidate sits at the index a stable sort by score puts first: every earlier entry scores strictly more and no entry scores less. |
| FretChoice.FirstMinMinimal | backend/midi_to_tab.py:138-139 | The chosen candidate is in the list and no listed candidate scores less. |
| FretChoice.ScoreOffsets | backend/midi_to_tab.py:128-130 | For a fixed pitch, each string's scaled score is the pitch minus a fixed per-string offset. |
| FretChoice.ScoresDistinct | backend/midi_to_tab.py:128-130 | Two different strings never tie on score for the same pitch, so the sort's tie order never matters. |
| FretChoice.PreferenceChoiceMinimal | backend/midi_to_tab.py:128-138 | If any string reaches the pitch, the preference order finds a string, and its score is no larger than that of any reachable string. |
| FretChoice.LeastScoreIsPreferenceChoice | backend/midi_to_tab.py:128-138 | A reachable string scoring no worse than every reachable string is the one the preference order picks. |
| FretChoice.BestPositionIsPreferenceChoice | backend/midi_to_tab.py:117-139 | `BestPosition`, the sort-based search, and `PreferenceChoice`, the fixed preference order, choose the same position for every pitch. |
| FretChoice.BestPositionFacts | backend/midi_to_tab.py:122-139 | `BestPosition` finds nothing exactly for pitches outside 40..88. A position it finds is valid and sounds the pitch. |
| FretChoice.BestPositionMinimal | backend/midi_to_tab.py:127-139 | The position `BestPosition` finds scores strictly less than every other string that reaches the pitch. |
| Conversion.ConvertNotes | backend/midi_to_tab.py:96-115 | The conversion never yields more tablature notes than input notes. |
| Conversion.ConvertNotesToTab | backend/midi_to_tab.py:96-115 | The conversion loop produces exactly `ConvertNotes` of its input: the playable notes, in input order, each at its best position. |
| Conversion.KeptIndicesIncreasing | backend/midi_to_tab.py:100-113 | The indices of the kept notes are strictly increasing and in range, so the output keeps input order. |
| Conversion.KeptIndicesExact | backend/midi_to_tab.py:102-104 | Note `i` is kept exactly when `BestPosition` finds a position for its pitch. |
| Conversion.ConvertedCorrespondence | backend/midi_to_tab.py:100-113 | Output note `k` is input note `KeptIndices[k]` at its best position: same start, duration end − start, same velocity. |
| Conversion.ConvertedNotesFaithful | backend/midi_to_tab.py:104-113 | Every output note is on a real string, has a fret in 0..24, sounds some input note's pitch and keeps that note's timing and velocity. |
| Conversion.DroppedExactly | backend/midi_to_tab.py:102-104 | A note is dropped exactly when its pitch is outside 40..88. |
| Conversion.ConvertedTimesBounded | backend/midi_to_tab.py:106-107 | Output onsets are input starts, so a bound on the input starts bounds the output times. |
| Conversion.ConvertKeepsOrder | backend/midi_to_tab.py:75-115 | Input sorted by start time gives output sorted by time. |
| ChordData.MaxDurationIsMax | backend/midi_to_tab.py:179 | `MaxDuration`, the chord's duration, is some note's duration, and no note lasts longer. |
| ChordData.CreateChordData | backend/midi_to_tab.py:167-181 | The in-place slot loop yields `ChordOf(notes, time)`: the given time, six slots, slot `s` = fret of the last note on string `s` (or -1), the longest duration and the note count. |
| ChordData.LastFretOnSpec | backend/midi_to_tab.py:170-174 | `LastFretOn(notes, s)`, slot `s` of the record, is -1 when no note uses that string. Otherwise it holds the fret of a note on that string after which no note uses it (last write wins). |
| ChordData.LastFretOnRange | backend/midi_to_tab.py:172-174 | If all notes have frets in 0..24, every slot `LastFretOn(notes, s)` is -1 or a fret in 0..24. |
| Grouping.AnchoredPrefix | backend/midi_to_tab.py:151-153 | The notes joining a group form a prefix in which every note is within the tolerance of the anchor. The note after the prefix, if any, is not. |
| Grouping.Groups | backend/midi_to_tab.py:141-165 | Every group is non-empty, and a non-empty input's first group starts with its first note. |
| Grouping.ChordsOf | backend/midi_to_tab.py:157-163 | One chord record per group, each with six string slots. |
| Grouping.GroupNotesByTime | backend/midi_to_tab.py:141-165 | The sweep loop produces exactly `ChordsFor(notes, tolerance)`, and no chords for no notes. |
| Grouping.ChordsForGroups | backend/midi_to_tab.py:146-165 | The sweep's output is the chord record of each group, in order. |
| Grouping.AnchoredPrefixExact | backend/midi_to_tab.py:151-153 | A prefix of joining notes ended by a non-joining note or the end of the input is exactly the group's prefix. |
| Grouping.ChordsOfAt | backend/midi_to_tab.py:157-163 | Chord `k` is the record of group `k`, anchored at the time of its first note. |
| Grouping.GroupsPartition | backend/midi_to_tab.py:151-163 | Joining the groups gives back the notes: nothing lost, duplicated or reordered. |
| Grouping.GroupsMembers | backend/midi_to_tab.py:151-163 | Every note of every group is one of the input notes. |
| Grouping.GroupsAnchored | backend/midi_to_tab.py:148-159 | Every note of a group is within the tolerance of the group's anchor, the time of its first note. |
| Grouping.GroupsSeparated | backend/midi_to_tab.py:152-159 | Each group after the first starts with a note outside the tolerance of the previous anchor. |
| Grouping.GroupAnchorsIncrease | backend/midi_to_tab.py:152-159 | With notes sorted by time, each anchor is more than the tolerance after the previous one. |
| Grouping.NoteCountsSum | backend/midi_to_tab.py:180 | The chords' note counts add up to the number of notes grouped. |
| Grouping.ChordCountBound | backend/midi_to_tab.py:180 | Records that each hold at least one note are no more numerous than their notes. |
| Grouping.GroupCount | backend/midi_to_tab.py:143-165 | There are no chords exactly when there are no notes, and never more chords than notes. |
| Grouping.ChordsShape | backend/midi_to_tab.py:157-181 | Chord `k` has the time of group `k`'s first note, six slots, the group's size and longest duration, and slot `s` = last fret on string `s`. |
| Grouping.ChordTimesIncrease | backend/midi_to_tab.py:152-159 | With notes sorted by time, each chord comes more than the tolerance after the previous one. |
| Grouping.ConvertedChordsInRange | backend/midi_to_tab.py:96-181 | Chords built from converted notes only hold -1 or a fret in 0..24. |
| Grouping.UnsortedTimesMayDecrease | backend/midi_to_tab.py:151-159 | Without the sort, chord times can decrease: notes at 100 ms then 0 ms give the chord at 0 after the chord at 100. |
| NoteNames.DecimalRoundTrip | backend/midi_to_tab.py:249 | Reading back the decimal numeral of a natural number gives the number. |
| NoteNames.IntRoundTrip | backend/midi_to_tab.py:247-249 | Reading back the octave as `str` writes it gives the octave, and it never starts with '#'. |
| NoteNames.FindsPitchClass | backend/midi_to_tab.py:246-248 | Each of the twelve names is found at its own index; a two-character name ends in '#'. |
| NoteNames.NoteNameRoundTrip | backend/midi_to_tab.py:244-249 | Parsing `GetNoteName(p)` (pitch-class name, then octave `p / 12 - 1`) gives back `p`, for every integer pitch. |
| NoteNames.NoteNameInjective | backend/midi_to_tab.py:244-249 | Different pitches get different names: `GetNoteName` is injective. |
| NoteNames.MidiRangeNames | backend/midi_to_tab.py:247-249 | For MIDI pitches 0..127 the octave is -1..9, and `GetNoteName` gives two to four characters. |
| NoteNames.NoteNameExamples | backend/midi_to_tab.py:244-249 | 60 is "C4", 61 is "C#4", 0 is "C-1", 127 is "G9" and 40 (the low E) is "E2". |

## Left out

- `midi_to_tab` and `_convert_sync` (backend/midi_to_tab.py:48-94): asynchronous executor plumbing and MIDI file loading through `pretty_midi`, a library whose code is not part of this model. The sort by start time at line 75 appears only as the `SortedByStart`/`SortedByTime` precondition of the ordering lemmas.
- `_generate_pdf` (backend/midi_to_tab.py:183-242): ReportLab page rendering, float layout and file output.
- `analyze_midi_content` (backend/midi_to_tab.py:251-288): reads `pretty_midi` objects and uses a float infinity.
- The constructor's thread pool and output directory (backend/midi_to_tab.py:44-46). The tuning table and maximum fret are the constants of module `Tuning`.
- The rest of the backend (audio transcription, HTTP handlers, configuration) is not part of this model.
- Float seconds: times, durations and the tolerance are integer milliseconds, so the model does not capture float rounding in `abs(note.time - current_time) <= 0.05`.
- FretChoice.FindBestPosition: the Python list sort is modelled by its result, the first candidate of least score. The sorting algorithm itself is not modelled.
- ChordData.CreateChordData: requires a non-empty note list. On an empty list the source raises (the maximum of an empty sequence), and its only callers never pass one.
- Note and chord records are Dafny datatypes, not Python dictionaries, so key names and JSON layout are not modelled.
