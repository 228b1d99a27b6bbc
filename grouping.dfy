/**
 * Chord grouping: one sweep over the tablature notes with an anchor time.
 * A note within the tolerance of the anchor joins the current group;
 * any other note closes the group and starts a new one anchored at its own
 * time. Times and the tolerance are integers (milliseconds; the converter
 * uses 50 ms).
 */
module Grouping {
  import opened Tuning
  import opened Conversion
  import opened ChordData
  import opened Numbers

  const DefaultToleranceMs: nat := 50

  predicate Within(t: int, anchor: int, tolerance: nat)
  {
    Abs(t - anchor) <= tolerance
  }

  /** The length of the longest prefix of `notes` whose times are all within tolerance of `anchor`. */
  function AnchoredPrefix(notes: seq<TabNote>, anchor: int, tolerance: nat): (k: nat)
    ensures k <= |notes|
    ensures forall j :: 0 <= j < k ==> Within(notes[j].time, anchor, tolerance)
    ensures k < |notes| ==> !Within(notes[k].time, anchor, tolerance)
  {
    if notes == [] || !Within(notes[0].time, anchor, tolerance) then 0
    else 1 + AnchoredPrefix(notes[1..], anchor, tolerance)
  }

  /**
   * The groups of `notes`: the longest prefix anchored at the first note's
   * time, then the groups of the rest.
   */
  function Groups(notes: seq<TabNote>, tolerance: nat): (r: seq<seq<TabNote>>)
    ensures forall g :: g in r ==> |g| > 0
    ensures notes != [] ==> |r| > 0 && r[0][0] == notes[0]
    decreases |notes|
  {
    if notes == [] then []
    else
      var k := AnchoredPrefix(notes, notes[0].time, tolerance);
      assert k > 0;
      [notes[..k]] + Groups(notes[k..], tolerance)
  }

  /** Each group becomes a chord anchored at the time of its first note. */
  function ChordsOf(groups: seq<seq<TabNote>>): (r: seq<Chord>)
    requires forall g :: g in groups ==> |g| > 0
    ensures |r| == |groups|
    ensures forall k :: 0 <= k < |r| ==> |r[k].strings| == StringCount
  {
    if groups == [] then [] else [ChordOf(groups[0], groups[0][0].time)] + ChordsOf(groups[1..])
  }

  function Flatten(groups: seq<seq<TabNote>>): seq<TabNote>
  {
    if groups == [] then [] else groups[0] + Flatten(groups[1..])
  }

  function SumNoteCounts(chords: seq<Chord>): int
  {
    if chords == [] then 0 else chords[0].noteCount + SumNoteCounts(chords[1..])
  }

  /** The chords the converter emits for `notes`: one per group, in order. */
  function ChordsFor(notes: seq<TabNote>, tolerance: nat): seq<Chord>
    decreases |notes|, 1
  {
    if notes == [] then [] else FirstChordThenRest(notes, tolerance)
  }

  /** The chord of the first group, followed by the chords of the remaining notes. */
  function FirstChordThenRest(notes: seq<TabNote>, tolerance: nat): seq<Chord>
    requires notes != []
    decreases |notes|, 0
  {
    var k := AnchoredPrefix(notes, notes[0].time, tolerance);
    assert k > 0;
    [ChordOf(notes[..k], notes[0].time)] + ChordsFor(notes[k..], tolerance)
  }

  /** The emitted chords are exactly the records of the groups. */
  lemma {:induction false} ChordsForGroups(notes: seq<TabNote>, tolerance: nat)
    ensures ChordsFor(notes, tolerance) == ChordsOf(Groups(notes, tolerance))
    decreases |notes|
  {
    if notes != [] {
      var k := AnchoredPrefix(notes, notes[0].time, tolerance);
      ChordsForGroups(notes[k..], tolerance);
      var gs := Groups(notes, tolerance);
      assert gs[0] == notes[..k] && gs[1..] == Groups(notes[k..], tolerance);
    }
  }

  /** A run of `m` joining notes ended by a non-joining note, or by the end, is the whole prefix. */
  lemma {:induction false} AnchoredPrefixExact(notes: seq<TabNote>, anchor: int, tolerance: nat, m: nat)
    requires m <= |notes|
    requires forall j :: 0 <= j < m ==> Within(notes[j].time, anchor, tolerance)
    requires m < |notes| ==> !Within(notes[m].time, anchor, tolerance)
    ensures AnchoredPrefix(notes, anchor, tolerance) == m
  {
    if m > 0 {
      AnchoredPrefixExact(notes[1..], anchor, tolerance, m - 1);
    }
  }

  /** Closing the open group `notes[start..i]` emits its chord ahead of the chords of the rest. */
  lemma CloseChord(notes: seq<TabNote>, tolerance: nat, start: nat, i: nat)
    requires start < i <= |notes|
    requires forall j :: start <= j < i ==> Within(notes[j].time, notes[start].time, tolerance)
    requires i < |notes| ==> !Within(notes[i].time, notes[start].time, tolerance)
    ensures ChordsFor(notes[start..], tolerance) ==
      [ChordOf(notes[start..i], notes[start].time)] + ChordsFor(notes[i..], tolerance)
  {
    var rest := notes[start..];
    AnchoredPrefixExact(rest, notes[start].time, tolerance, i - start);
    assert rest[..i - start] == notes[start..i];
    assert rest[i - start..] == notes[i..];
  }

  /** One step of the sweep: the chord of the closed group joins the emitted chords. */
  lemma EmitChord(notes: seq<TabNote>, tolerance: nat, start: nat, i: nat, emitted: seq<Chord>, chord: Chord)
    requires start < i <= |notes|
    requires forall j :: start <= j < i ==> Within(notes[j].time, notes[start].time, tolerance)
    requires i < |notes| ==> !Within(notes[i].time, notes[start].time, tolerance)
    requires ChordsFor(notes, tolerance) == emitted + ChordsFor(notes[start..], tolerance)
    requires chord == ChordOf(notes[start..i], notes[start].time)
    ensures ChordsFor(notes, tolerance) == (emitted + [chord]) + ChordsFor(notes[i..], tolerance)
  {
    CloseChord(notes, tolerance, start, i);
  }

  /**
   * The sweep of the converter. `currentGroup` and `currentTime` are the open
   * group and its anchor; the ghost `start` is where the open group begins.
   */
  method GroupNotesByTime(tabNotes: seq<TabNote>, tolerance: nat) returns (groupedNotes: seq<Chord>)
    ensures groupedNotes == ChordsFor(tabNotes, tolerance)
    ensures tabNotes == [] ==> groupedNotes == []
  {
    if tabNotes == [] {
      return [];
    }
    groupedNotes := [];
    var currentGroup: seq<TabNote> := [];
    var currentTime := tabNotes[0].time;
    ghost var start := 0;
    for i := 0 to |tabNotes|
      invariant 0 <= start <= i
      invariant start < i || i == 0
      invariant currentGroup == tabNotes[start..i]
      invariant currentTime == tabNotes[start].time
      invariant forall j :: start <= j < i ==> Within(tabNotes[j].time, currentTime, tolerance)
      invariant ChordsFor(tabNotes, tolerance) == groupedNotes + ChordsFor(tabNotes[start..], tolerance)
    {
      var note := tabNotes[i];
      assert tabNotes[start..i + 1] == tabNotes[start..i] + [note];
      if Abs(note.time - currentTime) <= tolerance {
        currentGroup := currentGroup + [note];
      } else {
        if |currentGroup| > 0 {
          var chord := CreateChordData(currentGroup, currentTime);
          EmitChord(tabNotes, tolerance, start, i, groupedNotes, chord);
          groupedNotes := groupedNotes + [chord];
        }
        currentGroup := [note];
        currentTime := note.time;
        start := i;
        assert currentGroup == tabNotes[start..i + 1];
      }
    }
    if |currentGroup| > 0 {
      var chord := CreateChordData(currentGroup, currentTime);
      EmitChord(tabNotes, tolerance, start, |tabNotes|, groupedNotes, chord);
      assert ChordsFor(tabNotes[|tabNotes|..], tolerance) == [];
      groupedNotes := groupedNotes + [chord];
    }
  }

  /** Chord `k` is the record of group `k`, anchored at the time of its first note. */
  lemma {:induction false} ChordsOfAt(groups: seq<seq<TabNote>>)
    requires forall g :: g in groups ==> |g| > 0
    ensures forall k :: 0 <= k < |groups| ==> ChordsOf(groups)[k] == ChordOf(groups[k], groups[k][0].time)
  {
    if groups != [] {
      ChordsOfAt(groups[1..]);
      assert forall k :: 1 <= k < |groups| ==> groups[k] == groups[1..][k - 1];
    }
  }

  /** The groups split the notes without losing, duplicating or reordering any. */
  lemma {:induction false} GroupsPartition(notes: seq<TabNote>, tolerance: nat)
    ensures Flatten(Groups(notes, tolerance)) == notes
    decreases |notes|
  {
    if notes != [] {
      var k := AnchoredPrefix(notes, notes[0].time, tolerance);
      GroupsPartition(notes[k..], tolerance);
      var gs := Groups(notes, tolerance);
      assert gs[0] == notes[..k] && gs[1..] == Groups(notes[k..], tolerance);
      assert notes[..k] + notes[k..] == notes;
    }
  }

  /** Every note of a group is one of the grouped notes. */
  lemma {:induction false} GroupsMembers(notes: seq<TabNote>, tolerance: nat)
    ensures forall j, x :: 0 <= j < |Groups(notes, tolerance)| && 0 <= x < |Groups(notes, tolerance)[j]| ==>
      Groups(notes, tolerance)[j][x] in notes
    decreases |notes|
  {
    if notes != [] {
      var k := AnchoredPrefix(notes, notes[0].time, tolerance);
      var tail := notes[k..];
      GroupsMembers(tail, tolerance);
      var gs := Groups(notes, tolerance);
      assert gs[0] == notes[..k];
      assert forall j :: 1 <= j < |gs| ==> gs[j] == Groups(tail, tolerance)[j - 1];
      assert forall t :: t in tail ==> t in notes;
    }
  }

  /** Every note of a group lies within the tolerance of the group's anchor, its first note's time. */
  lemma {:induction false} GroupsAnchored(notes: seq<TabNote>, tolerance: nat)
    ensures forall j, x :: 0 <= j < |Groups(notes, tolerance)| && 0 <= x < |Groups(notes, tolerance)[j]| ==>
      Within(Groups(notes, tolerance)[j][x].time, Groups(notes, tolerance)[j][0].time, tolerance)
    decreases |notes|
  {
    if notes != [] {
      var k := AnchoredPrefix(notes, notes[0].time, tolerance);
      GroupsAnchored(notes[k..], tolerance);
      var gs := Groups(notes, tolerance);
      assert forall j :: 1 <= j < |gs| ==> gs[j] == Groups(notes[k..], tolerance)[j - 1];
    }
  }

  /** The first note of each group after the first is outside the tolerance of the previous anchor. */
  lemma {:induction false} GroupsSeparated(notes: seq<TabNote>, tolerance: nat)
    ensures forall j :: 0 <= j < |Groups(notes, tolerance)| - 1 ==>
      !Within(Groups(notes, tolerance)[j + 1][0].time, Groups(notes, tolerance)[j][0].time, tolerance)
    decreases |notes|
  {
    if notes != [] {
      var k := AnchoredPrefix(notes, notes[0].time, tolerance);
      var rest := Groups(notes[k..], tolerance);
      GroupsSeparated(notes[k..], tolerance);
      var gs := Groups(notes, tolerance);
      assert forall j :: 1 <= j < |gs| ==> gs[j] == rest[j - 1];
    }
  }

  /**
   * With notes sorted by time (the converter sorts them by start time first),
   * each group's anchor comes more than the tolerance after the previous one.
   */
  lemma {:induction false} GroupAnchorsIncrease(notes: seq<TabNote>, tolerance: nat)
    requires SortedByTime(notes)
    ensures forall j :: 0 <= j < |Groups(notes, tolerance)| - 1 ==>
      Groups(notes, tolerance)[j + 1][0].time > Groups(notes, tolerance)[j][0].time + tolerance
    decreases |notes|
  {
    if notes != [] {
      var k := AnchoredPrefix(notes, notes[0].time, tolerance);
      var rest := Groups(notes[k..], tolerance);
      GroupAnchorsIncrease(notes[k..], tolerance);
      var gs := Groups(notes, tolerance);
      assert forall j :: 1 <= j < |gs| ==> gs[j] == rest[j - 1];
      if k < |notes| {
        assert gs[1][0] == notes[k];
        assert notes[0].time <= notes[k].time;
      }
    }
  }

  /** The chords' note counts add up to the number of notes grouped. */
  lemma {:induction false} NoteCountsSum(notes: seq<TabNote>, tolerance: nat)
    ensures SumNoteCounts(ChordsFor(notes, tolerance)) == |notes|
    decreases |notes|
  {
    if notes != [] {
      var k := AnchoredPrefix(notes, notes[0].time, tolerance);
      NoteCountsSum(notes[k..], tolerance);
      ChordsForGroups(notes, tolerance);
      ChordsForGroups(notes[k..], tolerance);
      var gs := Groups(notes, tolerance);
      assert gs[0] == notes[..k] && gs[1..] == Groups(notes[k..], tolerance);
    }
  }

  /** Each chord holds at least one note, so there are at most as many chords as notes. */
  lemma {:induction false} ChordCountBound(chords: seq<Chord>)
    requires forall k :: 0 <= k < |chords| ==> chords[k].noteCount > 0
    ensures |chords| <= SumNoteCounts(chords)
  {
    if chords != [] {
      ChordCountBound(chords[1..]);
    }
  }

  /** Grouping yields no chord exactly when there are no notes, and never more chords than notes. */
  lemma GroupCount(notes: seq<TabNote>, tolerance: nat)
    ensures (ChordsFor(notes, tolerance) == []) <==> (notes == [])
    ensures |ChordsFor(notes, tolerance)| <= |notes|
  {
    ChordsForGroups(notes, tolerance);
    ChordsOfAt(Groups(notes, tolerance));
    NoteCountsSum(notes, tolerance);
    ChordCountBound(ChordsFor(notes, tolerance));
  }

  /**
   * Every chord record has six slots, is anchored at the time of its group's
   * first note, counts the group's notes and records their longest duration.
   */
  lemma ChordsShape(notes: seq<TabNote>, tolerance: nat, k: int)
    requires 0 <= k < |Groups(notes, tolerance)|
    ensures |ChordsFor(notes, tolerance)| == |Groups(notes, tolerance)|
    ensures var g := Groups(notes, tolerance)[k];
      var c := ChordsFor(notes, tolerance)[k];
      c.time == g[0].time && |c.strings| == StringCount && c.noteCount == |g| &&
      c.duration == MaxDuration(g) &&
      forall s :: 0 <= s < StringCount ==> c.strings[s] == LastFretOn(g, s)
  {
    ChordsForGroups(notes, tolerance);
    ChordsOfAt(Groups(notes, tolerance));
  }

  /** With notes sorted by time, each chord comes more than the tolerance after the previous one. */
  lemma ChordTimesIncrease(notes: seq<TabNote>, tolerance: nat)
    requires SortedByTime(notes)
    ensures forall k :: 0 <= k < |ChordsFor(notes, tolerance)| - 1 ==>
      ChordsFor(notes, tolerance)[k + 1].time > ChordsFor(notes, tolerance)[k].time + tolerance
  {
    ChordsForGroups(notes, tolerance);
    ChordsOfAt(Groups(notes, tolerance));
    GroupAnchorsIncrease(notes, tolerance);
  }

  /** Chords built from converted notes only hold -1 or a fret in 0..MaxFret. */
  lemma ConvertedChordsInRange(midiNotes: seq<MidiNote>, tolerance: nat, k: int, s: int)
    requires 0 <= k < |ChordsFor(ConvertNotes(midiNotes), tolerance)|
    requires 0 <= s < StringCount
    ensures var c := ChordsFor(ConvertNotes(midiNotes), tolerance)[k];
      s < |c.strings| && (c.strings[s] == -1 || 0 <= c.strings[s] <= MaxFret)
  {
    var notes := ConvertNotes(midiNotes);
    ChordsForGroups(notes, tolerance);
    ChordsShape(notes, tolerance, k);
    var g := Groups(notes, tolerance)[k];
    GroupsMembers(notes, tolerance);
    forall x | 0 <= x < |g| ensures 0 <= g[x].fret <= MaxFret {
      var i :| 0 <= i < |notes| && notes[i] == g[x];
      ConvertedNotesFaithful(midiNotes, i);
    }
    LastFretOnRange(g, s);
  }

  /** Without the sort, chord times need not increase: a later note may open a group at an earlier time. */
  lemma UnsortedTimesMayDecrease()
    ensures var notes := [TabNote(100, 0, 0, 10, 80), TabNote(0, 0, 0, 10, 80)];
      |ChordsFor(notes, DefaultToleranceMs)| == 2 &&
      ChordsFor(notes, DefaultToleranceMs)[1].time < ChordsFor(notes, DefaultToleranceMs)[0].time
  {
    var notes := [TabNote(100, 0, 0, 10, 80), TabNote(0, 0, 0, 10, 80)];
    var tail := notes[1..];
    assert tail == [notes[1]];
    AnchoredPrefixExact(notes, 100, DefaultToleranceMs, 1);
    AnchoredPrefixExact(tail, 0, DefaultToleranceMs, 1);
    assert tail[1..] == [];
    assert notes[..1] == [notes[0]] && tail[..1] == [notes[1]];
    assert Groups(tail, DefaultToleranceMs) == [[notes[1]]];
    assert Groups(notes, DefaultToleranceMs) == [[notes[0]], [notes[1]]];
    ChordsForGroups(notes, DefaultToleranceMs);
    ChordsOfAt(Groups(notes, DefaultToleranceMs));
  }
}
