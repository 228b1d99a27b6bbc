/**
 * Per-note conversion: every MIDI note is given the best string and fret for
 * its pitch; a note whose pitch no string can play is dropped.
 * Times are integers (milliseconds) rather than float seconds.
 */
module Conversion {
  import opened Wrappers
  import opened Tuning
  import opened FretChoice

  /** A note as read from the MIDI file: pitch, start and end times, velocity. */
  datatype MidiNote = MidiNote(pitch: int, start: int, end: int, velocity: int)

  /** A note of the tablature: onset, string (0 = low E), fret, duration, velocity. */
  datatype TabNote = TabNote(time: int, stringNumber: int, fret: int, duration: int, velocity: int)

  /** The tablature note for `note` played at `pos`. */
  function ToTabNote(note: MidiNote, pos: Position): TabNote
  {
    TabNote(note.start, pos.stringNumber, pos.fret, note.end - note.start, note.velocity)
  }

  /** The notes of `notes`, in order, that have a position, each turned into a tablature note. */
  function ConvertNotes(notes: seq<MidiNote>): (r: seq<TabNote>)
    ensures |r| <= |notes|
  {
    if notes == [] then []
    else
      var last := notes[|notes| - 1];
      ConvertNotes(notes[..|notes| - 1]) +
        match BestPosition(last.pitch)
        case Some(pos) => [ToTabNote(last, pos)]
        case None => []
  }

  /** The indices of the notes of `notes` that some string can play, ascending. */
  function KeptIndices(notes: seq<MidiNote>): seq<nat>
  {
    if notes == [] then []
    else
      KeptIndices(notes[..|notes| - 1]) +
        if BestPosition(notes[|notes| - 1].pitch).Some? then [|notes| - 1] else []
  }

  /**
   * The conversion loop: search each note's position, keep the notes that
   * have one, in input order.
   */
  method ConvertNotesToTab(midiNotes: seq<MidiNote>) returns (tabNotes: seq<TabNote>)
    ensures tabNotes == ConvertNotes(midiNotes)
  {
    var converted: seq<TabNote> := [];
    for i := 0 to |midiNotes|
      invariant converted == ConvertNotes(midiNotes[..i])
    {
      assert midiNotes[..i + 1][..i] == midiNotes[..i];
      var note := midiNotes[i];
      var bestPosition := FindBestPosition(note.pitch);
      if bestPosition.Some? {
        var tabNote := TabNote(note.start, bestPosition.value.stringNumber, bestPosition.value.fret,
                               note.end - note.start, note.velocity);
        converted := converted + [tabNote];
      }
    }
    assert midiNotes[..|midiNotes|] == midiNotes;
    tabNotes := converted;
  }

  /** `idx` is strictly increasing and every entry is below `n`. */
  predicate IncreasingBelow(idx: seq<nat>, n: int)
  {
    (forall k :: 0 <= k < |idx| ==> idx[k] < n) &&
    (forall k1, k2 :: 0 <= k1 < k2 < |idx| ==> idx[k1] < idx[k2])
  }

  /** The kept indices are strictly increasing and in range. */
  lemma {:induction false} KeptIndicesIncreasing(notes: seq<MidiNote>)
    ensures IncreasingBelow(KeptIndices(notes), |notes|)
  {
    if notes != [] {
      KeptIndicesIncreasing(notes[..|notes| - 1]);
    }
  }

  /** Index `i` is kept exactly when note `i` has a position. */
  lemma {:induction false} KeptIndicesExact(notes: seq<MidiNote>, i: int)
    requires 0 <= i < |notes|
    ensures i in KeptIndices(notes) <==> BestPosition(notes[i].pitch).Some?
  {
    var init := notes[..|notes| - 1];
    if i == |notes| - 1 {
      KeptIndicesIncreasing(init);
      assert i !in KeptIndices(init);
    } else {
      KeptIndicesExact(init, i);
      assert init[i] == notes[i];
    }
  }

  /**
   * Output note `k` is input note `KeptIndices(notes)[k]` played at its best
   * position: same onset, duration end - start, same velocity, and the chosen
   * string and fret sound the original pitch.
   */
  lemma {:induction false} ConvertedCorrespondence(notes: seq<MidiNote>)
    ensures |ConvertNotes(notes)| == |KeptIndices(notes)| <= |notes|
    ensures forall k :: 0 <= k < |KeptIndices(notes)| ==>
      var i := KeptIndices(notes)[k];
      0 <= i < |notes| && BestPosition(notes[i].pitch).Some? &&
      ConvertNotes(notes)[k] == ToTabNote(notes[i], BestPosition(notes[i].pitch).value)
  {
    if notes != [] {
      var init := notes[..|notes| - 1];
      var last := notes[|notes| - 1];
      ConvertedCorrespondence(init);
      var out, idx := ConvertNotes(notes), KeptIndices(notes);
      var out0, idx0 := ConvertNotes(init), KeptIndices(init);
      assert out[..|out0|] == out0 && idx[..|idx0|] == idx0 by {
        match BestPosition(last.pitch)
        case Some(pos) =>
          assert out == out0 + [ToTabNote(last, pos)];
          assert idx == idx0 + [|notes| - 1];
        case None =>
          assert out == out0 && idx == idx0;
      }
      forall k | 0 <= k < |idx|
        ensures 0 <= idx[k] < |notes| && BestPosition(notes[idx[k]].pitch).Some? &&
          out[k] == ToTabNote(notes[idx[k]], BestPosition(notes[idx[k]].pitch).value)
      {
        if k < |idx0| {
          assert idx[k] == idx0[k] && out[k] == out0[k];
          assert notes[idx0[k]] == init[idx0[k]];
        }
      }
    }
  }

  /** Every converted note is playable and keeps the timing and velocity of its source note. */
  lemma ConvertedNotesFaithful(notes: seq<MidiNote>, k: int)
    requires 0 <= k < |ConvertNotes(notes)|
    ensures var t := ConvertNotes(notes)[k];
      exists i :: 0 <= i < |notes| &&
        IsString(t.stringNumber) && 0 <= t.fret <= MaxFret &&
        OpenPitch(t.stringNumber) + t.fret == notes[i].pitch &&
        t.time == notes[i].start && t.duration == notes[i].end - notes[i].start &&
        t.velocity == notes[i].velocity
  {
    ConvertedCorrespondence(notes);
    var i := KeptIndices(notes)[k];
    BestPositionFacts(notes[i].pitch);
  }

  /** A note is dropped exactly when it is outside the playable range 40..88. */
  lemma DroppedExactly(notes: seq<MidiNote>, i: int)
    requires 0 <= i < |notes|
    ensures i in KeptIndices(notes) <==> 40 <= notes[i].pitch <= 88
  {
    KeptIndicesExact(notes, i);
    BestPositionFacts(notes[i].pitch);
  }

  predicate SortedByStart(notes: seq<MidiNote>)
  {
    forall i, j :: 0 <= i <= j < |notes| ==> notes[i].start <= notes[j].start
  }

  predicate SortedByTime(notes: seq<TabNote>)
  {
    forall i, j :: 0 <= i <= j < |notes| ==> notes[i].time <= notes[j].time
  }

  /** Every converted note starts no later than a bound on all input starts. */
  lemma {:induction false} ConvertedTimesBounded(notes: seq<MidiNote>, t: int)
    requires forall i :: 0 <= i < |notes| ==> notes[i].start <= t
    ensures forall k :: 0 <= k < |ConvertNotes(notes)| ==> ConvertNotes(notes)[k].time <= t
  {
    if notes != [] {
      var init := notes[..|notes| - 1];
      assert forall i :: 0 <= i < |init| ==> init[i] == notes[i];
      ConvertedTimesBounded(init, t);
    }
  }

  /** Conversion keeps order, so notes sorted by start give tablature notes sorted by time. */
  lemma {:induction false} ConvertKeepsOrder(notes: seq<MidiNote>)
    requires SortedByStart(notes)
    ensures SortedByTime(ConvertNotes(notes))
  {
    if notes != [] {
      var init := notes[..|notes| - 1];
      var last := notes[|notes| - 1];
      assert forall i :: 0 <= i < |init| ==> init[i] == notes[i];
      ConvertKeepsOrder(init);
      ConvertedTimesBounded(init, last.start);
    }
  }
}
