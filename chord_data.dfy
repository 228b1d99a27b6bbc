/**
 * The chord record handed to the front end: the group's anchor time, one
 * fret per string (-1 for a string with no note), the longest duration and
 * the number of notes in the group.
 */
module ChordData {
  import opened Tuning
  import opened Conversion

  datatype Chord = Chord(time: int, strings: seq<int>, duration: int, noteCount: nat)

  /** The fret of the last note of `notes` on string `s`, or -1 if none uses it. */
  function LastFretOn(notes: seq<TabNote>, s: int): int
  {
    if notes == [] then -1
    else if notes[|notes| - 1].stringNumber == s then notes[|notes| - 1].fret
    else LastFretOn(notes[..|notes| - 1], s)
  }

  /** The longest duration among `notes`. */
  function MaxDuration(notes: seq<TabNote>): int
    requires |notes| > 0
  {
    if |notes| == 1 then notes[0].duration
    else
      var m := MaxDuration(notes[1..]);
      if notes[0].duration >= m then notes[0].duration else m
  }

  /** The chord's duration is the duration of one of its notes and no note lasts longer. */
  lemma {:induction false} MaxDurationIsMax(notes: seq<TabNote>)
    requires |notes| > 0
    ensures forall i :: 0 <= i < |notes| ==> notes[i].duration <= MaxDuration(notes)
    ensures exists i :: 0 <= i < |notes| && notes[i].duration == MaxDuration(notes)
  {
    if |notes| > 1 {
      var tail := notes[1..];
      MaxDurationIsMax(tail);
      assert forall i :: 1 <= i < |notes| ==> notes[i] == tail[i - 1];
      var w :| 0 <= w < |tail| && tail[w].duration == MaxDuration(tail);
      if notes[0].duration < MaxDuration(tail) {
        assert notes[w + 1].duration == MaxDuration(notes);
      } else {
        assert notes[0].duration == MaxDuration(notes);
      }
    } else {
      assert notes[0].duration == MaxDuration(notes);
    }
  }

  /** The chord record for a non-empty group anchored at `time`. */
  function ChordOf(notes: seq<TabNote>, time: int): Chord
    requires |notes| > 0
  {
    Chord(time, seq(StringCount, s => LastFretOn(notes, s)), MaxDuration(notes), |notes|)
  }

  /**
   * Build the chord record: start from six empty strings and let every note
   * whose string number is 0..5 overwrite its string's slot.
   */
  method CreateChordData(notes: seq<TabNote>, time: int) returns (chord: Chord)
    requires |notes| > 0
    ensures chord == ChordOf(notes, time)
    ensures chord.time == time && |chord.strings| == StringCount
    ensures chord.noteCount == |notes|
    ensures forall s :: 0 <= s < StringCount ==> chord.strings[s] == LastFretOn(notes, s)
  {
    var strings := new int[StringCount](_ => -1);
    for i := 0 to |notes|
      invariant forall s :: 0 <= s < StringCount ==> strings[s] == LastFretOn(notes[..i], s)
    {
      assert notes[..i + 1][..i] == notes[..i];
      var note := notes[i];
      if 0 <= note.stringNumber <= 5 {
        strings[note.stringNumber] := note.fret;
      }
    }
    assert notes[..|notes|] == notes;
    chord := Chord(time, strings[..], MaxDuration(notes), |notes|);
  }

  /**
   * A slot holds -1 when no note uses that string; otherwise it holds the fret
   * of the last note on that string (later notes overwrite earlier ones).
   */
  lemma {:induction false} LastFretOnSpec(notes: seq<TabNote>, s: int)
    ensures (forall i :: 0 <= i < |notes| ==> notes[i].stringNumber != s) ==> LastFretOn(notes, s) == -1
    ensures (exists i :: 0 <= i < |notes| && notes[i].stringNumber == s) ==>
      exists i :: 0 <= i < |notes| && notes[i].stringNumber == s && LastFretOn(notes, s) == notes[i].fret &&
        forall j :: i < j < |notes| ==> notes[j].stringNumber != s
  {
    if notes != [] {
      var init := notes[..|notes| - 1];
      LastFretOnSpec(init, s);
      assert forall i :: 0 <= i < |init| ==> notes[i] == init[i];
    }
  }

  /** Played slots of a chord whose notes are in fret range hold frets 0..MaxFret. */
  lemma {:induction false} LastFretOnRange(notes: seq<TabNote>, s: int)
    requires forall i :: 0 <= i < |notes| ==> 0 <= notes[i].fret <= MaxFret
    ensures LastFretOn(notes, s) == -1 || 0 <= LastFretOn(notes, s) <= MaxFret
  {
    if notes != [] {
      var init := notes[..|notes| - 1];
      assert forall i :: 0 <= i < |init| ==> init[i] == notes[i];
      LastFretOnRange(init, s);
    }
  }
}
