/**
 * Choosing a string and fret for one MIDI pitch.
 *
 * The converter lists every string on which the pitch is reachable, scores
 * each as |string - 2.5| + 0.1 * fret, sorts by score and takes the first.
 * Scores are kept here multiplied by ten, which makes them the exact
 * integers 5 * |2 * string - 5| + fret.
 */
module FretChoice {
  import opened Wrappers
  import opened Tuning
  import opened Numbers

  /** A chosen position: string number and fret. */
  datatype Position = Position(stringNumber: int, fret: int)

  /** One entry of the list of possible positions: string, fret and scaled score. */
  datatype Candidate = Candidate(stringNumber: int, fret: int, score: int)

  /** Ten times |number - 2.5|: middle strings are preferred. */
  function StringPreference(number: int): nat { 5 * Abs(2 * number - 5) }

  /** Ten times the playability score |number - 2.5| + 0.1 * fret. */
  function Score(number: int, fret: int): int { StringPreference(number) + fret }

  /** The candidate that string `gs` yields for `pitch`, if the fret is in range. */
  function CandidateOn(gs: GuitarString, pitch: int): seq<Candidate>
  {
    var fret := pitch - gs.openPitch;
    if 0 <= fret <= MaxFret then [Candidate(gs.number, fret, Score(gs.number, fret))] else []
  }

  /** The possible positions for `pitch` on the first `n` strings of the table, in string order. */
  function CandidatesUpTo(pitch: int, n: nat): seq<Candidate>
    requires n <= |GuitarStrings|
  {
    if n == 0 then []
    else CandidatesUpTo(pitch, n - 1) + CandidateOn(GuitarStrings[n - 1], pitch)
  }

  /** The list of possible positions for `pitch` over the whole tuning table. */
  function Candidates(pitch: int): seq<Candidate>
  {
    CandidatesUpTo(pitch, |GuitarStrings|)
  }

  /**
   * The first candidate of least score: the head of the list after a
   * stable sort by score.
   */
  function FirstMin(cs: seq<Candidate>): Candidate
    requires |cs| > 0
  {
    if |cs| == 1 then cs[0]
    else
      var m := FirstMin(cs[..|cs| - 1]);
      if cs[|cs| - 1].score < m.score then cs[|cs| - 1] else m
  }

  /** What the position search returns for `pitch`. */
  function BestPosition(pitch: int): Option<Position>
  {
    var cs := Candidates(pitch);
    if cs == [] then None else Some(Position(FirstMin(cs).stringNumber, FirstMin(cs).fret))
  }

  /**
   * Independent description of the choice: the first string, in the order
   * G, D, B, high E, A, low E (3, 2, 4, 5, 1, 0), on which the pitch is reachable.
   */
  function PreferenceChoice(pitch: int): Option<Position>
  {
    if Reachable(pitch, 3) then Some(Position(3, pitch - OpenPitch(3)))
    else if Reachable(pitch, 2) then Some(Position(2, pitch - OpenPitch(2)))
    else if Reachable(pitch, 4) then Some(Position(4, pitch - OpenPitch(4)))
    else if Reachable(pitch, 5) then Some(Position(5, pitch - OpenPitch(5)))
    else if Reachable(pitch, 1) then Some(Position(1, pitch - OpenPitch(1)))
    else if Reachable(pitch, 0) then Some(Position(0, pitch - OpenPitch(0)))
    else None
  }

  /** The candidate that string `s` yields, written out. */
  function CandidateFor(pitch: int, s: int): Candidate
    requires IsString(s)
  {
    Candidate(s, pitch - OpenPitch(s), Score(s, pitch - OpenPitch(s)))
  }

  /** The valid-position predicate: a string, a fret in range, and the right pitch. */
  predicate Plays(pos: Position, pitch: int)
  {
    IsString(pos.stringNumber) && 0 <= pos.fret <= MaxFret && OpenPitch(pos.stringNumber) + pos.fret == pitch
  }

  /**
   * Search for the best position, as the converter does it: one pass over the
   * strings collecting the reachable ones, then the first candidate of least score.
   */
  method FindBestPosition(midiPitch: int) returns (best: Option<Position>)
    ensures best == BestPosition(midiPitch)
    ensures best.None? <==> (midiPitch < 40 || midiPitch > 88)
    ensures best.Some? ==> Plays(best.value, midiPitch)
    ensures best == PreferenceChoice(midiPitch)
  {
    var possible: seq<Candidate> := [];
    for i := 0 to |GuitarStrings|
      invariant possible == CandidatesUpTo(midiPitch, i)
    {
      var gs := GuitarStrings[i];
      var fret := midiPitch - gs.openPitch;
      if 0 <= fret <= MaxFret {
        var score := StringPreference(gs.number) + fret;
        possible := possible + [Candidate(gs.number, fret, score)];
      }
    }
    BestPositionFacts(midiPitch);
    if possible == [] {
      return None;
    }
    var b := 0;
    for j := 1 to |possible|
      invariant 0 <= b < j
      invariant possible[b] == FirstMin(possible[..j])
    {
      assert possible[..j + 1][..j] == possible[..j];
      if possible[j].score < possible[b].score {
        b := j;
      }
    }
    assert possible[..|possible|] == possible;
    best := Some(Position(possible[b].stringNumber, possible[b].fret));
  }

  /** The list of possible positions, one optional entry per string in string order. */
  lemma CandidatesUnrolled(pitch: int)
    ensures Candidates(pitch) ==
      CandidateOn(GuitarStrings[0], pitch) + CandidateOn(GuitarStrings[1], pitch) +
      CandidateOn(GuitarStrings[2], pitch) + CandidateOn(GuitarStrings[3], pitch) +
      CandidateOn(GuitarStrings[4], pitch) + CandidateOn(GuitarStrings[5], pitch)
  {
    var g := GuitarStrings;
    assert CandidatesUpTo(pitch, 1) == CandidateOn(g[0], pitch);
    assert CandidatesUpTo(pitch, 2) == CandidateOn(g[0], pitch) + CandidateOn(g[1], pitch);
    assert CandidatesUpTo(pitch, 3) == CandidatesUpTo(pitch, 2) + CandidateOn(g[2], pitch);
    assert CandidatesUpTo(pitch, 4) == CandidatesUpTo(pitch, 3) + CandidateOn(g[3], pitch);
    assert CandidatesUpTo(pitch, 5) == CandidatesUpTo(pitch, 4) + CandidateOn(g[4], pitch);
  }

  /** A candidate is listed exactly when it is some reachable string's candidate. */
  lemma CandidatesMembers(pitch: int)
    ensures forall c :: c in Candidates(pitch) <==> exists s :: IsString(s) && Reachable(pitch, s) && c == CandidateFor(pitch, s)
  {
    CandidatesUnrolled(pitch);
    forall c | c in Candidates(pitch)
      ensures exists s :: IsString(s) && Reachable(pitch, s) && c == CandidateFor(pitch, s)
    {
      if c in CandidateOn(GuitarStrings[0], pitch) { assert c == CandidateFor(pitch, 0); }
      else if c in CandidateOn(GuitarStrings[1], pitch) { assert c == CandidateFor(pitch, 1); }
      else if c in CandidateOn(GuitarStrings[2], pitch) { assert c == CandidateFor(pitch, 2); }
      else if c in CandidateOn(GuitarStrings[3], pitch) { assert c == CandidateFor(pitch, 3); }
      else if c in CandidateOn(GuitarStrings[4], pitch) { assert c == CandidateFor(pitch, 4); }
      else { assert c == CandidateFor(pitch, 5); }
    }
    forall s | IsString(s) && Reachable(pitch, s)
      ensures CandidateFor(pitch, s) in Candidates(pitch)
    {
      assert CandidateOn(GuitarStrings[s], pitch) == [CandidateFor(pitch, s)];
    }
  }

  /** `cs[i]` is where a stable sort by score would find its first element. */
  predicate SortedHeadAt(cs: seq<Candidate>, i: int)
  {
    0 <= i < |cs| &&
    (forall j :: 0 <= j < i ==> cs[j].score > cs[i].score) &&
    (forall j :: i <= j < |cs| ==> cs[j].score >= cs[i].score)
  }

  /** The head of a stable sort by score: first occurrence of the least score. */
  lemma {:induction false} FirstMinIsSortedHead(cs: seq<Candidate>)
    requires |cs| > 0
    ensures exists i :: SortedHeadAt(cs, i) && cs[i] == FirstMin(cs)
  {
    if |cs| == 1 {
      assert SortedHeadAt(cs, 0);
    } else {
      var init := cs[..|cs| - 1];
      FirstMinIsSortedHead(init);
      var i :| SortedHeadAt(init, i) && init[i] == FirstMin(init);
      assert forall j :: 0 <= j < |init| ==> cs[j] == init[j];
      var last := |cs| - 1;
      if cs[last].score < FirstMin(init).score {
        assert SortedHeadAt(cs, last) && cs[last] == FirstMin(cs);
      } else {
        assert SortedHeadAt(cs, i) && cs[i] == FirstMin(cs);
      }
    }
  }

  /** The winner of the search has a score no larger than any listed candidate. */
  lemma FirstMinMinimal(cs: seq<Candidate>)
    requires |cs| > 0
    ensures FirstMin(cs) in cs
    ensures forall c :: c in cs ==> FirstMin(cs).score <= c.score
  {
    FirstMinIsSortedHead(cs);
  }

  /** For a fixed pitch each string's score is the pitch minus a per-string offset. */
  lemma ScoreOffsets(pitch: int)
    ensures Score(0, pitch - OpenPitch(0)) == pitch - 15
    ensures Score(1, pitch - OpenPitch(1)) == pitch - 30
    ensures Score(2, pitch - OpenPitch(2)) == pitch - 45
    ensures Score(3, pitch - OpenPitch(3)) == pitch - 50
    ensures Score(4, pitch - OpenPitch(4)) == pitch - 44
    ensures Score(5, pitch - OpenPitch(5)) == pitch - 39
  {
  }

  /** Two different strings never score the same for one pitch, so no tie has to be broken. */
  lemma ScoresDistinct(pitch: int, s: int, t: int)
    requires IsString(s) && IsString(t) && s != t
    ensures Score(s, pitch - OpenPitch(s)) != Score(t, pitch - OpenPitch(t))
  {
    ScoreOffsets(pitch);
  }

  /** The preference order lists the strings by increasing score. */
  lemma PreferenceChoiceMinimal(pitch: int, s: int)
    requires IsString(s) && Reachable(pitch, s)
    ensures PreferenceChoice(pitch).Some?
    ensures Score(PreferenceChoice(pitch).value.stringNumber, PreferenceChoice(pitch).value.fret)
      <= Score(s, pitch - OpenPitch(s))
  {
    ScoreOffsets(pitch);
  }

  /** A reachable string that scores no worse than every reachable string is the preferred one. */
  lemma LeastScoreIsPreferenceChoice(pitch: int, sm: int)
    requires IsString(sm) && Reachable(pitch, sm)
    requires forall s :: IsString(s) && Reachable(pitch, s) ==>
      Score(sm, pitch - OpenPitch(sm)) <= Score(s, pitch - OpenPitch(s))
    ensures PreferenceChoice(pitch) == Some(Position(sm, pitch - OpenPitch(sm)))
  {
    PreferenceChoiceMinimal(pitch, sm);
    var p := PreferenceChoice(pitch).value;
    var sp := p.stringNumber;
    assert IsString(sp) && Reachable(pitch, sp) && p.fret == pitch - OpenPitch(sp) by {
      ScoreOffsets(pitch);
    }
    if sp != sm {
      ScoresDistinct(pitch, sp, sm);
    }
  }

  /** The sorted search and the fixed preference order choose the same position. */
  lemma BestPositionIsPreferenceChoice(pitch: int)
    ensures BestPosition(pitch) == PreferenceChoice(pitch)
  {
    var cs := Candidates(pitch);
    CandidatesMembers(pitch);
    if cs == [] {
      forall s | IsString(s) ensures !Reachable(pitch, s) {
        assert CandidateFor(pitch, s) !in cs;
      }
    } else {
      FirstMinMinimal(cs);
      var m := FirstMin(cs);
      var sm :| IsString(sm) && Reachable(pitch, sm) && m == CandidateFor(pitch, sm);
      forall s | IsString(s) && Reachable(pitch, s)
        ensures Score(sm, pitch - OpenPitch(sm)) <= Score(s, pitch - OpenPitch(s))
      {
        assert CandidateFor(pitch, s) in cs;
      }
      LeastScoreIsPreferenceChoice(pitch, sm);
    }
  }

  /**
   * The search finds nothing exactly when the pitch is below 40 or above 88;
   * a found position is on a real string, within the fret range, and sounds the pitch.
   */
  lemma BestPositionFacts(pitch: int)
    ensures BestPosition(pitch).None? <==> (pitch < 40 || pitch > 88)
    ensures BestPosition(pitch).Some? ==> Plays(BestPosition(pitch).value, pitch)
    ensures BestPosition(pitch) == PreferenceChoice(pitch)
  {
    BestPositionIsPreferenceChoice(pitch);
  }

  /** The found position strictly beats every other string on which the pitch is reachable. */
  lemma BestPositionMinimal(pitch: int, s: int)
    requires IsString(s) && Reachable(pitch, s)
    ensures BestPosition(pitch).Some?
    ensures var b := BestPosition(pitch).value;
      s != b.stringNumber ==> Score(b.stringNumber, b.fret) < Score(s, pitch - OpenPitch(s))
  {
    BestPositionIsPreferenceChoice(pitch);
    PreferenceChoiceMinimal(pitch, s);
    var b := BestPosition(pitch).value;
    if s != b.stringNumber {
      assert IsString(b.stringNumber) && b.fret == pitch - OpenPitch(b.stringNumber) by { ScoreOffsets(pitch); }
      ScoresDistinct(pitch, s, b.stringNumber);
    }
  }
}
