/**
 * The fixed standard tuning of the converter: six strings, each with the
 * MIDI number of its open pitch, and the highest fret that may be used.
 * String 0 is the low E string, string 5 the high E string.
 */
module Tuning {

  /** One string of the guitar: its number and its open pitch (a MIDI note number). */
  datatype GuitarString = GuitarString(number: int, openPitch: int)

  /** The tuning table set up by the converter's constructor: E2 A2 D3 G3 B3 E4. */
  const GuitarStrings: seq<GuitarString> := [
    GuitarString(0, 40),
    GuitarString(1, 45),
    GuitarString(2, 50),
    GuitarString(3, 55),
    GuitarString(4, 59),
    GuitarString(5, 64)
  ]

  const StringCount := 6

  const MaxFret := 24

  predicate IsString(s: int) { 0 <= s < StringCount }

  function OpenPitch(s: int): int
    requires IsString(s)
  {
    GuitarStrings[s].openPitch
  }

  /** Pitch `p` can be played on string `s` with a fret in 0..MaxFret. */
  predicate Reachable(p: int, s: int)
    requires IsString(s)
  {
    0 <= p - OpenPitch(s) <= MaxFret
  }

  /** The table has six strings, numbered by position, tuned strictly upwards. */
  lemma TuningTable()
    ensures |GuitarStrings| == StringCount
    ensures forall s :: IsString(s) ==> GuitarStrings[s].number == s
    ensures forall s, t :: IsString(s) && IsString(t) && s < t ==> OpenPitch(s) < OpenPitch(t)
    ensures OpenPitch(0) == 40 && OpenPitch(StringCount - 1) == 64
  {
  }

  /** A pitch is playable on some string exactly when it lies in 40..88. */
  lemma ReachableRange(p: int)
    ensures (exists s :: IsString(s) && Reachable(p, s)) <==> 40 <= p <= 88
  {
    if 40 <= p <= 88 {
      if p <= 64 { assert Reachable(p, 0); } else { assert Reachable(p, 5); }
    }
  }
}
