/**
 * Note names: a MIDI pitch is written as one of the twelve pitch-class names
 * followed by its octave number, pitch / 12 - 1, in decimal (so 60 is "C4").
 * Python's floor division and remainder by 12 agree with Dafny's Euclidean
 * ones, so the definition below holds for every integer pitch.
 */
module NoteNames {
  import opened Wrappers

  /** The twelve pitch-class names, starting at C. */
  const PitchClassNames: seq<string> := ["C", "C#", "D", "D#", "E", "F", "F#", "G", "G#", "A", "A#", "B"]

  function DigitChar(d: int): char
    requires 0 <= d < 10
  {
    ('0' as int + d) as char
  }

  /** The decimal numeral of `n`, without leading zeros. */
  function Decimal(n: nat): string
  {
    if n < 10 then [DigitChar(n)] else Decimal(n / 10) + [DigitChar(n % 10)]
  }

  /** An integer written the way Python's `str` writes it: a minus sign, then the digits. */
  function IntToString(i: int): string
  {
    if i < 0 then "-" + Decimal(-i) else Decimal(i)
  }

  /** The octave number of a pitch. */
  function Octave(pitch: int): int
  {
    pitch / 12 - 1
  }

  /** The name of `pitch`: pitch-class name, then octave. */
  function GetNoteName(pitch: int): string
  {
    PitchClassNames[pitch % 12] + IntToString(Octave(pitch))
  }

  // ---------------------------------------------------------------------
  // An independent reader of note names, used as the inverse of GetNoteName.
  // ---------------------------------------------------------------------

  function DigitValue(c: char): Option<nat>
  {
    if '0' <= c <= '9' then Some(c as int - '0' as int) else None
  }

  /** The value of a non-empty string of decimal digits. */
  function ParseDecimal(s: string): Option<nat>
  {
    if |s| == 0 then None
    else if |s| == 1 then DigitValue(s[0])
    else
      match ParseDecimal(s[..|s| - 1])
      case None => None
      case Some(high) =>
        match DigitValue(s[|s| - 1])
        case None => None
        case Some(low) => Some(10 * high + low)
  }

  /** The value of an optionally negative decimal numeral. */
  function ParseInt(s: string): Option<int>
  {
    if |s| > 0 && s[0] == '-' then
      match ParseDecimal(s[1..])
      case None => None
      case Some(n) => Some(-(n as int))
    else
      match ParseDecimal(s)
      case None => None
      case Some(n) => Some(n)
  }

  /** The position of `name` in the pitch-class table, searching from `k`. */
  function FindPitchClass(name: string, k: nat): Option<nat>
    decreases |PitchClassNames| - k
  {
    if k >= |PitchClassNames| then None
    else if PitchClassNames[k] == name then Some(k)
    else FindPitchClass(name, k + 1)
  }

  /**
   * The pitch a note name denotes: the pitch-class name is two characters
   * when the second is '#', otherwise one; the rest is the octave.
   */
  function ParseNoteName(s: string): Option<int>
  {
    if |s| == 0 then None
    else
      var len := if |s| >= 2 && s[1] == '#' then 2 else 1;
      match FindPitchClass(s[..len], 0)
      case None => None
      case Some(pc) =>
        match ParseInt(s[len..])
        case None => None
        case Some(octave) => Some((octave + 1) * 12 + pc)
  }

  // ---------------------------------------------------------------------
  // Properties
  // ---------------------------------------------------------------------

  /** Reading back a numeral gives the number. */
  lemma {:induction false} DecimalRoundTrip(n: nat)
    ensures |Decimal(n)| > 0
    ensures ParseDecimal(Decimal(n)) == Some(n)
  {
    if n >= 10 {
      DecimalRoundTrip(n / 10);
      var s := Decimal(n);
      assert s[..|s| - 1] == Decimal(n / 10);
    }
  }

  /** A numeral starts with a digit, so never with '-' or '#'. */
  lemma {:induction false} DecimalStartsWithDigit(n: nat)
    ensures |Decimal(n)| > 0 && '0' <= Decimal(n)[0] <= '9'
  {
    if n >= 10 {
      DecimalStartsWithDigit(n / 10);
    }
  }

  lemma IntRoundTrip(i: int)
    ensures |IntToString(i)| > 0 && IntToString(i)[0] != '#'
    ensures ParseInt(IntToString(i)) == Some(i)
  {
    if i < 0 {
      var d := Decimal(-i);
      DecimalRoundTrip(-i);
      var t := IntToString(i);
      assert t == "-" + d;
      assert t[1..] == d;
      assert t[0] == '-' && ParseDecimal(t[1..]) == Some(-i);
    } else {
      DecimalStartsWithDigit(i);
      DecimalRoundTrip(i);
      assert IntToString(i)[0] != '-';
    }
  }

  /** Each pitch-class name is found at its own index. */
  lemma FindsPitchClass(pc: int)
    requires 0 <= pc < 12
    ensures FindPitchClass(PitchClassNames[pc], 0) == Some(pc)
    ensures 1 <= |PitchClassNames[pc]| <= 2
    ensures |PitchClassNames[pc]| == 2 ==> PitchClassNames[pc][1] == '#'
  {
    var t := PitchClassNames;
    assert FindPitchClass(t[pc], 12) == None;
    assert FindPitchClass(t[pc], 11) == if pc == 11 then Some(11) else None;
    assert FindPitchClass(t[pc], 10) == if pc == 10 then Some(10) else FindPitchClass(t[pc], 11);
    assert FindPitchClass(t[pc], 9) == if pc == 9 then Some(9) else FindPitchClass(t[pc], 10);
    assert FindPitchClass(t[pc], 8) == if pc == 8 then Some(8) else FindPitchClass(t[pc], 9);
    assert FindPitchClass(t[pc], 7) == if pc == 7 then Some(7) else FindPitchClass(t[pc], 8);
    assert FindPitchClass(t[pc], 6) == if pc == 6 then Some(6) else FindPitchClass(t[pc], 7);
    assert FindPitchClass(t[pc], 5) == if pc == 5 then Some(5) else FindPitchClass(t[pc], 6);
    assert FindPitchClass(t[pc], 4) == if pc == 4 then Some(4) else FindPitchClass(t[pc], 5);
    assert FindPitchClass(t[pc], 3) == if pc == 3 then Some(3) else FindPitchClass(t[pc], 4);
    assert FindPitchClass(t[pc], 2) == if pc == 2 then Some(2) else FindPitchClass(t[pc], 3);
    assert FindPitchClass(t[pc], 1) == if pc == 1 then Some(1) else FindPitchClass(t[pc], 2);
  }

  /** Reading a note name back gives the pitch it was made from. */
  lemma NoteNameRoundTrip(pitch: int)
    ensures ParseNoteName(GetNoteName(pitch)) == Some(pitch)
  {
    var pc := pitch % 12;
    var name := PitchClassNames[pc];
    var num := IntToString(Octave(pitch));
    var s := GetNoteName(pitch);
    FindsPitchClass(pc);
    IntRoundTrip(Octave(pitch));
    var len := if |s| >= 2 && s[1] == '#' then 2 else 1;
    assert len == |name|;
    assert s[..len] == name;
    assert s[len..] == num;
  }

  /** Different pitches get different names. */
  lemma NoteNameInjective(p: int, q: int)
    requires GetNoteName(p) == GetNoteName(q)
    ensures p == q
  {
    NoteNameRoundTrip(p);
    NoteNameRoundTrip(q);
  }

  /** For MIDI pitches 0..127 the octave runs from -1 to 9, so a name is two to four characters long. */
  lemma MidiRangeNames(pitch: int)
    requires 0 <= pitch <= 127
    ensures -1 <= Octave(pitch) <= 9
    ensures 2 <= |GetNoteName(pitch)| <= 4
  {
    FindsPitchClass(pitch % 12);
  }

  /** Some names worked out: middle C, the lowest and highest MIDI pitches, and the guitar's low E. */
  lemma NoteNameExamples()
    ensures GetNoteName(60) == "C4"
    ensures GetNoteName(61) == "C#4"
    ensures GetNoteName(0) == "C-1"
    ensures GetNoteName(127) == "G9"
    ensures GetNoteName(40) == "E2"
  {
    assert Decimal(4) == "4";
    assert Decimal(1) == "1";
    assert Decimal(9) == "9";
    assert Decimal(2) == "2";
  }
}
