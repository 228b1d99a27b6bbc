/** Integer helpers shared by the position choice and the chord grouping. */
module Numbers {
  /** The absolute value, as Python's `abs` on integers. */
  function Abs(x: int): nat { if x < 0 then -x else x }
}
