/** How the live controller reads a phase off the time since its green started. */
module SignalPhases {
  import opened Signals

  datatype Phase = Green | Yellow | AllRed

  /** What a snapshot is made from: the phase, the lane it belongs to, and the time left. */
  datatype Shown = Shown(phase: Phase, lane: Option<Lane>, remaining: real)

  /** The countdown a snapshot prints: whole seconds, rounded up, never negative. */
  function Seconds(remaining: real): (s: nat)
    ensures remaining <= 0.0 ==> s == 0
    ensures remaining > 0.0 ==> s as real - 1.0 < remaining <= s as real
  {
    NonNegative(Ceiling(remaining))
  }

  function Ceiling(x: real): (r: int)
    ensures r as real - 1.0 < x <= r as real
  {
    -((-x).Floor)
  }

  function NonNegative(n: int): nat { if n < 0 then 0 else n }

  function Classify(lane: Lane, green: int, yellow: int, allRed: int, elapsed: real): Shown {
    if elapsed < green as real then
      Shown(Green, Some(lane), green as real - elapsed)
    else if elapsed < (green + yellow) as real then
      Shown(Yellow, Some(lane), (green + yellow) as real - elapsed)
    else
      Shown(AllRed, None, (green + yellow + allRed) as real - elapsed)
  }

  /** The test that ends a phase. */
  predicate Expired(green: int, yellow: int, allRed: int, elapsed: real) {
    elapsed >= (green + yellow + allRed) as real
  }
}
