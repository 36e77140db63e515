/** The cadence governance shared by the two background render threads: after
    each iteration the thread sleeps for what is left of the target frame time. */
module FrameTiming {

  const Int32Modulus: int := 0x1_0000_0000

  /** A C# int. */
  type Int32 = x: int | -0x8000_0000 <= x < 0x8000_0000

  /** A C# long. */
  type Int64 = x: int | -0x8000_0000_0000_0000 <= x < 0x8000_0000_0000_0000

  /** The unchecked C# cast (int)x of a long: the value congruent to x modulo
      2^32 in the Int32 range. */
  function TruncateToInt32(x: int): (r: Int32)
    ensures (r - x) % Int32Modulus == 0
    ensures -0x8000_0000 <= x < 0x8000_0000 ==> r == x
  {
    (x + 0x8000_0000) % Int32Modulus - 0x8000_0000
  }

  /** The wait computed after an iteration that took elapsed milliseconds:
      target - elapsed, computed as a long and cast to int. */
  function WaitForNextFrameMilliseconds(target: Int32, elapsed: Int64): (w: Int32)
    ensures -0x8000_0000 <= target - elapsed < 0x8000_0000 ==> w == target - elapsed
  {
    TruncateToInt32(target - elapsed)
  }

  /** How long the thread sleeps: the wait when it is positive, otherwise no
      sleep at all (0). */
  function SleepMilliseconds(target: Int32, elapsed: Int64): (s: nat)
    ensures s < 0x8000_0000
    ensures s > 0 ==> s == WaitForNextFrameMilliseconds(target, elapsed)
    ensures -0x8000_0000 <= target - elapsed < 0x8000_0000 ==>
              s == (if elapsed < target then target - elapsed else 0)
  {
    var w := WaitForNextFrameMilliseconds(target, elapsed);
    if w > 0 then w else 0
  }
}
