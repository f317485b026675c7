/** Display timing of the slideshow: the default intervals and the two-tier speed steps. */
module Speed {

  /** Milliseconds between photo changes at start-up. */
  const DefaultSleepTime := 6000
  /** Milliseconds the usage image stays up before the timer may advance again. */
  const DefaultUsageTime := 3000
  /** The base step of the sleep interval. */
  const SleepTimeInc := 1500

  /** The intervals the speed keys can produce from the default: whole, positive
      multiples of the base step. */
  predicate OnGrid(s: int)
  {
    s >= SleepTimeInc && s % SleepTimeInc == 0
  }

  /** The "faster" key: a large step down above 20 base steps, one base step down above
      one base step, and no change at or below one base step. */
  function SpeedUp(s: int): (r: int)
    ensures s <= SleepTimeInc ==> r == s
    ensures s > SleepTimeInc ==> 0 < r < s
    ensures r % SleepTimeInc == s % SleepTimeInc
    ensures OnGrid(s) ==> OnGrid(r)
  {
    if s > SleepTimeInc * 20 then s - SleepTimeInc * 10
    else if s > SleepTimeInc then s - SleepTimeInc
    else s
  }

  /** The "slower" key: one base step up below 10 base steps, a large step up otherwise;
      there is no ceiling. */
  function SlowDown(s: int): (r: int)
    ensures r > s
    ensures r % SleepTimeInc == s % SleepTimeInc
    ensures OnGrid(s) ==> OnGrid(r)
  {
    if s < SleepTimeInc * 10 then s + SleepTimeInc else s + SleepTimeInc * 10
  }

  /** The interval after a run of speed keys, `true` for faster and `false` for slower. */
  function AfterSpeedKeys(s: int, faster: seq<bool>): (r: int)
    decreases |faster|
  {
    if faster == [] then s
    else AfterSpeedKeys(if faster[0] then SpeedUp(s) else SlowDown(s), faster[1..])
  }

  /** Any run of speed keys from an interval on the grid stays on the grid; in
      particular every interval reachable from the default is a positive multiple of
      the base step. */
  lemma {:induction false} SpeedKeysStayOnGrid(s: int, faster: seq<bool>)
    requires OnGrid(s)
    ensures OnGrid(AfterSpeedKeys(s, faster))
    decreases |faster|
  {
    if faster != [] {
      SpeedKeysStayOnGrid(if faster[0] then SpeedUp(s) else SlowDown(s), faster[1..]);
    }
  }

  /** Enough "faster" presses bring any interval on the grid down to the floor of one
      base step, and further presses leave it there. */
  lemma {:induction false} FasterReachesFloor(s: int, n: nat)
    requires OnGrid(s) && n >= s / SleepTimeInc
    ensures AfterSpeedKeys(s, seq(n, _ => true)) == SleepTimeInc
    decreases n
  {
    var keys := seq(n, _ => true);
    if n == 0 {
      assert false;
    } else {
      assert keys[1..] == seq(n - 1, _ => true);
      if s == SleepTimeInc {
        assert SpeedUp(s) == s;
        if n > 1 {
          FasterReachesFloor(s, n - 1);
        }
      } else {
        FasterReachesFloor(SpeedUp(s), n - 1);
      }
    }
  }

  /** The tier switches sit exactly at the thresholds: above 30000 ms a faster press
      drops 15000 ms, at 30000 ms and below it drops 1500 ms, and it never goes below
      1500 ms; a slower press adds 1500 ms below 15000 ms and 15000 ms from there on. */
  lemma TierThresholds()
    ensures SpeedUp(31500) == 16500 && SpeedUp(30000) == 28500
    ensures SpeedUp(3000) == 1500 && SpeedUp(1500) == 1500
    ensures SlowDown(13500) == 15000 && SlowDown(15000) == 30000
  {
  }

  /** A faster press undoes a slower press everywhere on the grid except at 15000 ms,
      where slower jumps to 30000 ms but faster comes back only to 28500 ms. */
  lemma SpeedUpAfterSlowDown(s: int)
    requires OnGrid(s)
    ensures SpeedUp(SlowDown(s)) == s <==> s != 15000
  {
  }
}
