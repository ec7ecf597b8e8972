/**
 * `GameStateManager` of src/lib/gameStateManager.ts: the application mode,
 * the score, and a countdown driven by a one-second interval. The interval
 * itself is not modelled; its callback body is the explicit `Tick` step,
 * which does something only while the interval is live.
 */
module GameState {

  datatype Mode = Welcome | Learning | Game

  /** The value `resetTimer` (and the constructor) puts in `timer`. */
  const TimerStart: int := 20

  /**
   * The countdown part of the state: the `timer` value, whether an interval
   * is live (`running`), and whether `timerRef` holds a handle (is not `null`).
   */
  datatype Countdown = Countdown(timer: int, running: bool, timerRef: bool)

  /**
   * The interval callback: at `timer <= 1` it clears the interval and sets
   * `timerRef` to `null`, leaving `timer` as it is; otherwise it counts down
   * by one. Without a live interval nothing runs.
   */
  function TickStep(c: Countdown): (c': Countdown)
    ensures !c.running ==> c' == c
    ensures c.running && c.timer > 1 ==> c' == c.(timer := c.timer - 1)
    ensures c.running && c.timer <= 1 ==> c' == Countdown(c.timer, false, false)
    ensures c'.timer == c.timer || (c.running && c'.timer == c.timer - 1)
    ensures c.timer >= 1 ==> c'.timer >= 1
    ensures c'.running <==> c.running && c.timer > 1
    ensures c'.running ==> c'.timerRef == c.timerRef
    ensures c.running && !c'.running ==> !c'.timerRef
  {
    if !c.running then c
    else if c.timer <= 1 then Countdown(c.timer, false, false)
    else c.(timer := c.timer - 1)
  }

  /** The countdown after `n` callback runs. */
  function Ticks(c: Countdown, n: nat): Countdown {
    if n == 0 then c else TickStep(Ticks(c, n - 1))
  }

  /**
   * From a live countdown at `t >= 1`, `n` ticks leave `t - n` while
   * `n < t`; from the `t`-th tick on the interval is stopped, `timerRef` is
   * `null` and `timer` stays at 1.
   */
  lemma {:induction false} TicksFrom(c: Countdown, n: nat)
    requires c.running && c.timer >= 1
    ensures Ticks(c, n) == if n < c.timer then c.(timer := c.timer - n)
                           else Countdown(1, false, false)
  {
    if n > 0 {
      TicksFrom(c, n - 1);
    }
  }

  /** Ticks never take the timer below 1, and leave a stopped countdown as it is. */
  lemma {:induction false} TicksNeverBelowOne(c: Countdown, n: nat)
    requires c.timer >= 1
    ensures Ticks(c, n).timer >= 1
    ensures !c.running ==> Ticks(c, n) == c
  {
    if c.running {
      TicksFrom(c, n);
    } else if n > 0 {
      TicksNeverBelowOne(c, n - 1);
    }
  }

  /**
   * After `resetTimer`, 19 ticks bring the timer to 1 with the interval
   * still live; the 20th tick stops it and nulls `timerRef`, and the timer
   * stays at 1.
   */
  lemma CountdownAfterReset()
    ensures Ticks(Countdown(TimerStart, true, true), 19) == Countdown(1, true, true)
    ensures Ticks(Countdown(TimerStart, true, true), 20) == Countdown(1, false, false)
  {
    TicksFrom(Countdown(TimerStart, true, true), 19);
    TicksFrom(Countdown(TimerStart, true, true), 20);
  }

  class GameStateManager {
    var mode: Mode
    var score: int
    var timer: int
    /** `timerRef !== null`. */
    var timerRef: bool
    /** An interval created by `resetTimer` is live and calls back. */
    var running: bool

    /** A live interval is always the one `timerRef` holds. */
    ghost predicate Valid()
      reads this
    {
      running ==> timerRef
    }

    ghost function Clock(): Countdown
      reads this
    {
      Countdown(timer, running, timerRef)
    }

    constructor ()
      ensures Valid()
      ensures mode == Welcome && score == 0 && timer == TimerStart
      ensures !timerRef && !running
    {
      mode := Welcome;
      score := 0;
      timer := TimerStart;
      timerRef := false;
      running := false;
    }

    /** Changes the mode and nothing else. */
    method SetMode(newMode: Mode)
      requires Valid()
      modifies this
      ensures Valid()
      ensures mode == newMode && score == old(score) && Clock() == old(Clock())
    {
      mode := newMode;
    }

    /** Raises the score by exactly one; mode and countdown stay. */
    method IncrementScore()
      requires Valid()
      modifies this
      ensures Valid()
      ensures score == old(score) + 1 && mode == old(mode) && Clock() == old(Clock())
    {
      score := score + 1;
    }

    /**
     * Clears any interval `timerRef` holds, puts the timer back to 20 and
     * starts a new interval, which `timerRef` then holds.
     */
    method ResetTimer()
      requires Valid()
      modifies this
      ensures Valid()
      ensures Clock() == Countdown(TimerStart, true, true)
      ensures mode == old(mode) && score == old(score)
    {
      if timerRef {
        running := false;
      }
      timer := TimerStart;
      timerRef := true;
      running := true;
    }

    /** One run of the interval callback, when an interval is live. */
    method Tick()
      requires Valid()
      modifies this
      ensures Valid()
      ensures Clock() == TickStep(old(Clock()))
      ensures mode == old(mode) && score == old(score)
    {
      if running {
        if timer <= 1 {
          running := false;
          timerRef := false;
          return;
        }
        timer := timer - 1;
      }
    }

    /**
     * Clears the interval `timerRef` holds. The reference itself is not
     * set back to `null`, and timer, score and mode stay.
     */
    method StopTimer()
      requires Valid()
      modifies this
      ensures Valid()
      ensures !running
      ensures timer == old(timer) && timerRef == old(timerRef)
      ensures mode == old(mode) && score == old(score)
    {
      if timerRef {
        running := false;
      }
    }

    method GetMode() returns (m: Mode)
      ensures m == mode
    {
      m := mode;
    }

    method GetScore() returns (s: int)
      ensures s == score
    {
      s := score;
    }

    method GetTimer() returns (t: int)
      ensures t == timer
    {
      t := timer;
    }
  }
}
