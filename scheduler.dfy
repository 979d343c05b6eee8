/**
 * The drift-corrected frame scheduler (animation.js).
 *
 * A scheduler is driven by the host's per-frame callback. On each frame it
 * reads the clock; once more than one interval has passed since its
 * reference time it runs its behaviour once and moves the reference time
 * forward by a whole number of intervals. The clock reading is a parameter
 * and the behaviour is left to the caller: every tick reports whether the
 * behaviour was due.
 */
module Scheduler {

  /** Interval, in milliseconds, used when no duration is given. */
  const DefaultInterval := 10

  /** The part of a scheduler's state that a tick reads and writes. */
  datatype Clock = Clock(thenTime: int, stop: bool)

  /** What one run of `animate` leaves behind: the new clock and whether the behaviour ran. */
  datatype Tick = Tick(clock: Clock, fired: bool)

  /**
   * The reference time after a firing tick: `now` minus the part of the
   * elapsed time that does not make up a whole interval. It never passes
   * `now`, is less than one interval behind it, and lies a positive whole
   * number of intervals after the old reference time.
   */
  function Realign(thenTime: int, now: int, interval: int): (t: int)
    requires interval > 0 && now - thenTime > interval
    ensures 0 <= now - t < interval
    ensures t - thenTime >= interval && (t - thenTime) % interval == 0
  {
    // the elapsed time is positive here, so JavaScript's truncating `%`
    // and Dafny's Euclidean `%` agree
    var elapsed := now - thenTime;
    var whole := elapsed / interval;
    assert whole >= 1;
    assert elapsed - elapsed % interval == interval * whole;
    MultipleMod(whole, interval);
    now - elapsed % interval
  }

  /** A whole number of intervals leaves no remainder. */
  lemma MultipleMod(k: int, n: int)
    requires n > 0
    ensures (n * k) % n == 0
  {
    var a := n * k;
    var m := k - a / n;
    assert n * m == a % n by {
      assert a == n * (a / n) + a % n;
      assert n * m == n * k - n * (a / n);
    }
  }

  /**
   * One run of `animate` against the clock reading `now`: a stopped
   * scheduler does nothing; a running one fires exactly when strictly more
   * than `interval` has elapsed, and only then moves its reference time.
   */
  function AnimateStep(c: Clock, interval: int, now: int): (r: Tick)
    requires interval > 0
    ensures r.clock.stop == c.stop
    ensures r.fired <==> !c.stop && now - c.thenTime > interval
    ensures !r.fired ==> r.clock == c
    ensures r.fired ==> 0 <= now - r.clock.thenTime < interval
    ensures r.fired ==> r.clock.thenTime - c.thenTime >= interval && (r.clock.thenTime - c.thenTime) % interval == 0
  {
    if c.stop || now - c.thenTime <= interval then Tick(c, false)
    else Tick(Clock(Realign(c.thenTime, now, interval), c.stop), true)
  }

  /**
   * `toggleAnimation`: a running scheduler is stopped; a stopped one is
   * restarted and runs `animate` at once, which may fire.
   */
  function ToggleStep(c: Clock, interval: int, now: int): (r: Tick)
    requires interval > 0
    ensures r.clock.stop == !c.stop
    ensures r.fired ==> c.stop
    ensures !c.stop ==> r.clock.thenTime == c.thenTime
    ensures c.stop ==> (r.fired <==> now - c.thenTime > interval)
    ensures c.stop ==> r.clock == AnimateStep(c.(stop := false), interval, now).clock
  {
    if c.stop then AnimateStep(c.(stop := false), interval, now)
    else Tick(c.(stop := true), false)
  }

  /** Two toggles in a row leave the on/off flag where it was. */
  lemma ToggleTwice(c: Clock, interval: int, now1: int, now2: int)
    requires interval > 0
    ensures ToggleStep(ToggleStep(c, interval, now1).clock, interval, now2).clock.stop == c.stop
  {
  }

  /**
   * Runs `animate` once per clock reading in `nows`, in order; returns the
   * final clock and how many times the behaviour fired.
   */
  function Run(c: Clock, interval: int, nows: seq<int>): (Clock, nat)
    requires interval > 0
    decreases |nows|
  {
    if nows == [] then (c, 0)
    else
      var t := AnimateStep(c, interval, nows[0]);
      var rest := Run(t.clock, interval, nows[1..]);
      (rest.0, rest.1 + if t.fired then 1 else 0)
  }

  /** The latest of `t` and every reading in `nows`. */
  function Latest(t: int, nows: seq<int>): (m: int)
    ensures m >= t
    ensures forall i :: 0 <= i < |nows| ==> nows[i] <= m
    ensures m == t || exists i :: 0 <= i < |nows| && nows[i] == m
    decreases |nows|
  {
    if nows == [] then t
    else
      var m := Latest(t, nows[1..]);
      assert forall i :: 1 <= i < |nows| ==> nows[i] == nows[1..][i - 1];
      if nows[0] > m then nows[0] else m
  }

  /**
   * Over any run of ticks the behaviour fires at most once per interval of
   * clock time: every firing advances the reference time by at least one
   * interval, and the reference time never moves past the latest reading.
   */
  lemma {:induction false} FiringsPerInterval(c: Clock, interval: int, nows: seq<int>)
    requires interval > 0
    ensures Run(c, interval, nows).0.thenTime - c.thenTime >= Run(c, interval, nows).1 * interval
    ensures Run(c, interval, nows).0.thenTime <= Latest(c.thenTime, nows)
    ensures Run(c, interval, nows).1 * interval <= Latest(c.thenTime, nows) - c.thenTime
    decreases |nows|
  {
    if nows != [] {
      var t := AnimateStep(c, interval, nows[0]);
      FiringsPerInterval(t.clock, interval, nows[1..]);
      var rest := Run(t.clock, interval, nows[1..]);
      var k: nat := if t.fired then 1 else 0;
      assert Run(c, interval, nows) == (rest.0, rest.1 + k);
      assert (rest.1 + k) * interval == rest.1 * interval + k * interval;
      assert t.clock.thenTime - c.thenTime >= k * interval;
      LatestMono(c.thenTime, t.clock.thenTime, nows);
    }
  }

  /** Where the clock stands after a tick is bounded by the earlier reference or that tick's reading. */
  lemma LatestMono(thenTime: int, next: int, nows: seq<int>)
    requires nows != []
    requires next <= thenTime || next <= nows[0]
    ensures Latest(next, nows[1..]) <= Latest(thenTime, nows)
  {
  }

  /**
   * A scheduler (`Animation` in animation.js). `pending` counts the frame
   * callbacks registered with the host and not yet delivered: a running
   * scheduler always has one, so its loop keeps going.
   */
  class Animation {
    const fpsInterval: int
    const startTime: int
    var thenTime: int
    var stop: bool
    var now: int
    var elapsed: int
    ghost var pending: nat

    ghost predicate Valid()
      reads this
    {
      fpsInterval > 0 && (!stop ==> pending > 0)
    }

    function State(): Clock
      reads this
    {
      Clock(thenTime, stop)
    }

    /**
     * Creates a running scheduler whose reference time is the construction
     * time, then runs `animate` once, which registers the first frame.
     */
    constructor (reading: int, duration: int := DefaultInterval)
      requires duration > 0
      ensures Valid()
      ensures fpsInterval == duration && startTime == reading
      ensures State() == Clock(reading, false) && pending == 1
    {
      fpsInterval := duration;
      thenTime := reading;
      startTime := reading;
      stop := false;
      now, elapsed := reading, 0;
      pending := 0;
      new;
      var fired := Animate(reading);
      assert !fired;
    }

    /**
     * `animate`: unless stopped, register the next frame, read the clock and
     * fire if more than one interval has passed.
     */
    method Animate(reading: int) returns (fired: bool)
      requires fpsInterval > 0
      modifies this`now, this`elapsed, this`thenTime, this`pending
      ensures State() == AnimateStep(old(State()), fpsInterval, reading).clock
      ensures fired == AnimateStep(old(State()), fpsInterval, reading).fired
      ensures pending == old(pending) + (if stop then 0 else 1)
      ensures stop ==> now == old(now) && elapsed == old(elapsed)
      ensures !stop ==> now == reading && elapsed == reading - old(thenTime)
    {
      fired := false;
      if stop {
        return;
      }
      pending := pending + 1;
      now := reading;
      elapsed := now - thenTime;
      if elapsed > fpsInterval {
        thenTime := now - elapsed % fpsInterval;
        fired := true;
      }
    }

    /** The host delivers one registered frame, whose callback is `animate`. */
    method OnFrame(reading: int) returns (fired: bool)
      requires Valid() && pending > 0
      modifies this`now, this`elapsed, this`thenTime, this`pending
      ensures Valid()
      ensures State() == AnimateStep(old(State()), fpsInterval, reading).clock
      ensures fired == AnimateStep(old(State()), fpsInterval, reading).fired
      ensures pending == old(pending) - (if stop then 1 else 0)
    {
      pending := pending - 1;
      fired := Animate(reading);
    }

    /**
     * `toggleAnimation`. Restarting runs `animate` directly although the
     * frame registered before the stop may still be pending, so a stop and
     * restart within one frame leaves one more loop running.
     */
    method ToggleAnimation(reading: int) returns (fired: bool)
      requires Valid()
      modifies this`stop, this`now, this`elapsed, this`thenTime, this`pending
      ensures Valid()
      ensures State() == ToggleStep(old(State()), fpsInterval, reading).clock
      ensures fired == ToggleStep(old(State()), fpsInterval, reading).fired
      ensures pending == old(pending) + (if old(stop) then 1 else 0)
    {
      if stop {
        stop := false;
        fired := Animate(reading);
      } else {
        stop := true;
        fired := false;
      }
    }
  }
}
