/** The Pomodoro countdown: the rule one interval firing applies to the
    `minutes`, `seconds` and `isActive` state of the application shell. */
module Countdown {

  datatype Clock = Clock(minutes: nat, seconds: nat, active: bool)

  /** Whole seconds left on the clock. */
  function Remaining(c: Clock): nat {
    c.minutes * 60 + c.seconds
  }

  /** The state at which the countdown halts: no time left and not running. */
  const Finished := Clock(0, 0, false)

  /** One one-second period of the timer effect. An interval is armed only while
      the timer is active, so an inactive clock is left as it is; an active one
      loses one second, borrowing a minute when the seconds are used up, and
      stops once it shows 0:00. */
  function Tick(c: Clock): (r: Clock)
    ensures !c.active ==> r == c
    ensures c.active && Remaining(c) > 0 ==> r.active && Remaining(r) == Remaining(c) - 1
    ensures c.active && Remaining(c) == 0 ==> r == Finished
    ensures c.seconds < 60 ==> r.seconds < 60
    ensures r.minutes <= c.minutes
  {
    if !c.active then c
    else if c.seconds > 0 then c.(seconds := c.seconds - 1)
    else if c.minutes > 0 then Clock(c.minutes - 1, 59, true)
    else c.(active := false)
  }

  /** The clock after `n` periods. */
  function Run(c: Clock, n: nat): Clock
    decreases n
  {
    if n == 0 then c else Run(Tick(c), n - 1)
  }

  /** While time remains, every period takes off exactly one second and the timer keeps running. */
  lemma {:induction false} RunWhileTimeRemains(c: Clock, k: nat)
    requires c.active && k <= Remaining(c)
    ensures Run(c, k).active
    ensures Remaining(Run(c, k)) == Remaining(c) - k
    decreases k
  {
    if k > 0 {
      RunWhileTimeRemains(Tick(c), k - 1);
    }
  }

  /** Over any number of periods, running or not, the time left never grows and
      neither do the minutes. */
  lemma {:induction false} RunNeverAddsTime(c: Clock, n: nat)
    ensures Remaining(Run(c, n)) <= Remaining(c)
    ensures Run(c, n).minutes <= c.minutes
    decreases n
  {
    if n > 0 {
      RunNeverAddsTime(Tick(c), n - 1);
    }
  }

  /** A stopped clock is never changed by the effect, however many periods pass. */
  lemma {:induction false} InactiveIsFixed(c: Clock, n: nat)
    requires !c.active
    ensures Run(c, n) == c
    decreases n
  {
    if n > 0 {
      InactiveIsFixed(c, n - 1);
    }
  }

  /** Seconds that start in [0, 59] stay in [0, 59]. */
  lemma {:induction false} RunKeepsSecondsInRange(c: Clock, n: nat)
    requires c.seconds < 60
    ensures Run(c, n).seconds < 60
    decreases n
  {
    if n > 0 {
      RunKeepsSecondsInRange(Tick(c), n - 1);
    }
  }

  /** A running clock shows 0:00 after exactly as many periods as it had seconds
      left (minutes*60+seconds), and the next period stops it. */
  lemma CountdownFrom(c: Clock)
    requires c.active
    ensures Run(c, Remaining(c)) == Clock(0, 0, true)
    ensures Run(c, Remaining(c) + 1) == Finished
  {
    ReachesZero(c);
    StopsAfterZero(c);
  }

  /** A running clock is at 0:00, still running, after as many periods as it had seconds left. */
  lemma ReachesZero(c: Clock)
    requires c.active
    ensures Run(c, Remaining(c)) == Clock(0, 0, true)
  {
    RunWhileTimeRemains(c, Remaining(c));
  }

  /** The period after a running clock reaches 0:00 stops it. */
  lemma StopsAfterZero(c: Clock)
    requires c.active
    ensures Run(c, Remaining(c) + 1) == Finished
  {
    var zero := Run(c, Remaining(c));
    ReachesZero(c);
    assert Tick(zero) == Finished;
    RunOnce(zero);
    RunAfter(c, Remaining(c), 1);
  }

  /** One period is one tick. */
  lemma RunOnce(c: Clock)
    ensures Run(c, 1) == Tick(c)
  {
  }

  /** A running clock does not show 0:00 before that many periods have passed. */
  lemma NotZeroBefore(c: Clock, k: nat)
    requires c.active && k < Remaining(c)
    ensures Remaining(Run(c, k)) > 0 && Run(c, k).active
  {
    RunWhileTimeRemains(c, k);
  }

  /** Running `a` periods and then `b` more is running `a + b` periods. */
  lemma {:induction false} RunAfter(c: Clock, a: nat, b: nat)
    ensures Run(Run(c, a), b) == Run(c, a + b)
    decreases a
  {
    if a > 0 {
      RunAfter(Tick(c), a - 1, b);
    }
  }

  /** Any running clock halts: once more periods have passed than it had seconds
      left, it is at 0:00 and stopped, and stays there. */
  lemma HaltsAfterRemaining(c: Clock, n: nat)
    requires c.active && n > Remaining(c)
    ensures Run(c, n) == Finished
  {
    var stop, rest := Remaining(c) + 1, n - Remaining(c) - 1;
    StopsAfterZero(c);
    RunAfter(c, stop, rest);
    InactiveIsFixed(Finished, rest);
    assert Run(c, n) == Run(Run(c, stop), rest);
  }
}
