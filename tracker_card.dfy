/**
  A tracker card: what it shows for a tracker at a given clock reading
  (completed, not started, or a progress percentage and a countdown), and the
  pause/resume transition that rewrites the stored tracker.

  Instants are integer milliseconds since the epoch. Progress is an exact
  `real`; the floating-point rounding of the division is not modelled.
 */
module TrackerCard {
  import opened Wrappers
  import Countdown

  const StatusAvailable: string := "Available"
  const StatusNotStarted: string := "Not Started"

  /**
    A stored tracker. A missing `paused` flag reads as false; `pausedAt` and
    `accumulatedTime` are the optional `paused_at` and `accumulated_time`.
   */
  datatype Tracker = Tracker(
    id: string,
    title: string,
    description: Option<string>,
    targetTimestamp: int,
    status: string,
    createdAt: int,
    paused: bool,
    pausedAt: Option<int>,
    accumulatedTime: Option<int>)

  /** What the card shows: the completed flag, the time-left text and the progress. */
  datatype CardView = CardView(isAvailable: bool, timeLeft: string, progress: real)

  /**
    The clock reading the card computes with: the pause instant while paused
    (the live clock if none was stored), the live clock otherwise.
   */
  function ReferenceInstant(t: Tracker, now: int): int {
    if t.paused && t.pausedAt.Some? then t.pausedAt.value else now
  }

  /** `Math.min(100, Math.max(0, x))`. */
  function Clamp(x: real): (r: real)
    ensures 0.0 <= r <= 100.0
    ensures 0.0 <= x <= 100.0 ==> r == x
    ensures x < 0.0 ==> r == 0.0
    ensures x > 100.0 ==> r == 100.0
  {
    if x > 100.0 then 100.0 else if x < 0.0 then 0.0 else x
  }

  /** `elapsed / total * 100` on exact reals. */
  function Ratio(elapsed: int, total: int): real
    requires total != 0
  {
    elapsed as real / total as real * 100.0
  }

  /**
    The progress percentage. With a zero total the division yields plus or
    minus infinity, which the clamp turns into 100 or 0; zero over zero (not a
    number) is never asked for by the card.
   */
  function Percent(elapsed: int, total: int): (p: real)
    requires total != 0 || elapsed != 0
    ensures 0.0 <= p <= 100.0
    ensures total != 0 && 0.0 <= Ratio(elapsed, total) <= 100.0 ==> p == Ratio(elapsed, total)
    ensures total != 0 && Ratio(elapsed, total) > 100.0 ==> p == 100.0
    ensures total != 0 && Ratio(elapsed, total) < 0.0 ==> p == 0.0
    ensures total > 0 && elapsed <= 0 ==> p == 0.0
    ensures total > 0 && elapsed >= total ==> p == 100.0
    ensures total == 0 ==> p == (if elapsed > 0 then 100.0 else 0.0)
  {
    if total == 0 then (if elapsed > 0 then 100.0 else 0.0)
    else
      assert total > 0 && elapsed >= total ==> elapsed as real / total as real >= 1.0;
      Clamp(Ratio(elapsed, total))
  }

  /** The card's display computation, run on every tick with the current clock reading. */
  function Display(t: Tracker, now: int): (v: CardView)
    ensures v.isAvailable <==> t.status == StatusAvailable || t.targetTimestamp <= ReferenceInstant(t, now)
    ensures v.isAvailable ==> v.timeLeft == "Completed" && v.progress == 100.0
    ensures !v.isAvailable && t.status == StatusNotStarted ==> v.timeLeft == "Not Started" && v.progress == 0.0
    ensures 0.0 <= v.progress <= 100.0
  {
    CardAt(t.status, t.createdAt, t.targetTimestamp, ReferenceInstant(t, now))
  }

  /** The card as computed from the status, the two instants and the reference instant `r`. */
  function CardAt(status: string, createdAt: int, targetTimestamp: int, r: int): CardView {
    var totalDuration := targetTimestamp - createdAt;
    var elapsed := r - createdAt;
    var remaining := targetTimestamp - r;
    if status == StatusAvailable || remaining <= 0 then
      CardView(true, "Completed", 100.0)
    else if status == StatusNotStarted then
      CardView(false, "Not Started", 0.0)
    else
      CardView(false, Countdown.Text(Countdown.Split(remaining)), Percent(elapsed, totalDuration))
  }

  /** The tracker is counting down: neither completed nor marked not started. */
  predicate Counting(t: Tracker, now: int) {
    t.status != StatusAvailable && t.status != StatusNotStarted && ReferenceInstant(t, now) < t.targetTimestamp
  }

  /** The counting-down branch of the display computation. */
  lemma DisplayWhileCounting(t: Tracker, now: int)
    requires Counting(t, now)
    ensures var r := ReferenceInstant(t, now);
            Display(t, now) == CardView(false, Countdown.Text(Countdown.Split(t.targetTimestamp - r)),
                                        Percent(r - t.createdAt, t.targetTimestamp - t.createdAt))
  {
  }

  /** The progress shown while counting down. */
  lemma ProgressWhileCounting(t: Tracker, now: int)
    requires Counting(t, now)
    ensures Display(t, now).progress == Percent(ReferenceInstant(t, now) - t.createdAt, t.targetTimestamp - t.createdAt)
  {
    DisplayWhileCounting(t, now);
  }

  /**
    While counting down, the time-left text reads back as the remaining time
    truncated to the second, with hours, minutes and seconds in clock range,
    and the progress is the elapsed share of the total duration, clamped.
   */
  lemma CountingDisplay(t: Tracker, now: int)
    requires Counting(t, now)
    ensures var remaining := t.targetTimestamp - ReferenceInstant(t, now);
            var f := Countdown.Split(remaining);
            Countdown.ParseText(Display(t, now).timeLeft) == Some(f)
            && Countdown.WellFormed(f)
            && Countdown.Millis(f) <= remaining < Countdown.Millis(f) + Countdown.MsPerSecond
    ensures Display(t, now).progress == Percent(ReferenceInstant(t, now) - t.createdAt, t.targetTimestamp - t.createdAt)
  {
    DisplayWhileCounting(t, now);
    Countdown.TextRoundTrip(Countdown.Split(t.targetTimestamp - ReferenceInstant(t, now)));
  }

  /** The percentage label beside the countdown: the progress rounded down to a whole number. */
  function ProgressLabel(v: CardView): (n: int)
    requires 0.0 <= v.progress <= 100.0
    ensures 0 <= n <= 100
    ensures n as real <= v.progress < n as real + 1.0
  {
    v.progress.Floor
  }

  /** A paused tracker with a stored pause instant shows the same thing at every clock reading. */
  lemma FrozenWhilePaused(t: Tracker, now1: int, now2: int)
    requires t.paused && t.pausedAt.Some?
    ensures Display(t, now1) == Display(t, now2)
  {
    assert ReferenceInstant(t, now1) == ReferenceInstant(t, now2);
  }

  /** Cross-multiplication for positive denominators. */
  lemma DivLeDiv(a: real, b: real, c: real, d: real)
    requires b > 0.0 && d > 0.0 && a * d <= c * b
    ensures a / b <= c / d
  {
    var x, y := a / b, c / d;
    assert x * b == a;
    assert y * d == c;
    assert x * (b * d) <= y * (b * d);
  }

  /** A quotient of two negatives whose numerator is further from zero exceeds one. */
  lemma DivAboveOne(e: real, t: real)
    requires t < 0.0 && e < t
    ensures e / t > 1.0
  {
    var q := e / t;
    assert q * t == e;
    assert (q - 1.0) * t < 0.0;
  }

  lemma RatioMonotone(e1: int, e2: int, total: int)
    requires total > 0 && e1 <= e2
    ensures Ratio(e1, total) <= Ratio(e2, total)
  {
    assert (e2 as real - e1 as real) * total as real >= 0.0;
    DivLeDiv(e1 as real, total as real, e2 as real, total as real);
  }

  /**
    The progress of a running tracker that is counting down never decreases
    as the clock moves forward.
   */
  lemma ProgressMonotone(t: Tracker, now1: int, now2: int)
    requires !t.paused
    requires now1 <= now2 && Counting(t, now2)
    ensures Counting(t, now1)
    ensures Display(t, now1).progress <= Display(t, now2).progress
  {
    var total := t.targetTimestamp - t.createdAt;
    var e1, e2 := now1 - t.createdAt, now2 - t.createdAt;
    assert ReferenceInstant(t, now1) == now1 && ReferenceInstant(t, now2) == now2;
    ProgressWhileCounting(t, now1);
    ProgressWhileCounting(t, now2);
    if total > 0 {
      RatioMonotone(e1, e2, total);
    } else if total < 0 {
      // the target lies before creation: every reading before the target gives a ratio above one
      DivAboveOne(e1 as real, total as real);
      DivAboveOne(e2 as real, total as real);
    }
  }

  /** What pausing writes: the flag, the pause instant and the accumulated time. */
  function Paused(t: Tracker, now: int): (u: Tracker)
    ensures u.paused && u.pausedAt == Some(now)
    ensures u.accumulatedTime.Some?
    ensures t.accumulatedTime.Some? && t.accumulatedTime.value != 0 ==> u.accumulatedTime == t.accumulatedTime
    ensures t.accumulatedTime == Some(0) || t.accumulatedTime.None? ==> u.accumulatedTime == Some(now - t.createdAt)
    ensures u.targetTimestamp == t.targetTimestamp && u.createdAt == t.createdAt && u.status == t.status
    ensures u.id == t.id && u.title == t.title && u.description == t.description
  {
    var elapsed := now - t.createdAt;
    // `accumulated_time || elapsed`: a stored zero counts as absent
    var accumulated := if t.accumulatedTime.Some? && t.accumulatedTime.value != 0 then t.accumulatedTime.value else elapsed;
    t.(paused := true, pausedAt := Some(now), accumulatedTime := Some(accumulated))
  }

  /** Pausing a running tracker freezes its card at what it showed at the pause, whatever the clock says later. */
  lemma PauseFreezesDisplay(t: Tracker, now: int, later: int)
    requires !t.paused
    ensures Display(Paused(t, now), later) == Display(t, now)
  {
    var u := Paused(t, now);
    assert ReferenceInstant(u, later) == now && ReferenceInstant(t, now) == now;
  }

  /** How long the tracker has been paused at `now`; zero when no pause instant is stored. */
  function PauseDuration(t: Tracker, now: int): int {
    now - (if t.pausedAt.Some? then t.pausedAt.value else now)
  }

  /** What resuming writes: the flag, the cleared pause instant and the target moved by the pause. */
  function Resumed(t: Tracker, now: int): (u: Tracker)
    ensures !u.paused && u.pausedAt.None?
    ensures u.targetTimestamp - now == t.targetTimestamp - (if t.pausedAt.Some? then t.pausedAt.value else now)
    ensures t.pausedAt.None? ==> u.targetTimestamp == t.targetTimestamp
    ensures u.accumulatedTime == t.accumulatedTime && u.createdAt == t.createdAt && u.status == t.status
    ensures u.id == t.id && u.title == t.title && u.description == t.description
  {
    t.(paused := false, targetTimestamp := t.targetTimestamp + PauseDuration(t, now), pausedAt := None)
  }

  /**
    Resuming a paused tracker keeps the countdown: just after the resume the
    card is completed exactly when it was, and shows the same time left.
   */
  lemma ResumeKeepsCountdown(t: Tracker, now: int)
    requires t.paused
    ensures Display(Resumed(t, now), now).isAvailable == Display(t, now).isAvailable
    ensures Display(Resumed(t, now), now).timeLeft == Display(t, now).timeLeft
  {
    var u := Resumed(t, now);
    var r := ReferenceInstant(t, now);
    assert ReferenceInstant(u, now) == now;
    SameRemainingSameCountdown(t.status, u.createdAt, u.targetTimestamp, now, t.createdAt, t.targetTimestamp, r);
  }

  /** The completion flag and the time-left text depend only on the status and the remaining time. */
  lemma SameRemainingSameCountdown(status: string, c1: int, target1: int, r1: int, c2: int, target2: int, r2: int)
    requires target1 - r1 == target2 - r2
    ensures CardAt(status, c1, target1, r1).isAvailable == CardAt(status, c2, target2, r2).isAvailable
    ensures CardAt(status, c1, target1, r1).timeLeft == CardAt(status, c2, target2, r2).timeLeft
  {
    var remaining := target1 - r1;
    if status != StatusAvailable && remaining > 0 && status != StatusNotStarted {
      assert CardAt(status, c1, target1, r1).timeLeft == Countdown.Text(Countdown.Split(remaining));
    }
  }

  /**
    Pausing at `p` and resuming at `r` moves the target by `r - p`, and the
    card just after the resume counts down from exactly what it showed when
    paused. Resuming at the pause instant changes nothing on the card.
   */
  lemma {:induction false} PauseResumeCycle(t: Tracker, p: int, r: int)
    requires !t.paused
    ensures Resumed(Paused(t, p), r).targetTimestamp == t.targetTimestamp + (r - p)
    ensures Resumed(Paused(t, p), r).targetTimestamp - r == t.targetTimestamp - p
    ensures Display(Resumed(Paused(t, p), r), r).isAvailable == Display(t, p).isAvailable
    ensures Display(Resumed(Paused(t, p), r), r).timeLeft == Display(t, p).timeLeft
    ensures r == p ==> Display(Resumed(Paused(t, p), r), r) == Display(t, p)
  {
    var u := Paused(t, p);
    PauseFreezesDisplay(t, p, r);
    ResumeKeepsCountdown(u, r);
  }

  /**
    When the tracker counts down with a positive total duration, resuming after
    a pause never moves the progress bar backwards: the progress just after the
    resume is at least the progress shown while paused.
   */
  lemma ResumeDoesNotRewindProgress(t: Tracker, p: int, r: int)
    requires !t.paused && p <= r && Counting(t, p)
    requires t.targetTimestamp > t.createdAt
    ensures Display(Resumed(Paused(t, p), r), r).progress >= Display(t, p).progress
  {
    var u := Resumed(Paused(t, p), r);
    var a, b, d := p - t.createdAt, t.targetTimestamp - t.createdAt, r - p;
    assert u.targetTimestamp == t.targetTimestamp + d && u.createdAt == t.createdAt;
    ProgressWhileCounting(t, p);
    ProgressWhileCounting(u, r);
    RatioShift(a, b, d);
  }

  /** Adding the same non-negative amount to the elapsed time and to a larger total raises the ratio. */
  lemma RatioShift(a: int, b: int, d: int)
    requires 0 < b && a < b && 0 <= d
    ensures Ratio(a, b) <= Ratio(a + d, b + d)
  {
    assert (b as real - a as real) * d as real >= 0.0;
    assert a as real * (b + d) as real <= (a + d) as real * b as real;
    DivLeDiv(a as real, b as real, (a + d) as real, (b + d) as real);
  }

  /**
    The worked example: created at `t0` with a target ten seconds later, the
    card shows half progress and five seconds left at `t0 + 5s`; paused then
    and resumed at `t0 + 8s`, the target is `t0 + 13s` and five seconds are
    still left.
   */
  lemma WorkedExample(t0: int)
    ensures var t := Tracker("id", "Project Deadline", None, t0 + 10000, "Progress", t0, false, None, None);
            Display(t, t0 + 5000).progress == 50.0
            && Display(t, t0 + 5000).timeLeft == "00:00:05"
            && Resumed(Paused(t, t0 + 5000), t0 + 8000).targetTimestamp == t0 + 13000
            && Display(Resumed(Paused(t, t0 + 5000), t0 + 8000), t0 + 8000).timeLeft == "00:00:05"
  {
    var t := Tracker("id", "Project Deadline", None, t0 + 10000, "Progress", t0, false, None, None);
    assert Countdown.Split(5000) == Countdown.Fields(0, 0, 0, 5);
    assert Countdown.Pad2(0) == "00" && Countdown.Pad2(5) == "05";
    PauseResumeCycle(t, t0 + 5000, t0 + 8000);
  }

  /**
    The stored tracker document as the card updates it. The fields that the
    pause toggle rewrites are mutable; the rest are fixed for this purpose.
   */
  class TrackerDoc {
    const id: string
    const title: string
    const description: Option<string>
    const status: string
    const createdAt: int
    var targetTimestamp: int
    var paused: bool
    var pausedAt: Option<int>
    var accumulatedTime: Option<int>

    /** The record as the card reads it. */
    function Snapshot(): Tracker
      reads this
    {
      Tracker(id, title, description, targetTimestamp, status, createdAt, paused, pausedAt, accumulatedTime)
    }

    constructor (t: Tracker)
      ensures Snapshot() == t
    {
      id, title, description, status, createdAt := t.id, t.title, t.description, t.status, t.createdAt;
      targetTimestamp, paused, pausedAt, accumulatedTime := t.targetTimestamp, t.paused, t.pausedAt, t.accumulatedTime;
    }

    method Pause(now: int)
      modifies this
      ensures Snapshot() == Paused(old(Snapshot()), now)
    {
      var elapsed := now - createdAt;
      paused := true;
      pausedAt := Some(now);
      if !(accumulatedTime.Some? && accumulatedTime.value != 0) {
        accumulatedTime := Some(elapsed);
      }
    }

    method Resume(now: int)
      modifies this
      ensures Snapshot() == Resumed(old(Snapshot()), now)
    {
      var start := if pausedAt.Some? then pausedAt.value else now;
      var pauseDuration := now - start;
      paused := false;
      targetTimestamp := targetTimestamp + pauseDuration;
      pausedAt := None;
    }

    /** The pause button: pauses a running tracker, resumes a paused one. */
    method TogglePause(now: int)
      modifies this
      ensures !old(paused) ==> Snapshot() == Paused(old(Snapshot()), now)
      ensures old(paused) ==> Snapshot() == Resumed(old(Snapshot()), now)
      ensures paused == !old(paused)
    {
      if !paused {
        Pause(now);
      } else {
        Resume(now);
      }
    }
  }
}
