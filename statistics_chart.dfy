/**
  The due-date chart: every tracker's target, reduced to its calendar day, is
  counted into one of five buckets relative to today, and the largest count
  (at least one) scales the bars.

  Calendar days are integers; the caller supplies `dayOf`, which maps an
  instant to the number of its local calendar day.
 */
module StatisticsChart {
  import TrackerCard

  type Tracker = TrackerCard.Tracker

  datatype Bucket = Overdue | Today | Tomorrow | Week | Later

  /** The five counters of the chart. */
  datatype Distribution = Distribution(overdue: nat, today: nat, tomorrow: nat, week: nat, later: nat)

  /** The bucket of a target day, decided in order: before today, today, tomorrow, within a week, later. */
  function BucketOf(day: int, today: int): (b: Bucket)
    ensures b == Overdue <==> day < today
    ensures b == Today <==> day == today
    ensures b == Tomorrow <==> day == today + 1
    ensures b == Week <==> today + 2 <= day <= today + 7
    ensures b == Later <==> today + 7 < day
  {
    if day < today then Overdue
    else if day == today then Today
    else if day == today + 1 then Tomorrow
    else if day <= today + 7 then Week
    else Later
  }

  function Count(d: Distribution, b: Bucket): nat {
    match b
    case Overdue => d.overdue
    case Today => d.today
    case Tomorrow => d.tomorrow
    case Week => d.week
    case Later => d.later
  }

  function Total(d: Distribution): nat {
    d.overdue + d.today + d.tomorrow + d.week + d.later
  }

  /** The bucket of each tracker, in list order. */
  function Buckets(ts: seq<Tracker>, dayOf: int -> int, today: int): (bs: seq<Bucket>)
    ensures |bs| == |ts|
    ensures forall i :: 0 <= i < |ts| ==> bs[i] == BucketOf(dayOf(ts[i].targetTimestamp), today)
  {
    seq(|ts|, i requires 0 <= i < |ts| => BucketOf(dayOf(ts[i].targetTimestamp), today))
  }

  /** The distribution with one more tracker in bucket `b`. */
  function Increment(d: Distribution, b: Bucket): (e: Distribution)
    ensures forall c :: Count(e, c) == Count(d, c) + (if c == b then 1 else 0)
    ensures Total(e) == Total(d) + 1
  {
    match b
    case Overdue => d.(overdue := d.overdue + 1)
    case Today => d.(today := d.today + 1)
    case Tomorrow => d.(tomorrow := d.tomorrow + 1)
    case Week => d.(week := d.week + 1)
    case Later => d.(later := d.later + 1)
  }

  lemma BucketsExtend(ts: seq<Tracker>, dayOf: int -> int, today: int, i: nat)
    requires i < |ts|
    ensures Buckets(ts[..i + 1], dayOf, today)
         == Buckets(ts[..i], dayOf, today) + [BucketOf(dayOf(ts[i].targetTimestamp), today)]
  {
  }

  /** The counters after counting the buckets `bs` one by one from five zeros. */
  function Tally(bs: seq<Bucket>): Distribution {
    if bs == [] then Distribution(0, 0, 0, 0, 0)
    else Increment(Tally(bs[..|bs| - 1]), bs[|bs| - 1])
  }

  /** Counting one more tracker increments the counter of its bucket. */
  lemma TallyStep(ts: seq<Tracker>, dayOf: int -> int, today: int, i: nat)
    requires i < |ts|
    ensures Tally(Buckets(ts[..i + 1], dayOf, today))
         == Increment(Tally(Buckets(ts[..i], dayOf, today)), BucketOf(dayOf(ts[i].targetTimestamp), today))
  {
    BucketsExtend(ts, dayOf, today, i);
    var bs := Buckets(ts[..i + 1], dayOf, today);
    assert bs[..|bs| - 1] == Buckets(ts[..i], dayOf, today);
  }

  lemma MultisetOfSnoc(bs: seq<Bucket>)
    requires bs != []
    ensures multiset(bs) == multiset(bs[..|bs| - 1]) + multiset{bs[|bs| - 1]}
  {
    assert bs == bs[..|bs| - 1] + [bs[|bs| - 1]];
  }

  /** Each counter holds the number of occurrences of its bucket. */
  lemma {:induction false} TallyCount(bs: seq<Bucket>, b: Bucket)
    ensures Count(Tally(bs), b) == multiset(bs)[b]
  {
    if bs != [] {
      var init, last := bs[..|bs| - 1], bs[|bs| - 1];
      MultisetOfSnoc(bs);
      TallyCount(init, b);
      assert Tally(bs) == Increment(Tally(init), last);
    }
  }

  /** The counters sum to the number of buckets counted. */
  lemma {:induction false} TallyTotal(bs: seq<Bucket>)
    ensures Total(Tally(bs)) == |bs|
  {
    if bs != [] {
      TallyTotal(bs[..|bs| - 1]);
    }
  }

  /** The counters of a tally are the occurrences of each bucket, and they sum to the count. */
  lemma TallyCounts(bs: seq<Bucket>)
    ensures forall b :: Count(Tally(bs), b) == multiset(bs)[b]
    ensures Total(Tally(bs)) == |bs|
  {
    forall b ensures Count(Tally(bs), b) == multiset(bs)[b] {
      TallyCount(bs, b);
    }
    TallyTotal(bs);
  }

  function Max(a: nat, b: nat): nat {
    if a >= b then a else b
  }

  /**
    `Math.max(...counts, 1)`: at least one, at least every counter, and equal
    to one of the counters unless it is the floor of one.
   */
  function MaxCount(d: Distribution): (m: nat)
    ensures m >= 1
    ensures forall b :: Count(d, b) <= m
    ensures m == 1 || exists b :: Count(d, b) == m
  {
    var m := Max(Max(Max(Max(Max(d.overdue, d.today), d.tomorrow), d.week), d.later), 1);
    assert Count(d, Overdue) <= m && Count(d, Today) <= m && Count(d, Tomorrow) <= m;
    assert Count(d, Week) <= m && Count(d, Later) <= m;
    assert m == 1 || m == Count(d, Overdue) || m == Count(d, Today) || m == Count(d, Tomorrow)
        || m == Count(d, Week) || m == Count(d, Later);
    m
  }

  /** When some counter is positive, the scale is exactly the largest counter. */
  lemma MaxIsLargestCounter(d: Distribution, b: Bucket)
    requires Count(d, b) >= 1
    requires forall c :: Count(d, c) <= Count(d, b)
    ensures MaxCount(d) == Count(d, b)
  {
    if MaxCount(d) != 1 {
      var c :| Count(d, c) == MaxCount(d);
    }
  }

  /**
    The height of a bar, in percent of the chart: its counter over the scale.
    It never overflows the chart, and the largest positive counter fills it.
   */
  function BarHeight(d: Distribution, b: Bucket): (h: real)
    ensures 0.0 <= h <= 100.0
    ensures h == 0.0 <==> Count(d, b) == 0
    ensures Count(d, b) >= 1 && (forall c :: Count(d, c) <= Count(d, b)) ==> h == 100.0
  {
    var m := MaxCount(d);
    assert Count(d, b) >= 1 && (forall c :: Count(d, c) <= Count(d, b)) ==> m == Count(d, b) by {
      if Count(d, b) >= 1 && (forall c :: Count(d, c) <= Count(d, b)) {
        MaxIsLargestCounter(d, b);
      }
    }
    ShareBounds(Count(d, b), m);
    (Count(d, b) as real / m as real) * 100.0
  }

  /** A share of a positive whole, in percent. */
  lemma ShareBounds(x: nat, m: nat)
    requires 1 <= m && x <= m
    ensures 0.0 <= (x as real / m as real) * 100.0 <= 100.0
    ensures (x as real / m as real) * 100.0 == 0.0 <==> x == 0
    ensures x == m ==> (x as real / m as real) * 100.0 == 100.0
  {
    var q := x as real / m as real;
    assert q * m as real == x as real;
  }

  /**
    The chart's statistics: starting from five zero counters, each tracker
    increments the counter of its bucket; then the scale.
   */
  method ComputeStats(trackers: seq<Tracker>, dayOf: int -> int, today: int) returns (distribution: Distribution, max: nat)
    ensures forall b :: Count(distribution, b) == multiset(Buckets(trackers, dayOf, today))[b]
    ensures Total(distribution) == |trackers|
    ensures max == MaxCount(distribution)
  {
    distribution := Distribution(0, 0, 0, 0, 0);
    var tomorrow, nextWeek := today + 1, today + 7;
    var i := 0;
    while i < |trackers|
      invariant 0 <= i <= |trackers|
      invariant distribution == Tally(Buckets(trackers[..i], dayOf, today))
    {
      ghost var before := distribution;
      var checkDate := dayOf(trackers[i].targetTimestamp);
      TallyStep(trackers, dayOf, today, i);
      if checkDate < today {
        distribution := distribution.(overdue := distribution.overdue + 1);
      } else if checkDate == today {
        distribution := distribution.(today := distribution.today + 1);
      } else if checkDate == tomorrow {
        distribution := distribution.(tomorrow := distribution.tomorrow + 1);
      } else if checkDate <= nextWeek {
        distribution := distribution.(week := distribution.week + 1);
      } else {
        distribution := distribution.(later := distribution.later + 1);
      }
      assert distribution == Increment(before, BucketOf(checkDate, today));
      i := i + 1;
    }
    assert trackers[..i] == trackers;
    TallyCounts(Buckets(trackers, dayOf, today));
    max := MaxCount(distribution);
  }
}
