/**
  The countdown shown on a tracker card: a positive number of milliseconds
  split into days, hours, minutes and seconds, and rendered as `[Dd ]HH:MM:SS`.
  `ParseText` reads such a text back; it is the partner that shows the text
  carries exactly the split fields.
 */
module Countdown {
  import opened Wrappers

  const MsPerSecond: nat := 1000
  const MsPerMinute: nat := 1000 * 60
  const MsPerHour: nat := 1000 * 60 * 60
  const MsPerDay: nat := 1000 * 60 * 60 * 24

  datatype Fields = Fields(days: nat, hours: nat, minutes: nat, seconds: nat)

  /** Every field below the days is within its clock range. */
  predicate WellFormed(f: Fields) {
    f.hours < 24 && f.minutes < 60 && f.seconds < 60
  }

  /** The whole milliseconds the fields stand for. */
  function Millis(f: Fields): nat {
    f.days * MsPerDay + f.hours * MsPerHour + f.minutes * MsPerMinute + f.seconds * MsPerSecond
  }

  lemma MulAtLeast(a: int, k: int)
    requires a >= 1 && k > 0
    ensures a * k >= k
  {
    assert a * k == (a - 1) * k + k;
  }

  /** `q` and `m` are the quotient and remainder of `x` by `k`. */
  lemma DivModUnique(x: int, k: int, q: int, m: int)
    requires k > 0 && 0 <= m < k && x == q * k + m
    ensures x / k == q && x % k == m
  {
    var q', m' := x / k, x % k;
    assert x == q' * k + m';
    assert (q - q') * k == m' - m;
    if q > q' {
      MulAtLeast(q - q', k);
    } else if q < q' {
      MulAtLeast(q' - q, k);
    }
  }

  /**
    The days, hours, minutes and seconds of a remaining time: each is the
    remainder of the time by the next larger unit, floor-divided by its own unit.
   */
  function Split(remaining: nat): (f: Fields)
    ensures WellFormed(f)
    ensures Millis(f) <= remaining < Millis(f) + MsPerSecond
  {
    var d := remaining / MsPerDay;
    var h := (remaining % MsPerDay) / MsPerHour;
    var m := (remaining % MsPerHour) / MsPerMinute;
    var s := (remaining % MsPerMinute) / MsPerSecond;
    var rd, rh := remaining % MsPerDay, remaining % MsPerHour;
    DivModUnique(remaining, MsPerHour, d * 24 + h, rd % MsPerHour);
    DivModUnique(remaining, MsPerMinute, d * 24 * 60 + h * 60 + m, rh % MsPerMinute);
    Fields(d, h, m, s)
  }

  /** The split is the only well-formed reading of a remaining time to the second. */
  lemma SplitUnique(remaining: nat, f: Fields)
    requires WellFormed(f)
    requires Millis(f) <= remaining < Millis(f) + MsPerSecond
    ensures f == Split(remaining)
  {
    var rest := remaining - Millis(f);
    DivModUnique(remaining, MsPerDay, f.days, f.hours * MsPerHour + f.minutes * MsPerMinute + f.seconds * MsPerSecond + rest);
    var rd := remaining % MsPerDay;
    DivModUnique(rd, MsPerHour, f.hours, f.minutes * MsPerMinute + f.seconds * MsPerSecond + rest);
    DivModUnique(remaining, MsPerHour, f.days * 24 + f.hours, f.minutes * MsPerMinute + f.seconds * MsPerSecond + rest);
    var rh := remaining % MsPerHour;
    DivModUnique(rh, MsPerMinute, f.minutes, f.seconds * MsPerSecond + rest);
    DivModUnique(remaining, MsPerMinute, f.days * 24 * 60 + f.hours * 60 + f.minutes, f.seconds * MsPerSecond + rest);
    var rm := remaining % MsPerMinute;
    DivModUnique(rm, MsPerSecond, f.seconds, rest);
  }

  predicate IsDigit(c: char) {
    '0' <= c <= '9'
  }

  predicate AllDigits(s: string) {
    forall i :: 0 <= i < |s| ==> IsDigit(s[i])
  }

  function DigitChar(n: nat): (c: char)
    requires n < 10
    ensures IsDigit(c)
  {
    ('0' as int + n) as char
  }

  function DigitValue(c: char): nat
    requires IsDigit(c)
  {
    c as int - '0' as int
  }

  /** The decimal numeral of a non-negative integer, as `Number.prototype.toString` writes it. */
  function DecimalString(n: nat): (s: string)
    ensures |s| >= 1 && AllDigits(s)
    ensures |s| == 1 <==> n < 10
    ensures s[0] == '0' ==> n == 0
  {
    if n < 10 then [DigitChar(n)] else DecimalString(n / 10) + [DigitChar(n % 10)]
  }

  /** The value of a string of decimal digits. */
  function DecimalValue(s: string): nat
    requires AllDigits(s)
  {
    if s == [] then 0 else DecimalValue(s[..|s| - 1]) * 10 + DigitValue(s[|s| - 1])
  }

  lemma {:induction false} DecimalRoundTrip(n: nat)
    ensures DecimalValue(DecimalString(n)) == n
  {
    var s := DecimalString(n);
    if n >= 10 {
      DecimalRoundTrip(n / 10);
      assert s[..|s| - 1] == DecimalString(n / 10);
    } else {
      assert s[..|s| - 1] == [];
    }
  }

  /** `n.toString().padStart(2, '0')`: a number below 100 as exactly two digits. */
  function Pad2(n: nat): (s: string)
    ensures n < 100 ==> |s| == 2 && AllDigits(s) && DecimalValue(s) == n
  {
    var d := DecimalString(n);
    DecimalRoundTrip(n);
    assert n < 10 ==> ("0" + d)[..1] == "0";
    if |d| < 2 then "0" + d else d
  }

  /** The clock part of the text. */
  function Clock(f: Fields): string {
    Pad2(f.hours) + ":" + Pad2(f.minutes) + ":" + Pad2(f.seconds)
  }

  /**
    The countdown text: `HH:MM:SS`, preceded by `<days>d ` when there is at
    least one whole day (the parts list joined with a space).
   */
  function Text(f: Fields): string {
    if f.days > 0 then DecimalString(f.days) + "d" + " " + Clock(f) else Clock(f)
  }

  /** Two decimal digits, read as a number. */
  function ParsePair(s: string): Option<nat> {
    if |s| == 2 && AllDigits(s) then Some(DecimalValue(s)) else None
  }

  /** Reads a countdown text back into its fields; `None` when it is not one. */
  function ParseText(s: string): Option<Fields> {
    if |s| < 8 then None
    else
      var prefix, clock := s[..|s| - 8], s[|s| - 8..];
      var h, m, sec := ParsePair(clock[0..2]), ParsePair(clock[3..5]), ParsePair(clock[6..8]);
      if clock[2] != ':' || clock[5] != ':' || h.None? || m.None? || sec.None? then None
      else if prefix == [] then Some(Fields(0, h.value, m.value, sec.value))
      else if |prefix| >= 3 && prefix[|prefix| - 2..] == "d " && AllDigits(prefix[..|prefix| - 2]) then
        Some(Fields(DecimalValue(prefix[..|prefix| - 2]), h.value, m.value, sec.value))
      else None
  }

  /** The clock part is eight characters whose three pairs read back as the hours, minutes and seconds. */
  lemma ClockRoundTrip(f: Fields)
    requires WellFormed(f)
    ensures |Clock(f)| == 8 && Clock(f)[2] == ':' && Clock(f)[5] == ':'
    ensures ParsePair(Clock(f)[0..2]) == Some(f.hours)
    ensures ParsePair(Clock(f)[3..5]) == Some(f.minutes)
    ensures ParsePair(Clock(f)[6..8]) == Some(f.seconds)
  {
    var clock := Clock(f);
    assert clock[0..2] == Pad2(f.hours) && clock[3..5] == Pad2(f.minutes) && clock[6..8] == Pad2(f.seconds);
  }

  /** The text carries exactly the fields it was made from. */
  lemma TextRoundTrip(f: Fields)
    requires WellFormed(f)
    ensures ParseText(Text(f)) == Some(f)
  {
    var clock := Clock(f);
    ClockRoundTrip(f);
    var s := Text(f);
    if f.days > 0 {
      var ds := DecimalString(f.days);
      DecimalRoundTrip(f.days);
      assert s == (ds + "d ") + clock;
      assert s[..|s| - 8] == ds + "d ";
      assert s[|s| - 8..] == clock;
      assert (ds + "d ")[..|ds|] == ds;
    } else {
      assert s[..|s| - 8] == [];
      assert s[|s| - 8..] == clock;
    }
  }

  /** The days prefix is present exactly when there is at least one whole day. */
  lemma TextHasDaysPrefix(f: Fields)
    requires WellFormed(f)
    ensures |Text(f)| >= 8
    ensures |Text(f)| == 8 <==> f.days == 0
    ensures f.days > 0 ==> Text(f)[..|Text(f)| - 8] == DecimalString(f.days) + "d "
  {
  }
}
