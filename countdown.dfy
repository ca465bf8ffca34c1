/** The countdown to midnight of 1 January 2026: the remaining distance in
    milliseconds is split into days, hours, minutes and seconds, each shown in
    its own box as a decimal string padded to two characters.  The clock is an
    input: every tick is given the distance `target - now` as an integer. */
module Countdown {

  const MsPerSecond: int := 1000
  const MsPerMinute: int := 60_000
  const MsPerHour: int := 3_600_000
  const MsPerDay: int := 86_400_000

  /** The four values of one tick, as computed before formatting. */
  datatype Remaining = Remaining(days: int, hours: int, minutes: int, seconds: int)

  /** A decomposition whose fields lie in their clock ranges. */
  predicate InRange(r: Remaining)
  {
    r.days >= 0 && 0 <= r.hours < 24 && 0 <= r.minutes < 60 && 0 <= r.seconds < 60
  }

  /** The whole seconds a decomposition stands for, in milliseconds. */
  function TotalMs(r: Remaining): int
  {
    r.days * MsPerDay + r.hours * MsPerHour + r.minutes * MsPerMinute + r.seconds * MsPerSecond
  }

  /** Splits a non-negative distance.  For non-negative operands JavaScript's
      `Math.floor(a / d)` and `a % d` agree with Dafny's `/` and `%`; the
      distance is non-negative here because a negative one takes the
      celebration branch first. */
  function Split(distance: int): (r: Remaining)
    requires distance >= 0
    ensures InRange(r)
    ensures TotalMs(r) <= distance < TotalMs(r) + MsPerSecond
  {
    SplitParts(distance);
    Remaining(distance / MsPerDay,
              (distance % MsPerDay) / MsPerHour,
              (distance % MsPerHour) / MsPerMinute,
              (distance % MsPerMinute) / MsPerSecond)
  }

  /** The remainders the four divisions of Split work on nest inside each other. */
  lemma SplitParts(d: int)
    requires d >= 0
    ensures d % MsPerDay == (d % MsPerDay) / MsPerHour * MsPerHour + d % MsPerHour
    ensures d % MsPerHour == (d % MsPerHour) / MsPerMinute * MsPerMinute + d % MsPerMinute
    ensures d % MsPerMinute == (d % MsPerMinute) / MsPerSecond * MsPerSecond + d % MsPerSecond
  {
    NestedMod(d, 24, MsPerHour);
    NestedMod(d, 60, MsPerMinute);
  }

  /** Taking the remainder by a multiple of `unit` first does not change the
      remainder by `unit`. */
  lemma NestedMod(d: int, k: int, unit: int)
    requires d >= 0 && k > 0 && unit > 0
    ensures d % (k * unit) == (d % (k * unit)) / unit * unit + d % unit
  {
    var big := k * unit;
    MulAtLeast(k, unit);
    var r := d % big;
    assert d == (d / big) * big + r;
    assert r == (r / unit) * unit + r % unit;
    assert (d / big) * big == ((d / big) * k) * unit;
    DivModOf(d, unit, (d / big) * k + r / unit, r % unit);
  }

  /** Split inverts TotalMs: adding less than a second to a decomposition in
      range and splitting gives the decomposition back. */
  lemma SplitTotal(r: Remaining, ms: int)
    requires InRange(r) && 0 <= ms < MsPerSecond
    ensures Split(TotalMs(r) + ms) == r
  {
    var d := TotalMs(r) + ms;
    var belowDay := r.hours * MsPerHour + r.minutes * MsPerMinute + r.seconds * MsPerSecond + ms;
    var belowHour := r.minutes * MsPerMinute + r.seconds * MsPerSecond + ms;
    var belowMinute := r.seconds * MsPerSecond + ms;
    DivModOf(d, MsPerDay, r.days, belowDay);
    DivModOf(belowDay, MsPerHour, r.hours, belowHour);
    DivModOf(belowHour, MsPerMinute, r.minutes, belowMinute);
    DivModOf(belowMinute, MsPerSecond, r.seconds, ms);
    DivModOf(d, MsPerHour, r.days * 24 + r.hours, belowHour);
    DivModOf(d, MsPerMinute, (r.days * 24 + r.hours) * 60 + r.minutes, belowMinute);
  }

  /** Two splits that agree are two distances within the same whole second. */
  lemma SplitSameSecond(a: int, b: int)
    requires a >= 0 && b >= 0
    ensures Split(a) == Split(b) <==> a / MsPerSecond == b / MsPerSecond
  {
    var ra, rb := Split(a), Split(b);
    var sa := ra.days * 86400 + ra.hours * 3600 + ra.minutes * 60 + ra.seconds;
    var sb := rb.days * 86400 + rb.hours * 3600 + rb.minutes * 60 + rb.seconds;
    DivModOf(a, MsPerSecond, sa, a - TotalMs(ra));
    DivModOf(b, MsPerSecond, sb, b - TotalMs(rb));
    if sa == sb {
      SplitTotal(rb, a - TotalMs(rb));
    }
  }

  /** Division by a positive constant is determined by quotient and remainder. */
  lemma DivModOf(a: int, d: int, q: int, rem: int)
    requires d > 0 && 0 <= rem < d && a == q * d + rem
    ensures a / d == q && a % d == rem
  {
    var q', r' := a / d, a % d;
    assert a == q' * d + r';
    if q' < q {
      assert (q - q') * d == q * d - q' * d;
      MulAtLeast(q - q', d);
    } else if q' > q {
      assert (q' - q) * d == q' * d - q * d;
      MulAtLeast(q' - q, d);
    }
  }

  lemma {:induction false} MulAtLeast(x: nat, d: int)
    requires x >= 1 && d > 0
    ensures x * d >= d
    decreases x
  {
    if x > 1 {
      MulAtLeast(x - 1, d);
      assert x * d == (x - 1) * d + d;
    }
  }

  /** The character of one decimal digit. */
  function DigitChar(d: int): (c: char)
    requires 0 <= d < 10
    ensures '0' <= c <= '9' && c as int - '0' as int == d
  {
    "0123456789"[d]
  }

  predicate IsDigit(c: char)
  {
    '0' <= c <= '9'
  }

  function DigitValue(c: char): nat
    requires IsDigit(c)
  {
    c as int - '0' as int
  }

  /** `String(n)` for a natural number: its decimal digits, most significant
      first, without leading zeros. */
  function Decimal(n: nat): (s: string)
    ensures 1 <= |s|
    ensures forall i :: 0 <= i < |s| ==> IsDigit(s[i])
    ensures n >= 10 ==> s[0] != '0'
    decreases n
  {
    if n < 10 then [DigitChar(n)] else Decimal(n / 10) + [DigitChar(n % 10)]
  }

  /** `String(v)` for any integer value: a minus sign exactly for a negative
      value, followed by decimal digits. */
  function IntToString(v: int): (r: string)
    ensures |r| >= 1 && (r[0] == '-' <==> v < 0)
    ensures forall i :: (if v < 0 then 1 else 0) <= i < |r| ==> IsDigit(r[i])
  {
    if v < 0 then "-" + Decimal(-v) else Decimal(v)
  }

  /** `n` copies of `c`. */
  function Repeat(c: char, n: nat): (r: string)
    ensures |r| == n && forall i :: 0 <= i < n ==> r[i] == c
    decreases n
  {
    if n == 0 then [] else [c] + Repeat(c, n - 1)
  }

  /** `s.padStart(width, fill)` for a one-character fill: fill characters are
      prepended until the string is `width` long; a string already that long
      is returned as is. */
  function PadStart(s: string, width: nat, fill: char): (r: string)
    ensures |r| == if |s| >= width then |s| else width
    ensures r[|r| - |s|..] == s
    ensures forall i :: 0 <= i < |r| - |s| ==> r[i] == fill
  {
    if |s| >= width then s else Repeat(fill, width - |s|) + s
  }

  /** The text a time box shows for a value: `String(value).padStart(2, '0')`.
      It is at least two long, starts with a minus sign exactly for a negative
      value, and ends with `String(value)`. */
  function Format(v: int): (r: string)
    ensures |r| >= 2 && (r[0] == '-' <==> v < 0)
    ensures |r| >= |IntToString(v)| && r[|r| - |IntToString(v)|..] == IntToString(v)
  {
    PadStart(IntToString(v), 2, '0')
  }

  /** The value of a string of decimal digits (leading zeros allowed). */
  function DecimalValue(s: string): (n: nat)
    requires forall i :: 0 <= i < |s| ==> IsDigit(s[i])
    decreases |s|
  {
    if s == [] then 0
    else DecimalValue(s[..|s| - 1]) * 10 + DigitValue(s[|s| - 1])
  }

  lemma {:induction false} DecimalRoundTrip(n: nat)
    ensures DecimalValue(Decimal(n)) == n
    decreases n
  {
    if n >= 10 {
      var s := Decimal(n);
      assert s[..|s| - 1] == Decimal(n / 10);
      DecimalRoundTrip(n / 10);
    }
  }

  /** A leading zero does not change the value of a digit string. */
  lemma {:induction false} LeadingZero(s: string)
    requires forall i :: 0 <= i < |s| ==> IsDigit(s[i])
    ensures DecimalValue("0" + s) == DecimalValue(s)
    decreases |s|
  {
    if s != [] {
      var t := "0" + s;
      assert t[..|t| - 1] == "0" + s[..|s| - 1];
      LeadingZero(s[..|s| - 1]);
    }
  }

  /** One digit below 10, two below 100, three or more from 100 on. */
  lemma DecimalLength(n: nat)
    ensures |Decimal(n)| == 1 <==> n < 10
    ensures |Decimal(n)| == 2 <==> 10 <= n < 100
  {
    if n >= 10 {
      assert |Decimal(n)| == |Decimal(n / 10)| + 1;
      if n >= 100 {
        assert |Decimal(n / 10)| == |Decimal(n / 10 / 10)| + 1;
      }
    }
  }

  /** Padding to two characters puts one '0' before a single character and
      leaves longer strings alone. */
  lemma PadStartTwo(s: string)
    requires |s| >= 1
    ensures |s| == 1 ==> PadStart(s, 2, '0') == ['0', s[0]]
    ensures |s| >= 2 ==> PadStart(s, 2, '0') == s
  {
    if |s| == 1 {
      assert Repeat('0', 1) == ['0'];
    }
  }

  /** The shape of a formatted non-negative value: one digit gets a leading
      zero, two or more digits are printed unchanged, so the text is never
      shorter than two characters and is three or more from 100 on. */
  lemma FormatShape(v: nat)
    ensures v < 10 ==> Format(v) == ['0', DigitChar(v)]
    ensures v >= 10 ==> Format(v) == Decimal(v)
    ensures |Format(v)| >= 2
    ensures |Format(v)| == 2 <==> v < 100
  {
    DecimalLength(v);
    var digits := Decimal(v);
    assert Format(v) == PadStart(digits, 2, '0');
    PadStartTwo(digits);
  }

  /** Formatting a non-negative value loses nothing: reading the digits back
      gives the value, so different values never show the same text. */
  lemma FormatRoundTrip(v: nat)
    ensures forall i :: 0 <= i < |Format(v)| ==> IsDigit(Format(v)[i])
    ensures DecimalValue(Format(v)) == v
  {
    FormatShape(v);
    DecimalRoundTrip(v);
    if v < 10 {
      LeadingZero(Decimal(v));
      assert Format(v) == "0" + Decimal(v);
    }
  }

  lemma FormatInjective(a: nat, b: nat)
    ensures Format(a) == Format(b) <==> a == b
  {
    FormatRoundTrip(a);
    FormatRoundTrip(b);
  }

  /** One time-box element.  `Show` is `updateTimeBox`: the text is rewritten,
      and the scale-up pulse started, only when it differs from the new one. */
  class TimeBox {
    var text: string

    constructor (initial: string)
      ensures text == initial
    {
      text := initial;
    }

    method Show(value: int) returns (pulsed: bool)
      modifies this
      ensures text == Format(value)
      ensures pulsed <==> old(text) != Format(value)
      ensures !pulsed ==> unchanged(this)
    {
      var formatted := Format(value);
      pulsed := text != formatted;
      if pulsed {
        text := formatted;
      }
    }
  }

  /** The countdown section: four time boxes, the countdown block that is
      hidden and the celebration message that is shown once the target is
      reached. */
  class CountdownView {
    const days: TimeBox
    const hours: TimeBox
    const minutes: TimeBox
    const seconds: TimeBox
    var countdownHidden: bool
    var celebrationShown: bool

    ghost function Boxes(): set<TimeBox>
    {
      {days, hours, minutes, seconds}
    }

    ghost predicate Valid()
    {
      days != hours && days != minutes && days != seconds &&
      hours != minutes && hours != seconds && minutes != seconds
    }

    constructor (initial: string)
      ensures Valid() && fresh(Boxes())
      ensures days.text == initial && hours.text == initial
      ensures minutes.text == initial && seconds.text == initial
      ensures !countdownHidden && !celebrationShown
    {
      days := new TimeBox(initial);
      hours := new TimeBox(initial);
      minutes := new TimeBox(initial);
      seconds := new TimeBox(initial);
      countdownHidden, celebrationShown := false, false;
    }

    /** `updateCountdown` for a given distance `target - now`.  A negative
        distance hides the countdown, shows the celebration and leaves every
        box as it was; otherwise each box shows its formatted value and the
        two blocks keep their visibility. */
    method UpdateCountdown(distance: int)
      requires Valid()
      modifies this, Boxes()
      ensures Valid()
      ensures distance < 0 ==>
        countdownHidden && celebrationShown &&
        unchanged(days, hours, minutes, seconds)
      ensures distance >= 0 ==>
        var r := Split(distance);
        days.text == Format(r.days) && hours.text == Format(r.hours) &&
        minutes.text == Format(r.minutes) && seconds.text == Format(r.seconds) &&
        countdownHidden == old(countdownHidden) &&
        celebrationShown == old(celebrationShown)
    {
      if distance < 0 {
        countdownHidden := true;
        celebrationShown := true;
        return;
      }
      var d := distance / MsPerDay;
      var h := (distance % MsPerDay) / MsPerHour;
      var m := (distance % MsPerHour) / MsPerMinute;
      var s := (distance % MsPerMinute) / MsPerSecond;
      var _ := days.Show(d);
      var _ := hours.Show(h);
      var _ := minutes.Show(m);
      var _ := seconds.Show(s);
    }
  }
}
