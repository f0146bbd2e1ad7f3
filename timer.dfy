/**
 * The countdown component: one integer of state, `timeLeft`, reset when the
 * `duration` prop changes and decremented once per second while `isActive`.
 * It fires `onTimeUp` on every active tick whose new value is at most zero;
 * firing only once is left to the caller, which must deactivate it.
 */
module Countdown {
  import opened QuizTypes

  /** A tick starting from `prev` fires `onTimeUp` exactly when `prev - 1 <= 0`: at most one second was left. */
  predicate Expires(prev: int)
    ensures Expires(prev) <==> prev <= 1
  {
    prev - 1 <= 0
  }

  /** The value the state updater stores after one active tick from `prev`. */
  function NextTimeLeft(prev: int): (next: int)
    ensures next >= 0
    ensures next == 0 <==> Expires(prev)
    ensures !Expires(prev) ==> next == prev - 1
    ensures prev >= 0 ==> next <= prev
  {
    var newTime := prev - 1;
    if newTime <= 0 then 0 else newTime
  }

  /** `timeLeft` after `n` active ticks starting from `start`. */
  function After(start: int, n: nat): int {
    if n == 0 then start else NextTimeLeft(After(start, n - 1))
  }

  /** From a non-negative start, `n` active ticks count down by `n` and stop at zero. */
  lemma {:induction false} AfterCountsDown(start: int, n: nat)
    requires start >= 0
    ensures After(start, n) == if n >= start then 0 else start - n
  {
    if n > 0 {
      AfterCountsDown(start, n - 1);
    }
  }

  /**
   * Starting from a duration `d >= 1` and staying active, the `k`-th tick
   * fires exactly when `k >= d`: the first firing is on tick `d`, and every
   * later tick fires again.
   */
  lemma FiresFromTick(d: int, k: nat)
    requires d >= 1 && k >= 1
    ensures Expires(After(d, k - 1)) <==> k >= d
  {
    AfterCountsDown(d, k - 1);
  }

  /** Minutes shown: `Math.floor(timeLeft / 60)` (Dafny's `/` floors for a positive divisor). */
  function Minutes(t: int): (m: int)
    ensures m * 60 <= t < m * 60 + 60
    ensures t >= 0 ==> m >= 0
  {
    t / 60
  }

  /** Seconds shown: JavaScript's `timeLeft % 60`, whose sign follows the dividend. */
  function Seconds(t: int): (s: int)
    ensures t >= 0 ==> 0 <= s < 60 && Minutes(t) * 60 + s == t
    ensures t < 0 ==> -60 < s <= 0 && (t - s) % 60 == 0
  {
    if t >= 0 then t % 60 else -((-t) % 60)
  }

  function DigitChar(d: int): char
    requires 0 <= d < 10
  {
    "0123456789"[d]
  }

  /** Decimal digits of a natural number, most significant first, without leading zeros. */
  function Digits(n: nat): (s: string)
    ensures 1 <= |s|
    ensures n < 10 ==> |s| == 1
    ensures 10 <= n < 100 ==> |s| == 2
    ensures forall i :: 0 <= i < |s| ==> '0' <= s[i] <= '9'
  {
    if n < 10 then [DigitChar(n)] else Digits(n / 10) + [DigitChar(n % 10)]
  }

  /**
   * `Number.prototype.toString()` on an integer below 10^21 in magnitude
   * (larger ones switch to exponent notation, far outside what the timer
   * shows): a sign for a negative number, then its digits.
   */
  function ToString(n: int): (s: string)
    ensures n >= 0 ==> AllDigits(s) && Value(s) == n
    ensures n < 0 ==> 2 <= |s| && s[0] == '-' && AllDigits(s[1..]) && Value(s[1..]) == -n
  {
    if n < 0 then
      SignedDigits(-n);
      "-" + Digits(-n)
    else
      DigitsRoundTrip(n);
      Digits(n)
  }

  lemma SignedDigits(m: nat)
    ensures var s := "-" + Digits(m); 2 <= |s| && s[0] == '-' && s[1..] == Digits(m)
    ensures Value(Digits(m)) == m
  {
    DigitsRoundTrip(m);
    assert ("-" + Digits(m))[1..] == Digits(m);
  }

  /** `String.prototype.padStart(width, fill)` with a one-character fill. */
  function PadStart(s: string, width: nat, fill: char): (r: string)
    ensures |r| == if |s| >= width then |s| else width
    ensures r[|r| - |s|..] == s
    ensures forall i :: 0 <= i < |r| - |s| ==> r[i] == fill
  {
    if |s| >= width then s else seq(width - |s|, _ => fill) + s
  }

  /**
   * The `mm:ss` label the component renders for `timeLeft`. For a non-negative
   * time the seconds field is exactly two characters after the colon, and the
   * whole label is five characters below 100 minutes.
   */
  function ClockText(t: int): (text: string)
    ensures |text| >= 5
    ensures t >= 0 ==> text[|text| - 3] == ':'
    ensures 0 <= t < 6000 ==> |text| == 5
  {
    var mm, ss := PadStart(ToString(Minutes(t)), 2, '0'), PadStart(ToString(Seconds(t)), 2, '0');
    FieldWidths(t);
    LabelShape(mm, ss);
    mm + ":" + ss
  }

  lemma LabelShape(mm: string, ss: string)
    requires |mm| >= 2 && |ss| >= 2
    ensures |mm + ":" + ss| == |mm| + 1 + |ss| >= 5
    ensures |ss| == 2 ==> (mm + ":" + ss)[|mm + ":" + ss| - 3] == ':'
  {
  }

  /** Each padded field is at least two wide; seconds of a non-negative time and minutes below 100 are exactly two. */
  lemma FieldWidths(t: int)
    ensures |PadStart(ToString(Minutes(t)), 2, '0')| >= 2 && |PadStart(ToString(Seconds(t)), 2, '0')| >= 2
    ensures t >= 0 ==> |PadStart(ToString(Seconds(t)), 2, '0')| == 2
    ensures 0 <= t < 6000 ==> |PadStart(ToString(Minutes(t)), 2, '0')| == 2
  {
    if t >= 0 {
      assert |ToString(Seconds(t))| <= 2;
      if t < 6000 {
        assert |ToString(Minutes(t))| <= 2;
      }
    }
  }

  /** Value of a string of decimal digits. */
  function Value(s: string): int {
    if s == [] then 0 else Value(s[..|s| - 1]) * 10 + (s[|s| - 1] as int - '0' as int)
  }

  lemma {:induction false} DigitsRoundTrip(n: nat)
    ensures Value(Digits(n)) == n
  {
    if n >= 10 {
      var s := Digits(n);
      assert s[..|s| - 1] == Digits(n / 10);
      DigitsRoundTrip(n / 10);
    }
  }

  lemma {:induction false} ZerosHaveNoValue(z: string)
    requires forall i :: 0 <= i < |z| ==> z[i] == '0'
    ensures Value(z) == 0
  {
    if z != [] {
      ZerosHaveNoValue(z[..|z| - 1]);
    }
  }

  /** Leading zeros, as added by `padStart(2, '0')`, do not change the value. */
  lemma {:induction false} LeadingZeros(z: string, s: string)
    requires forall i :: 0 <= i < |z| ==> z[i] == '0'
    ensures Value(z + s) == Value(s)
  {
    if s == [] {
      assert z + s == z;
      ZerosHaveNoValue(z);
    } else {
      assert (z + s)[..|z + s| - 1] == z + s[..|s| - 1];
      LeadingZeros(z, s[..|s| - 1]);
    }
  }

  predicate AllDigits(s: string) {
    forall i :: 0 <= i < |s| ==> '0' <= s[i] <= '9'
  }

  /** A field padded with `padStart(2, '0')`: at least two digits, exactly two below 100, reading back as `n`. */
  lemma PaddedField(n: nat)
    ensures var r := PadStart(Digits(n), 2, '0');
      && AllDigits(r) && 2 <= |r| && (n < 100 ==> |r| == 2) && Value(r) == n
  {
    var s := Digits(n);
    DigitsRoundTrip(n);
    if |s| < 2 {
      var z := seq(2 - |s|, _ => '0');
      assert PadStart(s, 2, '0') == z + s;
      LeadingZeros(z, s);
    }
  }

  /** The label splits back into its two fields at the colon three places from the end. */
  lemma LabelFields(mm: string, ss: string)
    requires |ss| == 2
    ensures var text := mm + ":" + ss; var k := |text| - 3;
      && k == |mm| && text[k] == ':' && text[..k] == mm && text[k + 1..] == ss
  {
    var text := mm + ":" + ss;
    assert text[..|mm|] == mm;
    assert text[|mm| + 1..] == ss;
  }

  /**
   * `text` reads as `timeLeft == t`: a field of at least two digits, a colon
   * and a field of exactly two digits, whose values give `minutes * 60 + seconds == t`.
   */
  ghost predicate ReadsAs(text: string, t: int) {
    var k := |text| - 3;
    && k >= 2 && text[k] == ':'
    && AllDigits(text[..k]) && AllDigits(text[k + 1..])
    && Value(text[..k]) * 60 + Value(text[k + 1..]) == t
  }

  lemma LabelReadBack(mm: string, ss: string, t: int)
    requires |mm| >= 2 && |ss| == 2 && AllDigits(mm) && AllDigits(ss)
    requires Value(mm) * 60 + Value(ss) == t
    ensures ReadsAs(mm + ":" + ss, t)
  {
    LabelFields(mm, ss);
  }

  /** For a non-negative `timeLeft` the rendered label reads back as `timeLeft`. */
  lemma ClockRoundTrip(t: int)
    requires t >= 0
    ensures ReadsAs(ClockText(t), t)
  {
    var m, sec := Minutes(t), Seconds(t);
    var mm := PadStart(Digits(m), 2, '0');
    var ss := PadStart(Digits(sec), 2, '0');
    NonNegativeLabel(t);
    PaddedField(m);
    PaddedField(sec);
    LabelReadBack(mm, ss, t);
  }

  /** Both fields of a non-negative `timeLeft` are non-negative, so neither carries a sign. */
  lemma NonNegativeLabel(t: int)
    requires t >= 0
    ensures 0 <= Minutes(t) && 0 <= Seconds(t) < 60
    ensures ClockText(t) == PadStart(Digits(Minutes(t)), 2, '0') + ":" + PadStart(Digits(Seconds(t)), 2, '0')
  {
  }

  /** The component's state. The `isActive` prop is passed to each tick. */
  class Timer {
    var duration: int
    var timeLeft: int

    /** `useState(duration)`. */
    constructor (duration: int)
      ensures this.duration == duration && timeLeft == duration
    {
      this.duration := duration;
      timeLeft := duration;
    }

    /** The effect keyed on `duration`: a changed duration restarts the count from it. */
    method ChangeDuration(d: int)
      modifies this
      ensures duration == d
      ensures timeLeft == if d != old(duration) then d else old(timeLeft)
    {
      if d != duration {
        timeLeft := d;
      }
      duration := d;
    }

    /**
     * One second of the interval. While inactive no interval runs, so nothing
     * changes and nothing fires. While active, `onTick` is given `prev - 1`,
     * and `onTimeUp` fires whenever that is at most zero.
     */
    method Tick(isActive: bool) returns (reported: Option<int>, fired: bool)
      modifies this`timeLeft
      ensures !isActive ==> timeLeft == old(timeLeft) && reported == None && !fired
      ensures isActive ==> reported == Some(old(timeLeft) - 1)
      ensures isActive ==> fired == Expires(old(timeLeft)) && timeLeft == NextTimeLeft(old(timeLeft))
      ensures isActive ==> timeLeft >= 0 && (old(timeLeft) >= 0 ==> timeLeft <= old(timeLeft))
    {
      reported, fired := None, false;
      if isActive {
        var newTime := timeLeft - 1;
        reported := Some(newTime);
        if newTime <= 0 {
          fired := true;
          timeLeft := 0;
        } else {
          timeLeft := newTime;
        }
      }
    }
  }
}
