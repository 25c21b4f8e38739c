/** The hh:mm:ss countdown of a quiz attempt: its initial value from the time limit, the
    once-a-second step with borrow, and its display. */
module QuizClock {
  import opened Js

  /** `timeRemaining`: hours, minutes and seconds left. */
  datatype Clock = Clock(hr: int, min: int, sec: int)

  function Seconds(c: Clock): int {
    3600 * c.hr + 60 * c.min + c.sec
  }

  predicate InRange(c: Clock) {
    c.hr >= 0 && 0 <= c.min < 60 && 0 <= c.sec < 60
  }

  predicate IsZero(c: Clock) {
    c.hr == 0 && c.min == 0 && c.sec == 0
  }

  /** The timer a quiz screen starts with for a limit of `t` milliseconds. `Math.floor` of a
      quotient by a positive constant is Dafny's `/`; the inner `%` is JavaScript's. */
  function InitialClock(t: int): Clock {
    Clock(t / 3600000, Rem(t, 3600000) / 60000, Rem(t, 60000) / 1000)
  }

  /** For a non-negative limit the initial timer is in range and holds the whole seconds of
      the limit; the sub-second remainder is dropped. */
  lemma InitialClockExact(t: int)
    requires t >= 0
    ensures InRange(InitialClock(t))
    ensures Seconds(InitialClock(t)) == t / 1000
  {
    var h, r := t / 3600000, t % 3600000;
    var m, r2 := r / 60000, r % 60000;
    DivModUnique(t, 60000, 60 * h + m, r2);
    var s, ms := r2 / 1000, r2 % 1000;
    DivModUnique(t, 1000, 3600 * h + 60 * m + s, ms);
  }

  /** The quotient and remainder are the only ones with the remainder in range. */
  lemma DivModUnique(a: int, b: int, q: int, r: int)
    requires b > 0 && a == b * q + r && 0 <= r < b
    ensures a / b == q && a % b == r
  {
    var d := q - a / b;
    assert b * d == a % b - r;
  }

  /** One run of the interval callback. A timer that reads 00:00:00 stays there (the callback
      then stops the interval and submits); otherwise one second is taken off, borrowing a
      minute when the seconds run out and an hour when the minutes do. */
  function TickClock(c: Clock): (r: Clock)
    ensures IsZero(c) ==> r == c
    ensures InRange(c) && !IsZero(c) ==> InRange(r) && Seconds(r) == Seconds(c) - 1
  {
    if IsZero(c) then c
    else
      var sec0, min0 := c.sec - 1, c.min;
      var sec1, min1 := if sec0 < 0 then 59 else sec0, if sec0 < 0 then min0 - 1 else min0;
      var min2, hr2 := if min1 < 0 then 59 else min1, if min1 < 0 then c.hr - 1 else c.hr;
      Clock(hr2, min2, sec1)
  }

  /** The timer after `n` runs of the interval callback. */
  function TickN(c: Clock, n: nat): Clock
    decreases n
  {
    if n == 0 then c else TickN(TickClock(c), n - 1)
  }

  /** An in-range timer counts down one second per run until it reads zero. */
  lemma {:induction false} Countdown(c: Clock, k: nat)
    requires InRange(c) && k <= Seconds(c)
    ensures InRange(TickN(c, k)) && Seconds(TickN(c, k)) == Seconds(c) - k
    decreases k
  {
    if k > 0 {
      assert !IsZero(c);
      Countdown(TickClock(c), k - 1);
    }
  }

  /** For a limit of `t` milliseconds the `n`-th run of the callback finds 00:00:00, and so
      submits, exactly when n is t div 1000 + 1: one run after the display first reads zero. */
  lemma AutoSubmitTick(t: int, n: nat)
    requires t >= 0 && 1 <= n <= t / 1000 + 1
    ensures IsZero(TickN(InitialClock(t), n - 1)) <==> n == t / 1000 + 1
  {
    InitialClockExact(t);
    Countdown(InitialClock(t), n - 1);
  }

  /** `String(n).padStart(2, '0')` of a number below 100 is its two decimal digits. */
  lemma Pad2TwoDigits(n: nat)
    requires n < 100
    ensures |Pad2(n)| == 2 && AllDigits(Pad2(n)) && DigitsValue(Pad2(n)) == n
  {
    NatToStringValue(n);
    if n < 10 {
      assert Pad2(n) == "0" + NatToString(n);
      assert Pad2(n)[..1] == "0";
    }
  }

  /** The timer as displayed: `hh:mm:ss`, each field padded to two digits. */
  function ClockText(c: Clock): string {
    Pad2(c.hr) + ":" + Pad2(c.min) + ":" + Pad2(c.sec)
  }

  /** An in-range timer under 100 hours displays as eight characters whose three digit pairs
      read back as its fields. */
  lemma ClockTextFields(c: Clock)
    requires InRange(c) && c.hr < 100
    ensures |ClockText(c)| == 8 && ClockText(c)[2] == ':' && ClockText(c)[5] == ':'
    ensures AllDigits(ClockText(c)[0..2]) && DigitsValue(ClockText(c)[0..2]) == c.hr
    ensures AllDigits(ClockText(c)[3..5]) && DigitsValue(ClockText(c)[3..5]) == c.min
    ensures AllDigits(ClockText(c)[6..8]) && DigitsValue(ClockText(c)[6..8]) == c.sec
  {
    Pad2TwoDigits(c.hr);
    Pad2TwoDigits(c.min);
    Pad2TwoDigits(c.sec);
    var s := ClockText(c);
    assert s[0..2] == Pad2(c.hr);
    assert s[3..5] == Pad2(c.min);
    assert s[6..8] == Pad2(c.sec);
  }
}
