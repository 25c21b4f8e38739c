/** The quiz details screen: the time limit as words, and the "already attempted" notice. */
module QuizPreview {
  import opened Js
  import QuizClock

  /** The hours, minutes and seconds `formatTime` computes: the same floor and `%` arithmetic
      as the question screen's initial timer, so the two always agree. */
  function Duration(ms: int): (c: QuizClock.Clock)
    ensures c == QuizClock.InitialClock(ms)
  {
    QuizClock.Clock(ms / 3600000, Rem(ms, 3600000) / 60000, Rem(ms, 60000) / 1000)
  }

  /** A unit name, with an "s" unless the count is exactly 1. */
  function Plural(unit: string, n: int): string {
    if n != 1 then unit + "s" else unit
  }

  function Segment(n: int, unit: string): string {
    IntToString(n) + " " + Plural(unit, n)
  }

  /** `formatTime`: the hour part only when there are hours, the minute part only when there
      are minutes, the seconds always. */
  function FormatTime(ms: int): string {
    FormatClock(Duration(ms))
  }

  function FormatClock(d: QuizClock.Clock): string {
    OptionalSegment(d.hr, "hr") + (OptionalSegment(d.min, "min") + Segment(d.sec, "sec"))
  }

  /** A segment followed by its space, written only for a positive count. */
  function OptionalSegment(n: int, unit: string): string {
    if n > 0 then Segment(n, unit) + " " else ""
  }

  // ----- reading the text back -----

  /** `s.split(' ')`. */
  function Words(s: string): (w: seq<string>)
    ensures |w| >= 1
  {
    if s == [] then [""]
    else if s[0] == ' ' then [""] + Words(s[1..])
    else
      var rest := Words(s[1..]);
      [[s[0]] + rest[0]] + rest[1..]
  }

  lemma {:induction false} WordsNoSpace(a: string)
    requires ' ' !in a
    ensures Words(a) == [a]
  {
    if a != [] {
      WordsNoSpace(a[1..]);
      assert a == [a[0]] + a[1..];
    }
  }

  lemma {:induction false} WordsJoin(a: string, b: string)
    requires ' ' !in a
    ensures Words(a + " " + b) == [a] + Words(b)
  {
    if a == [] {
      assert a + " " + b == " " + b;
      assert (" " + b)[1..] == b;
    } else {
      var s := a + " " + b;
      assert s[0] == a[0];
      assert s[1..] == a[1..] + " " + b;
      WordsJoin(a[1..], b);
      assert a == [a[0]] + a[1..];
    }
  }

  lemma {:induction false} IntToStringNoSpace(n: int)
    ensures ' ' !in IntToString(n)
  {
    var d := NatToString(if n < 0 then -n else n);
    assert ' ' !in d by {
      forall k | 0 <= k < |d| ensures d[k] != ' ' {
        assert IsDigit(d[k]);
      }
    }
    if n < 0 {
      assert IntToString(n) == "-" + d;
    }
  }

  /** The number of seconds a unit word stands for. */
  function UnitSeconds(w: string): Option<int> {
    if w == "hr" || w == "hrs" then Some(3600)
    else if w == "min" || w == "mins" then Some(60)
    else if w == "sec" || w == "secs" then Some(1)
    else None
  }

  /** A word of decimal digits, read as a number. */
  function ReadNumber(w: string): Option<int> {
    if w != [] && AllDigits(w) then Some(DigitsValue(w)) else None
  }

  /** Read a list of words as number-unit pairs and add them up in seconds. */
  function ReadDuration(words: seq<string>): Option<int>
  {
    if |words| < 2 then
      if words == [] then Some(0) else None
    else
      var n, u, rest := ReadNumber(words[0]), UnitSeconds(words[1]), ReadDuration(words[2..]);
      if n.Some? && u.Some? && rest.Some? then Some(n.value * u.value + rest.value) else None
  }

  lemma {:induction false} ReadDurationStep(w: seq<string>)
    requires |w| >= 2 && ReadNumber(w[0]).Some? && UnitSeconds(w[1]).Some? && ReadDuration(w[2..]).Some?
    ensures ReadDuration(w)
      == Some(ReadNumber(w[0]).value * UnitSeconds(w[1]).value + ReadDuration(w[2..]).value)
  {
  }

  /** The words of one segment followed by more text. */
  lemma {:induction false} SegmentWords(n: int, unit: string, rest: string)
    requires ' ' !in unit
    ensures Words(Segment(n, unit) + " " + rest) == Pair(n, unit) + Words(rest)
  {
    IntToStringNoSpace(n);
    assert ' ' !in Plural(unit, n);
    var t := Plural(unit, n) + " " + rest;
    assert Segment(n, unit) + " " + rest == IntToString(n) + " " + t;
    WordsJoin(IntToString(n), t);
    WordsJoin(Plural(unit, n), rest);
  }

  /** A count and its unit, as two words. */
  function Pair(n: int, unit: string): seq<string> {
    [IntToString(n), Plural(unit, n)]
  }

  /** A count and its unit, written only for a positive count. */
  function OptionalPair(n: int, unit: string): seq<string> {
    if n > 0 then Pair(n, unit) else []
  }

  /** The words of the formatted time: the hour pair exactly when there are hours, the minute
      pair exactly when there are minutes, and the seconds pair always, each unit pluralised
      unless its count is 1. */
  lemma {:induction false} FormatTimeWords(ms: int)
    ensures var d := Duration(ms);
      Words(FormatTime(ms))
      == (if d.hr > 0 then [IntToString(d.hr), Plural("hr", d.hr)] else [])
       + (if d.min > 0 then [IntToString(d.min), Plural("min", d.min)] else [])
       + [IntToString(d.sec), Plural("sec", d.sec)]
  {
    FormatClockWords(Duration(ms));
  }

  lemma {:induction false} FormatClockWords(d: QuizClock.Clock)
    ensures Words(FormatClock(d)) == OptionalPair(d.hr, "hr") + (OptionalPair(d.min, "min") + Pair(d.sec, "sec"))
  {
    var secs := Segment(d.sec, "sec");
    SecondsWords(d.sec);
    OptionalSegmentWords(d.min, "min", secs);
    OptionalSegmentWords(d.hr, "hr", OptionalSegment(d.min, "min") + secs);
  }

  /** The words of an optional segment followed by more text. */
  lemma {:induction false} OptionalSegmentWords(n: int, unit: string, rest: string)
    requires ' ' !in unit
    ensures Words(OptionalSegment(n, unit) + rest) == OptionalPair(n, unit) + Words(rest)
  {
    if n > 0 {
      SegmentWords(n, unit, rest);
      assert OptionalSegment(n, unit) + rest == Segment(n, unit) + " " + rest;
    } else {
      assert OptionalSegment(n, unit) + rest == rest;
      assert OptionalPair(n, unit) + Words(rest) == Words(rest);
    }
  }

  lemma {:induction false} SecondsWords(n: int)
    ensures Words(Segment(n, "sec")) == Pair(n, "sec")
  {
    IntToStringNoSpace(n);
    assert ' ' !in Plural("sec", n);
    WordsJoin(IntToString(n), Plural("sec", n));
    WordsNoSpace(Plural("sec", n));
  }

  lemma {:induction false} PluralUnits(n: int)
    ensures UnitSeconds(Plural("hr", n)) == Some(3600)
    ensures UnitSeconds(Plural("min", n)) == Some(60)
    ensures UnitSeconds(Plural("sec", n)) == Some(1)
  {
    if n != 1 {
      assert Plural("hr", n) == "hrs";
      assert Plural("min", n) == "mins";
      assert Plural("sec", n) == "secs";
    }
  }

  lemma {:induction false} ReadPair(n: nat, unit: string, u: int, rest: seq<string>)
    requires UnitSeconds(Plural(unit, n)) == Some(u)
    requires ReadDuration(rest).Some?
    ensures ReadDuration(Pair(n, unit) + rest) == Some(n * u + ReadDuration(rest).value)
  {
    var w := Pair(n, unit) + rest;
    assert w[0] == IntToString(n) && w[1] == Plural(unit, n) && w[2..] == rest;
    NatToStringValue(n);
    ReadDurationStep(w);
  }

  /** Reading the formatted time back gives the whole seconds of the limit: nothing but the
      sub-second remainder is lost. */
  lemma {:induction false} FormatTimeReadsBack(ms: int)
    requires ms >= 0
    ensures ReadDuration(Words(FormatTime(ms))) == Some(ms / 1000)
  {
    QuizClock.InitialClockExact(ms);
    FormatClockReadsBack(Duration(ms));
  }

  lemma {:induction false} FormatClockReadsBack(d: QuizClock.Clock)
    requires d.hr >= 0 && d.min >= 0 && d.sec >= 0
    ensures ReadDuration(Words(FormatClock(d))) == Some(QuizClock.Seconds(d))
  {
    FormatClockWords(d);
    ClockWordsReadBack(d.hr, d.min, d.sec);
  }

  /** The words of a clock read back as its seconds. */
  lemma {:induction false} ClockWordsReadBack(hr: nat, min: nat, sec: nat)
    ensures ReadDuration(OptionalPair(hr, "hr") + (OptionalPair(min, "min") + Pair(sec, "sec")))
      == Some(3600 * hr + 60 * min + sec)
  {
    ReadSeconds(sec);
    PluralUnits(min);
    PluralUnits(hr);
    var tail := OptionalPair(min, "min") + Pair(sec, "sec");
    ReadOptionalPair(min, "min", 60, Pair(sec, "sec"), sec);
    ReadOptionalPair(hr, "hr", 3600, tail, min * 60 + sec);
  }

  lemma {:induction false} ReadSeconds(n: nat)
    ensures ReadDuration(Pair(n, "sec")) == Some(n)
  {
    PluralUnits(n);
    ReadPair(n, "sec", 1, []);
    assert Pair(n, "sec") + [] == Pair(n, "sec");
  }

  /** A pair that is written only for a positive count adds count times its unit. */
  lemma {:induction false} ReadOptionalPair(n: int, unit: string, u: int, rest: seq<string>, r: int)
    requires n >= 0
    requires UnitSeconds(Plural(unit, n)) == Some(u)
    requires ReadDuration(rest) == Some(r)
    ensures ReadDuration(OptionalPair(n, unit) + rest) == Some(n * u + r)
  {
    if n > 0 {
      ReadPair(n, unit, u, rest);
    } else {
      assert OptionalPair(n, unit) + rest == rest;
    }
  }

  lemma FormatTimeExamples()
    ensures FormatTime(3661000) == "1 hr 1 min 1 sec"
    ensures FormatTime(3600000) == "1 hr 0 secs"
  {
    assert Duration(3661000) == QuizClock.Clock(1, 1, 1);
    assert Duration(3600000) == QuizClock.Clock(1, 0, 0);
    OneOfEach();
    WholeHour();
  }

  lemma OneOfEach()
    ensures FormatClock(QuizClock.Clock(1, 1, 1)) == "1 hr 1 min 1 sec"
  {
    assert IntToString(1) == "1";
  }

  lemma WholeHour()
    ensures FormatClock(QuizClock.Clock(1, 0, 0)) == "1 hr 0 secs"
  {
    assert IntToString(1) == "1";
    assert IntToString(0) == "0";
  }

  // ----- the attempt notice -----

  /** The reply to the quiz status request. */
  datatype StatusReply = StatusFailed | Status(message: Option<string>)

  /** `quizTaken` after the status request, starting from `before`: true exactly when the
      message is "Quiz has been taken"; a failed request leaves it as it was. */
  function QuizTakenAfter(reply: StatusReply, before: bool): (taken: bool)
    ensures reply.Status? ==> (taken <==> reply.message == Some("Quiz has been taken"))
    ensures reply.StatusFailed? ==> taken == before
  {
    match reply
    case StatusFailed => before
    case Status(m) => m == Some("Quiz has been taken")
  }

  /** The screen starts with `quizTaken` false, so only that exact message shows the notice. */
  lemma NoticeOnlyForTakenMessage(reply: StatusReply)
    ensures QuizTakenAfter(reply, false) <==> reply == Status(Some("Quiz has been taken"))
  {
  }
}
