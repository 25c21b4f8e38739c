/** What the course screens share: the records they pass to each other, `parseInt` of a
    course price, the three-valued `isDemo` flag an ownership reply sets, and the two gate
    expressions the subjects, inside-subject and chapter screens have in common. */
module CourseAccess {
  import opened Js

  /** A JSON value as the screens see it: a string, a number (held as the text `String(n)`
      gives it), an object, or anything else (an array, a boolean, null), held as its
      `String` text. */
  datatype Value =
    | Text(s: string)
    | Num(repr: string)
    | Obj(fields: map<string, Value>)
    | Other(text: string)

  /** An object: its defined fields. A field set to `undefined` is absent. */
  type Record = map<string, Value>

  function Field(r: Record, key: string): (v: Option<Value>)
    ensures v.Some? <==> key in r
    ensures v.Some? ==> v.value == r[key]
  {
    if key in r then Some(r[key]) else None
  }

  /** `String(v)`, with `undefined` for a missing field. */
  function AsText(v: Option<Value>): string {
    match v
    case None => "undefined"
    case Some(Text(s)) => s
    case Some(Num(r)) => r
    case Some(Obj(_)) => "[object Object]"
    case Some(Other(t)) => t
  }

  /** The object literal `{ ..., key: v }`: a key whose value is undefined is left out. */
  function With(r: Record, key: string, v: Option<Value>): (w: Record)
    ensures Field(w, key) == v
    ensures forall k :: k != key ==> Field(w, k) == Field(r, k)
  {
    if v.Some? then r[key := v.value] else r - {key}
  }

  /** `parseInt(course.coursePrice, 10) == 0`: false for NaN. */
  predicate PriceIsZero(course: Record) {
    ParseInt(AsText(Field(course, "coursePrice"))) == Some(0)
  }

  /** A record without a price is never read as free: `parseInt(undefined)` is NaN. */
  lemma {:induction false} NoPriceIsNotZero(course: Record)
    requires "coursePrice" !in course
    ensures !PriceIsZero(course)
  {
    var u := "undefined";
    assert TrimStart(u) == u by {
      assert !IsJsSpace(u[0]);
    }
    assert DigitRun(u) == 0 by {
      assert !IsDigit(u[0]);
    }
  }

  /** A whole-number price reads as zero exactly when it is zero. */
  lemma {:induction false} WholePriceIsZero(course: Record, n: int)
    requires Field(course, "coursePrice") == Some(Num(IntToString(n)))
    ensures PriceIsZero(course) <==> n == 0
  {
    ParseIntReadsDecimal(n, "");
    assert IntToString(n) + "" == IntToString(n);
  }

  /** `parseInt` drops the fraction, so a price below one ("0.99", say) reads as zero too. */
  lemma {:induction false} FractionalPriceIsZero(course: Record, fraction: string)
    requires Field(course, "coursePrice") == Some(Num("0." + fraction))
    ensures PriceIsZero(course)
  {
    ZeroPointReadsZero(fraction);
  }

  lemma {:induction false} ZeroPointReadsZero(fraction: string)
    ensures ParseInt("0." + fraction) == Some(0)
  {
    var s := "0." + fraction;
    assert DigitRun(s[1..]) == 0;
    assert DigitRun(s) == 1;
    assert s[..1] == "0";
    assert DigitsValue(s[..1]) == 10 * DigitsValue([]) + DigitValue('0') == 0;
    assert LeadingDigits(s) == Some(0);
    ParseIntDigits(s, 0);
  }

  /** `isDemo`: null until an ownership check settles it, then true (not owned) or false. */
  datatype Tri = Null | True | False

  /** How an ownership check ended: a reply with its `ok` flag, or an exception (the request
      failed or its body was not JSON). */
  datatype OwnershipReply = Answered(ok: bool) | Threw

  /** The flag an answered ownership check sets: false for an owner, or for a course whose
      price reads as zero; true otherwise. */
  function DemoFromAnswer(ok: bool, course: Record): (d: Tri)
    ensures d != Null
    ensures d == False <==> ok || PriceIsZero(course)
  {
    if ok then False else if PriceIsZero(course) then False else True
  }

  /** The flag after an ownership check: an answer settles it; after an exception it is
      `onThrow`, which each screen chooses. */
  function AfterOwnership(reply: OwnershipReply, course: Record, onThrow: Tri): (after: Tri)
    ensures reply.Threw? ==> after == onThrow
    ensures reply.Answered? ==> after != Null && (after == False <==> reply.ok || PriceIsZero(course))
  {
    match reply
    case Answered(ok) => DemoFromAnswer(ok, course)
    case Threw => onThrow
  }

  /** The lock icon and the Premium badge: `isDemo && access == 'PAID'`. Only a true flag is
      truthy; an `access` that is missing compares like any other text. */
  predicate ShowsLock(isDemo: Tri, access: string) {
    isDemo == True && access == "PAID"
  }

  /** The quiz gate of the subjects and inside-subject screens:
      `quiz.access != 'PAID' || isDemo == false`. */
  predicate QuizOpens(isDemo: Tri, access: string) {
    access != "PAID" || isDemo == False
  }

  /** The route to the quiz details screen, with the context each screen passes. */
  datatype QuizRoute = QuizRoute(
    course: Record,
    subject: Option<Value>,
    chapter: Option<Value>,
    quiz: Value,
    quizType: string)

  /** `{ ...base, ...over }`: every field of both, the value from `over` where both have one. */
  function Merge(base: Record, over: Record): (r: Record)
    ensures r.Keys == base.Keys + over.Keys
    ensures forall k :: k in over ==> r[k] == over[k]
    ensures forall k :: k in base && k !in over ==> r[k] == base[k]
  {
    base + over
  }
}
