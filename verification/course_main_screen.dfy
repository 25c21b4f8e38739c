/** The course introduction screen: whether the user has the course, whether it is free, the
    purchase panel or the access button, and the price for the chosen access duration. */
module CourseMainScreen {
  import opened Js
  import opened CourseAccess
  import opened StoreExtras

  /** The reply to the course request: an exception, or a reply with its `ok` flag and the
      `course` it carries. */
  datatype IntroReply = IntroFailed | IntroAnswered(ok: bool, course: Record)

  /** How a purchase ended: the payment sheet failed or was closed, the server answered with
      an error, or the purchase went through. */
  datatype PurchaseOutcome = PaymentFailed | PurchaseError(error: string) | Purchased

  /** The keys of the access-duration dropdown, for one to four years. */
  const AccessKeys: seq<string> := ["1", "2", "3", "4"]

  /** `courseCategory === 'FREE'`: only the string itself. */
  predicate IsFreeCourse(course: Record) {
    Field(course, "courseCategory") == Some(Text("FREE"))
  }

  /** The purchase panel: `!purchased && !isFree`. */
  predicate PanelShown(purchased: bool, isFree: bool) {
    !purchased && !isFree
  }

  /** The access button: `purchased || isFree`. */
  predicate AccessButtonShown(purchased: bool, isFree: bool) {
    purchased || isFree
  }

  /** The access button's label. */
  function AccessLabel(isFree: bool): string {
    if isFree then "Start Learning" else "Continue Learning"
  }

  /** Exactly one of the panel and the button is on screen, and the button says "Start
      Learning" only for a free course. */
  lemma PanelOrButton(purchased: bool, isFree: bool)
    ensures PanelShown(purchased, isFree) != AccessButtonShown(purchased, isFree)
    ensures AccessLabel(isFree) == "Start Learning" <==> isFree
  {
  }

  /** `Math.round`: the nearest integer, a half rounding up. */
  function Round(x: real): int {
    (x + 0.5).Floor
  }

  /** `Round` gives the integer nearest to its argument. */
  lemma RoundNearest(x: real)
    ensures Round(x) as real - 0.5 <= x < Round(x) as real + 0.5
  {
  }

  /** Rounding a whole number changes nothing. */
  lemma RoundWhole(n: int)
    ensures Round(n as real) == n
  {
  }

  /** `courseData.courseDiscount` as `>` and `/` read it: a number, or NaN (None). */
  function CourseDiscount(course: Record): Option<real> {
    ToNumber(AsText(Field(course, "courseDiscount")))
  }

  /** The multi-year factor: 0.8 for two years, 0.7 for three, 0.6 for four, none otherwise. */
  function WithYearFactor(price: real, years: int): real {
    if years == 2 then price * 0.8
    else if years == 3 then price * 0.7
    else if years == 4 then price * 0.6
    else price
  }

  /** At most one percentage discount: the store-wide one when it is positive, otherwise the
      course's own when that is positive, otherwise none. */
  function WithDiscount(price: real, global: int, course: Option<real>): real {
    if global > 0 then price * (1.0 - global as real / 100.0)
    else if course.Some? && course.value > 0.0 then price * (1.0 - course.value / 100.0)
    else price
  }

  /** The discounted price, before rounding and in exact arithmetic, of the price `calculated`
      for `years` years. */
  function DiscountedPrice(calculated: int, years: int, global: int, course: Option<real>): real {
    WithDiscount(WithYearFactor(calculated as real, years), global, course)
  }

  /** `priceBeforeDiscount`: NaN (None) unless both the price and the years parse. */
  function PriceBefore(course: Record, accessYears: string): Option<int> {
    var base, years := ParseInt(AsText(Field(course, "coursePrice"))), ParseInt(accessYears);
    if base.Some? && years.Some? then Some(base.value * years.value) else None
  }

  /** `priceAfterDiscount`. */
  function PriceAfter(course: Record, accessYears: string, extras: Extras): Option<int> {
    var base, years := ParseInt(AsText(Field(course, "coursePrice"))), ParseInt(accessYears);
    if base.Some? && years.Some? then
      Some(Round(DiscountedPrice(base.value * years.value, years.value, extras.allCoursesDiscount, CourseDiscount(course))))
    else None
  }

  /** A positive store-wide discount overrides the course's own: the course discount then
      makes no difference. */
  lemma GlobalDiscountWins(calculated: int, years: int, global: int, c1: Option<real>, c2: Option<real>)
    requires global > 0
    ensures DiscountedPrice(calculated, years, global, c1) == DiscountedPrice(calculated, years, global, c2)
  {
  }

  /** With discounts between 0 and 100 percent, the charged price lies between zero and the
      undiscounted price. */
  lemma DiscountNeverRaises(calculated: int, years: int, global: int, course: Option<real>)
    requires calculated >= 0
    requires 0 <= global <= 100
    requires course.Some? ==> course.value <= 100.0
    ensures 0 <= Round(DiscountedPrice(calculated, years, global, course)) <= calculated
  {
    var full := calculated as real;
    var y := WithYearFactor(full, years);
    assert 0.0 <= y <= full;
    if global > 0 {
      ScaleDown(y, 1.0 - global as real / 100.0);
    } else if course.Some? && course.value > 0.0 {
      ScaleDown(y, 1.0 - course.value / 100.0);
    }
  }

  lemma ScaleDown(y: real, f: real)
    requires y >= 0.0 && 0.0 <= f <= 1.0
    ensures 0.0 <= y * f <= y
  {
  }

  /** A course at 1000 for two years with its own 10% discount: 2000 before discount, 1440
      after; a store-wide 25% discount would replace the course's, giving 1200. */
  lemma TwoYearExample()
    ensures Round(DiscountedPrice(2000, 2, 0, Some(10.0))) == 1440
    ensures Round(DiscountedPrice(2000, 2, 25, Some(10.0))) == 1200
  {
    RoundWhole(1440);
    RoundWhole(1200);
  }

  /** The dropdown's keys read as one to four years. */
  lemma {:induction false} AccessKeyYears(i: nat)
    requires i < |AccessKeys|
    ensures ParseInt(AccessKeys[i]) == Some(i + 1)
  {
    SingleDigit(i + 1);
    assert AccessKeys[i] == [DigitChar(i + 1)];
  }

  lemma {:induction false} SingleDigit(d: nat)
    requires 1 <= d < 10
    ensures ParseInt([DigitChar(d)]) == Some(d)
  {
    ParseIntReadsDecimal(d, "");
    assert IntToString(d) + "" == [DigitChar(d)];
  }

  /** With a whole-number price, the price before discount is exactly the price times the
      years chosen in the dropdown. */
  lemma {:induction false} PriceBeforeExact(course: Record, n: nat, i: nat)
    requires Field(course, "coursePrice") == Some(Num(NatToString(n)))
    requires i < |AccessKeys|
    ensures PriceBefore(course, AccessKeys[i]) == Some(n * (i + 1))
  {
    ParseIntReadsDecimal(n, "");
    assert IntToString(n) + "" == AsText(Field(course, "coursePrice"));
    AccessKeyYears(i);
  }

  /** With a whole-number price and a key of the dropdown, the discounted price is the
      rounded discount of the price times the years chosen. */
  lemma {:induction false} PriceAfterForYears(course: Record, n: nat, i: nat, extras: Extras)
    requires Field(course, "coursePrice") == Some(Num(NatToString(n)))
    requires i < |AccessKeys|
    ensures PriceAfter(course, AccessKeys[i], extras)
      == Some(Round(DiscountedPrice(n * (i + 1), i + 1, extras.allCoursesDiscount, CourseDiscount(course))))
  {
    ParseIntReadsDecimal(n, "");
    assert IntToString(n) + "" == AsText(Field(course, "coursePrice"));
    AccessKeyYears(i);
    PricesOf(course, AccessKeys[i], extras, Some(n), Some(i + 1));
  }

  /** The two prices in terms of what `parseInt` reads from the price and the years. */
  lemma {:induction false} PricesOf(course: Record, accessYears: string, extras: Extras, base: Option<int>, years: Option<int>)
    requires base == ParseInt(AsText(Field(course, "coursePrice"))) && years == ParseInt(accessYears)
    ensures base.None? || years.None? ==> PriceBefore(course, accessYears) == None && PriceAfter(course, accessYears, extras) == None
    ensures base.Some? && years.Some? ==> PriceBefore(course, accessYears) == Some(base.value * years.value)
    ensures base.Some? && years.Some? ==>
      PriceAfter(course, accessYears, extras) ==
      Some(Round(DiscountedPrice(base.value * years.value, years.value, extras.allCoursesDiscount, CourseDiscount(course))))
  {
  }

  /** The discounting steps of `calculatePrices`, applied in turn to the price for the chosen
      years: the multi-year factor, then the store-wide discount or else the course's own. */
  method ApplyDiscounts(calculatedPrice: int, years: int, global: int, courseDiscount: Option<real>)
    returns (discountedPrice: real)
    ensures discountedPrice == DiscountedPrice(calculatedPrice, years, global, courseDiscount)
  {
    discountedPrice := calculatedPrice as real;
    if years == 2 {
      discountedPrice := discountedPrice * 0.8;
    }
    if years == 3 {
      discountedPrice := discountedPrice * 0.7;
    }
    if years == 4 {
      discountedPrice := discountedPrice * 0.6;
    }
    if global > 0 {
      discountedPrice := discountedPrice * (1.0 - global as real / 100.0);
    } else if courseDiscount.Some? && courseDiscount.value > 0.0 {
      discountedPrice := discountedPrice * (1.0 - courseDiscount.value / 100.0);
    }
  }

  class Screen {
    /** `courseData`: None until a course arrives. */
    var courseData: Option<Record>
    var loading: bool
    var purchased: bool
    var isFree: bool
    /** The key chosen in the access-duration dropdown. */
    var accessYears: string
    var extras: Extras
    /** The two prices; None is NaN. */
    var priceBeforeDiscount: Option<int>
    var priceAfterDiscount: Option<int>

    /** The price effect on `accessYears`, `courseData` and `extras` has caught up: once a
        course is held, the two prices are those `calculatePrices` gives for it. */
    predicate PricesCurrent()
      reads this
    {
      courseData.Some? ==>
        priceBeforeDiscount == PriceBefore(courseData.value, accessYears) &&
        priceAfterDiscount == PriceAfter(courseData.value, accessYears, extras)
    }

    constructor ()
      ensures courseData == None && loading && !purchased && !isFree
      ensures accessYears == "1" && extras == Defaults
      ensures priceBeforeDiscount == Some(0) && priceAfterDiscount == Some(0)
      ensures PricesCurrent()
    {
      courseData := None;
      loading := true;
      purchased := false;
      isFree := false;
      accessYears := "1";
      extras := Defaults;
      priceBeforeDiscount := Some(0);
      priceAfterDiscount := Some(0);
    }

    /** `fetchCourseData`: an ok reply stores the course and whether it is free; anything
        else leaves them. Loading ends either way. */
    method FetchCourseData(reply: IntroReply)
      requires PricesCurrent()
      modifies this`courseData, this`isFree, this`loading, this`priceBeforeDiscount, this`priceAfterDiscount
      ensures !loading
      ensures reply.IntroAnswered? && reply.ok ==>
        courseData == Some(reply.course) && isFree == IsFreeCourse(reply.course)
      ensures reply.IntroAnswered? && reply.ok ==>
        priceBeforeDiscount == PriceBefore(reply.course, accessYears) &&
        priceAfterDiscount == PriceAfter(reply.course, accessYears, extras)
      ensures !(reply.IntroAnswered? && reply.ok) ==>
        courseData == old(courseData) && isFree == old(isFree) &&
        priceBeforeDiscount == old(priceBeforeDiscount) && priceAfterDiscount == old(priceAfterDiscount)
      ensures PricesCurrent()
    {
      if reply.IntroAnswered? && reply.ok {
        courseData := Some(reply.course);
        isFree := Field(reply.course, "courseCategory") == Some(Text("FREE"));
        CalculatePrices();
      }
      loading := false;
    }

    /** `checkCourseOwnership` for the course just received: the user has it when the reply
        is ok or the price reads as zero; an exception means not purchased. */
    method CheckCourseOwnership(course: Record, reply: OwnershipReply)
      modifies this`purchased
      ensures purchased <==> reply.Answered? && (reply.ok || PriceIsZero(course))
    {
      match reply
      case Answered(ok) =>
        if ok || ParseInt(AsText(Field(course, "coursePrice"))) == Some(0) {
          purchased := true;
        } else {
          purchased := false;
        }
      case Threw =>
        purchased := false;
    }

    /** `getExtras`; new settings re-run the price effect once a course is held. */
    method GetExtras(reply: ExtrasReply)
      requires PricesCurrent()
      modifies this`extras, this`priceBeforeDiscount, this`priceAfterDiscount
      ensures extras == AfterExtrasReply(reply, old(extras))
      ensures courseData.None? ==>
        priceBeforeDiscount == old(priceBeforeDiscount) && priceAfterDiscount == old(priceAfterDiscount)
      ensures PricesCurrent()
    {
      if reply.ExtrasAnswered? {
        extras := reply.extras;
        PriceEffect();
      }
    }

    /** A choice in the access-duration dropdown; a different key re-runs the price effect
        once a course is held. */
    method SelectAccessYears(key: string)
      requires PricesCurrent()
      modifies this`accessYears, this`priceBeforeDiscount, this`priceAfterDiscount
      ensures accessYears == key
      ensures courseData.None? ==>
        priceBeforeDiscount == old(priceBeforeDiscount) && priceAfterDiscount == old(priceAfterDiscount)
      ensures PricesCurrent()
    {
      if key != accessYears {
        accessYears := key;
        PriceEffect();
      }
    }

    /** The effect on `accessYears`, `courseData` and `extras`: `calculatePrices` once a
        course is held, nothing before. */
    method PriceEffect()
      modifies this`priceBeforeDiscount, this`priceAfterDiscount
      ensures PricesCurrent()
      ensures courseData.None? ==>
        priceBeforeDiscount == old(priceBeforeDiscount) && priceAfterDiscount == old(priceAfterDiscount)
    {
      if courseData.Some? {
        CalculatePrices();
      }
    }

    /** `calculatePrices`: the base price times the years, and the discounted price, each
        rounded to a whole number; NaN when the price or the years do not parse. */
    method CalculatePrices()
      requires courseData.Some?
      modifies this`priceBeforeDiscount, this`priceAfterDiscount
      ensures priceBeforeDiscount == PriceBefore(courseData.value, accessYears)
      ensures priceAfterDiscount == PriceAfter(courseData.value, accessYears, extras)
    {
      var course := courseData.value;
      var basePrice := ParseInt(AsText(Field(course, "coursePrice")));
      var years := ParseInt(accessYears);
      PricesOf(course, accessYears, extras, basePrice, years);
      if basePrice.None? || years.None? {
        priceBeforeDiscount := None;
        priceAfterDiscount := None;
      } else {
        SetPrices(basePrice.value, years.value, CourseDiscount(course));
      }
    }

    /** The two prices of `calculatePrices` once the base price and the years have parsed. */
    method SetPrices(basePrice: int, years: int, courseDiscount: Option<real>)
      modifies this`priceBeforeDiscount, this`priceAfterDiscount
      ensures priceBeforeDiscount == Some(basePrice * years)
      ensures priceAfterDiscount
        == Some(Round(DiscountedPrice(basePrice * years, years, extras.allCoursesDiscount, courseDiscount)))
    {
      var calculatedPrice := basePrice * years;
      var discountedPrice := ApplyDiscounts(calculatedPrice, years, extras.allCoursesDiscount, courseDiscount);
      RoundWhole(calculatedPrice);
      priceBeforeDiscount := Some(Round(calculatedPrice as real));
      priceAfterDiscount := Some(Round(discountedPrice));
    }
    /** `buyCourse`: the payment sheet asks for the discounted price in paise; only a purchase
        that goes through marks the course as purchased. */
    method BuyCourse(outcome: PurchaseOutcome) returns (amountPaise: Option<int>)
      modifies this`purchased, this`loading
      ensures amountPaise == if priceAfterDiscount.Some? then Some(priceAfterDiscount.value * 100) else None
      ensures PricesCurrent() && courseData.Some? ==>
        amountPaise.Some? == PriceAfter(courseData.value, accessYears, extras).Some? &&
        (amountPaise.Some? ==> amountPaise.value == 100 * PriceAfter(courseData.value, accessYears, extras).value)
      ensures purchased == (old(purchased) || outcome == Purchased)
      ensures !loading
    {
      loading := true;
      amountPaise := if priceAfterDiscount.Some? then Some(priceAfterDiscount.value * 100) else None;
      if outcome == Purchased {
        purchased := true;
      }
      loading := false;
    }
  }
}
