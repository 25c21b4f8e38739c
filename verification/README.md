# EducateBharat client core, modelled in Dafny

This project models the client-side logic of the EducateBharat React Native app: courses and
their quizzes, plus a small store. Each core screen becomes one Dafny module. A screen whose
handlers update React state becomes a `class` with that state as fields. Its pure helpers
(price formulas, validation chains, gate expressions) become functions, and lemmas state what
those helpers guarantee.

- **Quiz attempt** (`CourseQuizQuestionScreen.jsx`), modules `QuizClock`, `QuizAnswers`,
  `QuizSession` and `StringOrder`:
  - the hh:mm:ss countdown: its start value from the time limit, the once-a-second step that
    borrows minutes and hours, the display, and the automatic submission when it finds zero;
  - the answer map and its two handlers: replacing, and accumulating with a sorted,
    duplicate-free entry;
  - the exact-match scoring with negative marks, and the maximum marks;
  - navigation between questions;
  - the submission, including the stale values the timer's closure submits.
- **Quiz details** (`CourseQuizScreen.jsx`), module `QuizPreview`: `formatTime` and the
  "already attempted" notice.
- **Course gates** (`CourseChapterScreen.jsx`, `CourseSubjectsScreen.jsx`,
  `CourseInsideSubjectScreen.jsx`), modules `CourseAccess`, `ChapterScreen`,
  `SubjectsScreen`, `InsideSubjectScreen` and `GateComparison`:
  - the three-valued `isDemo` flag set by an ownership check;
  - the `parseInt(coursePrice) == 0` free-course test;
  - the tap gates and the lock badges, and the routes between the screens;
  - how the screens differ from one another.
- **Course purchase** (`CourseMainScreen.jsx`), module `CourseMainScreen`:
  - ownership and free status;
  - the purchase panel versus the access button;
  - the price for one to four years with the multi-year factor and one percentage discount;
  - the amount charged.
- **Store** (`CartScreen.jsx`, `ProductScreen.jsx`), modules `StoreExtras`, `CartScreen` and
  `ProductScreen`:
  - per-entry prices under the store-wide or the product discount, and the cart total with
    NaN propagation;
  - the effect that keeps the total in step with the cart;
  - the delivery address and its required fields;
  - the checkout amount and order;
  - the product quantity counter, the add-to-cart body, and the buy-now sequence that clears
    the cart first.
- **Sign-up and password reset** (`SignupScreen.jsx`, `CheckOtpSignup.jsx`,
  `ForgotPasswordScreen.jsx`):
  - the ordered validation chains;
  - the e-mail availability check;
  - the OTP countdown, the 4-character input and the code comparison;
  - the reset form.

Module `Js` holds the JavaScript semantics the screens rely on:
- `parseInt(s, 10)`: leading white space, a sign, and the longest run of digits;
- `Number(s)` for decimal text;
- the truncating `%` and truncation toward zero;
- `String(n)` and `padStart`.

Network replies, taps and timer ticks are parameters of the methods. Navigation and
notices are returned values.

## Model

| member | source | states |
|---|---|---|
| QuizClock.InitialClockExact | SRC/Pages/CourseScreens/CourseQuizQuestionScreen.jsx:16-20 | for a non-negative limit the initial timer has minutes and seconds below 60 and holds exactly the whole seconds of the limit |
| QuizClock.TickClock | SRC/Pages/CourseScreens/CourseQuizQuestionScreen.jsx:74-96 | a timer at 00:00:00 stays there; any other in-range timer stays in range and loses exactly one second, borrowing minutes and hours |
| QuizClock.Countdown | SRC/Pages/CourseScreens/CourseQuizQuestionScreen.jsx:73-97 | k runs of the callback take an in-range timer down by exactly k seconds, for k up to its value |
| QuizClock.AutoSubmitTick | SRC/Pages/CourseScreens/CourseQuizQuestionScreen.jsx:73-82 | the n-th run finds 00:00:00, and so submits, exactly when n is the limit in whole seconds plus one |
| QuizClock.Pad2TwoDigits | SRC/Pages/CourseScreens/CourseQuizQuestionScreen.jsx:313-317 | padStart(2, '0') of a number below 100 is two digits that read back as the number |
| QuizClock.ClockTextFields | SRC/Pages/CourseScreens/CourseQuizQuestionScreen.jsx:312-318 | an in-range timer under 100 hours displays as 8 characters, colons at 2 and 5, with three digit pairs reading back as hours, minutes, seconds |
| StringOrder.LeTotal | SRC/Pages/CourseScreens/CourseQuizQuestionScreen.jsx:240 | the default sort's code-unit comparison orders any two strings |
| StringOrder.LeTransitive | SRC/Pages/CourseScreens/CourseQuizQuestionScreen.jsx:240 | the comparison is transitive |
| StringOrder.LeAntisymmetric | SRC/Pages/CourseScreens/CourseQuizQuestionScreen.jsx:240 | two strings each no later than the other are equal |
| StringOrder.SortCorrect | SRC/Pages/CourseScreens/CourseQuizQuestionScreen.jsx:240 | the sort yields a sorted permutation of its input |
| StringOrder.SortedPermutationUnique | SRC/Pages/CourseScreens/CourseQuizQuestionScreen.jsx:240 | two sorted permutations of the same list are equal, so any correct sort gives the entry `.sort()` gives |
| StringOrder.NoDupPermutation | SRC/Pages/CourseScreens/CourseQuizQuestionScreen.jsx:239-240 | sorting a duplicate-free list keeps it duplicate-free |
| QuizAnswers.CompareAnswersIsSetEquality | SRC/Pages/CourseScreens/CourseQuizQuestionScreen.jsx:257-263 | for duplicate-free lists, compareAnswers holds if and only if both lists hold the same set of options |
| QuizAnswers.CompareAnswersOrderBlind | SRC/Pages/CourseScreens/CourseQuizQuestionScreen.jsx:257-263 | reordering the given answers never changes the comparison's result |
| QuizAnswers.ScoreAppend | SRC/Pages/CourseScreens/CourseQuizQuestionScreen.jsx:103-130 | the score of a question list is the sum of the scores of its parts |
| QuizAnswers.ScoreWithoutAnswers | SRC/Pages/CourseScreens/CourseQuizQuestionScreen.jsx:105-128 | with no answers the score is 0 |
| QuizAnswers.ScoreBounds | SRC/Pages/CourseScreens/CourseQuizQuestionScreen.jsx:103-130 | with non-negative marks, the score lies between minus the negative marks of scorable questions and the maximum marks |
| QuizAnswers.PerfectScore | SRC/Pages/CourseScreens/CourseQuizQuestionScreen.jsx:108-128 | answering every question exactly as its key scores the maximum marks |
| QuizAnswers.ScoreFrame | SRC/Pages/CourseScreens/CourseQuizQuestionScreen.jsx:108-111 | entries for ids that are not among the questions never affect the score |
| QuizAnswers.ScoreAfterOneAnswer | SRC/Pages/CourseScreens/CourseQuizQuestionScreen.jsx:103-130 | with distinct ids, changing one entry changes the score only by that question's change of contribution |
| QuizAnswers.SetAnswer | SRC/Pages/CourseScreens/CourseQuizQuestionScreen.jsx:223-229 | the question's entry becomes the one-element list; every other entry is kept, and no other key appears or disappears |
| QuizAnswers.AddChoice | SRC/Pages/CourseScreens/CourseQuizQuestionScreen.jsx:231-248 | an answer already present changes nothing; a new one gives a sorted entry holding the old answers plus the new one; other entries are kept |
| QuizAnswers.SetAnswerKeepsClean | SRC/Pages/CourseScreens/CourseQuizQuestionScreen.jsx:223-229 | the replacing handler keeps every entry non-empty, sorted and duplicate-free |
| QuizAnswers.AddChoiceEntry | SRC/Pages/CourseScreens/CourseQuizQuestionScreen.jsx:236-246 | appending a new option to a duplicate-free entry and sorting gives a sorted, duplicate-free entry of the old options plus the new one |
| QuizAnswers.AddChoiceKeepsClean | SRC/Pages/CourseScreens/CourseQuizQuestionScreen.jsx:231-248 | the accumulating handler keeps every entry non-empty, sorted and duplicate-free |
| QuizAnswers.Respond | SRC/Pages/CourseScreens/CourseQuizQuestionScreen.jsx:368-422 | MCQ and Short Answer questions go through the replacing handler, MoreThanOne through the accumulating one, other types change nothing |
| QuizAnswers.RespondKeepsOneAnswerEach | SRC/Pages/CourseScreens/CourseQuizQuestionScreen.jsx:368-422 | with distinct ids, answering any question keeps every answered MCQ and short-answer question at exactly one answer |
| QuizSession.LoadOutcomeOf | SRC/Pages/CourseScreens/CourseQuizQuestionScreen.jsx:44-65 | the attempt starts if and only if the reply holds a non-empty list under the quiz type's key; an empty list leaves the screen; anything else stays loading |
| QuizSession.AfterSubmit | SRC/Pages/CourseScreens/CourseQuizQuestionScreen.jsx:194-214 | an ok reply leads to the results with the submitted score, total and quiz type; otherwise the reply's error is shown |
| QuizSession.NextIndex | SRC/Pages/CourseScreens/CourseQuizQuestionScreen.jsx:286-288 | Next moves forward by one and stops at the last question, never leaving the list |
| QuizSession.PreviousIndex | SRC/Pages/CourseScreens/CourseQuizQuestionScreen.jsx:290-292 | Previous moves back by one and stops at the first question |
| QuizSession.Attempt.constructor | SRC/Pages/CourseScreens/CourseQuizQuestionScreen.jsx:16-26 | the attempt starts loading, with no questions or answers, score 0 and the timer from the time limit |
| QuizSession.Attempt.Load | SRC/Pages/CourseScreens/CourseQuizQuestionScreen.jsx:29-102 | loading ends on every outcome; only a started attempt holds the fetched questions and runs the countdown; the score invariant holds |
| QuizSession.Attempt.TallyScore | SRC/Pages/CourseScreens/CourseQuizQuestionScreen.jsx:103-130 | the loop's total is the score of all questions under the current answers |
| QuizSession.Attempt.GetMaxMarks | SRC/Pages/CourseScreens/CourseQuizQuestionScreen.jsx:250-256 | the loop's total is the sum of all questions' marks |
| QuizSession.Attempt.HandleAnswerChange | SRC/Pages/CourseScreens/CourseQuizQuestionScreen.jsx:223-229 | the answer map becomes the replacing handler's result and the score is recomputed; entries stay clean |
| QuizSession.Attempt.HandleAnswerChangeMoreThanOne | SRC/Pages/CourseScreens/CourseQuizQuestionScreen.jsx:231-248 | the answer map becomes the accumulating handler's result and the score matches it; entries stay clean |
| QuizSession.Attempt.AnswerCurrent | SRC/Pages/CourseScreens/CourseQuizQuestionScreen.jsx:368-422 | a tap or keystroke on the question on screen updates the map as its type dictates and keeps the score in step |
| QuizSession.Attempt.HandleNext | SRC/Pages/CourseScreens/CourseQuizQuestionScreen.jsx:286-288 | the index becomes NextIndex of the old one and stays within the questions |
| QuizSession.Attempt.HandlePrevious | SRC/Pages/CourseScreens/CourseQuizQuestionScreen.jsx:290-292 | the index becomes PreviousIndex of the old one |
| QuizSession.Attempt.SaveSubmission | SRC/Pages/CourseScreens/CourseQuizQuestionScreen.jsx:162-192 | a manual submission sends the live answers, their score and the maximum marks |
| QuizSession.Attempt.TimerTick | SRC/Pages/CourseScreens/CourseQuizQuestionScreen.jsx:73-97 | a run that finds zero stops the countdown and submits score 0 with no answers, the values captured when the countdown started; otherwise the timer ticks |
| Js.Rem | SRC/Pages/CourseScreens/CourseQuizScreen.jsx:91-92 | JavaScript's `%`: the dividend minus the divisor times the quotient truncated toward zero, equal to the mathematical remainder for a non-negative dividend |
| QuizPreview.Duration | SRC/Pages/CourseScreens/CourseQuizScreen.jsx:89-92 | formatTime's hours, minutes and seconds are the question screen's initial timer for the same limit |
| QuizPreview.FormatTimeWords | SRC/Pages/CourseScreens/CourseQuizScreen.jsx:94 | the text has an hour pair exactly when there are hours, a minute pair exactly when there are minutes, and always a seconds pair; a unit is plural unless its count is 1 |
| QuizPreview.FormatClockWords | SRC/Pages/CourseScreens/CourseQuizScreen.jsx:94 | the words of the text are the optional hour pair, the optional minute pair and the seconds pair |
| QuizPreview.FormatTimeReadsBack | SRC/Pages/CourseScreens/CourseQuizScreen.jsx:89-95 | reading the text back as number-unit pairs gives the whole seconds of the limit |
| QuizPreview.FormatClockReadsBack | SRC/Pages/CourseScreens/CourseQuizScreen.jsx:94 | reading the text of any non-negative timer back gives its total seconds |
| QuizPreview.FormatTimeExamples | SRC/Pages/CourseScreens/CourseQuizScreen.jsx:89-95 | 3661000 ms shows as "1 hr 1 min 1 sec"; 3600000 ms as "1 hr 0 secs" |
| QuizPreview.QuizTakenAfter | SRC/Pages/CourseScreens/CourseQuizScreen.jsx:57-73 | a reply sets the flag if and only if its message is "Quiz has been taken"; a failed request leaves it |
| QuizPreview.NoticeOnlyForTakenMessage | SRC/Pages/CourseScreens/CourseQuizScreen.jsx:25-73 | from the initial false, the notice shows exactly for that message |
| Js.Pad2 | SRC/Pages/CourseScreens/CourseQuizQuestionScreen.jsx:313-317 | padStart(2, '0') gives at least two characters |
| Js.ParseIntReadsDecimal | SRC/Pages/CourseScreens/CourseChapterScreen.jsx:81 | parseInt reads back the decimal text of any integer, whatever non-digit text follows |
| CourseAccess.NoPriceIsNotZero | SRC/Pages/CourseScreens/CourseInsideSubjectScreen.jsx:82 | a course record without a price never reads as free |
| CourseAccess.WholePriceIsZero | SRC/Pages/CourseScreens/CourseChapterScreen.jsx:81 | a whole-number price reads as free if and only if it is 0 |
| CourseAccess.FractionalPriceIsZero | SRC/Pages/CourseScreens/CourseChapterScreen.jsx:81 | a price "0.xx" reads as free, because parseInt drops the fraction |
| CourseAccess.DemoFromAnswer | SRC/Pages/CourseScreens/CourseChapterScreen.jsx:77-87 | an answered check settles the flag, to false if and only if the reply is ok or the price reads as zero |
| CourseAccess.AfterOwnership | SRC/Pages/CourseScreens/CourseChapterScreen.jsx:59-92 | an answer settles the flag as above; an exception leaves the value the screen chooses |
| CourseAccess.With | SRC/Pages/CourseScreens/CourseSubjectsScreen.jsx:129 | an object literal field takes its value, an undefined one is absent, other fields are kept |
| CourseAccess.Merge | SRC/Pages/CourseScreens/CourseSubjectsScreen.jsx:39-42 | the spread holds the keys of both, the reply's value winning |
| ChapterScreen.Screen.constructor | SRC/Pages/CourseScreens/CourseChapterScreen.jsx:18-20 | the screen keeps its route parameters and starts with a null flag |
| ChapterScreen.Screen.CheckCourseOwnership | SRC/Pages/CourseScreens/CourseChapterScreen.jsx:59-92 | the flag after a check is AfterOwnership, an exception keeping it |
| ChapterScreen.Screen.TapItem | SRC/Pages/CourseScreens/CourseChapterScreen.jsx:167-282 | a tap does something if and only if the flag is false or the entry is FREE; it opens the entry's own player, PDF or quiz route with type "chapter" |
| ChapterScreen.OwnerOpensAll | SRC/Pages/CourseScreens/CourseChapterScreen.jsx:168-183 | with a false flag every entry opens and none shows a lock |
| ChapterScreen.LockedNeverOpens | SRC/Pages/CourseScreens/CourseChapterScreen.jsx:274-295 | an entry that shows the lock never opens |
| ChapterScreen.InertEntries | SRC/Pages/CourseScreens/CourseChapterScreen.jsx:274-295 | the entries showing no lock that still ignore taps are exactly the non-FREE ones while the flag is null, and the neither-FREE-nor-PAID ones for a non-owner |
| SubjectsScreen.CourseContext | SRC/Pages/CourseScreens/CourseSubjectsScreen.jsx:129 | the quiz context carries only the course's id and name |
| SubjectsScreen.SubjectRoute | SRC/Pages/CourseScreens/CourseSubjectsScreen.jsx:228-235 | the route into a subject carries the course id, name and subject, and no price |
| SubjectsScreen.Screen.OpenSubject | SRC/Pages/CourseScreens/CourseSubjectsScreen.jsx:228-235 | the route into a subject takes the id and name of the route's own course, not of the refreshed one |
| SubjectsScreen.Screen.constructor | SRC/Pages/CourseScreens/CourseSubjectsScreen.jsx:15-25 | the held course starts as the route's course; the flag is null |
| SubjectsScreen.Screen.FetchCourseQnaData | SRC/Pages/CourseScreens/CourseSubjectsScreen.jsx:28-51 | an ok reply is merged over the held course; anything else leaves it; loading ends |
| SubjectsScreen.Screen.CheckCourseOwnership | SRC/Pages/CourseScreens/CourseSubjectsScreen.jsx:86-120 | the flag after a check is AfterOwnership on the route's course, an exception keeping it |
| SubjectsScreen.Screen.OpenQuizTap | SRC/Pages/CourseScreens/CourseSubjectsScreen.jsx:128-142 | the quiz opens if and only if it is not PAID or the flag is false, with the course context and type "course" |
| InsideSubjectScreen.Screen.constructor | SRC/Pages/CourseScreens/CourseInsideSubjectScreen.jsx:13-23 | null flag, empty lists |
| InsideSubjectScreen.Screen.Context | SRC/Pages/CourseScreens/CourseInsideSubjectScreen.jsx:133 | the context carries only the parameter's course id and name |
| InsideSubjectScreen.Screen.CheckCourseOwnership | SRC/Pages/CourseScreens/CourseInsideSubjectScreen.jsx:59-94 | an answer settles the flag; an exception sets it to true |
| InsideSubjectScreen.Screen.GetChaptersAndQuizzes | SRC/Pages/CourseScreens/CourseInsideSubjectScreen.jsx:96-124 | only a reply with content replaces both lists; loading ends |
| InsideSubjectScreen.Screen.OpenChapter | SRC/Pages/CourseScreens/CourseInsideSubjectScreen.jsx:132-137 | every chapter opens, with the context and the subject, and no price |
| InsideSubjectScreen.Screen.OpenQuizTap | SRC/Pages/CourseScreens/CourseInsideSubjectScreen.jsx:139-151 | the quiz opens if and only if it is not PAID or the flag is false, with type "subject" |
| GateComparison.ChapterGateStricter | SRC/Pages/CourseScreens/CourseChapterScreen.jsx:273-282 | the chapter gate implies the quiz gate of the other screens; they differ exactly on entries neither FREE nor PAID for a non-owner |
| GateComparison.UnsettledGates | SRC/Pages/CourseScreens/CourseSubjectsScreen.jsx:133 | with a null flag the chapter screen opens only FREE entries, the others everything not PAID |
| GateComparison.LockMatchesGateOnceSettled | SRC/Pages/CourseScreens/CourseInsideSubjectScreen.jsx:268-274 | with a settled flag a quiz shows the lock exactly when refused; with a null flag no lock shows, yet PAID is refused |
| GateComparison.FailureHandling | SRC/Pages/CourseScreens/CourseInsideSubjectScreen.jsx:89-90 | answers settle the same flag on every screen; after an exception two screens keep the flag and the inside-subject screen locks |
| GateComparison.SubjectRouteNeedsOwnership | SRC/Pages/CourseScreens/CourseSubjectsScreen.jsx:228-235 | on the inside-subject screen reached from the subjects screen, the flag is false only for an ok reply, even for a free course |
| GateComparison.ChapterRouteNeedsOwnership | SRC/Pages/CourseScreens/CourseInsideSubjectScreen.jsx:132-137 | on the chapter screen reached from a subject, the flag is false only for an ok reply |
| GateComparison.SubjectsScreenReadsZeroPrice | SRC/Pages/CourseScreens/CourseSubjectsScreen.jsx:109-111 | the subjects screen, given the whole course, opens a zero-priced course without ownership |
| StoreExtras.AfterExtrasReply | SRC/Pages/CourseScreens/CourseMainScreen.jsx:127-137 | an answered reply replaces the settings; an error or an exception keeps them |
| CourseMainScreen.PanelOrButton | SRC/Pages/CourseScreens/CourseMainScreen.jsx:301-347 | exactly one of the purchase panel and the access button is shown; "Start Learning" exactly for a free course |
| CourseMainScreen.RoundNearest | SRC/Pages/CourseScreens/CourseMainScreen.jsx:157-158 | Math.round gives the integer within half of its argument |
| CourseMainScreen.RoundWhole | SRC/Pages/CourseScreens/CourseMainScreen.jsx:157 | rounding the whole price before discount changes nothing |
| CourseMainScreen.GlobalDiscountWins | SRC/Pages/CourseScreens/CourseMainScreen.jsx:151-155 | a positive store-wide discount makes the course's own discount irrelevant |
| CourseMainScreen.DiscountNeverRaises | SRC/Pages/CourseScreens/CourseMainScreen.jsx:139-158 | with discounts between 0 and 100 percent the charged price lies between 0 and the undiscounted price |
| CourseMainScreen.TwoYearExample | SRC/Pages/CourseScreens/CourseMainScreen.jsx:139-158 | 2000 for two years with a 10% course discount is 1440; a 25% store-wide discount instead gives 1200 |
| CourseMainScreen.AccessKeyYears | SRC/Pages/CourseScreens/CourseMainScreen.jsx:46-50 | the dropdown keys read as 1 to 4 years |
| CourseMainScreen.PriceBeforeExact | SRC/Pages/CourseScreens/CourseMainScreen.jsx:140-142 | with a whole price, the price before discount is the price times the chosen years |
| CourseMainScreen.PriceAfterForYears | SRC/Pages/CourseScreens/CourseMainScreen.jsx:139-158 | with a whole price and a dropdown key, the discounted price is the rounded discount of the price times the chosen years, for those years |
| CourseMainScreen.ApplyDiscounts | SRC/Pages/CourseScreens/CourseMainScreen.jsx:143-155 | the in-place discount steps compute the year factor then at most one percentage discount |
| CourseMainScreen.Screen.constructor | SRC/Pages/CourseScreens/CourseMainScreen.jsx:31-44 | the screen starts loading, not purchased, one year, default settings, prices 0 |
| CourseMainScreen.Screen.FetchCourseData | SRC/Pages/CourseScreens/CourseMainScreen.jsx:65-83 | an ok reply stores the course and whether its category is exactly FREE, and the price effect then sets both prices for it; anything else keeps course and prices; loading ends; the prices stay current |
| CourseMainScreen.Screen.CheckCourseOwnership | SRC/Pages/CourseScreens/CourseMainScreen.jsx:104-125 | purchased if and only if answered and ok or priced zero; an exception means not purchased |
| CourseMainScreen.Screen.GetExtras | SRC/Pages/CourseScreens/CourseMainScreen.jsx:127-137 | the settings after the reply are AfterExtrasReply, and the prices stay current with them; before a course arrives the prices are untouched |
| CourseMainScreen.Screen.SelectAccessYears | SRC/Pages/CourseScreens/CourseMainScreen.jsx:305-306 | the dropdown sets the chosen key, and the prices stay current with it; before a course arrives the prices are untouched |
| CourseMainScreen.Screen.PriceEffect | SRC/Pages/CourseScreens/CourseMainScreen.jsx:58-63 | once a course is held the prices become those calculatePrices gives for the current course, years and settings; before that they are untouched |
| CourseMainScreen.Screen.CalculatePrices | SRC/Pages/CourseScreens/CourseMainScreen.jsx:139-159 | the two prices become PriceBefore and PriceAfter of the course, years and settings |
| CourseMainScreen.Screen.SetPrices | SRC/Pages/CourseScreens/CourseMainScreen.jsx:142-158 | with parsed numbers, the undiscounted product and the rounded discounted price |
| CourseMainScreen.Screen.BuyCourse | SRC/Pages/CourseScreens/CourseMainScreen.jsx:168-217 | the sheet asks for 100 times the discounted price, which, with the prices current, is 100 times PriceAfter of the course, the chosen years and the settings; only a completed purchase marks the course purchased; loading ends |
| Js.TruncDiv | SRC/Pages/StoreScreens/CartScreen.jsx:263-265 | parseInt of a quotient truncates toward zero: the result times the divisor is within one divisor of the dividend, on its side of zero |
| CartScreen.AddTotals | SRC/Pages/StoreScreens/CartScreen.jsx:104 | a sum is a number exactly when both terms are, and is then their sum |
| CartScreen.Totals | SRC/Pages/StoreScreens/CartScreen.jsx:104 | one entry total per cart entry, in order |
| CartScreen.StoreDiscountIgnoresProductDiscount | SRC/Pages/StoreScreens/CartScreen.jsx:262-264 | under a store-wide discount an entry's total is the truncated discount part of its price, whatever its product discount |
| CartScreen.StoreDiscountExample | SRC/Pages/StoreScreens/CartScreen.jsx:262-264 | price 100, quantity 1, 10% store-wide gives 10 |
| CartScreen.UndiscountedEntry | SRC/Pages/StoreScreens/CartScreen.jsx:265 | without any discount an entry costs price times quantity |
| CartScreen.ProductTotalBounds | SRC/Pages/StoreScreens/CartScreen.jsx:259-266 | with percentages between 0 and 100 an entry costs between 0 and price times quantity |
| CartScreen.SumDefined | SRC/Pages/StoreScreens/CartScreen.jsx:104 | the reduce yields a number if and only if every term is one |
| CartScreen.SumAppend | SRC/Pages/StoreScreens/CartScreen.jsx:104 | the reduce over two joined lists is the sum of their reduces |
| CartScreen.CartTotalDefined | SRC/Pages/StoreScreens/CartScreen.jsx:104 | the cart total is a number if and only if every entry total is |
| CartScreen.CartTotalAppend | SRC/Pages/StoreScreens/CartScreen.jsx:104 | the total of two joined carts is the sum of their totals |
| CartScreen.CartTotalSwap | SRC/Pages/StoreScreens/CartScreen.jsx:104 | the order of two parts of the cart does not change the total |
| CartScreen.EmptyCartTotal | SRC/Pages/StoreScreens/CartScreen.jsx:51 | an empty cart totals 0 |
| CartScreen.SetAddressField | SRC/Pages/StoreScreens/CartScreen.jsx:411-453 | an edit sets the named field and keeps the others |
| CartScreen.OptionalFields | SRC/Pages/StoreScreens/CartScreen.jsx:138-141 | editing the second line or the state never changes whether the address is complete |
| CartScreen.Screen.constructor | SRC/Pages/StoreScreens/CartScreen.jsx:18-35 | empty cart, total 0, empty address, default settings |
| CartScreen.Screen.RecomputeTotal | SRC/Pages/StoreScreens/CartScreen.jsx:101-107 | a non-empty cart's total is recomputed; an empty cart keeps the old total |
| CartScreen.Screen.GetCardData | SRC/Pages/StoreScreens/CartScreen.jsx:37-74 | a cart reply stores the cart and the settings reply's settings, and the total then equals the cart total under them, except when the cart is empty and the settings request failed, when the old total stays; a failed cart request changes nothing but loading |
| CartScreen.Screen.DeleteCartItem | SRC/Pages/StoreScreens/CartScreen.jsx:109-132 | the returned cart replaces the cart; its total is recomputed unless it is empty, when the old total stays; an exception ends loading |
| CartScreen.Screen.GrandTotal | SRC/Pages/StoreScreens/CartScreen.jsx:358 | the grand total minus the delivery charges is the cart total; NaN propagates |
| CartScreen.Screen.BuyNow | SRC/Pages/StoreScreens/CartScreen.jsx:135-167 | asks for an address if and only if a required field is empty; otherwise charges 100 times the grand total for an order of the cart, total, charges and address |
| CartScreen.Screen.CompleteOrder | SRC/Pages/StoreScreens/CartScreen.jsx:152-195 | only a placed order replaces the cart and goes to the orders; its total is recomputed for a non-empty returned cart and kept for an empty one; only a failed order request ends loading |
| CartScreen.Screen.GetUserAddress | SRC/Pages/StoreScreens/CartScreen.jsx:202-220 | a reply replaces the address; an exception ends loading |
| CartScreen.Screen.EditAddress | SRC/Pages/StoreScreens/CartScreen.jsx:411-453 | the address becomes SetAddressField of the old one |
| CartScreen.Screen.OpenAddressModal | SRC/Pages/StoreScreens/CartScreen.jsx:256 | the modal is shown |
| CartScreen.Screen.CloseAddressModal | SRC/Pages/StoreScreens/CartScreen.jsx:257 | the modal is hidden |
| CartScreen.Screen.AddNewAddress | SRC/Pages/StoreScreens/CartScreen.jsx:221-255 | the address is sent if and only if it is complete, and then the modal closes; otherwise nothing changes |
| CartScreen.Screen.AddressSaved | SRC/Pages/StoreScreens/CartScreen.jsx:237-247 | saving ends; a reply replaces the address |
| CartScreen.ButtonOpensPayment | SRC/Pages/StoreScreens/CartScreen.jsx:383 | whenever Buy Now is shown, a tap opens the payment sheet |
| CartScreen.ChargedIsGrandTotal | SRC/Pages/StoreScreens/CartScreen.jsx:147 | a shown Buy Now charges 100 times the total plus the delivery charges |
| ProductScreen.PriceBarOf | SRC/Pages/StoreScreens/ProductScreen.jsx:98-117 | the controls are shown if and only if the stock is not exactly OUTOFSTOCK |
| ProductScreen.TapsKeepQuantity | SRC/Pages/StoreScreens/ProductScreen.jsx:101-105 | from 1 or more no series of taps goes below 1, and the change is bounded by the numbers of plus and minus taps |
| ProductScreen.OnlyPlus | SRC/Pages/StoreScreens/ProductScreen.jsx:105 | without minus taps the quantity rises by the number of taps |
| ProductScreen.Screen.constructor | SRC/Pages/StoreScreens/ProductScreen.jsx:16-17 | quantity 1 and total the unit price |
| ProductScreen.Screen.Press | SRC/Pages/StoreScreens/ProductScreen.jsx:19-21 | the quantity takes one step and the total stays price times quantity |
| ProductScreen.Screen.AddToCartPayload | SRC/Pages/StoreScreens/ProductScreen.jsx:34-38 | the body holds the product, the quantity and the unit price |
| ProductScreen.Screen.BuyNowRequests | SRC/Pages/StoreScreens/ProductScreen.jsx:53-72 | Buy Now clears the cart and, only if that reply parses, adds the product |
| ProductScreen.GoesToCart | SRC/Pages/StoreScreens/ProductScreen.jsx:40-49 | any parsed reply goes to the cart, even one with an error; only an exception stays |
| ProductScreen.PayloadIsUnitPrice | SRC/Pages/StoreScreens/ProductScreen.jsx:34-38 | with more than one item, the price sent differs from the total shown |
| SignupScreen.SetField | SRC/Pages/LoginFalse/SignupScreen.jsx:36-38 | an input change sets that field and keeps the others |
| Js.ToNumberReadsDecimal | SRC/Pages/LoginFalse/SignupScreen.jsx:53 | Number reads back the decimal text of a non-negative integer |
| SignupScreen.WholeAge | SRC/Pages/LoginFalse/SignupScreen.jsx:53-56 | a whole-number age is accepted if and only if it is 13 to 120 |
| SignupScreen.Validate | SRC/Pages/LoginFalse/SignupScreen.jsx:44-56 | an empty field is reported first, an invalid age second; only a form passing both is sent, unchanged |
| SignupScreen.AfterCheck | SRC/Pages/LoginFalse/SignupScreen.jsx:69-87 | on to the OTP screen with the sent form if and only if the reply says the e-mail is free; a connection error exactly on an exception |
| SignupScreen.SentFormIsFilled | SRC/Pages/LoginFalse/SignupScreen.jsx:69-76 | a form that reaches the OTP screen has every field filled in |
| SignupScreen.Screen.constructor | SRC/Pages/LoginFalse/SignupScreen.jsx:26-34 | empty form, not loading |
| SignupScreen.Screen.HandleInputChange | SRC/Pages/LoginFalse/SignupScreen.jsx:36-38 | the form becomes SetField of the old form |
| SignupScreen.Screen.HandleSignup | SRC/Pages/LoginFalse/SignupScreen.jsx:44-58 | the check is Validate of the form; loading starts only when it is sent |
| SignupScreen.Screen.ReceiveCheckUser | SRC/Pages/LoginFalse/SignupScreen.jsx:60-91 | the outcome is AfterCheck and loading ends |
| SignupScreen.Screen.TogglePasswordVisibility | SRC/Pages/LoginFalse/SignupScreen.jsx:94-96 | the visibility flips |
| ForgotPasswordScreen.ResetOf | SRC/Pages/LoginFalse/ForgotPasswordScreen.jsx:29-41 | an empty field is reported first, a mismatch second; only equal passwords go on, with the phone and that password |
| ForgotPasswordScreen.CompleteFormGoesOn | SRC/Pages/LoginFalse/ForgotPasswordScreen.jsx:29-41 | a filled form with the same password twice always goes on |
| ForgotPasswordScreen.Screen.constructor | SRC/Pages/LoginFalse/ForgotPasswordScreen.jsx:22-27 | empty inputs, not loading, both passwords hidden |
| ForgotPasswordScreen.Screen.SetPhone | SRC/Pages/LoginFalse/ForgotPasswordScreen.jsx:75 | the phone input holds the text |
| ForgotPasswordScreen.Screen.SetNewPassword | SRC/Pages/LoginFalse/ForgotPasswordScreen.jsx:89 | the new-password input holds the text |
| ForgotPasswordScreen.Screen.SetConfirmPassword | SRC/Pages/LoginFalse/ForgotPasswordScreen.jsx:111 | the confirmation input holds the text |
| ForgotPasswordScreen.Screen.HandleResetPassword | SRC/Pages/LoginFalse/ForgotPasswordScreen.jsx:29-41 | the result is ResetOf the inputs; loading starts only when it goes on |
| ForgotPasswordScreen.Screen.TogglePasswordVisibility | SRC/Pages/LoginFalse/ForgotPasswordScreen.jsx:43-45 | that input's visibility flips |
| ForgotPasswordScreen.Screen.ToggleConfirmPasswordVisibility | SRC/Pages/LoginFalse/ForgotPasswordScreen.jsx:47-49 | that input's visibility flips |
| CheckOtpSignup.Countdown | SRC/Pages/LoginFalse/CheckOtpSignup.jsx:31 | one second takes a positive countdown down by one and otherwise gives 0 |
| CheckOtpSignup.TicksClamp | SRC/Pages/LoginFalse/CheckOtpSignup.jsx:28-34 | n seconds take the countdown to t - n, or to 0 once reached |
| CheckOtpSignup.ResendAfterAMinute | SRC/Pages/LoginFalse/CheckOtpSignup.jsx:129-135 | Resend appears exactly 60 seconds after a code arrives |
| CheckOtpSignup.Typed | SRC/Pages/LoginFalse/CheckOtpSignup.jsx:122 | the input keeps a prefix of at most 4 characters, all of a short text |
| CheckOtpSignup.VerifyOf | SRC/Pages/LoginFalse/CheckOtpSignup.jsx:53-70 | a missing field goes back, a short code warns, a different code is refused, and only then is sign-up sent with the five fields |
| CheckOtpSignup.NoCodeNoSignup | SRC/Pages/LoginFalse/CheckOtpSignup.jsx:65-68 | until a code has arrived as a string, no sign-up is sent |
| CheckOtpSignup.ValidatedFormStays | SRC/Pages/LoginFalse/CheckOtpSignup.jsx:54-58 | a form that passed sign-up validation never bounces back |
| CheckOtpSignup.ToLogin | SRC/Pages/LoginFalse/CheckOtpSignup.jsx:76-89 | only a reply without an error, or with an empty one, leads to the login |
| CheckOtpSignup.Screen.constructor | SRC/Pages/LoginFalse/CheckOtpSignup.jsx:22-26 | empty code, no code received, countdown 60 |
| CheckOtpSignup.Screen.Tick | SRC/Pages/LoginFalse/CheckOtpSignup.jsx:30-32 | the countdown takes one step and stays between 0 and 60 |
| CheckOtpSignup.Screen.SetOtp | SRC/Pages/LoginFalse/CheckOtpSignup.jsx:117-122 | the input becomes Typed of the text, at most 4 characters |
| CheckOtpSignup.Screen.ReceiveOtp | SRC/Pages/LoginFalse/CheckOtpSignup.jsx:36-51 | a parsed reply stores its code and restarts the countdown; an exception changes nothing |
| CheckOtpSignup.Screen.HandleVerify | SRC/Pages/LoginFalse/CheckOtpSignup.jsx:53-75 | the result is VerifyOf; loading starts only when sign-up is sent |
| CheckOtpSignup.Screen.ReceiveSignup | SRC/Pages/LoginFalse/CheckOtpSignup.jsx:76-89 | loading ends and the move to the login is ToLogin |

## Left out

- Network calls, AsyncStorage, the Razorpay sheet, toasts, alerts and navigation:
  - replies and payment outcomes are method parameters;
  - navigation and notices are returned values;
  - request headers and the auth token are not modelled.
- React scheduling is not modelled. Each handler runs to completion. State set inside an async
  callback is applied in one batch with the render it triggers. An effect runs at the end of
  each handler that changes one of its dependencies: `RecomputeTotal` on the cart screen,
  `PriceEffect` on the course screen.
- CartScreen.Screen.GetCardData: the closure's total (computed with the discount from before
  the settings reply) is overwritten by the effect. The contract states only the settled
  total, not the intermediate one.
- Doubles are exact rationals:
  - cart entry totals are truncated toward zero, as parseInt truncates;
  - course prices are rounded as Math.round rounds;
  - binary rounding error is not modelled;
  - neither is parseInt of numbers at or above 1e21 or below 1e-6, whose text is in exponent
    form.
- Js.ToNumber: `Number(s)` reads decimal literals only. Exponent, hexadecimal, binary, octal
  and Infinity forms read as NaN.
- A falsy `extras` object, or a reply without `userCart`, `address` or `extras`, is not
  modelled (undefined fields). The address the server echoes may lack fields; the model
  takes it as a complete record.
- CartScreen: unmount cleanup is not modelled. Neither is the discount badge in the entry
  rendering, which is display only.
- ProductScreen:
  - the price is a whole number; JavaScript coercion of a string price in `price * quantity`
    is not modelled;
  - the strike-through price is display only;
  - the catch in `clearCart` calls an undefined `setLoading`, and the resulting exception is
    not modelled (nothing more is sent in either case).
- Question marks, negative marks, store-wide discounts and delivery charges are whole numbers
  in the model. A fractional value would behave differently in JavaScript. For example, a
  discount of 0.5 passes the `> 0` test, while `parseInt` of a fractional product reads its
  whole part only.
- CourseMainScreen.CourseDiscount: reads `courseDiscount` through its text. A boolean `true`
  is an `Other` value with the text "true", so it reads as NaN (no discount). JavaScript's
  `>` and `/` read it as 1, a 1% discount. Numeric coercion of booleans is not modelled.
- The question screen:
  - the unused `calculateScore` is not modelled;
  - the score effect's `forEach` starts every async callback at once. An unanswered
    question's callback calls `setScore` at once with a partial total. An answered one
    suspends at `await compareAnswers(...)`, and these resume in order, so the last
    `setScore` holds the full sum. The model keeps only that final score; the intermediate
    partial scores, and the renders they cause, are not modelled;
  - the `createdAt` date of a submission is not modelled;
  - the order of the default sort is code-unit order, with characters taken as UTF-16 code
    units.
- QuizSession.Attempt.AnswerCurrent: does not model that MCQ and MoreThanOne buttons are
  shown only when the question has options. A tap is taken as possible whenever the type has
  a handler.
- QuizSession.Attempt.TimerTick: the stale score and answers are those of the render in which
  the countdown started. Later renders do not restart the interval, because it depends on
  `quizDataFull` only.
- Timer intervals are method calls. The interval's scheduling and its cleanup on unmount are
  not modelled.
- CheckOtpSignup.Screen.SetOtp: maxLength is modelled as truncation of the typed text.
- The Verify button is disabled while the code is shorter than 4 characters. So
  EnterFourDigits is unreachable through the button, but it stays in VerifyOf as the handler
  checks it.
- The user profile request (`getUserFromToken`) and the user fields of the payment sheet are
  not modelled. Neither are video and modal visibility, or tab selection.
- ForgotPasswordScreen: the OTP screen for password reset is not part of this model.
