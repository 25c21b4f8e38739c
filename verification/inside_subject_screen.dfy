/** The subject screen with its Chapters and Quizzes tabs: the subject's content fetched from
    the server, the `isDemo` flag its ownership check sets (failing closed), the quiz gate and
    the ungated route into a chapter. */
module InsideSubjectScreen {
  import opened Js
  import opened CourseAccess

  /** The reply to the subject request: an exception (including a reply without a
      `subject`), a reply with an `error`, or the subject's chapters and quizzes. */
  datatype SubjectReply =
    | SubjectFailed
    | SubjectError(error: string)
    | SubjectContent(chapters: seq<Value>, quizzes: seq<Value>)

  /** What a tap on a subject quiz does. */
  datatype QuizTap = OpenQuiz(route: QuizRoute) | PurchaseNotice

  /** The route to the chapter screen. */
  datatype ChapterRoute = ChapterRoute(course: Record, subject: Option<Value>, chapter: Value)

  class Screen {
    /** `route.params.course`, or an empty object when there is none. */
    const param: Record
    var isDemo: Tri
    var chapters: seq<Value>
    var quizzes: seq<Value>
    var loading: bool

    constructor (param: Record)
      ensures this.param == param
      ensures isDemo == Null && chapters == [] && quizzes == [] && !loading
    {
      this.param := param;
      isDemo := Null;
      chapters := [];
      quizzes := [];
      loading := false;
    }

    /** `{ courseId, courseName }` from the route parameter. */
    function Context(): (r: Record)
      reads this
      ensures r.Keys <= {"courseId", "courseName"}
      ensures Field(r, "courseId") == Field(param, "courseId")
      ensures Field(r, "courseName") == Field(param, "courseName")
    {
      With(With(map[], "courseId", Field(param, "courseId")), "courseName", Field(param, "courseName"))
    }

    /** `checkCourseOwnership`, on the price in the route parameter. Unlike the other screens,
        an exception sets the flag to true: the screen fails closed. */
    method CheckCourseOwnership(reply: OwnershipReply)
      modifies this`isDemo
      ensures isDemo == AfterOwnership(reply, param, True)
    {
      match reply
      case Answered(ok) =>
        if ok {
          isDemo := False;
        } else if PriceIsZero(param) {
          isDemo := False;
        } else {
          isDemo := True;
        }
      case Threw =>
        isDemo := True;
    }

    /** `getChaptersAndQuizzesOfSubject`: only a reply with content replaces both lists. */
    method GetChaptersAndQuizzes(reply: SubjectReply)
      modifies this`chapters, this`quizzes, this`loading
      ensures !loading
      ensures reply.SubjectContent? ==> chapters == reply.chapters && quizzes == reply.quizzes
      ensures !reply.SubjectContent? ==> chapters == old(chapters) && quizzes == old(quizzes)
    {
      loading := true;
      if reply.SubjectContent? {
        chapters := reply.chapters;
        quizzes := reply.quizzes;
      }
      loading := false;
    }

    /** `openChapter`: every chapter opens, whatever the flag, with the course's id and name
        and the selected subject. */
    function OpenChapter(chapter: Value): (r: ChapterRoute)
      reads this
      ensures "coursePrice" !in r.course
      ensures r.course == Context() && r.subject == Field(param, "selectedSubject")
      ensures r.chapter == chapter
    {
      ChapterRoute(Context(), Field(param, "selectedSubject"), chapter)
    }

    /** `openQuiz`: through the gate, the quiz details with the course's id and name, the
        subject and quiz type "subject"; otherwise the purchase notice. */
    function OpenQuizTap(quiz: Value, access: string): (t: QuizTap)
      reads this
      ensures t.OpenQuiz? <==> QuizOpens(isDemo, access)
      ensures t.OpenQuiz? ==>
        t.route == QuizRoute(Context(), Field(param, "selectedSubject"), None, quiz, "subject")
    {
      if access != "PAID" || isDemo == False then
        OpenQuiz(QuizRoute(Context(), Field(param, "selectedSubject"), None, quiz, "subject"))
      else PurchaseNotice
    }
  }
}
