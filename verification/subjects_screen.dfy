/** The course screen with its Subjects and Quizzes tabs: the course record it refreshes from
    the server, the `isDemo` flag its ownership check sets, the quiz gate and the route into a
    subject. */
module SubjectsScreen {
  import opened Js
  import opened CourseAccess

  /** The reply to the course request: an exception, or a reply with its `ok` flag and the
      `course` it carries. */
  datatype CourseReply = CourseFailed | CourseAnswered(ok: bool, course: Record)

  /** What a tap on a course quiz does. */
  datatype QuizTap = OpenQuiz(route: QuizRoute) | PurchaseNotice

  /** `{ courseId: c._id, courseName: c.courseName }`. */
  function CourseContext(c: Record): (r: Record)
    ensures r.Keys <= {"courseId", "courseName"}
    ensures Field(r, "courseId") == Field(c, "_id")
    ensures Field(r, "courseName") == Field(c, "courseName")
  {
    With(With(map[], "courseId", Field(c, "_id")), "courseName", Field(c, "courseName"))
  }

  /** The `course` parameter of the route into a subject: the course's id and name and the
      subject; no price. */
  function SubjectRoute(c: Record, subject: Value): (r: Record)
    ensures "coursePrice" !in r
    ensures Field(r, "courseId") == Field(c, "_id")
    ensures Field(r, "courseName") == Field(c, "courseName")
    ensures Field(r, "selectedSubject") == Some(subject)
  {
    CourseContext(c)["selectedSubject" := subject]
  }

  class Screen {
    /** The `course` route parameter. */
    const course: Record
    /** `thiscourse`. */
    var thisCourse: Record
    var loading: bool
    var isDemo: Tri

    constructor (course: Record)
      ensures this.course == course && thisCourse == course
      ensures !loading && isDemo == Null
    {
      this.course := course;
      thisCourse := course;
      loading := false;
      isDemo := Null;
    }

    /** `fetchCourseQnaData`: an ok reply is merged over the course held so far; a reply that
        is not ok, or an exception, is only logged. */
    method FetchCourseQnaData(reply: CourseReply)
      modifies this`thisCourse, this`loading
      ensures !loading
      ensures reply.CourseAnswered? && reply.ok ==> thisCourse == Merge(old(thisCourse), reply.course)
      ensures !(reply.CourseAnswered? && reply.ok) ==> thisCourse == old(thisCourse)
    {
      loading := true;
      if reply.CourseAnswered? && reply.ok {
        thisCourse := Merge(thisCourse, reply.course);
      }
      loading := false;
    }

    /** A tap on a subject of the refreshed course: the route into it is built from the
        route's own `course`, not from `thiscourse`. */
    function OpenSubject(subject: Value): (r: Record)
      ensures r == SubjectRoute(course, subject)
      ensures Field(r, "courseId") == Field(course, "_id")
      ensures Field(r, "courseName") == Field(course, "courseName")
    {
      SubjectRoute(course, subject)
    }

    /** `checkCourseOwnership`, on the price of the route's course. */
    method CheckCourseOwnership(reply: OwnershipReply)
      modifies this`isDemo
      ensures isDemo == AfterOwnership(reply, course, old(isDemo))
    {
      match reply
      case Answered(ok) =>
        if ok {
          isDemo := False;
        } else if PriceIsZero(course) {
          isDemo := False;
        } else {
          isDemo := True;
        }
      case Threw =>
    }

    /** `openQuiz`: through the gate, the quiz details with only the course's id and name as
        context and quiz type "course"; otherwise the purchase notice. */
    function OpenQuizTap(quiz: Value, access: string): (t: QuizTap)
      reads this
      ensures t.OpenQuiz? <==> QuizOpens(isDemo, access)
      ensures t.OpenQuiz? ==> t.route == QuizRoute(CourseContext(thisCourse), None, None, quiz, "course")
    {
      if access != "PAID" || isDemo == False then
        OpenQuiz(QuizRoute(CourseContext(thisCourse), None, None, quiz, "course"))
      else PurchaseNotice
    }
  }
}
