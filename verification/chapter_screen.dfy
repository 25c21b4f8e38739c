/** The chapter screen: the chapter's videos, notes and quizzes, each opening or showing a
    lock according to the `isDemo` flag its ownership check sets. */
module ChapterScreen {
  import opened Js
  import opened CourseAccess

  /** An entry of the chapter, with its `access` value ("FREE", "PAID", or anything else). */
  datatype Item =
    | Video(access: string, videoUrl: string)
    | Note(access: string, notesUrl: string)
    | Quiz(access: string, quiz: Value)

  /** What a tap on an entry does. */
  datatype Tap =
    | PlayVideo(videoUrl: string)
    | OpenPdf(pdfUrl: string)
    | OpenQuiz(route: QuizRoute)
    | Ignored

  /** The tap gate of every entry: `isDemo == false || access == 'FREE'`. A null flag is not
      loosely equal to false. */
  predicate Opens(isDemo: Tri, access: string) {
    isDemo == False || access == "FREE"
  }

  class Screen {
    /** The route parameters: the course context, the subject and the chapter. */
    const course: Record
    const subject: Option<Value>
    const chapter: Value
    var isDemo: Tri

    constructor (course: Record, subject: Option<Value>, chapter: Value)
      ensures this.course == course && this.subject == subject && this.chapter == chapter
      ensures isDemo == Null
    {
      this.course := course;
      this.subject := subject;
      this.chapter := chapter;
      isDemo := Null;
    }

    /** `checkCourseOwnership`. */
    method CheckCourseOwnership(reply: OwnershipReply)
      modifies this`isDemo
      ensures isDemo == AfterOwnership(reply, course, old(isDemo))
    {
      match reply
      case Answered(ok) =>
        if ok {
          isDemo := False;
        } else if PriceIsZero(course) {
          isDemo := False;
        } else {
          isDemo := True;
        }
      case Threw =>
    }

    /** The `onPress` of an entry: it navigates only through the gate, to the player, the PDF
        viewer, or the quiz details with the chapter's whole context and quiz type
        "chapter"; otherwise nothing happens. */
    function TapItem(item: Item): (t: Tap)
      reads this
      ensures t != Ignored <==> Opens(isDemo, item.access)
      ensures t.PlayVideo? ==> item.Video? && t.videoUrl == item.videoUrl
      ensures t.OpenPdf? ==> item.Note? && t.pdfUrl == item.notesUrl
      ensures t.OpenQuiz? ==>
        item.Quiz? && t.route == QuizRoute(course, subject, Some(chapter), item.quiz, "chapter")
    {
      if !Opens(isDemo, item.access) then Ignored
      else
        match item
        case Video(_, url) => PlayVideo(url)
        case Note(_, url) => OpenPdf(url)
        case Quiz(_, quiz) => OpenQuiz(QuizRoute(course, subject, Some(chapter), quiz, "chapter"))
    }
  }

  /** An owner opens everything, and sees no lock. */
  lemma OwnerOpensAll(access: string)
    ensures Opens(False, access) && !ShowsLock(False, access)
  {
  }

  /** A locked entry never opens. */
  lemma LockedNeverOpens(isDemo: Tri, access: string)
    requires ShowsLock(isDemo, access)
    ensures !Opens(isDemo, access)
  {
  }

  /** The entries that show no lock and still do nothing on a tap: every non-FREE entry while
      the flag is null, and, for a user without the course, every entry whose access is
      neither FREE nor PAID. */
  lemma InertEntries(isDemo: Tri, access: string)
    ensures !ShowsLock(isDemo, access) && !Opens(isDemo, access) <==>
      (isDemo == Null && access != "FREE") || (isDemo == True && access != "FREE" && access != "PAID")
  {
  }
}
