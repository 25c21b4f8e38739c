/** How the gates of the three course screens differ: the chapter screen's `== 'FREE'` test
    against the `!= 'PAID'` test of the other two, the lock against the gate, the reaction to
    a failed ownership check, and which screens can see the course price at all. */
module GateComparison {
  import opened Js
  import opened CourseAccess
  import ChapterScreen
  import SubjectsScreen
  import InsideSubjectScreen

  /** Everything the chapter gate opens also passes the quiz gate of the other screens. The
      quiz gate opens more exactly for entries whose access is neither FREE nor PAID, and only
      while the user is not known to own the course. */
  lemma ChapterGateStricter(d: Tri, access: string)
    ensures ChapterScreen.Opens(d, access) ==> QuizOpens(d, access)
    ensures QuizOpens(d, access) && !ChapterScreen.Opens(d, access) <==>
      d != False && access != "FREE" && access != "PAID"
  {
  }

  /** While the flag is unsettled the chapter screen opens only FREE entries, the other
      screens every entry that is not PAID. */
  lemma UnsettledGates(access: string)
    ensures ChapterScreen.Opens(Null, access) <==> access == "FREE"
    ensures QuizOpens(Null, access) <==> access != "PAID"
  {
  }

  /** Once the flag is settled, a quiz shows the lock exactly when its gate refuses it; while
      it is null no lock is shown, yet a PAID quiz is refused. */
  lemma LockMatchesGateOnceSettled(d: Tri, access: string)
    ensures d != Null ==> (ShowsLock(d, access) <==> !QuizOpens(d, access))
    ensures !ShowsLock(Null, access)
    ensures !QuizOpens(Null, "PAID")
  {
  }

  /** An answered ownership check sets the same flag on every screen. After an exception the
      chapter and subjects screens keep what they had (null, on a fresh screen), and the
      inside-subject screen locks. */
  lemma FailureHandling(reply: OwnershipReply, course: Record, before: Tri)
    ensures reply.Answered? ==>
      AfterOwnership(reply, course, before) == AfterOwnership(reply, course, True)
    ensures AfterOwnership(Threw, course, before) == before
    ensures AfterOwnership(Threw, course, True) == True
  {
  }

  /** The route into a subject carries no price, so on the inside-subject screen the flag is
      false only for an owner; even a course priced zero is locked there. */
  lemma SubjectRouteNeedsOwnership(c: Record, subject: Value, reply: OwnershipReply)
    ensures AfterOwnership(reply, SubjectsScreen.SubjectRoute(c, subject), True) == False <==>
      reply == Answered(true)
  {
    NoPriceIsNotZero(SubjectsScreen.SubjectRoute(c, subject));
  }

  /** The same holds one level down: the route into a chapter carries no price either. */
  lemma ChapterRouteNeedsOwnership(s: InsideSubjectScreen.Screen, chapter: Value, reply: OwnershipReply)
    requires reply.Answered?
    ensures AfterOwnership(reply, s.OpenChapter(chapter).course, Null) == False <==> reply.ok
  {
    NoPriceIsNotZero(s.OpenChapter(chapter).course);
  }

  /** The subjects screen, reached from the course screen with the whole course, does read
      the price: there a course priced zero opens without ownership. */
  lemma SubjectsScreenReadsZeroPrice(course: Record, reply: OwnershipReply)
    requires Field(course, "coursePrice") == Some(Num("0"))
    requires reply.Answered?
    ensures AfterOwnership(reply, course, Null) == False
  {
    WholePriceIsZero(course, 0);
    assert IntToString(0) == "0";
  }
}
