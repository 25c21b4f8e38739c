/** The questions of a quiz attempt, the map of the user's answers and its exact-match
    scoring. */
module QuizAnswers {
  import opened StringOrder

  /** A question as the server sends it: its `_id`, `questionType`, `questionOptions`,
      `questionAnswer` (the correct option(s)), `questionMarks` and `questionNegativeMarks`. */
  datatype Question = Question(
    id: string,
    kind: string,
    options: seq<string>,
    answer: seq<string>,
    marks: int,
    negativeMarks: int)

  /** `userAnswers`: question id to the chosen option(s), or to the typed text. */
  type Answers = map<string, seq<string>>

  /** Question types answered through the replacing handler (the option list of an MCQ, the
      text field of a short answer). */
  predicate SingleChoice(kind: string) {
    kind == "MCQ" || kind == "Short Answer"
  }

  /** Question types answered through the accumulating handler. */
  predicate MultiChoice(kind: string) {
    kind == "MoreThanOne"
  }

  predicate DistinctIds(qs: seq<Question>) {
    forall i, j :: 0 <= i < j < |qs| ==> qs[i].id != qs[j].id
  }

  // ----- comparing an answer with the key -----

  /** `compareAnswers(u, c)`: different lengths never match; otherwise every given answer must
      occur among the correct ones. */
  predicate CompareAnswers(u: seq<string>, c: seq<string>) {
    |u| == |c| && forall k :: 0 <= k < |u| ==> u[k] in c
  }

  lemma SubsetOfSameSize(a: set<string>, b: set<string>)
    requires a <= b && |a| == |b|
    ensures a == b
  {
    assert b == a + (b - a);
  }

  /** For duplicate-free lists (which the answer map always holds, see `CleanEntries`) the
      comparison is exactly equality of the two sets of options. */
  lemma CompareAnswersIsSetEquality(u: seq<string>, c: seq<string>)
    requires NoDup(u) && NoDup(c)
    ensures CompareAnswers(u, c) <==> Elements(u) == Elements(c)
  {
    NoDupElements(u);
    NoDupElements(c);
    if CompareAnswers(u, c) {
      assert Elements(u) <= Elements(c) by {
        forall x | x in Elements(u) ensures x in Elements(c) {
          var k :| 0 <= k < |u| && u[k] == x;
        }
      }
      SubsetOfSameSize(Elements(u), Elements(c));
    }
    if Elements(u) == Elements(c) {
      forall k | 0 <= k < |u| ensures u[k] in c {
        assert u[k] in Elements(u);
      }
    }
  }

  /** The comparison is order-blind: a list matches the key in any order of its entries. */
  lemma CompareAnswersOrderBlind(u: seq<string>, v: seq<string>, c: seq<string>)
    requires multiset(u) == multiset(v)
    ensures CompareAnswers(u, c) <==> CompareAnswers(v, c)
  {
    assert |u| == |multiset(u)| == |multiset(v)| == |v|;
    forall x ensures x in u <==> x in v {
      assert x in u <==> x in multiset(u);
      assert x in v <==> x in multiset(v);
    }
    if CompareAnswers(u, c) {
      forall k | 0 <= k < |v| ensures v[k] in c {
        assert v[k] in u;
        var j :| 0 <= j < |u| && u[j] == v[k];
      }
    }
    if CompareAnswers(v, c) {
      forall k | 0 <= k < |u| ensures u[k] in c {
        assert u[k] in v;
        var j :| 0 <= j < |v| && v[j] == u[k];
      }
    }
  }

  // ----- scoring -----

  /** What one question adds to the score: nothing unless it has an answer and a non-empty
      key; its marks when the answer matches the key; minus its negative marks otherwise. */
  function Contribution(q: Question, answers: Answers): int {
    if q.id in answers && |q.answer| > 0 then
      if CompareAnswers(answers[q.id], q.answer) then q.marks else -q.negativeMarks
    else 0
  }

  /** The score the score effect ends at: the plain, unclamped sum of the contributions. */
  function Score(qs: seq<Question>, answers: Answers): int {
    if qs == [] then 0 else Score(qs[..|qs| - 1], answers) + Contribution(qs[|qs| - 1], answers)
  }

  /** `getMaxMarks`: the marks of all questions, answered or not. */
  function MaxMarks(qs: seq<Question>): int {
    if qs == [] then 0 else MaxMarks(qs[..|qs| - 1]) + qs[|qs| - 1].marks
  }

  /** The negative marks of the questions that can be scored at all (non-empty key). */
  function NegativeTotal(qs: seq<Question>): int {
    if qs == [] then 0
    else NegativeTotal(qs[..|qs| - 1]) + (if |qs[|qs| - 1].answer| > 0 then qs[|qs| - 1].negativeMarks else 0)
  }

  /** The score of a list of questions is the sum of the scores of its parts. */
  lemma {:induction false} ScoreAppend(a: seq<Question>, b: seq<Question>, answers: Answers)
    ensures Score(a + b, answers) == Score(a, answers) + Score(b, answers)
    decreases |b|
  {
    if b == [] {
      assert a + b == a;
    } else {
      assert (a + b)[..|a + b| - 1] == a + b[..|b| - 1];
      ScoreAppend(a, b[..|b| - 1], answers);
    }
  }

  /** An attempt with no answers scores 0. */
  lemma {:induction false} ScoreWithoutAnswers(qs: seq<Question>)
    ensures Score(qs, map[]) == 0
  {
    if qs != [] {
      ScoreWithoutAnswers(qs[..|qs| - 1]);
    }
  }

  /** With non-negative marks the score lies between minus the negative marks of the
      scorable questions and the maximum marks. */
  lemma {:induction false} ScoreBounds(qs: seq<Question>, answers: Answers)
    requires forall i :: 0 <= i < |qs| ==> qs[i].marks >= 0 && qs[i].negativeMarks >= 0
    ensures -NegativeTotal(qs) <= Score(qs, answers) <= MaxMarks(qs)
  {
    if qs != [] {
      ScoreBounds(qs[..|qs| - 1], answers);
    }
  }

  /** Answering every question exactly as its key says scores the maximum marks. */
  lemma {:induction false} PerfectScore(qs: seq<Question>, answers: Answers)
    requires forall i :: 0 <= i < |qs| ==>
      |qs[i].answer| > 0 && qs[i].id in answers && answers[qs[i].id] == qs[i].answer
    ensures Score(qs, answers) == MaxMarks(qs)
  {
    if qs != [] {
      var q := qs[|qs| - 1];
      assert CompareAnswers(answers[q.id], q.answer) by {
        forall k | 0 <= k < |q.answer| ensures q.answer[k] in q.answer {
        }
      }
      PerfectScore(qs[..|qs| - 1], answers);
    }
  }

  /** Two answer maps that agree on the ids of the questions give the same score; entries for
      other ids are ignored. */
  lemma {:induction false} ScoreFrame(qs: seq<Question>, a1: Answers, a2: Answers)
    requires forall i :: 0 <= i < |qs| ==>
      (qs[i].id in a1 <==> qs[i].id in a2) && (qs[i].id in a1 ==> a1[qs[i].id] == a2[qs[i].id])
    ensures Score(qs, a1) == Score(qs, a2)
  {
    if qs != [] {
      ScoreFrame(qs[..|qs| - 1], a1, a2);
    }
  }

  /** With distinct ids, changing the entry of question `i` changes the score by the change of
      that question's contribution and nothing else. */
  lemma {:induction false} ScoreAfterOneAnswer(qs: seq<Question>, answers: Answers, i: int, v: seq<string>)
    requires DistinctIds(qs) && 0 <= i < |qs|
    ensures Score(qs, answers[qs[i].id := v])
      == Score(qs, answers) - Contribution(qs[i], answers) + Contribution(qs[i], answers[qs[i].id := v])
  {
    var id := qs[i].id;
    var init := qs[..|qs| - 1];
    if i == |qs| - 1 {
      ScoreFrame(init, answers, answers[id := v]);
    } else {
      assert init[i] == qs[i];
      ScoreAfterOneAnswer(init, answers, i, v);
      assert qs[|qs| - 1].id != id;
    }
  }

  // ----- the two answer handlers -----

  /** The entry of every answered question is a non-empty, sorted, duplicate-free list. */
  predicate CleanEntries(answers: Answers) {
    forall k :: k in answers ==> answers[k] != [] && Sorted(answers[k]) && NoDup(answers[k])
  }

  /** `handleAnswerChange`: the question's entry becomes the one-element list of the answer;
      every other entry is kept. */
  function SetAnswer(answers: Answers, qid: string, a: string): (r: Answers)
    ensures qid in r && r[qid] == [a]
    ensures forall k :: k != qid ==> (k in r <==> k in answers)
    ensures forall k :: k != qid && k in answers ==> r[k] == answers[k]
  {
    answers[qid := [a]]
  }

  /** The entry a question has so far (`prevAnswers[questionId] || []`). */
  function Existing(answers: Answers, qid: string): seq<string> {
    if qid in answers then answers[qid] else []
  }

  /** `handleAnswerChangeMoreThanOne`: an answer already chosen changes nothing (there is no
      deselect); a new one is appended and the entry sorted. */
  function AddChoice(answers: Answers, qid: string, a: string): (r: Answers)
    ensures a in Existing(answers, qid) ==> r == answers
    ensures a !in Existing(answers, qid) ==>
      qid in r && multiset(r[qid]) == multiset(Existing(answers, qid)) + multiset{a} && Sorted(r[qid])
    ensures forall k :: k != qid ==> (k in r <==> k in answers)
    ensures forall k :: k != qid && k in answers ==> r[k] == answers[k]
  {
    var existing := Existing(answers, qid);
    if a in existing then answers
    else
      SortCorrect(existing + [a]);
      answers[qid := Sort(existing + [a])]
  }

  /** A one-element entry is clean, so `SetAnswer` keeps every entry clean. */
  lemma SetAnswerKeepsClean(answers: Answers, qid: string, a: string)
    requires CleanEntries(answers)
    ensures CleanEntries(SetAnswer(answers, qid, a))
  {
    LeReflexive(a);
  }

  /** Appending a new option to a clean entry and sorting gives a clean entry holding the old
      options and the new one. */
  lemma AddChoiceEntry(existing: seq<string>, a: string)
    requires NoDup(existing) && a !in existing
    ensures Sorted(Sort(existing + [a])) && NoDup(Sort(existing + [a]))
    ensures Elements(Sort(existing + [a])) == Elements(existing) + {a}
  {
    var e := existing + [a];
    SortCorrect(e);
    assert NoDup(e) by {
      forall i, j | 0 <= i < j < |e| ensures e[i] != e[j] {
        if j == |e| - 1 {
          assert e[i] in existing;
        } else {
          assert e[i] == existing[i] && e[j] == existing[j];
        }
      }
    }
    NoDupPermutation(e, Sort(e));
    forall x ensures x in Sort(e) <==> x in e {
      assert x in Sort(e) <==> x in multiset(Sort(e));
      assert x in e <==> x in multiset(e);
    }
  }

  /** The accumulating handler keeps every entry clean. */
  lemma AddChoiceKeepsClean(answers: Answers, qid: string, a: string)
    requires CleanEntries(answers)
    ensures CleanEntries(AddChoice(answers, qid, a))
  {
    var existing := Existing(answers, qid);
    if a !in existing {
      AddChoiceEntry(existing, a);
      var r := AddChoice(answers, qid, a);
      assert r == answers[qid := Sort(existing + [a])];
      assert a in Elements(Sort(existing + [a]));
      forall k | k in r ensures r[k] != [] && Sorted(r[k]) && NoDup(r[k]) {
        if k != qid {
          assert r[k] == answers[k];
        }
      }
    }
  }

  /** What a tap or keystroke on question `q` does to the answer map: the replacing handler
      for MCQ and short-answer questions, the accumulating one for multi-choice questions;
      other types offer no control. */
  function Respond(q: Question, answers: Answers, value: string): (r: Answers)
    ensures SingleChoice(q.kind) ==> r == SetAnswer(answers, q.id, value)
    ensures MultiChoice(q.kind) ==> r == AddChoice(answers, q.id, value)
    ensures !SingleChoice(q.kind) && !MultiChoice(q.kind) ==> r == answers
  {
    if SingleChoice(q.kind) then SetAnswer(answers, q.id, value)
    else if MultiChoice(q.kind) then AddChoice(answers, q.id, value)
    else answers
  }

  /** Every answered MCQ or short-answer question holds exactly one answer. */
  predicate OneAnswerEach(qs: seq<Question>, answers: Answers) {
    forall i :: 0 <= i < |qs| && SingleChoice(qs[i].kind) && qs[i].id in answers ==>
      |answers[qs[i].id]| == 1
  }

  /** With distinct ids, answering any question keeps MCQ and short-answer entries at exactly
      one answer. */
  lemma RespondKeepsOneAnswerEach(qs: seq<Question>, answers: Answers, i: int, value: string)
    requires DistinctIds(qs) && 0 <= i < |qs|
    requires OneAnswerEach(qs, answers)
    ensures OneAnswerEach(qs, Respond(qs[i], answers, value))
  {
    var r := Respond(qs[i], answers, value);
    forall j | 0 <= j < |qs| && SingleChoice(qs[j].kind) && qs[j].id in r
      ensures |r[qs[j].id]| == 1
    {
      if j != i {
        assert qs[j].id != qs[i].id;
      }
    }
  }
}
