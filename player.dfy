/** The lesson player page (video-player.js): lesson selection and
    navigation, lesson completion with its local list and the course progress
    it reports, and the three-question quiz. */
module Player {
  import opened Wrappers
  import opened Entities
  import opened Text
  import opened Browser
  import opened Arith
  import opened Lists
  import Progress
  import LocalCache

  // ---------------------------------------------------------------------
  // Course progress

  /** `Math.round(completed / total * 100)`: the integer nearest to the
      percentage, halves rounding up. */
  function Percent(completed: int, total: int): (p: int)
    requires total > 0
    ensures 2 * total * p <= 200 * completed + total < 2 * total * (p + 1)
  {
    (200 * completed + total) / (2 * total)
  }

  /** With no more lessons done than exist, the percentage is in [0, 100]. */
  lemma PercentBounds(completed: int, total: int)
    requires 0 <= completed <= total && total > 0
    ensures 0 <= Percent(completed, total) <= 100
  {
    DivWithin(200 * completed + total, 2 * total, 0, 100);
  }

  /** Finishing more lessons never lowers the percentage. */
  lemma PercentMonotone(c1: int, c2: int, total: int)
    requires c1 <= c2 && total > 0
    ensures Percent(c1, total) <= Percent(c2, total)
  {
    DivMonotone(200 * c1 + total, 200 * c2 + total, 2 * total);
  }

  /** All lessons done is 100%. */
  lemma PercentOfAll(total: int)
    requires total > 0
    ensures Percent(total, total) == 100
  {
    DivWithin(200 * total + total, 2 * total, 100, 100);
  }

  /** The code's completion test, `progress === 100`, holds exactly when the
      lessons left are at most half a percent of the course. */
  lemma PercentFullIff(completed: int, total: int)
    requires 0 <= completed <= total && total > 0
    ensures Percent(completed, total) == 100 <==> 200 * (total - completed) <= total
  {
    if 200 * (total - completed) <= total {
      DivWithin(200 * completed + total, 2 * total, 100, 100);
    }
  }

  /** For courses with fewer than 200 lessons, 100% means every lesson is done. */
  lemma FullOnlyWhenAllDone(completed: int, total: int)
    requires 0 <= completed <= total && 0 < total < 200
    ensures Percent(completed, total) == 100 <==> completed == total
  {
    PercentFullIff(completed, total);
  }

  /** From 200 lessons on, the course counts as completed one lesson early. */
  lemma CompletedOneLessonEarly(total: int)
    requires total >= 200
    ensures Percent(total - 1, total) == 100
  {
    PercentFullIff(total - 1, total);
  }

  /** The enrollment update `updateCourseProgressInDB` sends for the stored
      session user: the rounded percentage, completion exactly at 100%, and
      a completion date only when completed. Without a stored user nothing
      is computed or sent. */
  function ProgressUpdate(user: Option<User>, courseId: CourseId, completed: nat, total: nat, now: string)
    : (w: Option<ProgressWrite>)
    requires total > 0
    ensures w.None? <==> user.None?
    ensures w.Some? ==>
      && w.value.userId == user.value.id && w.value.courseId == courseId
      && w.value.progress == Percent(completed, total)
      && (w.value.completed <==> Percent(completed, total) == 100)
      && (w.value.completionDate == Some(now) <==> w.value.completed)
      && (w.value.completionDate.None? <==> !w.value.completed)
  {
    if user.None? then None
    else
      var p := Percent(completed, total);
      Some(Progress.ProgressPayload(user.value.id, courseId, p, p == 100, now))
  }

  /** Once every lesson is done, the update marks the course completed. */
  lemma AllDoneMarksCompleted(user: User, courseId: CourseId, total: nat, now: string)
    requires total > 0
    ensures ProgressUpdate(Some(user), courseId, total, total, now).value.completed
    ensures ProgressUpdate(Some(user), courseId, total, total, now).value.completionDate == Some(now)
  {
    PercentOfAll(total);
  }

  // ---------------------------------------------------------------------
  // The completed-lessons list in local storage

  const CompletedKeyPrefix: string := "completed_course_"

  /** `'completed_course_' + courseId`. */
  function CompletedKey(courseId: CourseId): (key: string)
    ensures CompletedKeyPrefix <= key
  {
    CompletedKeyPrefix + IntText(courseId)
  }

  /** Each course has its own key. */
  lemma CompletedKeyInjective(a: CourseId, b: CourseId)
    ensures CompletedKey(a) == CompletedKey(b) ==> a == b
  {
    if CompletedKey(a) == CompletedKey(b) {
      assert CompletedKey(a)[|CompletedKeyPrefix|..] == IntText(a);
      assert CompletedKey(b)[|CompletedKeyPrefix|..] == IntText(b);
      IntTextInjective(a, b);
    }
  }

  /** No course key is one of the keys of the main page's snapshot. */
  lemma CompletedKeyIsNotSnapshotKey(courseId: CourseId)
    ensures !LocalCache.IsSnapshotKey(CompletedKey(courseId))
  {
    var key := CompletedKey(courseId);
    assert key[2] == 'm';
    assert RegisteredUsersKey[2] == 'g' && CourseReviewsKey[2] == 'u';
    assert UserProgressKey[2] == 'e' && LoggedInUserKey[2] == 'g';
  }

  /** The storage entries after `saveCompletedLessons`. */
  function SavedLessons(entries: map<string, Stored>, courseId: CourseId, ids: seq<LessonId>)
    : map<string, Stored>
  {
    entries[CompletedKey(courseId) := LessonIds(ids)]
  }

  /** The list `loadCompletedLessons` ends with: the stored one when the key
      is present, else the list held before. */
  function RestoredLessons(entries: map<string, Stored>, courseId: CourseId, current: seq<LessonId>)
    : seq<LessonId>
  {
    var key := CompletedKey(courseId);
    if key in entries && entries[key].LessonIds? then entries[key].ids else current
  }

  /** Loading after saving gives back the saved list. */
  lemma LessonsRoundTrip(entries: map<string, Stored>, courseId: CourseId, ids: seq<LessonId>,
                         current: seq<LessonId>)
    ensures RestoredLessons(SavedLessons(entries, courseId, ids), courseId, current) == ids
  {
  }

  /** Saving one course's list leaves every other course's list, the session
      user and the main page's snapshot as they were. */
  lemma SavingKeepsTheRest(entries: map<string, Stored>, courseId: CourseId, ids: seq<LessonId>)
    ensures forall other, current :: other != courseId ==>
      (RestoredLessons(SavedLessons(entries, courseId, ids), other, current) ==
       RestoredLessons(entries, other, current))
    ensures StoredUser(SavedLessons(entries, courseId, ids)) == StoredUser(entries)
    ensures forall s ::
      (LocalCache.Restored(SavedLessons(entries, courseId, ids), s) == LocalCache.Restored(entries, s))
  {
    forall other | other != courseId
      ensures CompletedKey(other) != CompletedKey(courseId)
    {
      CompletedKeyInjective(other, courseId);
    }
    CompletedKeyIsNotSnapshotKey(courseId);
  }

  // ---------------------------------------------------------------------
  // Lesson lookup

  /** The index the lookup loops find: the first lesson with the id, or -1. */
  function LessonIndex(lessons: seq<Lesson>, id: LessonId): (i: int)
    ensures -1 <= i < |lessons|
    ensures i >= 0 ==> lessons[i].id == id && forall j :: 0 <= j < i ==> lessons[j].id != id
    ensures i == -1 <==> forall j :: 0 <= j < |lessons| ==> lessons[j].id != id
  {
    if lessons == [] then -1
    else if lessons[0].id == id then 0
    else
      var rest := LessonIndex(lessons[1..], id);
      if rest == -1 then -1 else rest + 1
  }

  /** The lookup loop of `loadCurrentLesson`, `goToNextLesson`,
      `goToPreviousLesson` and `updateNavigationButtons`. */
  method FindLessonIndex(lessons: seq<Lesson>, id: LessonId) returns (index: int)
    ensures index == LessonIndex(lessons, id)
  {
    index := -1;
    var i := 0;
    while i < |lessons|
      invariant 0 <= i <= |lessons|
      invariant forall j :: 0 <= j < i ==> lessons[j].id != id
    {
      if lessons[i].id == id {
        index := i;
        return;
      }
      i := i + 1;
    }
  }

  predicate DistinctIds(lessons: seq<Lesson>) {
    forall i, j :: 0 <= i < j < |lessons| ==> lessons[i].id != lessons[j].id
  }

  /** A listed lesson is found, at or before its position, and exactly at it
      when ids are distinct. */
  lemma ListedLessonFound(lessons: seq<Lesson>, k: int)
    requires 0 <= k < |lessons|
    ensures 0 <= LessonIndex(lessons, lessons[k].id) <= k
    ensures DistinctIds(lessons) ==> LessonIndex(lessons, lessons[k].id) == k
  {
  }

  /** The lesson shown and the id kept after `loadCurrentLesson`. */
  datatype Selection = Selection(lesson: Lesson, lessonId: LessonId)

  /** The first lesson with the requested id; when there is none, the lesson
      shown before, or on first load the first lesson, whose id then replaces
      the requested one. */
  function SelectLesson(lessons: seq<Lesson>, requested: LessonId, previous: Option<Lesson>): (s: Selection)
    requires lessons != []
    ensures (previous.None? || previous.value in lessons) ==> s.lesson in lessons
    ensures LessonIndex(lessons, requested) >= 0 ==>
      s == Selection(lessons[LessonIndex(lessons, requested)], requested)
    ensures LessonIndex(lessons, requested) < 0 ==>
      s == if previous.Some? then Selection(previous.value, requested) else Selection(lessons[0], lessons[0].id)
    ensures LessonIndex(lessons, requested) >= 0 || previous.None? ==> s.lesson.id == s.lessonId
  {
    var i := LessonIndex(lessons, requested);
    if i >= 0 then Selection(lessons[i], requested)
    else if previous.Some? then Selection(previous.value, requested)
    else Selection(lessons[0], lessons[0].id)
  }

  // ---------------------------------------------------------------------
  // What the page shows

  /** Which player `loadCurrentLesson` shows. */
  datatype VideoView = NoLessons | NoVideoUrl | YouTubeFrame(url: string) | VideoFile(url: string)

  function VideoOf(lesson: Lesson): (v: VideoView)
    ensures v.NoVideoUrl? <==> lesson.videoUrl == ""
    ensures v.YouTubeFrame? <==>
      (lesson.videoUrl != "" && (Includes(lesson.videoUrl, "youtube.com") || Includes(lesson.videoUrl, "youtu.be")))
  {
    if lesson.videoUrl == "" then NoVideoUrl
    else if Includes(lesson.videoUrl, "youtube.com") || Includes(lesson.videoUrl, "youtu.be") then YouTubeFrame(lesson.videoUrl)
    else VideoFile(lesson.videoUrl)
  }

  /** The alert `loadCourseData` ends with, if any. */
  datatype LessonsAlert = LessonsLoaded | NoLessonsFound | LessonsLoadFailed(message: string)

  function LessonFromRow(row: LessonRow): Lesson {
    Lesson(row.id, row.title, row.duration, row.videoUrl, row.description)
  }

  /** How a next/previous click ends. */
  datatype Navigation = Moved(video: VideoView) | AtLastLesson | AtFirstLesson

  // ---------------------------------------------------------------------
  // Quiz

  datatype QuizQuestion = QuizQuestion(question: string, options: seq<string>, correct: int)

  const Questions: seq<QuizQuestion> := [
    QuizQuestion("What is the main topic of this lesson?",
      ["Computer Basics", "Programming", "Web Design", "Data Science"], 0),
    QuizQuestion("Which of the following is a key concept covered?",
      ["Variables", "Functions", "Loops", "All of the above"], 3),
    QuizQuestion("What should you practice after this lesson?",
      ["Nothing", "The examples shown", "Advanced topics", "Unrelated skills"], 1)
  ]

  /** The number of answers, question by question, that pick the correct option. */
  function CorrectCount(answers: seq<int>): nat
    requires |answers| <= |Questions|
  {
    if answers == [] then 0
    else CorrectCount(answers[..|answers| - 1])
         + if answers[|answers| - 1] == Questions[|answers| - 1].correct then 1 else 0
  }

  /** The score never exceeds the answers given, and reaches it exactly when
      every answer is correct. */
  lemma {:induction false} CorrectCountBounds(answers: seq<int>)
    requires |answers| <= |Questions|
    ensures CorrectCount(answers) <= |answers|
    ensures CorrectCount(answers) == |answers| <==>
      forall i :: 0 <= i < |answers| ==> answers[i] == Questions[i].correct
  {
    if answers != [] {
      var front := answers[..|answers| - 1];
      CorrectCountBounds(front);
      assert forall i :: 0 <= i < |front| ==> front[i] == answers[i];
    }
  }

  /** Answering one more question adds one exactly for the correct option. */
  lemma CorrectCountStep(answers: seq<int>, a: int)
    requires |answers| < |Questions|
    ensures CorrectCount(answers + [a]) ==
      CorrectCount(answers) + if a == Questions[|answers|].correct then 1 else 0
  {
    assert (answers + [a])[..|answers|] == answers;
  }

  datatype QuizTier = Excellent | Good | KeepPracticing

  /** The result message: at least 80% excellent, at least 60% good. */
  function TierOf(percentage: int): (t: QuizTier)
    ensures t == Excellent <==> percentage >= 80
    ensures t == Good <==> 60 <= percentage < 80
    ensures t == KeepPracticing <==> percentage < 60
  {
    if percentage >= 80 then Excellent else if percentage >= 60 then Good else KeepPracticing
  }

  function TierMessage(t: QuizTier): string {
    match t
    case Excellent => "Excellent work! You really understood this lesson!"
    case Good => "Good job! You got most of it right!"
    case KeepPracticing => "Keep practicing! Review the lesson and try again."
  }

  /** What the quiz dialog shows. */
  datatype QuizScreen =
    | QuestionShown(number: int, text: string, options: seq<string>)
    | ResultShown(scoreText: string, percentage: int, tier: QuizTier, message: string)

  /** `showQuizResult()` for a score. */
  function ResultScreen(score: int): (screen: QuizScreen)
    ensures screen.ResultShown?
    ensures screen.percentage == Percent(score, |Questions|)
  {
    var percentage := Percent(score, |Questions|);
    ResultShown(IntText(score) + " / " + IntText(|Questions|), percentage, TierOf(percentage),
                TierMessage(TierOf(percentage)))
  }

  /** Three right answers are excellent, two good, fewer "keep practicing". */
  lemma QuizTiers(score: int)
    requires 0 <= score <= |Questions|
    ensures ResultScreen(score).tier == Excellent <==> score == 3
    ensures ResultScreen(score).tier == Good <==> score == 2
    ensures ResultScreen(score).tier == KeepPracticing <==> score <= 1
  {
    assert Percent(0, 3) == 0 && Percent(1, 3) == 33 && Percent(2, 3) == 67 && Percent(3, 3) == 100;
  }

  /** How a quiz submission ends. `QuizOver` is the exception raised when
      there is no current question. */
  datatype QuizStep = SelectAnAnswer | QuizOver | Answered(correct: bool, next: QuizScreen)

  // ---------------------------------------------------------------------
  // The page

  /** The page-level variables of the player. `answered` records, question by
      question, the option submitted. */
  class Player {
    const courseId: CourseId
    const storage: Storage
    var lessonId: LessonId
    var lessons: seq<Lesson>
    var current: Option<Lesson>
    var completed: seq<LessonId>
    var prevDisabled: bool
    var nextDisabled: bool
    var quizQuestion: int
    var quizScore: int
    var selectedAnswer: int
    ghost var answered: seq<int>

    ghost predicate Valid()
      reads this
    {
      && (current.Some? ==> current.value in lessons)
      && 0 <= quizQuestion <= |Questions|
      && |answered| == quizQuestion
      && quizScore == CorrectCount(answered)
    }

    /** The quiz variables together. */
    function Quiz(): (int, int, int)
      reads this
    {
      (quizQuestion, quizScore, selectedAnswer)
    }

    /** The page opened with `courseId` and `lessonId` from its address. */
    constructor (courseId: CourseId, lessonId: LessonId, storage: Storage)
      ensures Valid()
      ensures this.courseId == courseId && this.lessonId == lessonId && this.storage == storage
      ensures lessons == [] && current.None? && completed == []
      ensures Quiz() == (0, 0, -1)
    {
      this.courseId := courseId;
      this.lessonId := lessonId;
      this.storage := storage;
      lessons := [];
      current := None;
      completed := [];
      prevDisabled := false;
      nextDisabled := false;
      quizQuestion := 0;
      quizScore := 0;
      selectedAnswer := -1;
      answered := [];
    }

    /** `loadCourseData()`, with `reply` answering the select of the course's
      lessons in lesson order. It runs once, before any lesson is shown. */
    method LoadCourseData(reply: Reply<seq<LessonRow>>) returns (alert: LessonsAlert)
      requires Valid() && current.None?
      modifies this
      ensures Valid()
      ensures reply.Failed? ==> alert == LessonsLoadFailed(reply.message) && lessons == old(lessons)
      ensures reply.Ok? ==>
        && |lessons| == |reply.value|
        && (forall i :: 0 <= i < |lessons| ==> lessons[i] == LessonFromRow(reply.value[i]))
        && (alert == NoLessonsFound <==> lessons == [])
        && (alert == LessonsLoaded <==> lessons != [])
      ensures lessonId == old(lessonId) && current == old(current) && completed == old(completed)
      ensures prevDisabled == old(prevDisabled) && nextDisabled == old(nextDisabled)
      ensures Quiz() == old(Quiz()) && answered == old(answered)
    {
      if reply.Failed? {
        return LessonsLoadFailed(reply.message);
      }
      var rows := reply.value;
      lessons := seq(|rows|, i requires 0 <= i < |rows| => LessonFromRow(rows[i]));
      alert := if lessons == [] then NoLessonsFound else LessonsLoaded;
    }

    /** The navigation buttons agree with the current lesson's position. */
    predicate ButtonsMatch()
      reads this
      requires current.Some?
    {
      && (prevDisabled <==> LessonIndex(lessons, current.value.id) == 0)
      && (nextDisabled <==> LessonIndex(lessons, current.value.id) == |lessons| - 1)
    }

    /** `updateNavigationButtons()`. */
    method UpdateNavigationButtons()
      requires current.Some?
      modifies this
      ensures lessonId == old(lessonId) && lessons == old(lessons) && current == old(current)
      ensures ButtonsMatch()
      ensures completed == old(completed) && Quiz() == old(Quiz()) && answered == old(answered)
    {
      var index := FindLessonIndex(lessons, current.value.id);
      prevDisabled := index == 0;
      nextDisabled := index == |lessons| - 1;
    }

    /** `loadCurrentLesson()`: with no lessons nothing changes; otherwise the
      lesson is selected and shown, and the buttons are refreshed unless the
      lesson has no video address. */
    method LoadCurrentLesson() returns (video: VideoView)
      requires Valid()
      modifies this
      ensures Valid()
      ensures old(lessons) == [] ==> video == NoLessons && lessonId == old(lessonId) && current == old(current)
      ensures old(lessons) != [] ==>
        && current.Some?
        && Selection(current.value, lessonId) == SelectLesson(lessons, old(lessonId), old(current))
        && video == VideoOf(current.value)
        && (video.NoVideoUrl? ==> prevDisabled == old(prevDisabled) && nextDisabled == old(nextDisabled))
        && (!video.NoVideoUrl? ==> ButtonsMatch())
      ensures old(lessons) == [] ==> prevDisabled == old(prevDisabled) && nextDisabled == old(nextDisabled)
      ensures lessons == old(lessons) && completed == old(completed)
      ensures Quiz() == old(Quiz()) && answered == old(answered)
    {
      if lessons == [] {
        return NoLessons;
      }
      var index := FindLessonIndex(lessons, lessonId);
      if index >= 0 {
        current := Some(lessons[index]);
      }
      if current.None? {
        current := Some(lessons[0]);
        lessonId := lessons[0].id;
      }
      video := VideoOf(current.value);
      if video.NoVideoUrl? {
        return;
      }
      UpdateNavigationButtons();
    }

    /** `playLesson(newLessonId)`: the address is updated (not modelled) and the
      lesson reloaded. */
    method PlayLesson(newLessonId: LessonId) returns (video: VideoView)
      requires Valid()
      modifies this
      ensures Valid()
      ensures lessons == [] ==>
        && video == NoLessons && current == old(current) && lessonId == newLessonId
        && prevDisabled == old(prevDisabled) && nextDisabled == old(nextDisabled)
      ensures lessons != [] ==>
        && current.Some?
        && Selection(current.value, lessonId) == SelectLesson(lessons, newLessonId, old(current))
        && video == VideoOf(current.value)
        && (video.NoVideoUrl? ==> prevDisabled == old(prevDisabled) && nextDisabled == old(nextDisabled))
        && (!video.NoVideoUrl? ==> ButtonsMatch())
      ensures lessons == old(lessons) && completed == old(completed)
      ensures Quiz() == old(Quiz()) && answered == old(answered)
    {
      lessonId := newLessonId;
      video := LoadCurrentLesson();
    }

    /** `goToNextLesson()`: moves to the lesson after the current one unless it
      is the last. */
    method GoToNextLesson() returns (nav: Navigation)
      requires Valid() && current.Some?
      modifies this
      ensures Valid()
      ensures 0 <= LessonIndex(lessons, old(current).value.id) < |lessons|
      ensures LessonIndex(lessons, old(current).value.id) == |lessons| - 1 ==>
        nav == AtLastLesson && lessonId == old(lessonId) && current == old(current)
        && prevDisabled == old(prevDisabled) && nextDisabled == old(nextDisabled)
      ensures LessonIndex(lessons, old(current).value.id) < |lessons| - 1 ==>
        var next := lessons[LessonIndex(lessons, old(current).value.id) + 1];
        && nav.Moved? && lessonId == next.id
        && current == Some(lessons[LessonIndex(lessons, next.id)])
        && (DistinctIds(lessons) ==> current == Some(next))
        && nav.video == VideoOf(current.value)
        && (nav.video.NoVideoUrl? ==> prevDisabled == old(prevDisabled) && nextDisabled == old(nextDisabled))
        && (!nav.video.NoVideoUrl? ==> ButtonsMatch())
      ensures lessons == old(lessons) && completed == old(completed)
      ensures Quiz() == old(Quiz()) && answered == old(answered)
    {
      var index := FindLessonIndex(lessons, current.value.id);
      if index < |lessons| - 1 {
        ListedLessonFound(lessons, index + 1);
        var video := PlayLesson(lessons[index + 1].id);
        nav := Moved(video);
      } else {
        nav := AtLastLesson;
      }
    }

    /** `goToPreviousLesson()`: moves to the lesson before the current one
      unless it is the first. */
    method GoToPreviousLesson() returns (nav: Navigation)
      requires Valid() && current.Some?
      modifies this
      ensures Valid()
      ensures 0 <= LessonIndex(lessons, old(current).value.id) < |lessons|
      ensures LessonIndex(lessons, old(current).value.id) == 0 ==>
        nav == AtFirstLesson && lessonId == old(lessonId) && current == old(current)
        && prevDisabled == old(prevDisabled) && nextDisabled == old(nextDisabled)
      ensures LessonIndex(lessons, old(current).value.id) > 0 ==>
        var prev := lessons[LessonIndex(lessons, old(current).value.id) - 1];
        && nav.Moved? && lessonId == prev.id
        && current == Some(lessons[LessonIndex(lessons, prev.id)])
        && (DistinctIds(lessons) ==> current == Some(prev))
        && nav.video == VideoOf(current.value)
        && (nav.video.NoVideoUrl? ==> prevDisabled == old(prevDisabled) && nextDisabled == old(nextDisabled))
        && (!nav.video.NoVideoUrl? ==> ButtonsMatch())
      ensures lessons == old(lessons) && completed == old(completed)
      ensures Quiz() == old(Quiz()) && answered == old(answered)
    {
      var index := FindLessonIndex(lessons, current.value.id);
      if index > 0 {
        ListedLessonFound(lessons, index - 1);
        var video := PlayLesson(lessons[index - 1].id);
        nav := Moved(video);
      } else {
        nav := AtFirstLesson;
      }
    }

    /** `saveCompletedLessons()`. */
    method SaveCompletedLessons()
      modifies storage
      ensures storage.entries == SavedLessons(old(storage.entries), courseId, completed)
    {
      storage.SetItem(CompletedKey(courseId), LessonIds(completed));
    }

    /** `loadCompletedLessons()`: the stored list replaces the one in memory
      only when the key is present; `doneShown` says the complete button
      switches to "Completed". */
    method LoadCompletedLessons() returns (doneShown: bool)
      modifies this
      ensures completed == RestoredLessons(storage.entries, courseId, old(completed))
      ensures doneShown <==> current.Some? && current.value.id in completed
      ensures lessonId == old(lessonId) && lessons == old(lessons) && current == old(current)
      ensures prevDisabled == old(prevDisabled) && nextDisabled == old(nextDisabled)
      ensures Quiz() == old(Quiz()) && answered == old(answered)
    {
      var key := CompletedKey(courseId);
      if key in storage.entries && storage.entries[key].LessonIds? {
        completed := storage.entries[key].ids;
      }
      doneShown := current.Some? && current.value.id in completed;
    }

    /** The progress part of `updateCourseProgressInDB()`: the update sent for
      the stored session user, and whether the completion dialog follows. */
    method UpdateCourseProgressInDB(now: string) returns (write: Option<ProgressWrite>, celebrate: bool)
      requires |lessons| > 0
      ensures write == ProgressUpdate(StoredUser(storage.entries), courseId, |completed|, |lessons|, now)
      ensures celebrate <==> write.Some? && write.value.completed
    {
      if StoredUser(storage.entries).None? {
        return None, false;
      }
      var user := StoredUser(storage.entries).value;
      var totalLessons := |lessons|;
      var completedCount := |completed|;
      var progress := Percent(completedCount, totalLessons);
      var isCompleted := progress == 100;
      write := Some(Progress.ProgressPayload(user.id, courseId, progress, isCompleted, now));
      celebrate := isCompleted;
    }

    /** `markLessonComplete()` at time `now`: a lesson already in the list
      changes nothing; otherwise its id is appended, the list saved and the
      course progress sent. */
    method MarkLessonComplete(now: string) returns (write: Option<ProgressWrite>, celebrate: bool)
      requires Valid() && current.Some?
      modifies this, storage
      ensures Valid()
      ensures lessonId == old(lessonId) && lessons == old(lessons) && current == old(current)
      ensures old(current.value.id in completed) ==>
        write.None? && !celebrate && completed == old(completed) && storage.entries == old(storage.entries)
      ensures old(current.value.id !in completed) ==>
        && completed == old(completed) + [old(current.value.id)]
        && storage.entries == SavedLessons(old(storage.entries), courseId, completed)
        && write == ProgressUpdate(StoredUser(old(storage.entries)), courseId, |completed|, |lessons|, now)
        && (celebrate <==> write.Some? && write.value.completed)
      ensures NoDuplicates(old(completed)) ==> NoDuplicates(completed)
      ensures prevDisabled == old(prevDisabled) && nextDisabled == old(nextDisabled)
      ensures Quiz() == old(Quiz()) && answered == old(answered)
    {
      var id := current.value.id;
      if id in completed {
        return None, false;
      }
      if NoDuplicates(completed) {
        AppendFresh(completed, id);
      }
      completed := completed + [id];
      SaveCompletedLessons();
      SavingKeepsTheRest(old(storage.entries), courseId, completed);
      write, celebrate := UpdateCourseProgressInDB(now);
    }

    /** `showQuizQuestion()`: the current question with its options, or the
      result once every question is answered. */
    method ShowQuizQuestion() returns (screen: QuizScreen)
      requires Valid()
      modifies this
      ensures Valid()
      ensures quizQuestion < |Questions| ==>
        && screen == QuestionShown(quizQuestion + 1, IntText(quizQuestion + 1) + ". " + Questions[quizQuestion].question,
                                   Questions[quizQuestion].options)
        && selectedAnswer == -1
      ensures quizQuestion >= |Questions| ==>
        screen == ResultScreen(quizScore) && selectedAnswer == old(selectedAnswer)
      ensures quizQuestion == old(quizQuestion) && quizScore == old(quizScore) && answered == old(answered)
      ensures lessonId == old(lessonId) && lessons == old(lessons) && current == old(current)
      ensures completed == old(completed)
      ensures prevDisabled == old(prevDisabled) && nextDisabled == old(nextDisabled)
    {
      if quizQuestion >= |Questions| {
        return ResultScreen(quizScore);
      }
      var question := Questions[quizQuestion];
      screen := QuestionShown(quizQuestion + 1, IntText(quizQuestion + 1) + ". " + question.question, question.options);
      selectedAnswer := -1;
    }

    /** `startQuiz()`: back to the first question with no score and no selection. */
    method StartQuiz() returns (screen: QuizScreen)
      requires Valid()
      modifies this
      ensures Valid()
      ensures Quiz() == (0, 0, -1) && answered == []
      ensures screen == QuestionShown(1, "1. " + Questions[0].question, Questions[0].options)
      ensures lessonId == old(lessonId) && lessons == old(lessons) && current == old(current)
      ensures completed == old(completed)
      ensures prevDisabled == old(prevDisabled) && nextDisabled == old(nextDisabled)
    {
      quizQuestion := 0;
      quizScore := 0;
      selectedAnswer := -1;
      answered := [];
      screen := ShowQuizQuestion();
    }

    /** `selectQuizOption(index)`. */
    method SelectQuizOption(index: int)
      requires Valid()
      modifies this
      ensures Valid()
      ensures Quiz() == (old(quizQuestion), old(quizScore), index) && answered == old(answered)
      ensures lessonId == old(lessonId) && lessons == old(lessons) && current == old(current)
      ensures completed == old(completed)
      ensures prevDisabled == old(prevDisabled) && nextDisabled == old(nextDisabled)
    {
      selectedAnswer := index;
    }

    /** The scoring part of `submitQuizAnswer()` and the question increment
      of its delayed advance. */
    method CheckAnswer() returns (correct: bool)
      requires Valid() && selectedAnswer != -1 && quizQuestion < |Questions|
      modifies this
      ensures Valid()
      ensures correct <==> old(selectedAnswer) == Questions[old(quizQuestion)].correct
      ensures quizQuestion == old(quizQuestion) + 1
      ensures quizScore == old(quizScore) + (if correct then 1 else 0)
      ensures answered == old(answered) + [old(selectedAnswer)]
      ensures selectedAnswer == old(selectedAnswer)
      ensures lessonId == old(lessonId) && lessons == old(lessons) && current == old(current)
      ensures completed == old(completed)
      ensures prevDisabled == old(prevDisabled) && nextDisabled == old(nextDisabled)
    {
      correct := selectedAnswer == Questions[quizQuestion].correct;
      if correct {
        quizScore := quizScore + 1;
      }
      CorrectCountStep(answered, selectedAnswer);
      answered := answered + [selectedAnswer];
      quizQuestion := quizQuestion + 1;
    }

    /** `submitQuizAnswer()` followed by the delayed advance, taken as one
      step: without a selection nothing changes; otherwise the score grows
      exactly when the selected option is the correct one and the next
      question (or the result) is shown. */
    method SubmitQuizAnswer() returns (step: QuizStep)
      requires Valid()
      modifies this
      ensures Valid()
      ensures quizScore <= quizQuestion
      ensures old(selectedAnswer) == -1 ==>
        step == SelectAnAnswer && Quiz() == old(Quiz()) && answered == old(answered)
      ensures old(selectedAnswer) != -1 && old(quizQuestion) >= |Questions| ==>
        step == QuizOver && Quiz() == old(Quiz()) && answered == old(answered)
      ensures old(selectedAnswer) != -1 && old(quizQuestion) < |Questions| ==>
        && step.Answered?
        && (step.correct <==> old(selectedAnswer) == Questions[old(quizQuestion)].correct)
        && quizQuestion == old(quizQuestion) + 1
        && quizScore == old(quizScore) + (if step.correct then 1 else 0)
        && answered == old(answered) + [old(selectedAnswer)]
        && (quizQuestion < |Questions| ==>
              && step.next == QuestionShown(quizQuestion + 1,
                                            IntText(quizQuestion + 1) + ". " + Questions[quizQuestion].question,
                                            Questions[quizQuestion].options)
              && selectedAnswer == -1)
        && (quizQuestion >= |Questions| ==>
              step.next == ResultScreen(quizScore) && selectedAnswer == old(selectedAnswer))
      ensures lessonId == old(lessonId) && lessons == old(lessons) && current == old(current)
      ensures completed == old(completed)
      ensures prevDisabled == old(prevDisabled) && nextDisabled == old(nextDisabled)
    {
      CorrectCountBounds(answered);
      if selectedAnswer == -1 {
        return SelectAnAnswer;
      }
      if quizQuestion >= |Questions| {
        // In the page the quiz buttons are hidden once the result shows, so
        // this case is not reached there; reading the missing question would
        // raise a TypeError.
        return QuizOver;
      }
      var correct := CheckAnswer();
      CorrectCountBounds(answered);
      var next := ShowQuizQuestion();
      step := Answered(correct, next);
    }
  }
}
