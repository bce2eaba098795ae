/** The course catalogue (js/courses.js): loading, search, difficulty filter,
    selection of a course and the gate in front of the lesson player. */
module Courses {
  import opened Wrappers
  import opened Entities
  import opened Text
  import opened AppState
  import Lists

  /** The catalogue built from the rows of the `courses` table: the same
      courses in the same order, the description kept as `info`, no lessons yet. */
  function CoursesFromRows(rows: seq<CourseRow>): (courses: seq<Course>)
    ensures |courses| == |rows|
    ensures forall i :: 0 <= i < |rows| ==>
      var (c, r) := (courses[i], rows[i]);
      c.id == r.id && c.name == r.name && c.info == r.description && c.difficulty == r.difficulty
      && c.color == r.color && c.totalLessons == r.totalLessons && c.lessons == []
  {
    seq(|rows|, i requires 0 <= i < |rows| =>
      Course(rows[i].id, rows[i].name, rows[i].description, rows[i].difficulty,
             rows[i].color, rows[i].totalLessons, []))
  }

  /** `loadCoursesFromSupabase()`: on an error reply the catalogue is kept. */
  method LoadCoursesFromSupabase(app: App, reply: Reply<seq<CourseRow>>)
    modifies app
    ensures app.View() == old(app.View()).(allCourses :=
      if reply.Ok? then CoursesFromRows(reply.value) else old(app.allCourses))
  {
    if reply.Ok? {
      app.allCourses := CoursesFromRows(reply.value);
    }
  }

  // ---------------------------------------------------------------------
  // Search and filter

  /** The search rule: the lower-cased name or description contains the
      lower-cased query. */
  predicate MatchesQuery(c: Course, query: string) {
    Includes(Lower(c.name), Lower(query)) || Includes(Lower(c.info), Lower(query))
  }

  /** The courses that match the query, in catalogue order. */
  function Matching(courses: seq<Course>, query: string): seq<Course> {
    if courses == [] then []
    else
      var last := courses[|courses| - 1];
      Matching(courses[..|courses| - 1], query) + (if MatchesQuery(last, query) then [last] else [])
  }

  /** The filter rule: `'all'` keeps every course, any other value keeps the
      courses of exactly that difficulty. */
  predicate KeptByFilter(c: Course, difficulty: string) {
    difficulty == "all" || c.difficulty == difficulty
  }

  /** The courses the filter keeps, in catalogue order. */
  function WithDifficulty(courses: seq<Course>, difficulty: string): seq<Course> {
    if courses == [] then []
    else
      var last := courses[|courses| - 1];
      WithDifficulty(courses[..|courses| - 1], difficulty)
        + (if KeptByFilter(last, difficulty) then [last] else [])
  }

  /** What the course list shows: course cards, or the "no results" notice. */
  datatype Listing = CourseCards(courses: seq<Course>) | NoResults(message: string)

  const NoSearchResults: string := "No courses found"
  const NoFilterResults: string := "No courses found in this category"

  function ListingOf(found: seq<Course>, message: string): Listing {
    if found == [] then NoResults(message) else CourseCards(found)
  }

  /** `searchCourses()` with the text of the search box. */
  method SearchCourses(app: App, query: string) returns (view: Listing)
    ensures view == ListingOf(Matching(app.allCourses, query), NoSearchResults)
  {
    var courses := app.allCourses;
    var found: seq<Course> := [];
    var foundCourses := 0;
    var i := 0;
    while i < |courses|
      invariant 0 <= i <= |courses|
      invariant found == Matching(courses[..i], query)
      invariant foundCourses == |found|
    {
      var course := courses[i];
      assert courses[..i + 1][..i] == courses[..i];
      if Includes(Lower(course.name), Lower(query)) || Includes(Lower(course.info), Lower(query)) {
        foundCourses := foundCourses + 1;
        found := found + [course];
      }
      i := i + 1;
    }
    assert courses[..i] == courses;
    view := if foundCourses == 0 then NoResults(NoSearchResults) else CourseCards(found);
  }

  /** `filterCourses(difficulty)`: records the filter and lists what it keeps. */
  method FilterCourses(app: App, difficulty: string) returns (view: Listing)
    modifies app
    ensures app.View() == old(app.View()).(currentFilter := difficulty)
    ensures view == ListingOf(WithDifficulty(app.allCourses, difficulty), NoFilterResults)
  {
    app.currentFilter := difficulty;
    var courses := app.allCourses;
    var found: seq<Course> := [];
    var foundCourses := 0;
    var i := 0;
    while i < |courses|
      invariant 0 <= i <= |courses|
      invariant found == WithDifficulty(courses[..i], difficulty)
      invariant foundCourses == |found|
    {
      var course := courses[i];
      assert courses[..i + 1][..i] == courses[..i];
      if difficulty == "all" || course.difficulty == difficulty {
        foundCourses := foundCourses + 1;
        found := found + [course];
      }
      i := i + 1;
    }
    assert courses[..i] == courses;
    view := if foundCourses == 0 then NoResults(NoFilterResults) else CourseCards(found);
  }

  /** A course is in the search result exactly when it is in the catalogue and
      matches the query. */
  lemma {:induction false} MatchingMembers(courses: seq<Course>, query: string, c: Course)
    ensures c in Matching(courses, query) <==> c in courses && MatchesQuery(c, query)
  {
    if courses != [] {
      var init := courses[..|courses| - 1];
      assert courses == init + [courses[|courses| - 1]];
      MatchingMembers(init, query, c);
    }
  }

  /** Searching preserves order: the result for a concatenation is the
      concatenation of the results. */
  lemma {:induction false} MatchingConcat(a: seq<Course>, b: seq<Course>, query: string)
    ensures Matching(a + b, query) == Matching(a, query) + Matching(b, query)
  {
    if b == [] {
      assert a + b == a;
    } else {
      var init := b[..|b| - 1];
      assert (a + b)[..|a + b| - 1] == a + init;
      MatchingConcat(a, init, query);
    }
  }

  /** The empty query keeps every course. */
  lemma {:induction false} EmptyQueryKeepsAll(courses: seq<Course>)
    ensures Matching(courses, "") == courses
  {
    if courses != [] {
      var init := courses[..|courses| - 1];
      EmptyQueryKeepsAll(init);
      assert Lower("") == "";
      assert Includes(Lower(courses[|courses| - 1].name), "");
      assert init + [courses[|courses| - 1]] == courses;
    }
  }

  /** A course is in the filter result exactly when it is in the catalogue and
      the filter keeps it. */
  lemma {:induction false} WithDifficultyMembers(courses: seq<Course>, difficulty: string, c: Course)
    ensures c in WithDifficulty(courses, difficulty) <==> c in courses && KeptByFilter(c, difficulty)
  {
    if courses != [] {
      var init := courses[..|courses| - 1];
      assert courses == init + [courses[|courses| - 1]];
      WithDifficultyMembers(init, difficulty, c);
    }
  }

  /** Filtering preserves order: the result for a concatenation is the
      concatenation of the results. */
  lemma {:induction false} WithDifficultyConcat(a: seq<Course>, b: seq<Course>, difficulty: string)
    ensures WithDifficulty(a + b, difficulty) == WithDifficulty(a, difficulty) + WithDifficulty(b, difficulty)
  {
    if b == [] {
      assert a + b == a;
    } else {
      var init := b[..|b| - 1];
      assert (a + b)[..|a + b| - 1] == a + init;
      WithDifficultyConcat(a, init, difficulty);
    }
  }

  /** `filterCourses('all')` lists the whole catalogue in its order. */
  lemma {:induction false} FilterAllKeepsAll(courses: seq<Course>)
    ensures WithDifficulty(courses, "all") == courses
  {
    if courses != [] {
      var init := courses[..|courses| - 1];
      FilterAllKeepsAll(init);
      assert init + [courses[|courses| - 1]] == courses;
    }
  }

  // ---------------------------------------------------------------------
  // Selection by id

  /** Index `i` holds the first course whose id is `id`. */
  predicate IsFirstWithId(courses: seq<Course>, i: int, id: CourseId) {
    0 <= i < |courses| && courses[i].id == id && forall j :: 0 <= j < i ==> courses[j].id != id
  }

  /** The first course with the given id, if any. */
  function FirstWithId(courses: seq<Course>, id: CourseId): (found: Option<Course>)
    ensures found.None? <==> forall i :: 0 <= i < |courses| ==> courses[i].id != id
    ensures found.Some? ==> exists i :: IsFirstWithId(courses, i, id) && courses[i] == found.value
  {
    if courses == [] then None
    else if courses[0].id == id then
      assert IsFirstWithId(courses, 0, id);
      Some(courses[0])
    else
      var rest := FirstWithId(courses[1..], id);
      if rest.Some? then
        var i :| IsFirstWithId(courses[1..], i, id) && courses[1..][i] == rest.value;
        assert IsFirstWithId(courses, i + 1, id);
        rest
      else
        rest
  }

  /** The linear search the pages run over `allCourses`: the first course whose
      id equals `id`, or nothing. */
  method FindCourse(courses: seq<Course>, id: CourseId) returns (found: Option<Course>)
    ensures found == FirstWithId(courses, id)
  {
    found := None;
    var i := 0;
    while i < |courses|
      invariant 0 <= i <= |courses|
      invariant FirstWithId(courses, id) == FirstWithId(courses[i..], id)
    {
      if courses[i].id == id {
        found := Some(courses[i]);
        return;
      }
      assert courses[i..][1..] == courses[i + 1..];
      i := i + 1;
    }
  }

  /** `clickCourse(courseId)`; the detail view opens only when a course was
      found (`showCourseDetail` returns at once on `null`). */
  method ClickCourse(app: App, id: CourseId) returns (opensDetail: bool)
    modifies app
    ensures app.View() == old(app.View()).(selectedCourse := FirstWithId(app.allCourses, id))
    ensures opensDetail <==> app.selectedCourse.Some?
  {
    app.selectedCourse := None;
    var course := FindCourse(app.allCourses, id);
    app.selectedCourse := course;
    opensDetail := app.selectedCourse.Some?;
  }

  // ---------------------------------------------------------------------
  // Access gate of the lesson player

  /** What `openVideoPlayer` does: send to sign-in, ask to enroll first, or
      navigate to the player with the course and lesson ids. */
  datatype PlayerGate = SignInFirst | EnrollFirst | OpenPlayer(courseId: CourseId, lessonId: LessonId)

  /** `openVideoPlayer(courseId, lessonId)`: navigates only for a signed-in user
      enrolled in the course. */
  method OpenVideoPlayer(app: App, courseId: CourseId, lessonId: LessonId) returns (gate: PlayerGate)
    ensures app.loggedInUser.None? ==> gate == SignInFirst
    ensures app.loggedInUser.Some? ==>
      gate == if courseId in app.loggedInUser.value.courses then OpenPlayer(courseId, lessonId) else EnrollFirst
  {
    if app.loggedInUser.None? {
      return SignInFirst;
    }
    var isEnrolled := Lists.Scan(app.loggedInUser.value.courses, courseId);
    if !isEnrolled {
      return EnrollFirst;
    }
    gate := OpenPlayer(courseId, lessonId);
  }
}
