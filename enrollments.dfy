/** The enrollment tracker (js/enrollments.js): the session user's list of
    enrolled course ids, reloaded from the backend or extended on enrollment. */
module Enrollments {
  import opened Wrappers
  import opened Entities
  import opened AppState
  import opened Lists
  import Progress
  import LocalCache

  /** The session user after `loadUserEnrollments()`: the course list becomes
      the returned course ids in returned order; an error reply keeps it. */
  function UserAfterEnrollmentLoad(user: Option<User>, reply: Reply<seq<CourseId>>): (r: Option<User>)
    ensures r.None? <==> user.None?
    ensures r.Some? ==> r.value == user.value.(courses := if reply.Ok? then reply.value else user.value.courses)
  {
    match user
    case None => None
    case Some(u) => if reply.Ok? then Some(u.(courses := reply.value)) else user
  }

  /** `loadUserEnrollments()`; `reply` carries the `course_id` column of the
      user's `enrollments` rows. */
  method LoadUserEnrollments(app: App, reply: Reply<seq<CourseId>>)
    modifies app
    ensures app.View() == old(app.View()).(loggedInUser := UserAfterEnrollmentLoad(old(app.loggedInUser), reply))
  {
    if app.loggedInUser.None? {
      return;
    }
    if reply.Failed? {
      return;
    }
    app.loggedInUser := Some(app.loggedInUser.value.(courses := reply.value));
  }

  /** The row inserted on enrollment. */
  datatype EnrollmentInsert = EnrollmentInsert(userId: string, courseId: CourseId, progress: int, completed: bool)

  /** How `enrollInCourseDetail()` ends. */
  datatype EnrollOutcome =
    | NoCourseSelected
    | SignInToEnroll
    | AlreadyEnrolled(courseName: string)
    | EnrollFailed(message: string)
    | Enrolled(courseName: string)

  /** `enrollInCourseDetail()`: `insertReply` answers the insert,
      `progressReply` the progress reload that follows a successful one. */
  method EnrollInCourseDetail(app: App, insertReply: Reply<()>, progressReply: Reply<seq<EnrollmentRow>>)
    returns (outcome: EnrollOutcome, insert: Option<EnrollmentInsert>)
    modifies app, app.storage
    // the insert is attempted exactly for a selected course the signed-in user is not enrolled in
    ensures insert.Some? <==> (old(app.selectedCourse).Some? && old(app.loggedInUser).Some?
      && old(app.selectedCourse).value.id !in old(app.loggedInUser).value.courses)
    ensures insert.Some? ==> insert.value == EnrollmentInsert(old(app.loggedInUser).value.id,
      old(app.selectedCourse).value.id, 0, false)
    ensures old(app.selectedCourse).None? ==> outcome == NoCourseSelected
    ensures old(app.selectedCourse).Some? && old(app.loggedInUser).None? ==> outcome == SignInToEnroll
    ensures old(app.selectedCourse).Some? && old(app.loggedInUser).Some?
      && old(app.selectedCourse).value.id in old(app.loggedInUser).value.courses
      ==> outcome == AlreadyEnrolled(old(app.selectedCourse).value.name)
    // without a successful insert nothing changes
    ensures !(insert.Some? && insertReply.Ok?) ==>
      app.View() == old(app.View()) && app.storage.entries == old(app.storage.entries)
    ensures insert.Some? && insertReply.Failed? ==> outcome == EnrollFailed(insertReply.message)
    // a successful insert appends the course once, reloads progress and saves the snapshot
    ensures insert.Some? && insertReply.Ok? ==>
      var u := old(app.loggedInUser).value;
      var c := old(app.selectedCourse).value;
      && outcome == Enrolled(c.name)
      && app.View() == old(app.View()).(
           loggedInUser := Some(u.(courses := u.courses + [c.id])),
           userProgress := Progress.ProgressAfterLoad(Some(u), old(app.userProgress), progressReply))
      && app.storage.entries == LocalCache.Saved(old(app.storage.entries), LocalCache.SnapshotOf(app.View()))
    ensures old(app.loggedInUser).Some? && NoDuplicates(old(app.loggedInUser).value.courses)
      ==> app.loggedInUser.Some? && NoDuplicates(app.loggedInUser.value.courses)
  {
    insert := None;
    if app.selectedCourse.None? {
      return NoCourseSelected, None;
    }
    if app.loggedInUser.None? {
      return SignInToEnroll, None;
    }
    var course := app.selectedCourse.value;
    var user := app.loggedInUser.value;
    var alreadyEnrolled := Scan(user.courses, course.id);
    if alreadyEnrolled {
      return AlreadyEnrolled(course.name), None;
    }
    insert := Some(EnrollmentInsert(user.id, course.id, 0, false));
    if insertReply.Failed? {
      return EnrollFailed(insertReply.message), insert;
    }
    if NoDuplicates(user.courses) {
      AppendFresh(user.courses, course.id);
    }
    app.loggedInUser := Some(user.(courses := user.courses + [course.id]));
    Progress.LoadUserProgress(app, progressReply);
    LocalCache.SaveToLocalStorage(app);
    outcome := Enrolled(course.name);
  }

  /** Enrolling twice in the selected course: once the first call has
      enrolled, the second reports "already enrolled" and inserts nothing. */
  method EnrollTwice(app: App, firstInsert: Reply<()>, firstReload: Reply<seq<EnrollmentRow>>,
                     secondInsert: Reply<()>, secondReload: Reply<seq<EnrollmentRow>>)
    returns (first: EnrollOutcome, second: EnrollOutcome, secondRow: Option<EnrollmentInsert>)
    requires app.selectedCourse.Some? && app.loggedInUser.Some?
    modifies app, app.storage
    ensures first.Enrolled? || first.AlreadyEnrolled? ==>
      second == AlreadyEnrolled(old(app.selectedCourse.value.name)) && secondRow.None?
  {
    var firstRow;
    first, firstRow := EnrollInCourseDetail(app, firstInsert, firstReload);
    second, secondRow := EnrollInCourseDetail(app, secondInsert, secondReload);
  }
}
