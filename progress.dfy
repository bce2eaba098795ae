/** Per-user course progress (js/progress.js): the `enrollments` update, the
    load that merges backend rows into `userProgress`, and the lookup. */
module Progress {
  import opened Wrappers
  import opened Entities
  import opened AppState

  // ---------------------------------------------------------------------
  // Update

  /** The update payload: progress and completed flag, and a completion date
      exactly when the course is completed. */
  function ProgressPayload(userId: string, courseId: CourseId, progress: int, completed: bool, now: string)
    : (w: ProgressWrite)
    ensures w.userId == userId && w.courseId == courseId
    ensures w.progress == progress && w.completed == completed
    ensures w.completionDate.Some? <==> completed
  {
    ProgressWrite(userId, courseId, progress, completed, if completed then Some(now) else None)
  }

  /** What `updateCourseProgress` does: nothing without a session user,
      otherwise it sends the payload and reports whether the backend accepted it. */
  datatype UpdateOutcome = NotSignedIn | Sent(write: ProgressWrite, succeeded: bool)

  /** `updateCourseProgress(courseId, progress, completed)`; `now` is the clock
      reading, `reply` the backend's answer to the update. */
  function UpdateCourseProgress(user: Option<User>, courseId: CourseId, progress: int, completed: bool,
                                now: string, reply: Reply<()>): (r: UpdateOutcome)
    ensures r.NotSignedIn? <==> user.None?
    ensures r.Sent? ==> (r.write.userId == user.value.id && r.write.courseId == courseId
      && r.write.progress == progress && r.write.completed == completed
      && (r.write.completionDate.Some? <==> completed)
      && (r.succeeded <==> reply.Ok?))
  {
    if user.None? then NotSignedIn
    else Sent(ProgressPayload(user.value.id, courseId, progress, completed, now), reply.Ok?)
  }

  // ---------------------------------------------------------------------
  // Load

  /** The progress entry made from a row: a missing progress becomes 0, a
      missing completed flag becomes false, a missing or empty date none. */
  function EntryFromRow(row: EnrollmentRow): CourseProgress {
    CourseProgress(
      row.progress.GetOr(0),
      row.completed.GetOr(false),
      if row.completionDate.Some? && row.completionDate.value != "" then row.completionDate else None,
      if row.enrolledAt.Some? && row.enrolledAt.value != "" then row.enrolledAt else None)
  }

  /** The entries after the rows are written in order (`data.forEach`), each
      overwriting the entry of its course. */
  function Merge(entries: map<CourseId, CourseProgress>, rows: seq<EnrollmentRow>): map<CourseId, CourseProgress> {
    if rows == [] then entries
    else
      var last := rows[|rows| - 1];
      Merge(entries, rows[..|rows| - 1])[last.courseId := EntryFromRow(last)]
  }

  /** The progress map after a successful load for the user with this e-mail:
      the user's entries are created empty if absent, then merged with the rows. */
  function ProgressLoaded(progress: ProgressMap, email: string, rows: seq<EnrollmentRow>): ProgressMap {
    progress[email := Merge(if email in progress then progress[email] else map[], rows)]
  }

  /** The progress map after `loadUserProgress()` given the backend reply. */
  function ProgressAfterLoad(user: Option<User>, progress: ProgressMap, reply: Reply<seq<EnrollmentRow>>): ProgressMap {
    if user.Some? && reply.Ok? then ProgressLoaded(progress, user.value.email, reply.value) else progress
  }

  /** `loadUserProgress()`: no-op without a session user or on an error reply. */
  method LoadUserProgress(app: App, reply: Reply<seq<EnrollmentRow>>)
    modifies app
    ensures app.View() == old(app.View()).(userProgress :=
      ProgressAfterLoad(old(app.loggedInUser), old(app.userProgress), reply))
  {
    if app.loggedInUser.None? || reply.Failed? {
      return;
    }
    var email := app.loggedInUser.value.email;
    var rows := reply.value;
    if email !in app.userProgress {
      app.userProgress := app.userProgress[email := map[]];
    }
    ghost var start := app.userProgress[email];
    var i := 0;
    while i < |rows|
      invariant 0 <= i <= |rows|
      invariant app.userProgress == old(app.userProgress)[email := Merge(start, rows[..i])]
      invariant app.View() == old(app.View()).(userProgress := app.userProgress)
    {
      var row := rows[i];
      assert rows[..i + 1][..i] == rows[..i];
      app.userProgress := app.userProgress[email := app.userProgress[email][row.courseId := EntryFromRow(row)]];
      i := i + 1;
    }
    assert rows[..i] == rows;
  }

  /** The last row about course `k`, if any. */
  function LastRowFor(rows: seq<EnrollmentRow>, k: CourseId): (r: Option<EnrollmentRow>)
    ensures r.None? <==> forall i :: 0 <= i < |rows| ==> rows[i].courseId != k
    ensures r.Some? ==> exists i :: IsLastRowFor(rows, i, k) && rows[i] == r.value
  {
    if rows == [] then None
    else if rows[|rows| - 1].courseId == k then
      assert IsLastRowFor(rows, |rows| - 1, k);
      Some(rows[|rows| - 1])
    else
      var r := LastRowFor(rows[..|rows| - 1], k);
      if r.Some? then
        var i :| IsLastRowFor(rows[..|rows| - 1], i, k) && rows[..|rows| - 1][i] == r.value;
        LastRowStaysLast(rows, i, k);
        r
      else
        r
  }

  /** A row that is last about `k` before a final row about another course
      stays the last one. */
  lemma LastRowStaysLast(rows: seq<EnrollmentRow>, i: int, k: CourseId)
    requires rows != [] && rows[|rows| - 1].courseId != k
    requires IsLastRowFor(rows[..|rows| - 1], i, k)
    ensures IsLastRowFor(rows, i, k) && rows[i] == rows[..|rows| - 1][i]
  {
  }

  /** Index `i` holds the last row about course `k`. */
  predicate IsLastRowFor(rows: seq<EnrollmentRow>, i: int, k: CourseId) {
    0 <= i < |rows| && rows[i].courseId == k && forall j :: i < j < |rows| ==> rows[j].courseId != k
  }

  /** Loading merges rather than replaces: after the merge a course has an
      entry exactly when it had one or a row names it; the last row about a
      course decides its entry, and courses no row names keep their entry. */
  lemma {:induction false} MergeLookup(entries: map<CourseId, CourseProgress>, rows: seq<EnrollmentRow>, k: CourseId)
    ensures k in Merge(entries, rows) <==> k in entries || LastRowFor(rows, k).Some?
    ensures k in Merge(entries, rows) ==> (Merge(entries, rows)[k] ==
      match LastRowFor(rows, k)
      case Some(row) => EntryFromRow(row)
      case None => entries[k])
  {
    if rows != [] {
      MergeLookup(entries, rows[..|rows| - 1], k);
    }
  }

  // ---------------------------------------------------------------------
  // Lookup

  /** `{ progress: 0, completed: false }`. */
  const NoProgress: CourseProgress := CourseProgress(0, false, None, None)

  /** `getCourseProgress(courseId)`: the stored entry, or no progress when there
      is no session user, no map for the user or no entry for the course. */
  function GetCourseProgress(user: Option<User>, progress: ProgressMap, courseId: CourseId): (p: CourseProgress)
    ensures p != NoProgress ==> (user.Some? && user.value.email in progress
      && courseId in progress[user.value.email] && p == progress[user.value.email][courseId])
    ensures user.Some? && user.value.email in progress && courseId in progress[user.value.email]
      ==> p == progress[user.value.email][courseId]
  {
    if user.None? || user.value.email !in progress then NoProgress
    else if courseId in progress[user.value.email] then progress[user.value.email][courseId]
    else NoProgress
  }

  /** After a load, the lookup gives the entry of the last row about the
      course, and for a course no row names, what it gave before. */
  lemma LookupAfterLoad(user: User, progress: ProgressMap, rows: seq<EnrollmentRow>, courseId: CourseId)
    ensures GetCourseProgress(Some(user), ProgressLoaded(progress, user.email, rows), courseId) ==
      match LastRowFor(rows, courseId)
      case Some(row) => EntryFromRow(row)
      case None => GetCourseProgress(Some(user), progress, courseId)
  {
    MergeLookup(if user.email in progress then progress[user.email] else map[], rows, courseId);
  }

  /** A user with no enrollments gets no progress for any course. */
  lemma NoEnrollmentsNoProgress(user: User, courseId: CourseId)
    ensures ProgressLoaded(map[], user.email, []) == map[user.email := map[]]
    ensures GetCourseProgress(Some(user), ProgressLoaded(map[], user.email, []), courseId) == NoProgress
  {
  }
}
