/** The local snapshot of session state (js/storage.js): four keys written one
    by one on save and read back independently on load. */
module LocalCache {
  import opened Wrappers
  import opened Entities
  import opened Browser
  import opened AppState

  /** The page variables the snapshot covers. */
  datatype Snapshot = Snapshot(
    registeredUsers: seq<User>,
    courseReviews: map<CourseId, seq<Review>>,
    userProgress: ProgressMap,
    loggedInUser: Option<User>)

  function SnapshotOf(g: Globals): Snapshot {
    Snapshot(g.registeredUsers, g.courseReviews, g.userProgress, g.loggedInUser)
  }

  predicate IsSnapshotKey(k: string) {
    k == RegisteredUsersKey || k == CourseReviewsKey || k == UserProgressKey || k == LoggedInUserKey
  }

  /** The storage entries after `saveToLocalStorage`: three keys always, the
      session user only when there is one. */
  function Saved(entries: map<string, Stored>, s: Snapshot): (r: map<string, Stored>)
    ensures RegisteredUsersKey in r && CourseReviewsKey in r && UserProgressKey in r
    ensures s.loggedInUser.None? ==>
      (LoggedInUserKey in r <==> LoggedInUserKey in entries) &&
      (LoggedInUserKey in entries ==> r[LoggedInUserKey] == entries[LoggedInUserKey])
    ensures forall k :: IsSnapshotKey(k) || ((k in r <==> k in entries) && (k in entries ==> r[k] == entries[k]))
  {
    var written := entries[RegisteredUsersKey := UserList(s.registeredUsers)]
                          [CourseReviewsKey := ReviewCache(s.courseReviews)]
                          [UserProgressKey := ProgressCache(s.userProgress)];
    if s.loggedInUser.Some? then written[LoggedInUserKey := SessionUser(s.loggedInUser.value)]
    else written
  }

  /** The variables after `loadFromLocalStorage`: each one is replaced by its
      stored value when its key is present and kept otherwise. A value of
      another shape under a key is treated as absent. */
  function Restored(entries: map<string, Stored>, current: Snapshot): Snapshot {
    Snapshot(
      if RegisteredUsersKey in entries && entries[RegisteredUsersKey].UserList?
      then entries[RegisteredUsersKey].users else current.registeredUsers,
      if CourseReviewsKey in entries && entries[CourseReviewsKey].ReviewCache?
      then entries[CourseReviewsKey].reviews else current.courseReviews,
      if UserProgressKey in entries && entries[UserProgressKey].ProgressCache?
      then entries[UserProgressKey].progress else current.userProgress,
      if StoredUser(entries).Some? then StoredUser(entries) else current.loggedInUser)
  }

  /** `saveToLocalStorage()`. */
  method SaveToLocalStorage(app: App)
    modifies app.storage
    ensures app.storage.entries == Saved(old(app.storage.entries), SnapshotOf(app.View()))
  {
    app.storage.SetItem(RegisteredUsersKey, UserList(app.registeredUsers));
    app.storage.SetItem(CourseReviewsKey, ReviewCache(app.courseReviews));
    app.storage.SetItem(UserProgressKey, ProgressCache(app.userProgress));
    if app.loggedInUser.Some? {
      app.storage.SetItem(LoggedInUserKey, SessionUser(app.loggedInUser.value));
    }
  }

  /** `loadFromLocalStorage()`: only reads storage (it is not in the frame). */
  method LoadFromLocalStorage(app: App)
    modifies app
    ensures SnapshotOf(app.View()) == Restored(app.storage.entries, SnapshotOf(old(app.View())))
    ensures app.allCourses == old(app.allCourses) && app.selectedCourse == old(app.selectedCourse)
    ensures app.currentFilter == old(app.currentFilter) && app.selectedRating == old(app.selectedRating)
  {
    var entries := app.storage.entries;
    if RegisteredUsersKey in entries && entries[RegisteredUsersKey].UserList? {
      app.registeredUsers := entries[RegisteredUsersKey].users;
    }
    if CourseReviewsKey in entries && entries[CourseReviewsKey].ReviewCache? {
      app.courseReviews := entries[CourseReviewsKey].reviews;
    }
    if UserProgressKey in entries && entries[UserProgressKey].ProgressCache? {
      app.userProgress := entries[UserProgressKey].progress;
    }
    var user := StoredUser(entries);
    if user.Some? {
      app.loggedInUser := user;
    }
  }

  /** Save then load gives back every saved variable; when the save was made
      without a session user, the user stored earlier (if any) is the one
      loaded. */
  lemma LoadAfterSave(entries: map<string, Stored>, s: Snapshot, current: Snapshot)
    ensures Restored(Saved(entries, s), current) ==
      s.(loggedInUser := if s.loggedInUser.Some? then s.loggedInUser
                         else Restored(entries, current).loggedInUser)
  {
  }

  /** Loading from empty storage changes nothing. */
  lemma LoadFromEmpty(current: Snapshot)
    ensures Restored(map[], current) == current
  {
  }
}
