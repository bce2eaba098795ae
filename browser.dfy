/** The browser's `localStorage`: a map from keys to stored values. Values are
    kept in their parsed form, so `JSON.parse(JSON.stringify(v))` is taken to
    give back `v`. */
module Browser {
  import opened Wrappers
  import opened Entities

  /** The shapes of value the pages store. */
  datatype Stored =
    | LessonIds(ids: seq<LessonId>)
    | UserList(users: seq<User>)
    | ReviewCache(reviews: map<CourseId, seq<Review>>)
    | ProgressCache(progress: ProgressMap)
    | SessionUser(user: User)

  const RegisteredUsersKey: string := "registeredUsers"
  const CourseReviewsKey: string := "courseReviews"
  const UserProgressKey: string := "userProgress"
  const LoggedInUserKey: string := "loggedInUser"

  class Storage {
    var entries: map<string, Stored>

    constructor (initial: map<string, Stored>)
      ensures entries == initial
    {
      entries := initial;
    }

    /** `localStorage.setItem(key, value)`. */
    method SetItem(key: string, value: Stored)
      modifies this
      ensures entries == old(entries)[key := value]
    {
      entries := entries[key := value];
    }

    /** `localStorage.removeItem(key)`. */
    method RemoveItem(key: string)
      modifies this
      ensures entries == old(entries) - {key}
    {
      entries := entries - {key};
    }
  }

  /** The user `JSON.parse(localStorage.getItem('loggedInUser'))` yields, if one
      is stored. */
  function StoredUser(entries: map<string, Stored>): Option<User> {
    if LoggedInUserKey in entries && entries[LoggedInUserKey].SessionUser?
    then Some(entries[LoggedInUserKey].user)
    else None
  }
}
