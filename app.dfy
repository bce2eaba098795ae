/** The page-wide variables of the main page (declared in main.js, courses.js,
    enrollments.js and reviews.js), gathered in one object that every
    component updates in place. */
module AppState {
  import opened Wrappers
  import opened Entities
  import opened Browser

  /** The values of all page variables at one moment, so that contracts can
      say "this one changed, nothing else did". */
  datatype Globals = Globals(
    registeredUsers: seq<User>,
    loggedInUser: Option<User>,
    allCourses: seq<Course>,
    selectedCourse: Option<Course>,
    currentFilter: string,
    userProgress: ProgressMap,
    courseReviews: map<CourseId, seq<Review>>,
    selectedRating: int)

  class App {
    var registeredUsers: seq<User>
    var loggedInUser: Option<User>
    var allCourses: seq<Course>
    var selectedCourse: Option<Course>
    var currentFilter: string
    var userProgress: ProgressMap
    var courseReviews: map<CourseId, seq<Review>>
    var selectedRating: int
    const storage: Storage

    /** The state of a freshly loaded page. */
    constructor (storage: Storage)
      ensures this.storage == storage
      ensures View() == Globals([], None, [], None, "all", map[], map[], 0)
    {
      this.storage := storage;
      registeredUsers := [];
      loggedInUser := None;
      allCourses := [];
      selectedCourse := None;
      currentFilter := "all";
      userProgress := map[];
      courseReviews := map[];
      selectedRating := 0;
    }

    function View(): Globals
      reads this
    {
      Globals(registeredUsers, loggedInUser, allCourses, selectedCourse,
              currentFilter, userProgress, courseReviews, selectedRating)
    }
  }
}
