/** The records the pages keep in memory and the rows the backend tables return. */
module Entities {
  import opened Wrappers

  type CourseId = int
  type LessonId = int

  /** The session user (`loggedInUser`): backend identity, display name,
      e-mail and the ids of the enrolled courses. */
  datatype User = User(id: string, name: string, email: string, courses: seq<CourseId>)

  /** A row of the `courses` table. */
  datatype CourseRow = CourseRow(
    id: CourseId, name: string, description: string, difficulty: string,
    color: string, totalLessons: int)

  /** A row of the `lessons` table. */
  datatype LessonRow = LessonRow(
    id: LessonId, courseId: CourseId, lessonOrder: int, title: string,
    duration: string, videoUrl: string, description: string)

  /** A course of the in-memory catalogue (`allCourses`); `lessons` stays empty
      until the detail view loads them. */
  datatype Course = Course(
    id: CourseId, name: string, info: string, difficulty: string,
    color: string, totalLessons: int, lessons: seq<LessonRow>)

  /** A lesson as the player page keeps it (`allLessons`). An empty `videoUrl`
      stands for a missing one. */
  datatype Lesson = Lesson(
    id: LessonId, title: string, duration: string, videoUrl: string, description: string)

  /** A row of the `enrollments` table as selected for one user; absent
      columns are `None`. */
  datatype EnrollmentRow = EnrollmentRow(
    courseId: CourseId, progress: Option<int>, completed: Option<bool>,
    completionDate: Option<string>, enrolledAt: Option<string>)

  /** One entry of the per-user progress map (`userProgress[email][courseId]`). */
  datatype CourseProgress = CourseProgress(
    progress: int, completed: bool, completionDate: Option<string>, enrolledAt: Option<string>)

  /** `userProgress`: e-mail, then course id, to progress entry. */
  type ProgressMap = map<string, map<CourseId, CourseProgress>>

  /** A row of the `reviews` table. */
  datatype ReviewRow = ReviewRow(
    courseId: CourseId, userId: string, userName: string, rating: int,
    reviewText: string, createdAt: string)

  /** A review as cached per course (`courseReviews[courseId]`). */
  datatype Review = Review(userName: string, rating: int, text: string, date: string)

  /** A row of the `users` (profile) table. */
  datatype ProfileRow = ProfileRow(id: string, email: string, name: string)

  /** The `enrollments` update both pages send after progress changes:
      filter on (user, course), then the new columns. */
  datatype ProgressWrite = ProgressWrite(
    userId: string, courseId: CourseId, progress: int, completed: bool,
    completionDate: Option<string>)
}
