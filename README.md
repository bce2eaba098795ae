# Course-learning app: the bookkeeping core in Dafny

The app is a browser front end for an online course catalogue backed by a
hosted database. Most of its code draws pages and calls the database client.
This project models the rules that sit inside that glue, one Dafny module per
JavaScript file:

- **Courses** (`js/courses.js`): building the catalogue from rows, searching and
  filtering it in order, selecting a course by id, and the "signed in and
  enrolled" gate in front of the lesson player.
- **Auth** (`js/auth.js`): input checks, sign-up with insert-if-absent of the
  profile, sign-in with display-name resolution and profile self-healing, and
  log-out.
- **Enrollments** (`js/enrollments.js`): reloading the user's course list and
  enrolling with a membership check.
- **Progress** (`js/progress.js`): the progress update payload, the merge of
  enrollment rows into the per-user progress map, and the progress lookup.
- **Dashboard** (`js/dashboard.js`): the enrolled, completed and certificate
  counts, and the course and certificate cards.
- **Reviews** (`js/reviews.js`): the per-course review cache, the rating picker,
  submission checks, and the review panel's average, count label, stars and
  card order.
- **LocalCache** (`js/storage.js`): saving and restoring the four-key local
  snapshot.
- **Player** (`video-player.js`): the lesson player page as a class. It covers
  lesson selection and navigation, the completed-lesson list and its storage,
  the course percentage and completion flag, and the three-question quiz.

Shared modules:

- **Wrappers**: `Option`, and `Reply` (a backend answer, success or error).
- **Text**: decimal rendering of integers, ASCII lower-casing, substring
  search, the e-mail local part and JavaScript whitespace.
- **Lists**: duplicate-free lists and a membership scan.
- **Arith**: integer division bounds.
- **Entities**: the records.
- **Browser**: local storage, as a class over a map from keys to stored
  values.
- **AppState**: the page-level variables of the main page, as a class.

Backend calls are parameters that stand for their answers:

- Most are a `Reply<T>`: the returned data, or the error object.
- The sign-in profile select (`.single()`) is a `ProfileLookup`: the row, the
  "no rows" error, or another error.
- The player's progress update takes no reply, because the page only logs it.

Most writes are out-parameters that hold the request that would be sent
(inserted rows, the progress payload). The `auth.signUp` request itself is
reported only as the flag `signUpCalled` of `Auth.SignUpUser`. Exceptions
thrown by the backend client are not modelled.

### Behaviour of the code worth knowing

- **Loading progress merges into the user's map; it never replaces it.** Each
  row overwrites the entry of its course, and entries of courses the backend
  did not return are kept (`js/progress.js:59-73`). `Progress.MergeLookup` and
  `Progress.LookupAfterLoad` state this.
- **An empty course has no percentage.** The code divides by `totalLessons`
  without a guard, so an empty course gives NaN. The model requires at least
  one lesson.
- **100% does not always mean "all lessons done".** The percentage is
  `Math.round(c / t * 100)`, which is exactly 100 when `200 * (t - c) <= t`
  (`Player.PercentFullIff`).
  - Below 200 lessons this means all lessons done (`Player.FullOnlyWhenAllDone`).
  - From 200 lessons on, `t - 1` completed lessons already round to 100, so the
    course is marked completed one lesson early
    (`Player.CompletedOneLessonEarly`).
- **An unknown lesson id falls back to the first lesson only once.**
  `loadCurrentLesson` uses the first lesson only while no lesson has been shown
  yet. Later, an unknown id keeps the previous lesson (`Player.SelectLesson`).
- **A lesson without a video address leaves the buttons alone.** The
  navigation buttons are not refreshed for such a lesson, because the code
  returns before the refresh.

## Model

| member | source | states |
|---|---|---|
| LocalCache.Saved | js/storage.js:5-12 | `registeredUsers`, `courseReviews` and `userProgress` are always written; `loggedInUser` is written only for a present user, so a null user leaves the stored one in place; no other key changes |
| LocalCache.SaveToLocalStorage | js/storage.js:5-12 | the storage afterwards is `Saved` of the old storage and the current variables |
| LocalCache.LoadFromLocalStorage | js/storage.js:14-35 | each of the four variables takes its stored value when the key is present and is kept otherwise; the other page variables and the storage are untouched |
| LocalCache.LoadAfterSave | js/storage.js:5-34 | loading after a save gives back all four saved values; after a save with no user, the previously stored user (if any) is the one loaded |
| LocalCache.LoadFromEmpty | js/storage.js:14-35 | loading from storage with none of the keys changes nothing |
| Courses.CoursesFromRows | js/courses.js:25-33 | one course per row in row order, copying id, name, description (as `info`), difficulty, color and lesson count, with no lessons |
| Courses.LoadCoursesFromSupabase | js/courses.js:13-39 | a successful reply replaces the catalogue by the mapped rows; an error keeps it; nothing else changes |
| Courses.SearchCourses | js/courses.js:67-97 | the listing is the in-order matches of the query, or the "No courses found" notice when there are none |
| Courses.FilterCourses | js/courses.js:102-131 | records the filter and lists the in-order courses it keeps, or the category notice when there are none |
| Courses.MatchingMembers | js/courses.js:74-90 | a course is in the search result iff it is in the catalogue and its lower-cased name or description contains the lower-cased query |
| Courses.MatchingConcat | js/courses.js:74-90 | search preserves catalogue order (it distributes over concatenation) |
| Courses.EmptyQueryKeepsAll | js/courses.js:69-79 | the empty query lists the whole catalogue in order |
| Courses.WithDifficultyMembers | js/courses.js:108-123 | a course is kept iff it is in the catalogue and the filter is `'all'` or equals its difficulty |
| Courses.WithDifficultyConcat | js/courses.js:108-123 | the filter preserves catalogue order |
| Courses.FilterAllKeepsAll | js/courses.js:111 | `'all'` keeps every course in its original order |
| Courses.FirstWithId | js/courses.js:148-153 | none iff no course has the id; otherwise the course at the first index holding the id |
| Courses.FindCourse | js/courses.js:148-153 | the search loop returns exactly `FirstWithId` |
| Courses.ClickCourse | js/courses.js:146-156 | `selectedCourse` becomes the first course with the id or null; the detail view opens iff one was found |
| Courses.OpenVideoPlayer | js/courses.js:212-233 | sends to sign-in without a user; opens the player with both ids iff the course is in the user's list; otherwise asks to enroll |
| Lists.Scan | js/courses.js:219-225 | the membership loop finds the id iff it is in the list |
| Text.Lower | js/courses.js:69-77 | lower-casing keeps the length and maps each character on its own |
| Text.IncludesIffOccurs | js/courses.js:79 | `includes` holds iff the needle occurs at some position of the text |
| Auth.CheckSignUp | js/auth.js:17-25 | rejects when a field is empty, then when the password is shorter than 6; passes exactly when neither holds |
| Auth.CheckSignIn | js/auth.js:104-107 | rejects exactly when the e-mail or the password is empty |
| Text.LocalPart | js/auth.js:131 | the e-mail text before the first `@`: a prefix without `@`, followed by `@` unless it is all of the text |
| Auth.FallbackName | js/auth.js:131 | the metadata name when non-empty, else the e-mail local part |
| Auth.DisplayName | js/auth.js:149-154 | the profile name when a profile was found, else the fallback name |
| Auth.EmailLocalPartExample | js/auth.js:131 | `ada@x.com` with no metadata name is shown as `ada` |
| Auth.SignUpUser | js/auth.js:8-92 | validation precedes any backend call; a sign-up error sets no user; the profile is inserted only when none exists and an insert error sets no user; on success the user has the given name and e-mail and no courses, and progress is loaded and the snapshot saved |
| Auth.SignInUser | js/auth.js:97-166 | empty fields and wrong credentials set no user; the name comes from the profile, else the fallback; a missing profile is inserted and a failed insert does not stop the sign-in; enrollments and progress are loaded and the snapshot saved |
| Auth.LogOutUser | js/auth.js:171-183 | the user becomes null, the `loggedInUser` key is removed and no stored user remains |
| Enrollments.UserAfterEnrollmentLoad | js/enrollments.js:10-28 | without a user nothing; on success the course list is the returned ids in order; on error it is kept |
| Enrollments.LoadUserEnrollments | js/enrollments.js:10-28 | only the session user's course list changes, as `UserAfterEnrollmentLoad` says |
| Enrollments.EnrollInCourseDetail | js/enrollments.js:33-81 | inserts (progress 0, not completed) exactly for a selected course the signed-in user is not enrolled in; otherwise or on an insert error nothing changes; on success the id is appended once, progress reloaded and the snapshot saved; a duplicate-free list stays duplicate-free |
| Enrollments.EnrollTwice | js/enrollments.js:42-51 | after an enrollment the same enrollment again reports "already enrolled" and inserts nothing |
| Lists.AppendFresh | js/enrollments.js:70 | appending an id not in a duplicate-free list keeps it duplicate-free |
| Progress.ProgressPayload | js/progress.js:12-20 | the payload carries user, course, progress and flag, and a completion date exactly when completed |
| Progress.UpdateCourseProgress | js/progress.js:8-39 | no user means nothing is sent; otherwise the payload is sent and the result is true on success and false on error |
| Progress.LoadUserProgress | js/progress.js:44-79 | without a user or on error the map is unchanged; otherwise the user's map is created if absent and merged with the rows |
| Progress.LastRowFor | js/progress.js:64-73 | none iff no row names the course; otherwise the last row that does |
| Progress.MergeLookup | js/progress.js:58-73 | after the merge a course has an entry iff it had one or some row names it; the last such row decides it, else the old entry stays |
| Progress.GetCourseProgress | js/progress.js:84-90 | the stored entry when user, map and entry exist; the default of 0 and not completed otherwise |
| Progress.LookupAfterLoad | js/progress.js:44-90 | after a load, a lookup gives the last row's entry for a returned course and the earlier answer for any other |
| Progress.NoEnrollmentsNoProgress | js/progress.js:58-89 | with no rows the user's map is created empty and every lookup gives the default |
| Dashboard.AscendingKeys | js/dashboard.js:19 | the progress map's keys, each once, in increasing order |
| Dashboard.CompletedKeysCount | js/dashboard.js:18-25 | filtering distinct keys for completed entries counts the completed courses |
| Dashboard.CompletedKeysOfAll | js/dashboard.js:18-25 | over all keys that count equals the number of completed entries |
| Dashboard.CountCompleted | js/dashboard.js:15-25 | the counting loop returns the number of progress entries marked completed |
| Dashboard.CourseCardsMembers | js/dashboard.js:37-67 | a card appears iff its id is enrolled and found in the catalogue, with that course's name and info and the looked-up progress |
| Dashboard.CourseCardsConcat | js/dashboard.js:37-68 | cards follow the enrolled order |
| Dashboard.CourseCardsCount | js/dashboard.js:37-68 | at most one card per enrolled id, exactly one each when every id is in the catalogue |
| Dashboard.BuildCourseCards | js/dashboard.js:37-68 | the card loop with its nested search gives exactly those cards |
| Dashboard.DateShown | js/dashboard.js:91 | the stored completion date, else today's date |
| Dashboard.CertificatesMembers | js/dashboard.js:79-100 | a certificate appears iff its entry is completed and its course is in the catalogue |
| Dashboard.CertificatesBounded | js/dashboard.js:76-101 | there are no more certificates than completed keys |
| Dashboard.CertificatesWithinCount | js/dashboard.js:76-101 | the number of certificate cards is at most the certificate count |
| Dashboard.BuildCertificateCards | js/dashboard.js:79-100 | the loop gives the certificates in key order, at most the completed count |
| Dashboard.UpdateDashboard | js/dashboard.js:5-104 | without a user it redirects and changes nothing; otherwise enrolled count = list length, completed = certificates = completed entries, course cards as above, and the empty state shows iff the count is 0 |
| Dashboard.DownloadCertificate | js/dashboard.js:106-118 | a message only when the course is found and a user is signed in |
| Reviews.ReviewsAfterLoad | js/reviews.js:11-35 | without a selection or on error the cache is unchanged; otherwise only the selected course's reviews are replaced, row by row |
| Reviews.LoadReviewsFromSupabase | js/reviews.js:11-35 | only the cache changes, as `ReviewsAfterLoad` says |
| Reviews.RatingStars | js/reviews.js:40-49 | five picker stars, star i lit iff i < rating |
| Reviews.ReviewStars | js/reviews.js:140-143 | five card stars, lighting exactly the first `rating` of them |
| Reviews.StarRulesAgree | js/reviews.js:140-143 | the card rule (j ≤ rating from 1) and the picker rule (i < rating from 0) light the same stars |
| Reviews.SetRating | js/reviews.js:40-50 | stores the rating and draws the picker's stars |
| Reviews.CardsReversed | js/reviews.js:132-147 | one card per review, card k showing the review k places from the end |
| Reviews.SumRatingsBounds | js/reviews.js:112-115 | with ratings 1..5 the total lies between the count and five times the count |
| Reviews.SumOfEqualRatings | js/reviews.js:112-115 | equal ratings sum to rating × count |
| Reviews.AverageOf | js/reviews.js:116 | no average iff no reviews; otherwise the mean rounded half up to tenths |
| Reviews.RoundedAverage | js/reviews.js:123 | the nearest whole number of stars to the average, 0 without reviews |
| Reviews.CountLabel | js/reviews.js:119 | "review" exactly for a count of 1, "reviews" otherwise |
| Reviews.AverageWithinRatings | js/reviews.js:112-125 | with ratings 1..5 the average is between 1.0 and 5.0 and lights 1 to 5 summary stars |
| Reviews.UniformRatings | js/reviews.js:112-125 | equal ratings give that rating as the average and the same stars as each card |
| Reviews.DisplayReviews | js/reviews.js:108-155 | the two loops draw exactly the panel of the selected course's cached reviews |
| Reviews.SubmitReview | js/reviews.js:55-103 | checks no user, then rating 0, then blank text, before any insert; the insert carries user id, course, name, rating and text; an error leaves everything, including the rating; success resets the rating, reloads and redraws |
| Player.Percent | video-player.js:218 | `Math.round(c / t * 100)` as exact half-up rounding |
| Player.PercentBounds | video-player.js:216-218 | for 0 ≤ c ≤ t the percentage is between 0 and 100 |
| Player.PercentMonotone | video-player.js:216-218 | the percentage never decreases as lessons are completed |
| Player.PercentOfAll | video-player.js:216-219 | all lessons done gives 100 |
| Player.PercentFullIff | video-player.js:218-219 | the percentage is 100 iff 200 × (t − c) ≤ t |
| Player.FullOnlyWhenAllDone | video-player.js:218-219 | below 200 lessons, 100 only when every lesson is done |
| Player.CompletedOneLessonEarly | video-player.js:218-219 | from 200 lessons on, one lesson short already gives 100 |
| Player.ProgressUpdate | video-player.js:208-236 | nothing without a stored session user; otherwise the payload with the percentage, completed iff it is 100, and a date exactly when completed |
| Player.AllDoneMarksCompleted | video-player.js:216-230 | completing every lesson sends completed with a date |
| Player.CompletedKey | video-player.js:261 | the key is `completed_course_` followed by the course id |
| Player.CompletedKeyInjective | video-player.js:261 | different courses use different keys |
| Player.CompletedKeyIsNotSnapshotKey | video-player.js:261-262 | the key never clashes with the four snapshot keys |
| Player.LessonsRoundTrip | video-player.js:260-274 | loading after saving gives back the saved list |
| Player.SavingKeepsTheRest | video-player.js:260-263 | saving leaves other courses' lists, the stored user and the snapshot unchanged |
| Player.LessonIndex | video-player.js:88-93 | the index of the first lesson with the id, or −1 when none has it |
| Player.FindLessonIndex | video-player.js:291-296 | the index loop computes `LessonIndex` |
| Player.ListedLessonFound | video-player.js:88-93 | with distinct ids, looking up a listed lesson's id finds its index |
| Player.SelectLesson | video-player.js:82-99 | the first lesson with the id; otherwise, if none was shown yet, the first lesson and its id; otherwise the previous lesson |
| Player.VideoOf | video-player.js:112-131 | no address; an embedded frame for a YouTube address; a video file otherwise |
| Player.CorrectCountBounds | video-player.js:446-447 | the score never exceeds the number of questions answered |
| Player.TierOf | video-player.js:476-485 | excellent from 80, good from 60, keep practicing below |
| Player.ResultScreen | video-player.js:466-490 | the result screen, whose percentage is the score out of three rounded half up |
| Player.QuizTiers | video-player.js:471-485 | 3, 2 and 1 or 0 correct answers give the three tiers |
| Player.Player.constructor | video-player.js:7-15 | the page starts with no lessons, no current lesson, an empty list and the quiz at 0/0/−1 |
| Player.Player.LoadCourseData | video-player.js:30-73 | on success the lessons are the mapped rows in order, and "no lessons" shows iff there are none; on error they are kept |
| Player.Player.UpdateNavigationButtons | video-player.js:333-359 | previous is disabled iff the lesson is first, next iff it is last |
| Player.Player.LoadCurrentLesson | video-player.js:78-135 | nothing for an empty list; otherwise the selected lesson and its video are shown and the buttons refreshed when there is a video address |
| Player.Player.PlayLesson | video-player.js:174-182 | takes the new id; with no lessons nothing else changes; otherwise the selected lesson and its video are shown, the buttons match its position when it has a video address and are left unchanged when it has none |
| Player.Player.GoToNextLesson | video-player.js:287-305 | at the last lesson nothing changes; before it, moves to index + 1 (with distinct ids exactly that lesson), shows its video, and the buttons match its position when it has a video address and are left unchanged otherwise |
| Player.Player.GoToPreviousLesson | video-player.js:310-328 | at the first lesson nothing changes; after it, moves to index − 1 (with distinct ids exactly that lesson), shows its video, and the buttons match its position when it has a video address and are left unchanged otherwise |
| Player.Player.SaveCompletedLessons | video-player.js:260-263 | the list is stored under the course's key |
| Player.Player.LoadCompletedLessons | video-player.js:268-282 | the stored list replaces the one in memory only when the key is present; the button shows done iff the current lesson is in it |
| Player.Player.UpdateCourseProgressInDB | video-player.js:208-255 | sends `ProgressUpdate` for the stored user; the completion dialog follows iff completed |
| Player.Player.MarkLessonComplete | video-player.js:187-203 | a lesson already in the list changes nothing; otherwise its id is appended once, the list saved and the progress sent; duplicate-free stays duplicate-free |
| Player.Player.ShowQuizQuestion | video-player.js:407-425 | the numbered question and options with the selection cleared, or the result after the last question |
| Player.Player.StartQuiz | video-player.js:394-405 | question, score and selection reset to 0, 0, −1 and the first question shown |
| Player.Player.SelectQuizOption | video-player.js:427-435 | records the chosen option and nothing else |
| Player.Player.CheckAnswer | video-player.js:443-461 | the answer is recorded, the score rises iff the selected option is the correct one, and the question number advances by one |
| Player.Player.SubmitQuizAnswer | video-player.js:437-464 | no selection changes nothing; otherwise the answer is recorded, the score rises iff it is the correct option and the question advances; the next question is shown with the selection cleared, or after the last one the result with the selection kept; the score stays at most the number answered |

## Left out

- Backend calls are replaced by their replies. The order in which the server returns rows (by id, by lesson order, newest review first) is taken as given.
- Page rendering and HTML building are left out. This covers `js/navigation.js`, `switchForm`, `updateFilterButtons`, `displayLessonsSidebar` and the course detail page's lesson list. `js/lessons.js` and `js/main.js` are not part of this model.
- Courses.ClickCourse: the detail page's own lesson loading (`showCourseDetail`) is not modelled, only whether it opens.
- Auth.CheckSignUp: the password length is counted in Unicode code points. JavaScript's `length` counts UTF-16 code units, so a password with characters outside the Basic Multilingual Plane (such as emoji) can pass the 6-character check in the code and fail it in the model.
- Player.Player.SubmitQuizAnswer: a submit after the last question returns `QuizOver`. In the page the quiz buttons are hidden by then. If it were reached, reading the missing question would raise a TypeError.
- Player.Player.SubmitQuizAnswer: the 1.5-second delayed advance is taken as synchronous. In the code, a second submit inside that delay counts again and schedules a second advance.
- Confirmation dialogs, alerts, the re-wrapped `markLessonComplete` that drops the `await`, the address `pushState` in `playLesson`, the `supabase` availability check, and the page reload and `signOut` call after log-out are left out.
- Clocks and locale formatting are parameters: `now` stands for the ISO timestamp, `localDate` for `toLocaleDateString`, `today` for the dashboard's fallback date. Stored progress dates are kept as raw text.
- Reviews.AverageOf: the average is exact half-up rounding in tenths. Floating-point `toFixed(1)` and `Math.round` on doubles, including their rounding of negative values, are not modelled.
- Player.Percent: exact half-up integer rounding replaces floating-point `Math.round`. An empty course (NaN in the code) is excluded by `total > 0`.
- Player.Player.UpdateCourseProgressInDB: requires at least one lesson, because the code's division by zero gives NaN.
- Player.Player.MarkLessonComplete, GoToNextLesson, GoToPreviousLesson and UpdateNavigationButtons require a current lesson. With none the code raises a TypeError.
- Player.Player.LoadCompletedLessons: with no current lesson the code raises a TypeError after restoring the list. The model reports the button as not done.
- Reviews.DisplayReviews requires a selected course. With none the code raises a TypeError.
- A completed list restored from storage may name lessons that are no longer in the course. The percentage can then exceed 100, and completion is then false.
- Number parsing of the page address (`parseInt`, NaN) is left out. Course and lesson ids are integers.
- `String(n)` is modelled as plain decimal text. The exponent form JavaScript uses from 10^21 is not modelled.
- Lower-casing is ASCII only. There is no Unicode case mapping.
- Exceptions thrown inside the backend client, other than the error replies above, are not modelled.
- JSON parsing failures and storage quota are not modelled. A stored value of the wrong shape is treated as absent.
- Dashboard.UpdateDashboard: a user record whose course list is absent (counted as 0 in the code) cannot occur. The model always has a list.
- Dashboard.AscendingKeys: the JavaScript `for…in` order over integer-like keys is taken as ascending for every key.
