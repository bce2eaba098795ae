/** The learner dashboard (js/dashboard.js): the three counters, the
    enrolled-course cards and the certificate cards, and the certificate
    download guard. */
module Dashboard {
  import opened Wrappers
  import opened Entities
  import opened AppState
  import Courses
  import Progress

  // ---------------------------------------------------------------------
  // Key order of a progress map

  predicate Increasing(s: seq<CourseId>) {
    forall i, j :: 0 <= i < j < |s| ==> s[i] < s[j]
  }

  predicate IsLeast(m: CourseId, keys: set<CourseId>) {
    m in keys && forall k :: k in keys ==> m <= k
  }

  lemma LeastExists(keys: set<CourseId>)
    requires keys != {}
    ensures exists m :: IsLeast(m, keys)
    decreases |keys|
  {
    if forall k :: k !in keys {
      assert false;
    }
    var y :| y in keys;
    if keys == {y} {
      assert IsLeast(y, keys);
    } else {
      LeastExists(keys - {y});
      var m :| IsLeast(m, keys - {y});
      assert forall k :: k in keys ==> k == y || k in keys - {y};
      if y < m {
        assert IsLeast(y, keys);
      } else {
        assert IsLeast(m, keys);
      }
    }
  }

  /** The order in which `for (var courseId in ...)` visits the course ids of
      a progress map: integer-like property names come in ascending order. */
  function AscendingKeys(keys: set<CourseId>): (r: seq<CourseId>)
    ensures forall k :: k in r <==> k in keys
    ensures Increasing(r)
    decreases |keys|
  {
    if keys == {} then []
    else
      LeastExists(keys);
      var m :| IsLeast(m, keys);
      var rest := AscendingKeys(keys - {m});
      assert forall k :: k in rest ==> m < k;
      [m] + rest
  }

  // ---------------------------------------------------------------------
  // Counting completed courses

  /** The completed entries of a progress map. */
  function CompletedIds(entries: map<CourseId, CourseProgress>): set<CourseId> {
    set k | k in entries && entries[k].completed
  }

  /** The visited keys whose entry is completed, in visiting order. */
  function CompletedKeys(keys: seq<CourseId>, entries: map<CourseId, CourseProgress>): seq<CourseId> {
    if keys == [] then []
    else
      var k := keys[|keys| - 1];
      CompletedKeys(keys[..|keys| - 1], entries) + if k in entries && entries[k].completed then [k] else []
  }

  /** Visiting each key once counts every completed entry exactly once. */
  lemma {:induction false} CompletedKeysCount(keys: seq<CourseId>, entries: map<CourseId, CourseProgress>)
    requires Increasing(keys)
    ensures |CompletedKeys(keys, entries)| == |set k | k in keys && k in entries && entries[k].completed|
  {
    if keys != [] {
      var front, k := keys[..|keys| - 1], keys[|keys| - 1];
      CompletedKeysCount(front, entries);
      var before := set x | x in front && x in entries && entries[x].completed;
      var after := set x | x in keys && x in entries && entries[x].completed;
      assert k !in before;
      if k in entries && entries[k].completed {
        assert after == before + {k};
      } else {
        assert after == before;
      }
    }
  }

  /** One pass over all keys counts the completed entries. */
  lemma CompletedKeysOfAll(entries: map<CourseId, CourseProgress>)
    ensures |CompletedKeys(AscendingKeys(entries.Keys), entries)| == |CompletedIds(entries)|
  {
    var keys := AscendingKeys(entries.Keys);
    CompletedKeysCount(keys, entries);
    assert (set k | k in keys && k in entries && entries[k].completed) == CompletedIds(entries);
  }

  /** The counter loop of `updateDashboard`: one pass over the keys of the
      user's progress map, counting completed entries. */
  method CountCompleted(entries: map<CourseId, CourseProgress>) returns (n: nat)
    ensures n == |CompletedIds(entries)|
  {
    var keys := AscendingKeys(entries.Keys);
    n := 0;
    var i := 0;
    while i < |keys|
      invariant 0 <= i <= |keys|
      invariant n == |CompletedKeys(keys[..i], entries)|
    {
      var k := keys[i];
      assert k in entries;
      CompletedKeysStep(keys, i, entries);
      if entries[k].completed {
        n := n + 1;
      }
      i := i + 1;
    }
    assert keys[..i] == keys;
    CompletedKeysOfAll(entries);
  }

  /** Visiting one more key adds it exactly when its entry is completed. */
  lemma CompletedKeysStep(keys: seq<CourseId>, i: int, entries: map<CourseId, CourseProgress>)
    requires 0 <= i < |keys|
    ensures |CompletedKeys(keys[..i + 1], entries)| ==
      |CompletedKeys(keys[..i], entries)| + if keys[i] in entries && entries[keys[i]].completed then 1 else 0
  {
    assert keys[..i + 1][..i] == keys[..i];
  }

  // ---------------------------------------------------------------------
  // Course cards

  datatype CourseCard = CourseCard(courseId: CourseId, name: string, info: string, progress: int)

  /** One card per enrolled id found in the catalogue, in enrolled order, with
      the stored progress or 0. */
  function CourseCardsFor(enrolled: seq<CourseId>, courses: seq<Course>, user: Option<User>,
                          progress: ProgressMap): seq<CourseCard>
  {
    if enrolled == [] then []
    else
      var id := enrolled[|enrolled| - 1];
      CourseCardsFor(enrolled[..|enrolled| - 1], courses, user, progress) +
        match Courses.FirstWithId(courses, id)
        case Some(c) => [CourseCard(id, c.name, c.info, Progress.GetCourseProgress(user, progress, id).progress)]
        case None => []
  }

  /** A card shows exactly an enrolled course that the catalogue knows, with
      its progress. */
  lemma {:induction false} CourseCardsMembers(enrolled: seq<CourseId>, courses: seq<Course>, user: Option<User>,
                                              progress: ProgressMap, card: CourseCard)
    ensures card in CourseCardsFor(enrolled, courses, user, progress) <==>
      (card.courseId in enrolled && Courses.FirstWithId(courses, card.courseId).Some?
       && card.name == Courses.FirstWithId(courses, card.courseId).value.name
       && card.info == Courses.FirstWithId(courses, card.courseId).value.info
       && card.progress == Progress.GetCourseProgress(user, progress, card.courseId).progress)
  {
    if enrolled != [] {
      var front := enrolled[..|enrolled| - 1];
      CourseCardsMembers(front, courses, user, progress, card);
      assert enrolled == front + [enrolled[|enrolled| - 1]];
    }
  }

  /** Cards follow the enrolled order: the cards of a concatenation are the
      concatenated cards. */
  lemma {:induction false} CourseCardsConcat(a: seq<CourseId>, b: seq<CourseId>, courses: seq<Course>,
                                             user: Option<User>, progress: ProgressMap)
    ensures CourseCardsFor(a + b, courses, user, progress) ==
      CourseCardsFor(a, courses, user, progress) + CourseCardsFor(b, courses, user, progress)
  {
    if b != [] {
      var front := b[..|b| - 1];
      CourseCardsConcat(a, front, courses, user, progress);
      assert (a + b)[..|a + b| - 1] == a + front;
    } else {
      assert a + b == a;
    }
  }

  /** There are never more cards than enrolled courses, and exactly as many
      when the catalogue knows every enrolled id. */
  lemma {:induction false} CourseCardsCount(enrolled: seq<CourseId>, courses: seq<Course>, user: Option<User>,
                                            progress: ProgressMap)
    ensures |CourseCardsFor(enrolled, courses, user, progress)| <= |enrolled|
    ensures (forall id :: id in enrolled ==> Courses.FirstWithId(courses, id).Some?) ==>
      |CourseCardsFor(enrolled, courses, user, progress)| == |enrolled|
  {
    if enrolled != [] {
      var front := enrolled[..|enrolled| - 1];
      CourseCardsCount(front, courses, user, progress);
      assert forall id :: id in front ==> id in enrolled;
    }
  }

  /** The card loop of `updateDashboard`, with its nested catalogue search. */
  method BuildCourseCards(enrolled: seq<CourseId>, courses: seq<Course>, user: Option<User>,
                          progress: ProgressMap) returns (cards: seq<CourseCard>)
    ensures cards == CourseCardsFor(enrolled, courses, user, progress)
  {
    cards := [];
    var i := 0;
    while i < |enrolled|
      invariant 0 <= i <= |enrolled|
      invariant cards == CourseCardsFor(enrolled[..i], courses, user, progress)
    {
      assert enrolled[..i + 1][..i] == enrolled[..i];
      var id := enrolled[i];
      var course := Courses.FindCourse(courses, id);
      if course.Some? {
        var p := Progress.GetCourseProgress(user, progress, id).progress;
        cards := cards + [CourseCard(id, course.value.name, course.value.info, p)];
      }
      i := i + 1;
    }
    assert enrolled[..i] == enrolled;
  }

  // ---------------------------------------------------------------------
  // Certificate cards

  datatype CertificateCard = CertificateCard(courseId: CourseId, name: string, completionDate: string)

  /** The date printed on a certificate: the stored completion date unless it
      is missing or empty, else today's date. */
  function DateShown(p: CourseProgress, today: string): (date: string)
    ensures p.completionDate.Some? && p.completionDate.value != "" ==> date == p.completionDate.value
    ensures p.completionDate.None? || p.completionDate.value == "" ==> date == today
  {
    if p.completionDate.Some? && p.completionDate.value != "" then p.completionDate.value else today
  }

  /** The certificate of one visited key: one card when the entry is completed
      and the catalogue knows the course, else none. */
  function CertificateOf(k: CourseId, entries: map<CourseId, CourseProgress>,
                         courses: seq<Course>, today: string): seq<CertificateCard>
  {
    if k in entries && entries[k].completed && Courses.FirstWithId(courses, k).Some?
    then [CertificateCard(k, Courses.FirstWithId(courses, k).value.name, DateShown(entries[k], today))]
    else []
  }

  /** The certificates of the visited keys, in visiting order. */
  function CertificatesFor(keys: seq<CourseId>, entries: map<CourseId, CourseProgress>,
                           courses: seq<Course>, today: string): seq<CertificateCard>
  {
    if keys == [] then []
    else
      CertificatesFor(keys[..|keys| - 1], entries, courses, today) +
        CertificateOf(keys[|keys| - 1], entries, courses, today)
  }

  lemma CertificatesStep(keys: seq<CourseId>, i: nat, entries: map<CourseId, CourseProgress>,
                         courses: seq<Course>, today: string)
    requires i < |keys|
    ensures CertificatesFor(keys[..i + 1], entries, courses, today)
      == CertificatesFor(keys[..i], entries, courses, today) + CertificateOf(keys[i], entries, courses, today)
  {
    assert keys[..i + 1][..i] == keys[..i];
  }

  /** Every certificate is for a completed, known course, and every completed
      known course gets one. */
  lemma {:induction false} CertificatesMembers(keys: seq<CourseId>, entries: map<CourseId, CourseProgress>,
                                               courses: seq<Course>, today: string, card: CertificateCard)
    ensures card in CertificatesFor(keys, entries, courses, today) <==>
      (card.courseId in keys && card.courseId in entries && entries[card.courseId].completed
       && Courses.FirstWithId(courses, card.courseId).Some?
       && card.name == Courses.FirstWithId(courses, card.courseId).value.name
       && card.completionDate == DateShown(entries[card.courseId], today))
  {
    if keys != [] {
      var front := keys[..|keys| - 1];
      CertificatesMembers(front, entries, courses, today, card);
      assert keys == front + [keys[|keys| - 1]];
    }
  }

  /** There are never more certificate cards than completed entries visited. */
  lemma {:induction false} CertificatesBounded(keys: seq<CourseId>, entries: map<CourseId, CourseProgress>,
                                               courses: seq<Course>, today: string)
    ensures |CertificatesFor(keys, entries, courses, today)| <= |CompletedKeys(keys, entries)|
  {
    if keys != [] {
      CertificatesBounded(keys[..|keys| - 1], entries, courses, today);
    }
  }

  /** The certificate cards never outnumber the completed entries. */
  lemma CertificatesWithinCount(entries: map<CourseId, CourseProgress>, courses: seq<Course>, today: string)
    ensures |CertificatesFor(AscendingKeys(entries.Keys), entries, courses, today)| <= |CompletedIds(entries)|
  {
    CertificatesBounded(AscendingKeys(entries.Keys), entries, courses, today);
    CompletedKeysOfAll(entries);
  }

  /** The certificate loop of `updateDashboard`, over the keys of the user's
      progress map, with its nested catalogue search. */
  method BuildCertificateCards(entries: map<CourseId, CourseProgress>, courses: seq<Course>, today: string)
    returns (cards: seq<CertificateCard>)
    ensures cards == CertificatesFor(AscendingKeys(entries.Keys), entries, courses, today)
    ensures |cards| <= |CompletedIds(entries)|
  {
    var keys := AscendingKeys(entries.Keys);
    cards := [];
    var i := 0;
    while i < |keys|
      invariant 0 <= i <= |keys|
      invariant cards == CertificatesFor(keys[..i], entries, courses, today)
    {
      var k := keys[i];
      assert k in entries;
      CertificatesStep(keys, i, entries, courses, today);
      var piece: seq<CertificateCard> := [];
      if entries[k].completed {
        var course := Courses.FindCourse(courses, k);
        if course.Some? {
          piece := [CertificateCard(k, course.value.name, DateShown(entries[k], today))];
        }
      }
      assert piece == CertificateOf(k, entries, courses, today);
      cards := cards + piece;
      i := i + 1;
    }
    assert keys[..i] == keys;
    CertificatesWithinCount(entries, courses, today);
  }

  // ---------------------------------------------------------------------
  // The dashboard

  /** A list panel: the empty-state block, or the cards (possibly none). */
  datatype Panel<T> = EmptyState | Cards(cards: seq<T>)

  datatype DashboardView =
    | RedirectToAuth
    | Stats(enrolled: nat, completed: nat, certificates: nat,
            courseList: Panel<CourseCard>, certificateList: Panel<CertificateCard>)

  /** The progress map of one user, or none. */
  function EntriesOf(progress: ProgressMap, email: string): map<CourseId, CourseProgress> {
    if email in progress then progress[email] else map[]
  }

  /** `updateDashboard()`, with `progressReply` answering the progress load it
      starts and `today` the date shown on certificates without one. */
  method UpdateDashboard(app: App, progressReply: Reply<seq<EnrollmentRow>>, today: string)
    returns (view: DashboardView)
    modifies app
    ensures old(app.loggedInUser).None? ==> view == RedirectToAuth && app.View() == old(app.View())
    ensures old(app.loggedInUser).Some? ==>
      && app.View() == old(app.View()).(userProgress :=
           Progress.ProgressAfterLoad(old(app.loggedInUser), old(app.userProgress), progressReply))
      && view.Stats?
      && view.enrolled == |app.loggedInUser.value.courses|
      && view.completed == view.certificates
      && view.completed == |CompletedIds(EntriesOf(app.userProgress, app.loggedInUser.value.email))|
      && (view.courseList.EmptyState? <==> view.enrolled == 0)
      && (view.courseList.Cards? ==>
            view.courseList.cards ==
            CourseCardsFor(app.loggedInUser.value.courses, app.allCourses, app.loggedInUser, app.userProgress))
      && (view.certificateList.EmptyState? <==> view.certificates == 0)
      && (view.certificateList.Cards? ==>
            var entries := EntriesOf(app.userProgress, app.loggedInUser.value.email);
            view.certificateList.cards == CertificatesFor(AscendingKeys(entries.Keys), entries, app.allCourses, today)
            && |view.certificateList.cards| <= view.certificates)
  {
    if app.loggedInUser.None? {
      return RedirectToAuth;
    }
    Progress.LoadUserProgress(app, progressReply);
    var user := app.loggedInUser.value;
    var enrolledCount := |user.courses|;
    var entries := EntriesOf(app.userProgress, user.email);
    var completedCount := CountCompleted(entries);
    var certificatesCount := completedCount;

    var courseList: Panel<CourseCard>;
    if enrolledCount == 0 {
      courseList := EmptyState;
    } else {
      var cards := BuildCourseCards(user.courses, app.allCourses, app.loggedInUser, app.userProgress);
      courseList := Cards(cards);
    }

    var certificateList: Panel<CertificateCard>;
    if certificatesCount == 0 {
      certificateList := EmptyState;
    } else {
      var cards := BuildCertificateCards(entries, app.allCourses, today);
      certificateList := Cards(cards);
    }
    view := Stats(enrolledCount, completedCount, certificatesCount, courseList, certificateList);
  }

  /** `downloadCertificate(courseId)`: the certificate message appears only
      when the course is in the catalogue and a user is signed in. */
  method DownloadCertificate(app: App, courseId: CourseId) returns (message: Option<string>)
    ensures message.Some? <==> Courses.FirstWithId(app.allCourses, courseId).Some? && app.loggedInUser.Some?
    ensures message.Some? ==>
      (message.value ==
       "Certificate for \"" + Courses.FirstWithId(app.allCourses, courseId).value.name
       + "\" would be downloaded here.\n\nCertificate awarded to: " + app.loggedInUser.value.name)
  {
    var course := Courses.FindCourse(app.allCourses, courseId);
    if course.Some? && app.loggedInUser.Some? {
      message := Some("Certificate for \"" + course.value.name
        + "\" would be downloaded here.\n\nCertificate awarded to: " + app.loggedInUser.value.name);
    } else {
      message := None;
    }
  }
}
