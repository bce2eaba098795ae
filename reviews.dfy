/** Course reviews (js/reviews.js): the per-course review cache, the rating
    picker, review submission, and the summary and cards of the review
    panel. */
module Reviews {
  import opened Wrappers
  import opened Entities
  import opened Text
  import opened AppState
  import opened Arith

  // ---------------------------------------------------------------------
  // Loading

  /** A cached review from a `reviews` row; `localDate` stands for
      `new Date(...).toLocaleDateString()`. */
  function ReviewFromRow(row: ReviewRow, localDate: string -> string): Review {
    Review(row.userName, row.rating, row.reviewText, localDate(row.createdAt))
  }

  /** The cache after a load for the selected course: only that course's
      entry is replaced, and only when the select succeeded. */
  function ReviewsAfterLoad(reviews: map<CourseId, seq<Review>>, selected: Option<Course>,
                            reply: Reply<seq<ReviewRow>>, localDate: string -> string)
    : (r: map<CourseId, seq<Review>>)
    ensures selected.None? || reply.Failed? ==> r == reviews
    ensures selected.Some? && reply.Ok? ==>
      && selected.value.id in r
      && |r[selected.value.id]| == |reply.value|
      && (forall i :: 0 <= i < |reply.value| ==>
            r[selected.value.id][i] == ReviewFromRow(reply.value[i], localDate))
    ensures forall id :: selected.None? || id != selected.value.id ==>
      (id in r <==> id in reviews) && (id in r ==> r[id] == reviews[id])
  {
    if selected.None? || reply.Failed? then reviews
    else
      reviews[selected.value.id := seq(|reply.value|, i requires 0 <= i < |reply.value| =>
                                         ReviewFromRow(reply.value[i], localDate))]
  }

  /** `loadReviewsFromSupabase()`, with `reply` answering the select of the
      selected course's reviews (newest first). */
  method LoadReviewsFromSupabase(app: App, reply: Reply<seq<ReviewRow>>, localDate: string -> string)
    modifies app
    ensures app.View() == old(app.View()).(courseReviews :=
      ReviewsAfterLoad(old(app.courseReviews), old(app.selectedCourse), reply, localDate))
  {
    if app.selectedCourse.None? {
      return;
    }
    if reply.Failed? {
      return;
    }
    var rows := reply.value;
    var loaded := seq(|rows|, i requires 0 <= i < |rows| => ReviewFromRow(rows[i], localDate));
    app.courseReviews := app.courseReviews[app.selectedCourse.value.id := loaded];
  }

  // ---------------------------------------------------------------------
  // Stars

  /** The number of stars in the rating picker and on each review. */
  const StarCount: nat := 5

  /** The rating picker after `setRating(rating)`: star `i` (from 0) is filled
      when `i < rating`. */
  function RatingStars(rating: int): (stars: seq<bool>)
    ensures |stars| == StarCount
    ensures forall i :: 0 <= i < StarCount ==> (stars[i] <==> i < rating)
  {
    seq(StarCount, i => i < rating)
  }

  /** The stars drawn for a rating on a review card: star `j` (from 1) is
      lit when `j <= rating`. */
  function ReviewStars(rating: int): (stars: seq<bool>)
    ensures |stars| == StarCount
    ensures forall i :: 0 <= i < StarCount ==> (stars[i] <==> i < rating)
  {
    seq(StarCount, i => i + 1 <= rating)
  }

  /** The picker and the review cards agree: both light exactly `rating`
      stars (all of them above 5, none below 1). */
  lemma StarRulesAgree(rating: int)
    ensures RatingStars(rating) == ReviewStars(rating)
    ensures 0 <= rating <= StarCount ==>
      forall i :: 0 <= i < StarCount ==> (ReviewStars(rating)[i] <==> i < rating)
  {
    assert forall i :: 0 <= i < StarCount ==> RatingStars(rating)[i] == ReviewStars(rating)[i];
  }

  /** `setRating(rating)`: the rating is kept for the next submission and the
      picker's stars are redrawn. */
  method SetRating(app: App, rating: int) returns (stars: seq<bool>)
    modifies app
    ensures app.View() == old(app.View()).(selectedRating := rating)
    ensures stars == RatingStars(rating)
  {
    app.selectedRating := rating;
    stars := [];
    var i := 0;
    while i < StarCount
      invariant 0 <= i <= StarCount
      invariant stars == RatingStars(rating)[..i]
    {
      stars := stars + [i < rating];
      i := i + 1;
    }
  }

  // ---------------------------------------------------------------------
  // The review panel

  /** One review card: author, date, lit stars and text. */
  datatype ReviewCard = ReviewCard(userName: string, date: string, stars: seq<bool>, text: string)

  function CardOf(review: Review): ReviewCard {
    ReviewCard(review.userName, review.date, ReviewStars(review.rating), review.text)
  }

  /** The cards in the order they are drawn: stored order (newest first)
      reversed, so the oldest review comes first. */
  function CardsInDrawnOrder(reviews: seq<Review>): seq<ReviewCard> {
    if reviews == [] then [] else CardsInDrawnOrder(reviews[1..]) + [CardOf(reviews[0])]
  }

  /** Card `k` shows the review `k` places from the end of the stored list. */
  lemma {:induction false} CardsReversed(reviews: seq<Review>)
    ensures |CardsInDrawnOrder(reviews)| == |reviews|
    ensures forall k :: 0 <= k < |reviews| ==>
      CardsInDrawnOrder(reviews)[k] == CardOf(reviews[|reviews| - 1 - k])
  {
    if reviews != [] {
      CardsReversed(reviews[1..]);
    }
  }

  /** The sum of the ratings. */
  function SumRatings(reviews: seq<Review>): int {
    if reviews == [] then 0 else SumRatings(reviews[..|reviews| - 1]) + reviews[|reviews| - 1].rating
  }

  /** With every rating between 1 and 5 the sum lies between the count and
      five times the count. */
  lemma {:induction false} SumRatingsBounds(reviews: seq<Review>)
    requires forall i :: 0 <= i < |reviews| ==> 1 <= reviews[i].rating <= StarCount
    ensures |reviews| <= SumRatings(reviews) <= StarCount * |reviews|
  {
    if reviews != [] {
      SumRatingsBounds(reviews[..|reviews| - 1]);
    }
  }

  /** With every rating equal to `r` the sum is `r` times the count. */
  lemma {:induction false} SumOfEqualRatings(reviews: seq<Review>, r: int)
    requires forall i :: 0 <= i < |reviews| ==> reviews[i].rating == r
    ensures SumRatings(reviews) == r * |reviews|
  {
    if reviews != [] {
      SumOfEqualRatings(reviews[..|reviews| - 1], r);
    }
  }

  /** The shown average: none (printed as 0) without reviews, else the mean
      rounded to one decimal, in tenths. */
  datatype Average = NoAverage | Tenths(tenths: int)

  /** `(total / count).toFixed(1)` in tenths, half rounding up. */
  function AverageOf(total: int, count: nat): (a: Average)
    ensures a.NoAverage? <==> count == 0
    ensures count > 0 ==> 2 * count * a.tenths <= 20 * total + count < 2 * count * (a.tenths + 1)
  {
    if count == 0 then NoAverage else Tenths((20 * total + count) / (2 * count))
  }

  /** `Math.round(avgRating)`: the number of lit summary stars. */
  function RoundedAverage(a: Average): (n: int)
    ensures a.Tenths? ==> 10 * n - 5 <= a.tenths < 10 * n + 5
    ensures a.NoAverage? ==> n == 0
  {
    if a.NoAverage? then 0 else (a.tenths + 5) / 10
  }

  /** The review count label. */
  function CountLabel(count: nat): (caption: string)
    ensures caption == IntText(count) + " review" <==> count == 1
    ensures caption == IntText(count) + " reviews" <==> count != 1
  {
    IntText(count) + " review" + (if count != 1 then "s" else "")
  }

  /** What `displayReviews()` draws. `emptyMessage` is the "No reviews yet"
      text; `showsForm` says the review form is revealed. */
  datatype ReviewPanel = ReviewPanel(
    average: Average, countLabel: string, summaryStars: seq<bool>,
    cards: seq<ReviewCard>, emptyMessage: bool, showsForm: bool)

  function PanelOf(reviews: seq<Review>, signedIn: bool): ReviewPanel {
    var average := AverageOf(SumRatings(reviews), |reviews|);
    ReviewPanel(average, CountLabel(|reviews|), ReviewStars(RoundedAverage(average)),
                CardsInDrawnOrder(reviews), reviews == [], signedIn)
  }

  /** The cached reviews of a course, or none. */
  function ReviewsOf(cache: map<CourseId, seq<Review>>, id: CourseId): seq<Review> {
    if id in cache then cache[id] else []
  }

  /** With ratings from 1 to 5, the shown average lies between 1.0 and 5.0
      and lights between one and five summary stars. */
  lemma AverageWithinRatings(reviews: seq<Review>)
    requires reviews != []
    requires forall i :: 0 <= i < |reviews| ==> 1 <= reviews[i].rating <= StarCount
    ensures 10 <= PanelOf(reviews, false).average.tenths <= 10 * StarCount
    ensures 1 <= RoundedAverage(PanelOf(reviews, false).average) <= StarCount
  {
    SumRatingsBounds(reviews);
    var n := |reviews|;
    DivWithin(20 * SumRatings(reviews) + n, 2 * n, 10, 10 * StarCount);
    var t := PanelOf(reviews, false).average.tenths;
    DivWithin(t + 5, 10, 1, StarCount);
  }

  /** When every review gives the same rating, the average is that rating
      and the summary lights the same stars as each card. */
  lemma UniformRatings(reviews: seq<Review>, r: int)
    requires reviews != []
    requires forall i :: 0 <= i < |reviews| ==> reviews[i].rating == r
    ensures PanelOf(reviews, false).average == Tenths(10 * r)
    ensures PanelOf(reviews, false).summaryStars == ReviewStars(r)
  {
    SumOfEqualRatings(reviews, r);
    var n := |reviews|;
    assert (10 * r) * (2 * n) == 20 * (r * n);
    assert (10 * r + 1) * (2 * n) == 20 * (r * n) + 2 * n;
    DivWithin(20 * (r * n) + n, 2 * n, 10 * r, 10 * r);
    DivWithin(10 * r + 5, 10, r, r);
  }

  /** `displayReviews()` for the selected course: one loop sums the ratings,
      another draws the cards from the last stored review to the first. */
  method DisplayReviews(app: App) returns (panel: ReviewPanel)
    requires app.selectedCourse.Some?
    ensures panel == PanelOf(ReviewsOf(app.courseReviews, app.selectedCourse.value.id), app.loggedInUser.Some?)
  {
    var reviews := ReviewsOf(app.courseReviews, app.selectedCourse.value.id);
    var total := 0;
    var i := 0;
    while i < |reviews|
      invariant 0 <= i <= |reviews|
      invariant total == SumRatings(reviews[..i])
    {
      assert reviews[..i + 1][..i] == reviews[..i];
      total := total + reviews[i].rating;
      i := i + 1;
    }
    assert reviews[..i] == reviews;
    var average := AverageOf(total, |reviews|);

    var cards := [];
    var j := |reviews|;
    while j > 0
      invariant 0 <= j <= |reviews|
      invariant cards == CardsInDrawnOrder(reviews[j..])
    {
      j := j - 1;
      assert reviews[j..][1..] == reviews[j + 1..];
      cards := cards + [CardOf(reviews[j])];
    }
    assert reviews[0..] == reviews;
    panel := ReviewPanel(average, CountLabel(|reviews|), ReviewStars(RoundedAverage(average)),
                         cards, |reviews| == 0, app.loggedInUser.Some?);
  }

  // ---------------------------------------------------------------------
  // Submission

  /** The row sent to the `reviews` table. */
  datatype ReviewInsert = ReviewInsert(
    userId: string, courseId: CourseId, userName: string, rating: int, reviewText: string)

  /** How a submission ends. `NoCourse` is the exception raised when no
      course is selected, reported as an error alert. */
  datatype ReviewOutcome =
    | SignInToReview
    | SelectRating
    | WriteReview
    | NoCourse
    | SubmitFailed(message: string)
    | Submitted(panel: ReviewPanel)

  /** `submitReview()` with the typed text. `insertReply` answers the insert
      and `reloadReply` the reload of the course's reviews. */
  method SubmitReview(app: App, text: string, insertReply: Reply<()>,
                      reloadReply: Reply<seq<ReviewRow>>, localDate: string -> string)
    returns (outcome: ReviewOutcome, insert: Option<ReviewInsert>)
    modifies app
    // the checks, in order
    ensures old(app.loggedInUser).None? ==> outcome == SignInToReview
    ensures old(app.loggedInUser).Some? && old(app.selectedRating) == 0 ==> outcome == SelectRating
    ensures old(app.loggedInUser).Some? && old(app.selectedRating) != 0 && IsBlank(text) ==>
      outcome == WriteReview
    ensures (old(app.loggedInUser).Some? && old(app.selectedRating) != 0 && !IsBlank(text)
             && old(app.selectedCourse).None?) ==> outcome == NoCourse
    // the insert is sent only once every check passed
    ensures insert.Some? <==>
      (old(app.loggedInUser).Some? && old(app.selectedRating) != 0 && !IsBlank(text)
       && old(app.selectedCourse).Some?)
    ensures insert.Some? ==>
      (insert.value == ReviewInsert(old(app.loggedInUser).value.id, old(app.selectedCourse).value.id,
                                    old(app.loggedInUser).value.name, old(app.selectedRating), text))
    // nothing changes unless the insert succeeded; the rating survives a failure
    ensures !outcome.Submitted? ==> app.View() == old(app.View())
    ensures insert.Some? && insertReply.Failed? ==> outcome == SubmitFailed(insertReply.message)
    // success resets the rating, reloads the course's reviews and redraws
    ensures insert.Some? && insertReply.Ok? ==>
      && app.View() == old(app.View()).(selectedRating := 0,
           courseReviews := ReviewsAfterLoad(old(app.courseReviews), old(app.selectedCourse), reloadReply, localDate))
      && outcome == Submitted(PanelOf(ReviewsOf(app.courseReviews, app.selectedCourse.value.id), true))
  {
    insert := None;
    if app.loggedInUser.None? {
      return SignInToReview, insert;
    }
    if app.selectedRating == 0 {
      return SelectRating, insert;
    }
    if IsBlank(text) {
      return WriteReview, insert;
    }
    if app.selectedCourse.None? {
      return NoCourse, insert;
    }
    var user := app.loggedInUser.value;
    insert := Some(ReviewInsert(user.id, app.selectedCourse.value.id, user.name, app.selectedRating, text));
    if insertReply.Failed? {
      return SubmitFailed(insertReply.message), insert;
    }
    app.selectedRating := 0;
    LoadReviewsFromSupabase(app, reloadReply, localDate);
    var panel := DisplayReviews(app);
    outcome := Submitted(panel);
  }
}
