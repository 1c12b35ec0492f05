/** A doctor's public profile, client/src/pages/DoctorProfile.jsx: the list
    of reviews the page keeps in step with the rating endpoints (replace on
    edit, append on create, drop on delete), the average shown, the review
    form and the star widget. */
module DoctorProfile {
  import opened Wrappers
  import opened Models
  import DocRoutes
  import DocReport
  import RatingsRoutes

  const DEFAULT_RATING := 5
  const STAR_COUNT := 5

  /** `calculateAverageRating`, on exact reals: 0 for no reviews, else
      the sum of the ratings over their count. */
  function AverageRating(reviews: seq<Review>): (avg: real)
    ensures reviews == [] ==> avg == 0.0
    ensures reviews != [] ==> avg * |reviews| as real == DocReport.RatingSum(reviews) as real
  {
    DocRoutes.Average(DocReport.RatingSum(reviews), |reviews|)
  }

  lemma {:induction false} RatingSumConcat(a: seq<Review>, b: seq<Review>)
    ensures DocReport.RatingSum(a + b) == DocReport.RatingSum(a) + DocReport.RatingSum(b)
  {
    if b == [] {
      assert a + b == a;
    } else {
      var n := |b| - 1;
      RatingSumConcat(a, b[..n]);
      assert (a + b)[..|a + b| - 1] == a + b[..n];
      assert (a + b)[|a + b| - 1] == b[n];
    }
  }

  /** With ratings from 1 to 5 the total lies between the count and five
      times it, so a non-empty list averages between 1 and 5. */
  lemma {:induction false} RatingSumBounds(reviews: seq<Review>)
    requires forall i :: 0 <= i < |reviews| ==> 1 <= reviews[i].rating <= 5
    ensures |reviews| <= DocReport.RatingSum(reviews) <= 5 * |reviews|
  {
    if reviews != [] {
      RatingSumBounds(reviews[..|reviews| - 1]);
    }
  }

  /** `reviews.map(r => r._id === id ? updated : r)`. */
  function ReplaceReview(reviews: seq<Review>, id: Id, updated: Review): (r: seq<Review>)
    ensures |r| == |reviews|
    ensures forall i :: 0 <= i < |reviews| ==> r[i] == if reviews[i].id == id then updated else reviews[i]
  {
    seq(|reviews|, i requires 0 <= i < |reviews| => if reviews[i].id == id then updated else reviews[i])
  }

  /** `reviews.filter(r => r._id !== id)`. */
  function RemoveReview(reviews: seq<Review>, id: Id): (r: seq<Review>)
    ensures |r| <= |reviews|
  {
    if reviews == [] then []
    else
      var n := |reviews| - 1;
      RemoveReview(reviews[..n], id) + (if reviews[n].id != id then [reviews[n]] else [])
  }

  predicate DistinctIds(reviews: seq<Review>) {
    forall i, j :: 0 <= i < j < |reviews| ==> reviews[i].id != reviews[j].id
  }

  /** Replacing the one review with the edited id swaps its rating in the
      total and leaves every other review where it was. */
  lemma ReplaceReviewSum(reviews: seq<Review>, k: nat, updated: Review)
    requires DistinctIds(reviews) && k < |reviews|
    ensures ReplaceReview(reviews, reviews[k].id, updated) == reviews[k := updated]
    ensures DocReport.RatingSum(ReplaceReview(reviews, reviews[k].id, updated))
            == DocReport.RatingSum(reviews) - reviews[k].rating + updated.rating
  {
    var r := ReplaceReview(reviews, reviews[k].id, updated);
    forall i | 0 <= i < |reviews| ensures r[i] == reviews[k := updated][i] {
      if i != k {
        assert reviews[i].id != reviews[k].id;
      }
    }
    RatingSumUpdate(reviews, k, updated);
  }

  lemma {:induction false} RatingSumUpdate(s: seq<Review>, k: nat, x: Review)
    requires k < |s|
    ensures DocReport.RatingSum(s[k := x]) == DocReport.RatingSum(s) - s[k].rating + x.rating
  {
    var n := |s| - 1;
    if k == n {
      assert s[k := x][..n] == s[..n];
    } else {
      RatingSumUpdate(s[..n], k, x);
      assert s[k := x][..n] == s[..n][k := x];
    }
  }

  /** Deleting the one review with an id takes exactly it out, keeps the
      others in order, and drops its rating from the total. */
  lemma RemoveReviewSum(reviews: seq<Review>, k: nat)
    requires DistinctIds(reviews) && k < |reviews|
    ensures RemoveReview(reviews, reviews[k].id) == reviews[..k] + reviews[k + 1..]
    ensures DocReport.RatingSum(RemoveReview(reviews, reviews[k].id)) == DocReport.RatingSum(reviews) - reviews[k].rating
  {
    RemoveOne(reviews, k);
    RatingSumRemove(reviews, k);
  }

  lemma RatingSumRemove(s: seq<Review>, k: nat)
    requires k < |s|
    ensures DocReport.RatingSum(s[..k] + s[k + 1..]) == DocReport.RatingSum(s) - s[k].rating
  {
    RatingSumConcat(s[..k], s[k + 1..]);
    RatingSumConcat(s[..k + 1], s[k + 1..]);
    assert s[..k + 1] + s[k + 1..] == s;
    assert s[..k + 1][..k] == s[..k];
    assert s[..k + 1][k] == s[k];
  }

  /** The filter keeps exactly the reviews with another id. */
  lemma {:induction false} RemoveReviewMembers(reviews: seq<Review>, id: Id)
    ensures forall x :: x in RemoveReview(reviews, id) <==> x in reviews && x.id != id
  {
    if reviews != [] {
      var n := |reviews| - 1;
      RemoveReviewMembers(reviews[..n], id);
      assert reviews == reviews[..n] + [reviews[n]];
    }
  }

  lemma {:induction false} RemoveOne(reviews: seq<Review>, k: nat)
    requires DistinctIds(reviews) && k < |reviews|
    ensures RemoveReview(reviews, reviews[k].id) == reviews[..k] + reviews[k + 1..]
  {
    var n := |reviews| - 1;
    var init := reviews[..n];
    var id := reviews[k].id;
    if k == n {
      assert forall i :: 0 <= i < |init| ==> init[i].id != id;
      RemoveNone(init, id);
      assert RemoveReview(reviews, id) == RemoveReview(init, id);
      assert reviews[..k] + reviews[k + 1..] == init;
    } else {
      assert DistinctIds(init);
      assert init[k] == reviews[k];
      assert reviews[n].id != id;
      RemoveOne(init, k);
      assert RemoveReview(reviews, id) == RemoveReview(init, id) + [reviews[n]];
      assert init[..k] == reviews[..k];
      assert init[k + 1..] + [reviews[n]] == reviews[k + 1..];
    }
  }

  lemma {:induction false} RemoveNone(reviews: seq<Review>, id: Id)
    requires forall i :: 0 <= i < |reviews| ==> reviews[i].id != id
    ensures RemoveReview(reviews, id) == reviews
  {
    if reviews != [] {
      var n := |reviews| - 1;
      RemoveNone(reviews[..n], id);
      assert reviews[..n] + [reviews[n]] == reviews;
    }
  }

  // ---------------------------------------------------------------------
  // The page's review state

  datatype ReviewForm = ReviewForm(rating: int, comment: string)

  /** The reviews shown, the form, and the id of the review being edited
      (None when the form creates a new one). */
  datatype Page = Page(reviews: seq<Review>, form: ReviewForm, editing: Option<Id>)

  const BLANK_FORM := ReviewForm(DEFAULT_RATING, "")

  /** `handleEditReview`. */
  function StartEdit(p: Page, review: Review): (q: Page)
    ensures q.reviews == p.reviews
    ensures q.form == ReviewForm(review.rating, review.comment) && q.editing == Some(review.id)
  {
    Page(p.reviews, ReviewForm(review.rating, review.comment), Some(review.id))
  }

  /** `handleReviewSubmit` once the server has answered, with the saved
      review taken out of the reply's `{ message, review }` body; a refusal
      or failure reply makes axios throw, so the alert shows and nothing
      changes. */
  function AfterSubmit(p: Page, reply: RatingsRoutes.Response): Page {
    match reply
    case ReviewReply(_, _, saved) =>
      (match p.editing
       case Some(id) => Page(ReplaceReview(p.reviews, id, saved), BLANK_FORM, None)
       case None => Page(p.reviews + [saved], BLANK_FORM, None))
    case _ => p
  }

  /** After a saved submit the form is blank with rating 5 and edit mode is
      left; a new review is appended and adds its rating, an edit keeps the
      list's length. A failed submit changes nothing. */
  lemma AfterSubmitState(p: Page, reply: RatingsRoutes.Response)
    ensures var q := AfterSubmit(p, reply);
      && (!reply.ReviewReply? ==> q == p)
      && (reply.ReviewReply? ==>
            var saved := reply.review;
            && q.form == ReviewForm(5, "") && q.editing.None?
            && (p.editing.None? ==> |q.reviews| == |p.reviews| + 1 && q.reviews[|p.reviews|] == saved
                                    && q.reviews[..|p.reviews|] == p.reviews
                                    && DocReport.RatingSum(q.reviews) == DocReport.RatingSum(p.reviews) + saved.rating)
            && (p.editing.Some? ==> |q.reviews| == |p.reviews|))
  {
    if reply.ReviewReply? && p.editing.None? {
      assert (p.reviews + [reply.review])[..|p.reviews|] == p.reviews;
    }
  }

  // ---------------------------------------------------------------------
  // The list as written: `handleReviewSubmit` stores `response.data`, the
  // reply's whole `{ message, review }` body, in place of a review

  /** An entry of the page's list: a review as fetched, or a reply body
      stored as it came, which has no `rating` and no `_id` of its own. */
  datatype Entry = Listed(review: Review) | ReplyBody(message: string, inner: Review)

  /** `entry.rating`: undefined (None) for a reply body. */
  function EntryRating(e: Entry): Option<int> {
    match e
    case Listed(r) => Some(r.rating)
    case ReplyBody(_, _) => None
  }

  /** `entry._id`: undefined (None) for a reply body. */
  function EntryId(e: Entry): Option<Id> {
    match e
    case Listed(r) => Some(r.id)
    case ReplyBody(_, _) => None
  }

  /** The `reduce` of `calculateAverageRating` over the entries: adding
      undefined makes the sum NaN, None here, and NaN stays NaN. */
  function RatingTotal(es: seq<Entry>): (total: Option<int>)
    ensures total.None? <==> exists i :: 0 <= i < |es| && es[i].ReplyBody?
    ensures total.Some? ==> total.value == DocReport.RatingSum(Unwrap(es))
  {
    if es == [] then Some(0)
    else
      var n := |es| - 1;
      var init := RatingTotal(es[..n]);
      assert Unwrap(es)[..n] == Unwrap(es[..n]);
      if init.Some? && es[n].Listed? then Some(init.value + es[n].review.rating)
      else
        assert init.None? ==> exists i :: 0 <= i < n && es[..n][i].ReplyBody?;
        None
  }

  /** The review each entry stands for: a reply body's inner review. */
  function Unwrap(es: seq<Entry>): (rs: seq<Review>)
    ensures |rs| == |es|
    ensures forall i :: 0 <= i < |es| ==> rs[i] == if es[i].Listed? then es[i].review else es[i].inner
  {
    seq(|es|, i requires 0 <= i < |es| => if es[i].Listed? then es[i].review else es[i].inner)
  }

  /** The fetched list, every entry a review. */
  function Lift(rs: seq<Review>): (es: seq<Entry>)
    ensures |es| == |rs|
    ensures forall i :: 0 <= i < |rs| ==> es[i] == Listed(rs[i])
  {
    seq(|rs|, i requires 0 <= i < |rs| => Listed(rs[i]))
  }

  /** `calculateAverageRating` as written: 0 for an empty list, NaN (None)
      once any entry lacks a rating, else the mean. */
  function AverageAsWritten(es: seq<Entry>): Option<real> {
    if es == [] then Some(0.0)
    else match RatingTotal(es)
      case None => None
      case Some(total) => Some(DocRoutes.Average(total, |es|))
  }

  datatype ListPage = ListPage(entries: seq<Entry>, form: ReviewForm, editing: Option<Id>)

  /** `handleReviewSubmit` as written, once the server has answered: the
      reply body goes on the list as it came. */
  function SubmitAsWritten(p: ListPage, reply: RatingsRoutes.Response): ListPage {
    match reply
    case ReviewReply(_, message, saved) =>
      var e := ReplyBody(message, saved);
      (match p.editing
       case Some(id) =>
         ListPage(seq(|p.entries|, i requires 0 <= i < |p.entries| =>
                    if EntryId(p.entries[i]) == Some(id) then e else p.entries[i]),
                  BLANK_FORM, None)
       case None => ListPage(p.entries + [e], BLANK_FORM, None))
    case _ => p
  }

  /** As written, a saved create, or a saved edit of an entry on the list,
      leaves the reply body on the list, so the average shown is NaN from
      then on, whatever the ratings. */
  lemma SubmitStoresReplyBody(p: ListPage, reply: RatingsRoutes.Response)
    requires reply.ReviewReply?
    ensures var q := SubmitAsWritten(p, reply);
      (p.editing.None? || exists i :: 0 <= i < |p.entries| && EntryId(p.entries[i]) == p.editing) ==>
        && ReplyBody(reply.message, reply.review) in q.entries
        && EntryRating(ReplyBody(reply.message, reply.review)).None?
        && AverageAsWritten(q.entries).None?
  {
    var q := SubmitAsWritten(p, reply);
    var e := ReplyBody(reply.message, reply.review);
    if p.editing.None? {
      assert q.entries[|p.entries|] == e;
    } else if exists i :: 0 <= i < |p.entries| && EntryId(p.entries[i]) == p.editing {
      var i :| 0 <= i < |p.entries| && EntryId(p.entries[i]) == p.editing;
      assert q.entries[i] == e;
    }
  }

  /** The corrected page is the page as written with every reply body read
      as the review inside it. */
  lemma SubmitUnwrapped(p: Page, reply: RatingsRoutes.Response)
    ensures Unwrap(SubmitAsWritten(ListPage(Lift(p.reviews), p.form, p.editing), reply).entries)
            == AfterSubmit(p, reply).reviews
  {
    var es := SubmitAsWritten(ListPage(Lift(p.reviews), p.form, p.editing), reply).entries;
    var rs := AfterSubmit(p, reply).reviews;
    assert |Unwrap(es)| == |rs|;
    forall i | 0 <= i < |rs| ensures Unwrap(es)[i] == rs[i] {
      if reply.ReviewReply? && p.editing.None? && i < |p.reviews| {
        assert es[i] == Listed(p.reviews[i]);
      }
    }
  }

  /** One review rated 4 and a saved new review rated 5: as written the
      page shows NaN; corrected it shows 4.5. */
  lemma NaNAfterCreateExample()
    ensures var r1 := Review(1, 3, 7, 4, "good", 0);
      var r2 := Review(2, 3, 8, 5, "great", 1);
      var reply := RatingsRoutes.ReviewReply(201, RatingsRoutes.ADDED, r2);
      && AverageAsWritten(SubmitAsWritten(ListPage([Listed(r1)], BLANK_FORM, None), reply).entries).None?
      && AverageRating(AfterSubmit(Page([r1], BLANK_FORM, None), reply).reviews) == 4.5
  {
    var r1 := Review(1, 3, 7, 4, "good", 0);
    var r2 := Review(2, 3, 8, 5, "great", 1);
    var reply := RatingsRoutes.ReviewReply(201, RatingsRoutes.ADDED, r2);
    SubmitStoresReplyBody(ListPage([Listed(r1)], BLANK_FORM, None), reply);
    var q := AfterSubmit(Page([r1], BLANK_FORM, None), reply);
    assert q.reviews == [r1, r2];
    assert DocReport.RatingSum([r1, r2]) == 9 by {
      assert [r1, r2][..1] == [r1];
      assert [r1][..0] == [];
      assert DocReport.RatingSum([r1]) == 4;
    }
  }

  /** `handleDeleteReview` once the server has deleted `id`. */
  function AfterDelete(p: Page, id: Id): (q: Page)
    ensures q.form == p.form && q.editing == p.editing
    ensures forall r :: r in q.reviews <==> r in p.reviews && r.id != id
  {
    RemoveReviewMembers(p.reviews, id);
    p.(reviews := RemoveReview(p.reviews, id))
  }

  // ---------------------------------------------------------------------
  // Stars

  /** Which of the five stars show filled for a rating. */
  function Stars(rating: int): (filled: seq<bool>)
    ensures |filled| == STAR_COUNT
    ensures forall i :: 0 <= i < STAR_COUNT ==> (filled[i] <==> i + 1 <= rating)
  {
    seq(STAR_COUNT, i requires 0 <= i < STAR_COUNT => i + 1 <= rating)
  }

  function FilledCount(filled: seq<bool>): nat {
    if filled == [] then 0 else (if filled[0] then 1 else 0) + FilledCount(filled[1..])
  }

  /** A rating from 0 to 5 shows exactly that many filled stars, leftmost
      first. */
  lemma StarsShowRating(rating: int)
    requires 0 <= rating <= STAR_COUNT
    ensures FilledCount(Stars(rating)) == rating
  {
    var s := Stars(rating);
    assert s == seq(rating, _ => true) + seq(STAR_COUNT - rating, _ => false);
    FilledPrefix(rating, STAR_COUNT - rating);
  }

  lemma {:induction false} FilledPrefix(a: nat, b: nat)
    ensures FilledCount(seq(a, _ => true) + seq(b, _ => false)) == a
  {
    if a > 0 {
      FilledPrefix(a - 1, b);
      assert (seq(a, _ => true) + seq(b, _ => false))[1..] == seq(a - 1, _ => true) + seq(b, _ => false);
    } else if b > 0 {
      FilledPrefix(0, b - 1);
      assert (seq(0, _ => true) + seq(b, _ => false))[1..] == seq(0, _ => true) + seq(b - 1, _ => false);
    }
  }
}
