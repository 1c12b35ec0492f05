/** Reviews of a doctor, server/routes/ratingsRoutes.js: anyone may read
    them, a signed-in user writes one under their own id, and only its author
    may change or delete it. The Review schema is not part of this model; its
    validation on save is the parameter `saves`. */
module RatingsRoutes {
  import opened Wrappers
  import opened Models
  import opened Store

  datatype ReviewRequest = ReviewRequest(doctorId: Id, rating: Option<int>, comment: string)

  datatype Response =
    | ReviewReply(status: int, message: string, review: Review)
    | Reviews(reviews: seq<Review>)
    | Done(message: string)
    | Error(status: int, message: string)

  const ADDED := "Review added successfully"
  const UPDATED := "Review updated successfully"
  const DELETED := "Review deleted successfully"
  const NOT_FOUND := "Review not found"
  const CANNOT_UPDATE := "Unauthorized to update this review"
  const CANNOT_DELETE := "Unauthorized to delete this review"
  const ADD_FAILED := "Failed to add review"
  const UPDATE_FAILED := "Failed to update review"

  /** A missing rating is stored as 0 here; whether it saves is up to `saves`. */
  function Create(t: Tables, callerId: Id, req: ReviewRequest, now: Date, saves: Review -> bool): (Response, Tables) {
    var review := Review(t.nextId, req.doctorId, callerId, req.rating.GetOr(0), req.comment, now);
    if !saves(review) then (Error(500, ADD_FAILED), t)
    else (ReviewReply(201, ADDED, review), t.(reviews := t.reviews + [review], nextId := t.nextId + 1))
  }

  method CreateReview(db: Db, callerId: Id, req: ReviewRequest, now: Date, saves: Review -> bool) returns (res: Response)
    requires db.Valid()
    modifies db
    ensures db.Valid()
    ensures (res, db.State()) == Create(old(db.State()), callerId, req, now, saves)
  {
    var review := Review(db.nextId, req.doctorId, callerId, req.rating.GetOr(0), req.comment, now);
    if !saves(review) {
      return Error(500, ADD_FAILED);
    }
    AppendFresh(db.reviews, ReviewId, db.nextId, review, db.nextId + 1);
    RaiseBound(db.users, UserId, db.nextId, db.nextId + 1);
    RaiseBound(db.doctors, DoctorId, db.nextId, db.nextId + 1);
    RaiseBound(db.admins, AdminId, db.nextId, db.nextId + 1);
    RaiseBound(db.appointments, AppointmentId, db.nextId, db.nextId + 1);
    RaiseBound(db.payments, PaymentId, db.nextId, db.nextId + 1);
    db.reviews := db.reviews + [review];
    db.nextId := db.nextId + 1;
    res := ReviewReply(201, ADDED, review);
  }

  /** The author of a new review is always the caller, whatever the body
      says, and it is the only review added. */
  lemma CreateRecordsCaller(t: Tables, callerId: Id, req: ReviewRequest, now: Date, saves: Review -> bool)
    ensures var (r, t') := Create(t, callerId, req, now, saves);
      r.ReviewReply? ==>
        && t'.reviews == t.reviews + [r.review]
        && r.review.patientId == callerId && r.review.doctorId == req.doctorId
        && r.review.comment == req.comment && saves(r.review)
    ensures var (r, t') := Create(t, callerId, req, now, saves);
      r.Error? ==> t' == t
  {
  }

  /** `Review.find({ doctorId })`. */
  function ReviewsOf(reviews: seq<Review>, doctorId: Id): (r: seq<Review>)
    ensures |r| <= |reviews|
  {
    if reviews == [] then []
    else (if reviews[0].doctorId == doctorId then [reviews[0]] else []) + ReviewsOf(reviews[1..], doctorId)
  }

  /** The listing holds exactly the doctor's reviews, each as often as stored. */
  lemma {:induction false} ReviewsOfExact(reviews: seq<Review>, doctorId: Id)
    ensures forall v ::
      multiset(ReviewsOf(reviews, doctorId))[v] == (if v.doctorId == doctorId then multiset(reviews)[v] else 0)
  {
    if reviews != [] {
      ReviewsOfExact(reviews[1..], doctorId);
      assert reviews == [reviews[0]] + reviews[1..];
    }
  }

  function ListForDoctor(t: Tables, doctorId: Id): Response {
    Reviews(ReviewsOf(t.reviews, doctorId))
  }

  function GetReview(t: Tables, id: Id): Response {
    match FindReview(t.reviews, id)
    case None => Error(404, NOT_FOUND)
    case Some(i) => ReviewReply(200, "", t.reviews[i])
  }

  /** A review that exists is found by its id; otherwise 404. */
  lemma GetReviewFinds(t: Tables, id: Id)
    ensures GetReview(t, id).ReviewReply? <==> exists i :: 0 <= i < |t.reviews| && t.reviews[i].id == id
    ensures GetReview(t, id).ReviewReply? ==> GetReview(t, id).review.id == id
    ensures GetReview(t, id).Error? ==> GetReview(t, id) == Error(404, NOT_FOUND)
  {
    if exists i :: 0 <= i < |t.reviews| && t.reviews[i].id == id {
      var i :| 0 <= i < |t.reviews| && t.reviews[i].id == id;
      assert FindReview(t.reviews, id).Some?;
    }
  }

  /** `rating || review.rating`, `comment || review.comment`. */
  function Revised(v: Review, rating: Option<int>, comment: string): Review {
    v.(rating := if rating.Some? && rating.value != 0 then rating.value else v.rating,
       comment := if comment != "" then comment else v.comment)
  }

  function Update(t: Tables, callerId: Id, id: Id, rating: Option<int>, comment: string,
                  saves: Review -> bool): (Response, Tables)
  {
    match FindReview(t.reviews, id)
    case None => (Error(404, NOT_FOUND), t)
    case Some(i) =>
      if t.reviews[i].patientId != callerId then (Error(403, CANNOT_UPDATE), t)
      else
        var v := Revised(t.reviews[i], rating, comment);
        if !saves(v) then (Error(500, UPDATE_FAILED), t)
        else (ReviewReply(200, UPDATED, v), t.(reviews := t.reviews[i := v]))
  }

  method UpdateReview(db: Db, callerId: Id, id: Id, rating: Option<int>, comment: string,
                      saves: Review -> bool) returns (res: Response)
    requires db.Valid()
    modifies db
    ensures db.Valid()
    ensures (res, db.State()) == Update(old(db.State()), callerId, id, rating, comment, saves)
  {
    var i := FindReview(db.reviews, id);
    if i.None? {
      return Error(404, NOT_FOUND);
    }
    var review := db.reviews[i.value];
    if review.patientId != callerId {
      return Error(403, CANNOT_UPDATE);
    }
    review := Revised(review, rating, comment);
    if !saves(review) {
      return Error(500, UPDATE_FAILED);
    }
    ReplaceSameId(db.reviews, ReviewId, db.nextId, i.value, review);
    db.reviews := db.reviews[i.value := review];
    res := ReviewReply(200, UPDATED, review);
  }

  /** An unknown id gets 404 and only the author changes a review: anyone
      else gets 403, and neither refusal changes anything. An accepted
      update keeps the review's id, doctor and author, replaces a field sent
      as truthy, keeps one sent as falsy (0, "" or missing) and changes no
      other review. */
  lemma UpdateByAuthorOnly(t: Tables, callerId: Id, id: Id, rating: Option<int>, comment: string,
                           saves: Review -> bool)
    ensures var (r, t') := Update(t, callerId, id, rating, comment, saves);
      && (FindReview(t.reviews, id).None? ==> r == Error(404, NOT_FOUND) && t' == t)
      && (r.Error? ==> t' == t)
    ensures FindReview(t.reviews, id).Some? ==>
      var i := FindReview(t.reviews, id).value;
      var (r, t') := Update(t, callerId, id, rating, comment, saves);
      && (t.reviews[i].patientId != callerId ==> r == Error(403, CANNOT_UPDATE))
      && (r.ReviewReply? ==>
            && r == ReviewReply(200, UPDATED, t'.reviews[i])
            && t.reviews[i].patientId == callerId
            && |t'.reviews| == |t.reviews|
            && (forall k :: 0 <= k < |t.reviews| && k != i ==> t'.reviews[k] == t.reviews[k])
            && var v := t'.reviews[i];
            && v.id == id && v.doctorId == t.reviews[i].doctorId && v.patientId == callerId
            && v.rating == (if rating.None? || rating == Some(0) then t.reviews[i].rating else rating.value)
            && v.comment == (if comment == "" then t.reviews[i].comment else comment))
  {
  }

  function Delete(t: Tables, callerId: Id, id: Id): (Response, Tables) {
    match FindReview(t.reviews, id)
    case None => (Error(404, NOT_FOUND), t)
    case Some(i) =>
      if t.reviews[i].patientId != callerId then (Error(403, CANNOT_DELETE), t)
      else (Done(DELETED), t.(reviews := t.reviews[..i] + t.reviews[i + 1..]))
  }

  method DeleteReview(db: Db, callerId: Id, id: Id) returns (res: Response)
    requires db.Valid()
    modifies db
    ensures db.Valid()
    ensures (res, db.State()) == Delete(old(db.State()), callerId, id)
  {
    var i := FindReview(db.reviews, id);
    if i.None? {
      return Error(404, NOT_FOUND);
    }
    if db.reviews[i.value].patientId != callerId {
      return Error(403, CANNOT_DELETE);
    }
    RemoveAt(db.reviews, ReviewId, db.nextId, i.value);
    db.reviews := db.reviews[..i.value] + db.reviews[i.value + 1..];
    res := Done(DELETED);
  }

  /** Only the author deletes a review: an unknown id gets 404, another
      user 403, the reply is a success exactly when the review exists and
      the caller wrote it, and a refusal changes nothing. */
  lemma DeleteByAuthorOnly(t: Tables, callerId: Id, id: Id)
    requires UniqueIds(t.reviews, ReviewId)
    ensures var (r, t') := Delete(t, callerId, id);
      && (r.Done? <==> exists i :: 0 <= i < |t.reviews| && t.reviews[i].id == id && t.reviews[i].patientId == callerId)
      && (r.Done? ==> r == Done(DELETED))
      && (r.Error? ==> t' == t)
      && (FindReview(t.reviews, id).None? ==> r == Error(404, NOT_FOUND))
      && (FindReview(t.reviews, id).Some? && t.reviews[FindReview(t.reviews, id).value].patientId != callerId ==>
            r == Error(403, CANNOT_DELETE))
  {
    var f := FindReview(t.reviews, id);
    if exists i :: 0 <= i < |t.reviews| && t.reviews[i].id == id && t.reviews[i].patientId == callerId {
      var i :| 0 <= i < |t.reviews| && t.reviews[i].id == id && t.reviews[i].patientId == callerId;
      assert f.Some?;
      assert t.reviews[f.value].id == t.reviews[i].id;
    }
  }

  /** A deletion removes that one review and keeps every other one: with
      unique ids, no review with that id is left. */
  lemma DeleteRemovesOnlyThat(t: Tables, callerId: Id, id: Id)
    requires UniqueIds(t.reviews, ReviewId)
    ensures var (r, t') := Delete(t, callerId, id);
      r.Done? ==>
        && |t'.reviews| == |t.reviews| - 1
        && (forall v :: v in t.reviews && v.id != id ==> v in t'.reviews)
        && (forall v :: v in t'.reviews ==> v in t.reviews && v.id != id)
  {
    var f := FindReview(t.reviews, id);
    if f.Some? && t.reviews[f.value].patientId == callerId {
      RemovedExactly(t.reviews, f.value);
    }
  }

  lemma RemovedExactly(s: seq<Review>, i: nat)
    requires UniqueIds(s, ReviewId) && i < |s|
    ensures forall v :: v in s && v.id != s[i].id ==> v in s[..i] + s[i + 1..]
    ensures forall v :: v in s[..i] + s[i + 1..] ==> v in s && v.id != s[i].id
  {
    RemovedKeeps(s, i);
    RemovedOnly(s, i);
  }

  lemma RemovedKeeps(s: seq<Review>, i: nat)
    requires i < |s|
    ensures forall v :: v in s && v.id != s[i].id ==> v in s[..i] + s[i + 1..]
  {
    var rest := s[..i] + s[i + 1..];
    forall v | v in s && v.id != s[i].id ensures v in rest {
      var k :| 0 <= k < |s| && s[k] == v;
      if k < i {
        assert rest[k] == s[k];
      } else {
        assert k != i;
        assert rest[k - 1] == s[k];
      }
    }
  }

  lemma RemovedOnly(s: seq<Review>, i: nat)
    requires UniqueIds(s, ReviewId) && i < |s|
    ensures forall v :: v in s[..i] + s[i + 1..] ==> v in s && v.id != s[i].id
  {
    var rest := s[..i] + s[i + 1..];
    forall v | v in rest ensures v in s && v.id != s[i].id {
      var k :| 0 <= k < |rest| && rest[k] == v;
      var j := if k < i then k else k + 1;
      assert rest[k] == s[j];
      assert ReviewId(s[j]) != ReviewId(s[i]);
    }
  }
}
