/** The rating controller: users rate each other once per pair (a second
    rating replaces the first), reviewers delete their ratings, anyone lists
    a user's ratings, and every change refreshes the reviewee's stored
    average. */
module Ratings {
  import opened Common
  import opened Schema
  import opened Queries
  import opened Reputation
  import opened Ledger

  /** A worker profile with a new stored average. */
  function WithWorkerAverage(p: WorkerProfile, a: real): (r: WorkerProfile)
    ensures r.averageRating == a
  {
    p.(averageRating := a)
  }

  /** A farmer profile with a new stored average. */
  function WithFarmerAverage(p: FarmerProfile, a: real): (r: FarmerProfile)
    ensures r.averageRating == a
  {
    p.(averageRating := a)
  }

  /** A user's average over the whole ratings table, found with the store's
      id bound. */
  function AverageNow(db: Tables, u: Id): (a: real)
    requires db.Valid()
    ensures a == Average(db.ratings, u, Bound(db.ratings))
  {
    NewestFirstAll(db.ratings, ReceivedBy(u), db.nextId);
    Average(db.ratings, u, db.nextId)
  }

  /** The worker profiles after `u`'s average is written to its worker
      profile, when it has one. */
  function RefreshedWorkers(wp: map<Id, WorkerProfile>, u: Id, a: real): (wp': map<Id, WorkerProfile>)
    ensures wp'.Keys == wp.Keys
    ensures u in wp ==> wp'[u] == WithWorkerAverage(wp[u], a)
    ensures forall v :: v in wp && v != u ==> wp'[v] == wp[v]
  {
    if u in wp then wp[u := WithWorkerAverage(wp[u], a)] else wp
  }

  /** ... and the farmer profiles after it is written to its farmer profile. */
  function RefreshedFarmers(fp: map<Id, FarmerProfile>, u: Id, a: real): (fp': map<Id, FarmerProfile>)
    ensures fp'.Keys == fp.Keys
    ensures u in fp ==> fp'[u] == WithFarmerAverage(fp[u], a)
    ensures forall v :: v in fp && v != u ==> fp'[v] == fp[v]
  {
    if u in fp then fp[u := WithFarmerAverage(fp[u], a)] else fp
  }

  /** The store after `updateAverageRating(u)`: each profile `u` has gets
      the average of the ratings `u` has received; nothing else changes.
      This restores the stored-average invariant after a rating write for `u`. */
  function Refreshed(db: Tables, u: Id): (t: Tables)
    requires db.Valid()
    ensures t.Valid()
    ensures db.CapacityHolds() ==> t.CapacityHolds()
    ensures db.AveragesHoldExcept(u) ==> t.AveragesHold()
    ensures u in t.workerProfiles ==> t.workerProfiles[u].averageRating == Average(db.ratings, u, Bound(db.ratings))
    ensures u in t.farmerProfiles ==> t.farmerProfiles[u].averageRating == Average(db.ratings, u, Bound(db.ratings))
  {
    var a := AverageNow(db, u);
    db.(workerProfiles := RefreshedWorkers(db.workerProfiles, u, a),
        farmerProfiles := RefreshedFarmers(db.farmerProfiles, u, a))
  }

  /** `updateAverageRating(u)`: compute `u`'s average, then write it to the
      worker profile if there is one, and to the farmer profile if there is
      one. */
  method UpdateAverageRating(s: Store, u: Id)
    requires s.db.Valid()
    modifies s
    ensures s.db == Refreshed(old(s.db), u)
  {
    ghost var before := s.db;
    var averageRating := Average(s.db.ratings, u, s.db.nextId);
    NewestFirstAll(s.db.ratings, ReceivedBy(u), s.db.nextId);
    if u in s.db.workerProfiles {
      var p := WithWorkerAverage(s.db.workerProfiles[u], averageRating);
      s.db := s.db.PutWorkerProfile(u, p);
      ReplacedIs(before.workerProfiles, s.db.workerProfiles, u, p);
    }
    assert s.db == before.(workerProfiles := RefreshedWorkers(before.workerProfiles, u, averageRating));
    ghost var mid := s.db;
    if u in s.db.farmerProfiles {
      var p := WithFarmerAverage(s.db.farmerProfiles[u], averageRating);
      s.db := s.db.PutFarmerProfile(u, p);
      ReplacedIs(mid.farmerProfiles, s.db.farmerProfiles, u, p);
    }
    assert s.db == mid.(farmerProfiles := RefreshedFarmers(before.farmerProfiles, u, averageRating));
  }

  /** JavaScript truthiness of the `rating` field, taken as a JSON number. */
  predicate RatingGiven(rating: Option<real>)
  {
    rating.Some? && rating.value != 0.0
  }

  /** Whether a rating by `reviewer` of `reviewee` exists (the lookup by the
      unique key (reviewerId, revieweeId)). */
  predicate HasRated(ratings: map<Id, Rating>, reviewer: Id, reviewee: Id)
  {
    exists q :: q in ratings && ratings[q].reviewerId == reviewer && ratings[q].revieweeId == reviewee
  }

  /** The checks `createRating` makes before it writes, in order. */
  predicate MayRate(db: Tables, caller: Option<Caller>, revieweeId: Option<Id>, rating: Option<real>)
  {
    && caller.Some? && revieweeId.Some? && RatingGiven(rating)
    && 1.0 <= rating.value <= 5.0
    && caller.value.userId != revieweeId.value
    && revieweeId.value in db.users
  }

  /** The rating the pair already has, when it has one (there is at most
      one). */
  ghost function PairRating(ratings: map<Id, Rating>, reviewer: Id, reviewee: Id): (q: Id)
    requires HasRated(ratings, reviewer, reviewee)
    ensures q in ratings && ratings[q].reviewerId == reviewer && ratings[q].revieweeId == reviewee
  {
    var q :| q in ratings && ratings[q].reviewerId == reviewer && ratings[q].revieweeId == reviewee; q
  }

  /** The `comment` of the request body: left out, `null`, or a text. */
  datatype CommentField = Unsent | Null | Text(text: string)

  /** The comment column after a write of `comment` over the stored value:
      a left-out field keeps it (and a new row starts with none), `null`
      clears it, a text replaces it. */
  function Written(comment: CommentField, stored: Option<string>): (r: Option<string>)
    ensures comment.Unsent? ==> r == stored
    ensures comment.Null? ==> r.None?
    ensures comment.Text? ==> r == Some(comment.text)
  {
    match comment
    case Unsent => stored
    case Null => None
    case Text(t) => Some(t)
  }

  /** The ratings table after the upsert of `createRating`: the existing
      rating of the pair is rewritten with the new score and the comment as
      the request writes it; otherwise a new rating is added under `n`. */
  ghost function UpsertedRatings(ratings: map<Id, Rating>, n: Id, reviewer: Id, reviewee: Id, score: int, comment: CommentField): map<Id, Rating>
  {
    if HasRated(ratings, reviewer, reviewee) then
      var q := PairRating(ratings, reviewer, reviewee);
      ratings[q := Rating(reviewer, reviewee, score, Written(comment, ratings[q].comment))]
    else
      ratings[n := Rating(reviewer, reviewee, score, Written(comment, None))]
  }

  /** After the upsert the pair has exactly one rating, with the new score,
      under the id it had or under the new id; a sent text becomes its
      comment, a `null` clears it, and a left-out comment keeps the stored
      one (none for a new rating); every other rating is as it was. */
  lemma UpsertedRows(ratings: map<Id, Rating>, n: Id, reviewer: Id, reviewee: Id, score: int, comment: CommentField)
    requires OneRatingPerPair(ratings) && n !in ratings
    ensures var t := UpsertedRatings(ratings, n, reviewer, reviewee, score, comment);
      && HasRated(t, reviewer, reviewee)
      && (forall q :: q in t && t[q].reviewerId == reviewer && t[q].revieweeId == reviewee ==>
            t[q].rating == score
            && (comment.Text? ==> t[q].comment == Some(comment.text)) && (comment.Null? ==> t[q].comment.None?))
      && (HasRated(ratings, reviewer, reviewee) ==> t.Keys == ratings.Keys)
      && (!HasRated(ratings, reviewer, reviewee) ==>
            t.Keys == ratings.Keys + {n} && t[n] == Rating(reviewer, reviewee, score, Written(comment, None)))
      && (forall q :: q in ratings && !(ratings[q].reviewerId == reviewer && ratings[q].revieweeId == reviewee) ==>
            q in t && t[q] == ratings[q])
      && (forall q :: q in ratings && ratings[q].reviewerId == reviewer && ratings[q].revieweeId == reviewee ==>
            q in t && t[q].reviewerId == reviewer && t[q].revieweeId == reviewee
            && (comment.Unsent? ==> t[q].comment == ratings[q].comment))
      && (!HasRated(ratings, reviewer, reviewee) && comment.Unsent? ==> t[n].comment.None?)
  {
    var t := UpsertedRatings(ratings, n, reviewer, reviewee, score, comment);
    if HasRated(ratings, reviewer, reviewee) {
      var q := PairRating(ratings, reviewer, reviewee);
      assert t[q].reviewerId == reviewer && t[q].revieweeId == reviewee;
    } else {
      assert t[n].reviewerId == reviewer && t[n].revieweeId == reviewee;
    }
  }

  /** The rating write of `createRating`, on the whole store. */
  ghost function Upserted(db: Tables, reviewer: Id, reviewee: Id, score: int, comment: CommentField): (t: Tables)
    requires db.Valid() && reviewer in db.users && reviewee in db.users && reviewer != reviewee && 1 <= score <= 5
    ensures t.Valid()
    ensures db.CapacityHolds() ==> t.CapacityHolds()
    ensures db.AveragesHold() ==> t.AveragesHoldExcept(reviewee)
    ensures t.ratings == UpsertedRatings(db.ratings, db.nextId, reviewer, reviewee, score, comment)
    ensures t.nextId == db.nextId + (if HasRated(db.ratings, reviewer, reviewee) then 0 else 1)
  {
    if HasRated(db.ratings, reviewer, reviewee) then
      var q := PairRating(db.ratings, reviewer, reviewee);
      var r := Rating(reviewer, reviewee, score, Written(comment, db.ratings[q].comment));
      var t := db.PutRating(q, r);
      ReplacedIs(db.ratings, t.ratings, q, r);
      t
    else
      var r := Rating(reviewer, reviewee, score, Written(comment, None));
      var t := db.InsertRating(r);
      AddedIs(db.ratings, t.ratings, db.nextId, r);
      t
  }

  /** `POST /ratings`: rate another user from 1 to 5, or re-rate them. The
      reviewee's stored average is then refreshed. */
  method CreateRating(s: Store, caller: Option<Caller>, revieweeId: Option<Id>, rating: Option<real>, comment: CommentField)
    returns (r: Reply<Rating>)
    requires s.db.Valid()
    modifies s
    ensures s.db.Valid()
    ensures old(s.db.CapacityHolds()) ==> s.db.CapacityHolds()
    ensures old(s.db.AveragesHold()) ==> s.db.AveragesHold()
    ensures caller.None? ==> r == Fail(401, UNAUTHORIZED)
    ensures caller.Some? && (revieweeId.None? || !RatingGiven(rating)) ==>
      r == Fail(400, Msg("Reviewee ID and rating are required"))
    ensures caller.Some? && revieweeId.Some? && RatingGiven(rating) && (rating.value < 1.0 || rating.value > 5.0) ==>
      r == Fail(400, Msg("Rating must be between 1 and 5"))
    ensures (caller.Some? && revieweeId.Some? && RatingGiven(rating) && 1.0 <= rating.value <= 5.0
      && caller.value.userId == revieweeId.value) ==> r == Fail(400, Msg("You cannot rate yourself"))
    ensures (caller.Some? && revieweeId.Some? && RatingGiven(rating) && 1.0 <= rating.value <= 5.0
      && caller.value.userId != revieweeId.value && revieweeId.value !in old(s.db.users)) ==>
      r == Fail(404, Msg("Reviewee not found"))
    ensures MayRate(old(s.db), caller, revieweeId, rating) && caller.value.userId !in old(s.db.users) ==>
      r == Fail(500, INTERNAL_ERROR)
    ensures r.Ok? <==> MayRate(old(s.db), caller, revieweeId, rating) && caller.value.userId in old(s.db.users)
    ensures r.Fail? ==> unchanged(s)
    ensures r.Ok? ==>
      && r.code == (if HasRated(old(s.db.ratings), caller.value.userId, revieweeId.value) then 200 else 201)
      && s.db == Refreshed(Upserted(old(s.db), caller.value.userId, revieweeId.value, rating.value.Floor, comment), revieweeId.value)
  {
    if caller.None? {
      return Fail(401, UNAUTHORIZED);
    }
    if revieweeId.None? || !RatingGiven(rating) {
      return Fail(400, Msg("Reviewee ID and rating are required"));
    }
    if rating.value < 1.0 || rating.value > 5.0 {
      return Fail(400, Msg("Rating must be between 1 and 5"));
    }
    var reviewer, reviewee := caller.value.userId, revieweeId.value;
    if reviewer == reviewee {
      return Fail(400, Msg("You cannot rate yourself"));
    }
    if reviewee !in s.db.users {
      return Fail(404, Msg("Reviewee not found"));
    }
    if reviewer !in s.db.users {
      // no stored rating names a missing reviewer, so this is the create,
      // whose reviewer foreign key fails
      return Fail(500, INTERNAL_ERROR);
    }
    var score := rating.value.Floor;
    ghost var before := s.db;
    if HasRated(s.db.ratings, reviewer, reviewee) {
      var q :| q in s.db.ratings && s.db.ratings[q].reviewerId == reviewer && s.db.ratings[q].revieweeId == reviewee;
      assert q == PairRating(s.db.ratings, reviewer, reviewee);
      var updated := Rating(reviewer, reviewee, score, Written(comment, s.db.ratings[q].comment));
      s.db := s.db.PutRating(q, updated);
      assert s.db == Upserted(before, reviewer, reviewee, score, comment);
      UpdateAverageRating(s, reviewee);
      r := Ok(200, updated);
    } else {
      var created := Rating(reviewer, reviewee, score, Written(comment, None));
      s.db := s.db.InsertRating(created);
      assert s.db == Upserted(before, reviewer, reviewee, score, comment);
      UpdateAverageRating(s, reviewee);
      r := Ok(201, created);
    }
  }

  /** After a (re-)rating, the reviewee's count of ratings grew by one
      exactly when the pair had none. */
  lemma RatingCounted(ratings: map<Id, Rating>, n: Id, reviewer: Id, reviewee: Id, score: int, comment: CommentField)
    requires OneRatingPerPair(ratings) && KeysBelow(ratings, n)
    ensures var t := UpsertedRatings(ratings, n, reviewer, reviewee, score, comment);
      |Received(t, reviewee, n + 1)| == |Received(ratings, reviewee, n)| + (if HasRated(ratings, reviewer, reviewee) then 0 else 1)
  {
    var t := UpsertedRatings(ratings, n, reviewer, reviewee, score, comment);
    UpsertedRows(ratings, n, reviewer, reviewee, score, comment);
    var keep := ReceivedBy(reviewee);
    forall i | 0 <= i < n
      ensures (i in ratings && keep(ratings[i])) <==> (i in t && keep(t[i]))
    {
    }
    NewestFirstFrame(ratings, keep, t, keep, n);
    assert NewestFirst(t, keep, n + 1) == (if n in t && keep(t[n]) then [n] else []) + NewestFirst(t, keep, n);
  }

  /** The body `getRatingsForUser` sends. */
  datatype RatingsView = RatingsView(ratings: seq<Id>, averageRating: real, totalRatings: int)

  /** `GET /ratings/user/:userId`: the ratings a user has received, newest
      first, with their rounded average and count. Under the stored-average
      invariant the average shown is the one stored in the user's profile. */
  function GetRatingsForUser(db: Tables, u: Id): (r: Reply<RatingsView>)
    requires db.Valid()
    ensures r.Ok? && r.code == 200
    ensures Descending(r.value.ratings) && r.value.totalRatings == |r.value.ratings|
    ensures forall q :: q in r.value.ratings <==> q in db.ratings && db.ratings[q].revieweeId == u
    ensures r.value.averageRating == Average(db.ratings, u, Bound(db.ratings))
    ensures db.AveragesHold() && u in db.workerProfiles ==> r.value.averageRating == db.workerProfiles[u].averageRating
    ensures db.AveragesHold() && u in db.farmerProfiles ==> r.value.averageRating == db.farmerProfiles[u].averageRating
    ensures r.value.ratings == [] ==> r.value.averageRating == 0.0
    ensures r.value.ratings != [] ==> 1.0 <= r.value.averageRating <= 5.0
  {
    var ids := Received(db.ratings, u, db.nextId);
    NewestFirstExact(db.ratings, ReceivedBy(u), db.nextId);
    NewestFirstDescending(db.ratings, ReceivedBy(u), db.nextId);
    AverageRange(db.ratings, u, db.nextId);
    Ok(200, RatingsView(ids, AverageNow(db, u), |ids|))
  }

  /** `DELETE /ratings/:id`: the reviewer deletes their rating, and the
      reviewee's stored average is refreshed. */
  method DeleteRating(s: Store, caller: Option<Caller>, id: Id) returns (r: Reply<()>)
    requires s.db.Valid()
    modifies s
    ensures s.db.Valid()
    ensures old(s.db.CapacityHolds()) ==> s.db.CapacityHolds()
    ensures old(s.db.AveragesHold()) ==> s.db.AveragesHold()
    ensures caller.None? ==> r == Fail(401, UNAUTHORIZED)
    ensures caller.Some? && id !in old(s.db.ratings) ==> r == Fail(404, Msg("Rating not found"))
    ensures caller.Some? && id in old(s.db.ratings) && old(s.db.ratings)[id].reviewerId != caller.value.userId ==>
      r == Fail(403, Msg("You can only delete your own ratings"))
    ensures r.Ok? <==> caller.Some? && id in old(s.db.ratings) && old(s.db.ratings)[id].reviewerId == caller.value.userId
    ensures r.Fail? ==> unchanged(s)
    ensures r.Ok? ==>
      r == Ok(200, ()) && s.db == Refreshed(old(s.db).DeleteRating(id), old(s.db.ratings)[id].revieweeId)
  {
    if caller.None? {
      return Fail(401, UNAUTHORIZED);
    }
    if id !in s.db.ratings {
      return Fail(404, Msg("Rating not found"));
    }
    var rating := s.db.ratings[id];
    if rating.reviewerId != caller.value.userId {
      return Fail(403, Msg("You can only delete your own ratings"));
    }
    s.db := s.db.DeleteRating(id);
    UpdateAverageRating(s, rating.revieweeId);
    r := Ok(200, ());
  }
}
