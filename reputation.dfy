/** The reputation arithmetic of the rating controller: a user's average
    rating is the sum of the scores received divided by their number (0 when
    there are none), rounded to two decimals. The same formula serves the
    stored profile aggregate and the value computed when ratings are listed. */
module Reputation {
  import opened Common
  import opened Schema
  import opened Queries

  /** The running sum of `reduce((sum, r) => sum + r.rating, 0)`, folded from
      the left. */
  function Sum(vs: seq<int>): int
  {
    if vs == [] then 0 else Sum(vs[..|vs| - 1]) + vs[|vs| - 1]
  }

  /** The arithmetic mean, 0 for no scores. */
  function Mean(vs: seq<int>): real
  {
    if |vs| > 0 then Sum(vs) as real / |vs| as real else 0.0
  }

  /** `parseFloat(x.toFixed(2))`, taken as rounding half up to hundredths.
      (The binary floating-point representation that `toFixed` works on is
      not modelled.) */
  function Round2(x: real): real
  {
    (x * 100.0 + 0.5).Floor as real / 100.0
  }

  /** The `where: { revieweeId: u }` condition. */
  function ReceivedBy(u: Id): Rating -> bool
  {
    (x: Rating) => x.revieweeId == u
  }

  /** The ids of the ratings `u` has received, newest first. */
  function Received(ratings: map<Id, Rating>, u: Id, n: nat): (r: seq<Id>)
    ensures forall k :: 0 <= k < |r| ==> r[k] in ratings && ratings[r[k]].revieweeId == u
  {
    NewestFirst(ratings, ReceivedBy(u), n)
  }

  /** The scores held by the listed ratings, in the same order. */
  function Scores(ratings: map<Id, Rating>, ids: seq<Id>): (vs: seq<int>)
    requires forall k :: 0 <= k < |ids| ==> ids[k] in ratings
    ensures |vs| == |ids|
    ensures forall k :: 0 <= k < |ids| ==> vs[k] == ratings[ids[k]].rating
  {
    seq(|ids|, k requires 0 <= k < |ids| => ratings[ids[k]].rating)
  }

  /** The average rating of `u` as `updateAverageRating` computes it from the
      ratings table. */
  function Average(ratings: map<Id, Rating>, u: Id, n: nat): real
  {
    Round2(Mean(Scores(ratings, Received(ratings, u, n))))
  }

  /** Scores between 1 and 5 sum to between |vs| and 5 |vs|. */
  lemma {:induction false} SumBounds(vs: seq<int>)
    requires forall k :: 0 <= k < |vs| ==> 1 <= vs[k] <= 5
    ensures |vs| <= Sum(vs) <= 5 * |vs|
  {
    if vs != [] {
      SumBounds(vs[..|vs| - 1]);
    }
  }

  /** The mean of scores between 1 and 5 lies between 1 and 5. */
  lemma MeanBounds(vs: seq<int>)
    requires |vs| > 0
    requires forall k :: 0 <= k < |vs| ==> 1 <= vs[k] <= 5
    ensures 1.0 <= Mean(vs) <= 5.0
  {
    SumBounds(vs);
    QuotientBounds(Sum(vs) as real, |vs| as real, 1.0, 5.0);
  }

  lemma QuotientBounds(a: real, n: real, lo: real, hi: real)
    requires n > 0.0
    requires lo * n <= a <= hi * n
    ensures lo <= a / n <= hi
  {
    var q := a / n;
    assert (q - lo) * n == a - lo * n;
    assert (hi - q) * n == hi * n - a;
  }

  /** Rounding to hundredths moves a value by at most half a hundredth. */
  lemma Round2Near(x: real)
    ensures x - 0.005 < Round2(x) <= x + 0.005
  {
    var f := (x * 100.0 + 0.5).Floor;
    assert f as real <= x * 100.0 + 0.5 < f as real + 1.0;
  }

  /** A value that already has at most two decimals is left as it is. */
  lemma Round2Hundredths(k: int)
    ensures Round2(k as real / 100.0) == k as real / 100.0
  {
    var x := k as real / 100.0;
    assert x * 100.0 + 0.5 == k as real + 0.5;
    assert (k as real + 0.5).Floor == k;
  }

  /** Rounding is monotone. */
  lemma Round2Monotone(x: real, y: real)
    requires x <= y
    ensures Round2(x) <= Round2(y)
  {
    assert (x * 100.0 + 0.5).Floor <= (y * 100.0 + 0.5).Floor;
  }

  /** A stored average is 0 for a user nobody has rated, and otherwise lies
      between 1 and 5 when every score does. */
  lemma AverageRange(ratings: map<Id, Rating>, u: Id, n: nat)
    requires forall i :: i in ratings ==> 1 <= ratings[i].rating <= 5
    ensures |Received(ratings, u, n)| == 0 ==> Average(ratings, u, n) == 0.0
    ensures |Received(ratings, u, n)| > 0 ==> 1.0 <= Average(ratings, u, n) <= 5.0
  {
    var vs := Scores(ratings, Received(ratings, u, n));
    if |vs| == 0 {
      Round2Hundredths(0);
    } else {
      MeanBounds(vs);
      Round2Monotone(1.0, Mean(vs));
      Round2Monotone(Mean(vs), 5.0);
      Round2Hundredths(100);
      Round2Hundredths(500);
    }
  }
}
