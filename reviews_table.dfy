/** The reviews table (src/components/dashboard/reviews/reviews-table.tsx): the
    five-star rating cell. The range line under the table is `Paging.Showing`
    over the length of the whole review list. */
module ReviewsTable {
  import opened Records
  import opened Paging

  /** The star numbers rendered by `[1, 2, 3, 4, 5].map(...)`. */
  const StarNumbers: seq<int> := [1, 2, 3, 4, 5]

  /** For each rendered star, whether it is filled: `star <= rating`. */
  function Stars(rating: real): (s: seq<bool>)
    ensures |s| == |StarNumbers| == 5
  {
    seq(|StarNumbers|, k requires 0 <= k < |StarNumbers| => StarNumbers[k] as real <= rating)
  }

  function CountFilled(s: seq<bool>): nat {
    if s == [] then 0 else (if s[0] then 1 else 0) + CountFilled(s[1..])
  }

  function Clamp(x: int, lo: int, hi: int): int {
    if x < lo then lo else if x > hi then hi else x
  }

  lemma {:induction false} CountFilledPrefix(s: seq<bool>, n: nat)
    requires n <= |s|
    requires forall k :: 0 <= k < |s| ==> (s[k] <==> k < n)
    ensures CountFilled(s) == n
  {
    if s != [] {
      var t := s[1..];
      var m: nat := if n > 0 then n - 1 else 0;
      forall k | 0 <= k < |t| ensures t[k] <==> k < m {
        assert t[k] == s[k + 1];
      }
      CountFilledPrefix(t, m);
    }
  }

  /** A rating fills the stars up to its whole part, clamped to 0..5; the filled
      stars always come first. */
  lemma FilledStars(rating: real)
    ensures CountFilled(Stars(rating)) == Clamp(rating.Floor, 0, 5)
    ensures forall j, k :: 0 <= j < k < 5 && Stars(rating)[k] ==> Stars(rating)[j]
  {
    var s := Stars(rating);
    var n := Clamp(rating.Floor, 0, 5);
    forall k | 0 <= k < 5 ensures s[k] <==> k < n {
      assert s[k] == ((k + 1) as real <= rating);
    }
    CountFilledPrefix(s, n);
  }

  /** An integer rating r fills max(0, min(r, 5)) stars, and star k (1..5) is
      filled exactly when k <= r. */
  lemma IntegerRating(r: int)
    ensures CountFilled(Stars(r as real)) == Clamp(r, 0, 5)
    ensures forall k :: 0 <= k < 5 ==> (Stars(r as real)[k] <==> StarNumbers[k] <= r)
  {
    FilledStars(r as real);
  }

  /** Before any page change the line covers the first five reviews. */
  lemma InitialReviewsLine(reviews: seq<Review>)
    ensures Showing(InitialPageIndex, InitialPageSize, |reviews|) == Shown(1, Min(5, |reviews|), |reviews|)
  {
  }
}
