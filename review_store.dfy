/** The in-memory review list of src/lib/hooks/use-reviews.ts: a list of reviews
    with `loading` and `error` flags, a status update and a delete. */
module ReviewStore {
  import opened Wrappers
  import opened Records
  import Lists
  import RewardStore

  type Call = RewardStore.Call

  const FetchFailed: string := "Failed to fetch reviews"
  const UpdateStatusFailed: string := "Failed to update review status"
  const DeleteFailed: string := "Failed to delete review"

  /** `prev.map(review => review.id === id ? { ...review, status } : review)`. */
  function WithStatus(rs: seq<Review>, id: string, status: ReviewStatus): (r: seq<Review>)
    ensures |r| == |rs|
    ensures forall i :: 0 <= i < |rs| && rs[i].id == id ==> r[i] == rs[i].(status := status)
    ensures forall i :: 0 <= i < |rs| && rs[i].id != id ==> r[i] == rs[i]
    ensures (forall i :: 0 <= i < |rs| ==> rs[i].id != id) ==> r == rs
  {
    Lists.MapWhere(rs, (x: Review) => x.id == id, (x: Review) => x.(status := status))
  }

  /** `prev.filter(review => review.id !== id)`. */
  function WithoutReview(rs: seq<Review>, id: string): (r: seq<Review>)
    ensures forall i :: 0 <= i < |r| ==> r[i].id != id
    ensures forall x :: multiset(r)[x] == if x.id == id then 0 else multiset(rs)[x]
    ensures Lists.Subsequence(r, rs)
    ensures (forall i :: 0 <= i < |rs| ==> rs[i].id != id) ==> r == rs
  {
    var keep := (x: Review) => x.id != id;
    Lists.FilterSpec(rs, keep);
    var r := Lists.Filter(rs, keep);
    assert forall i :: 0 <= i < |r| ==> r[i] in r;
    r
  }

  /** After a status update, every review with the id has the new status and every
      other field of every review is as before. */
  lemma WithStatusOnlyTouchesStatus(rs: seq<Review>, id: string, status: ReviewStatus, i: nat)
    requires i < |rs|
    ensures rs[i].id == id ==> WithStatus(rs, id, status)[i].status == status
    ensures WithStatus(rs, id, status)[i].(status := rs[i].status) == rs[i]
  {
  }

  /** Setting the same status twice is the same as setting it once. */
  lemma WithStatusIdempotent(rs: seq<Review>, id: string, status: ReviewStatus)
    ensures WithStatus(WithStatus(rs, id, status), id, status) == WithStatus(rs, id, status)
  {
  }

  /** The number of reviews with the id. */
  function CountWithId(rs: seq<Review>, id: string): nat {
    if rs == [] then 0 else (if rs[0].id == id then 1 else 0) + CountWithId(rs[1..], id)
  }

  /** The delete removes exactly the reviews with the id: the list shrinks by their number. */
  lemma WithoutReviewLength(rs: seq<Review>, id: string)
    ensures |WithoutReview(rs, id)| == |rs| - CountWithId(rs, id)
  {
    FilterLength(rs, id, (x: Review) => x.id != id);
  }

  lemma {:induction false} FilterLength(rs: seq<Review>, id: string, keep: Review -> bool)
    requires forall x :: keep(x) <==> x.id != id
    ensures |Lists.Filter(rs, keep)| == |rs| - CountWithId(rs, id)
  {
    if rs != [] { FilterLength(rs[1..], id, keep); }
  }

  /** The state returned by `useReviews()`. */
  class Store {
    var reviews: seq<Review>
    var loading: bool
    var error: Option<string>

    constructor ()
      ensures reviews == [] && loading && error == None
    {
      reviews, loading, error := [], true, None;
    }

    /** The mount effect: show the mock reviews once the simulated fetch resolves. */
    method Load(mockReviews: seq<Review>, call: Call)
      modifies this
      ensures !loading
      ensures call.Resolves? ==> reviews == mockReviews && error == old(error)
      ensures call.Rejects? ==> reviews == old(reviews) && error == Some(FetchFailed)
    {
      loading := true;
      if call.Resolves? {
        reviews := mockReviews;
      } else {
        error := Some(FetchFailed);
      }
      loading := false;
    }

    /** `updateReviewStatus`: set the status of the reviews with the id, or record the error and rethrow. */
    method UpdateReviewStatus(id: string, status: ReviewStatus, call: Call)
      returns (result: Result<(), string>)
      modifies this
      ensures !loading
      ensures call.Resolves? ==>
        result == Success(()) && reviews == WithStatus(old(reviews), id, status) && error == old(error)
      ensures call.Rejects? ==>
        result == Failure(call.reason) && reviews == old(reviews) && error == Some(UpdateStatusFailed)
    {
      loading := true;
      if call.Resolves? {
        reviews := WithStatus(reviews, id, status);
        result := Success(());
      } else {
        error := Some(UpdateStatusFailed);
        result := Failure(call.reason);
      }
      loading := false;
    }

    /** `deleteReview`: drop the reviews with the id, or record the error and rethrow. */
    method DeleteReview(id: string, call: Call) returns (result: Result<(), string>)
      modifies this
      ensures !loading
      ensures call.Resolves? ==>
        result == Success(()) && reviews == WithoutReview(old(reviews), id) && error == old(error)
      ensures call.Rejects? ==>
        result == Failure(call.reason) && reviews == old(reviews) && error == Some(DeleteFailed)
    {
      loading := true;
      if call.Resolves? {
        reviews := WithoutReview(reviews, id);
        result := Success(());
      } else {
        error := Some(DeleteFailed);
        result := Failure(call.reason);
      }
      loading := false;
    }
  }
}
