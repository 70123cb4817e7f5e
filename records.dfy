/** The record shapes of src/types/types.ts and src/types/reward.ts, as far as the
    modelled components read or write them. */
module Records {
  import opened Wrappers

  /** A JavaScript `Date`; the model never looks inside one, so any totally
      ordered value will do. */
  type Timestamp = int

  /** A configured prize. `expiry` is a number of days here: the reward form
      produces a number, although the interface declares a string. */
  datatype Reward = Reward(
    id: string,
    rewardName: string,
    description: string,
    couponCode: string,
    expiry: int,
    date: string,
    stock: int,
    maxStock: int,
    requireReview: bool,
    createdAt: Timestamp,
    updatedAt: Timestamp)

  datatype ReviewStatus = ReviewPending | Approved | Rejected

  /** A customer review. The rating is a JavaScript number, so it may be fractional. */
  datatype Review = Review(
    id: string,
    userName: string,
    userEmail: string,
    contactNumber: string,
    comment: string,
    rating: real,
    date: string,
    rewardId: Option<string>,
    status: ReviewStatus,
    createdAt: Timestamp)

  datatype SpinStatus = Pending | Claimed | Expired

  /** The prize a spin landed on. */
  datatype SpinResult = SpinResult(rewardName: string, description: string, couponCode: string)

  /** A spin as the claim page receives it. */
  datatype Spin = Spin(
    id: string,
    spinResult: SpinResult,
    uniqueCode: string,
    status: SpinStatus,
    createdAt: string,
    expiryDays: int)

  /** No two records of a list share an id. */
  predicate UniqueRewardIds(rs: seq<Reward>) {
    forall i, j :: 0 <= i < j < |rs| ==> rs[i].id != rs[j].id
  }
}
