/** The in-memory reward list of src/lib/hooks/use-reward.ts: a list of rewards
    with `loading` and `error` flags, and create / update / delete operations.
    The simulated API call behind each operation is a parameter saying whether
    it resolved or rejected; ids and timestamps are supplied by the caller. */
module RewardStore {
  import opened Wrappers
  import opened Records
  import Lists

  /** What the awaited call inside an operation did. */
  datatype Call = Resolves | Rejects(reason: string)

  /** A reward without the fields the store fills in (`Omit<Reward, "id" | "createdAt" | "updatedAt">`). */
  datatype RewardInput = RewardInput(
    rewardName: string,
    description: string,
    couponCode: string,
    expiry: int,
    date: string,
    stock: int,
    maxStock: int,
    requireReview: bool)

  /** `Partial<Reward>`: every field optional. `updatedAt` is left out because
      the update always overwrites it. */
  datatype RewardPatch = RewardPatch(
    id: Option<string>,
    rewardName: Option<string>,
    description: Option<string>,
    couponCode: Option<string>,
    expiry: Option<int>,
    date: Option<string>,
    stock: Option<int>,
    maxStock: Option<int>,
    requireReview: Option<bool>,
    createdAt: Option<Timestamp>)

  const NoChanges: RewardPatch :=
    RewardPatch(None, None, None, None, None, None, None, None, None, None)

  const FetchFailed: string := "Failed to fetch rewards"
  const CreateFailed: string := "Failed to create reward"
  const UpdateFailed: string := "Failed to update reward"
  const DeleteFailed: string := "Failed to delete reward"

  /** The caller-supplied part of a reward. */
  function InputOf(r: Reward): RewardInput {
    RewardInput(r.rewardName, r.description, r.couponCode, r.expiry, r.date,
                r.stock, r.maxStock, r.requireReview)
  }

  /** `{ ...rewardData, id, createdAt: now, updatedAt: now }`. */
  function NewReward(input: RewardInput, id: string, now: Timestamp): (r: Reward)
    ensures InputOf(r) == input
    ensures r.id == id && r.createdAt == now && r.updatedAt == now
  {
    Reward(id, input.rewardName, input.description, input.couponCode, input.expiry,
           input.date, input.stock, input.maxStock, input.requireReview, now, now)
  }

  /** `{ ...reward, ...rewardData, updatedAt: now }`. */
  function Patched(r: Reward, p: RewardPatch, now: Timestamp): (u: Reward)
    ensures u.updatedAt == now
    ensures p == NoChanges ==> u == r.(updatedAt := now)
  {
    Reward(p.id.GetOr(r.id), p.rewardName.GetOr(r.rewardName),
           p.description.GetOr(r.description), p.couponCode.GetOr(r.couponCode),
           p.expiry.GetOr(r.expiry), p.date.GetOr(r.date), p.stock.GetOr(r.stock),
           p.maxStock.GetOr(r.maxStock), p.requireReview.GetOr(r.requireReview),
           p.createdAt.GetOr(r.createdAt), now)
  }

  /** A supplied field wins, an absent one keeps its old value, and `updatedAt` is refreshed. */
  lemma PatchedFields(r: Reward, p: RewardPatch, now: Timestamp)
    ensures Patched(r, p, now).updatedAt == now
    ensures Patched(r, NoChanges, now) == r.(updatedAt := now)
    ensures p.id.Some? ==> Patched(r, p, now).id == p.id.value
    ensures p.id.None? ==> Patched(r, p, now).id == r.id
    ensures p.rewardName.Some? ==> Patched(r, p, now).rewardName == p.rewardName.value
    ensures p.rewardName.None? ==> Patched(r, p, now).rewardName == r.rewardName
    ensures p.description.Some? ==> Patched(r, p, now).description == p.description.value
    ensures p.description.None? ==> Patched(r, p, now).description == r.description
    ensures p.couponCode.Some? ==> Patched(r, p, now).couponCode == p.couponCode.value
    ensures p.couponCode.None? ==> Patched(r, p, now).couponCode == r.couponCode
    ensures p.expiry.Some? ==> Patched(r, p, now).expiry == p.expiry.value
    ensures p.expiry.None? ==> Patched(r, p, now).expiry == r.expiry
    ensures p.date.Some? ==> Patched(r, p, now).date == p.date.value
    ensures p.date.None? ==> Patched(r, p, now).date == r.date
    ensures p.stock.Some? ==> Patched(r, p, now).stock == p.stock.value
    ensures p.stock.None? ==> Patched(r, p, now).stock == r.stock
    ensures p.maxStock.Some? ==> Patched(r, p, now).maxStock == p.maxStock.value
    ensures p.maxStock.None? ==> Patched(r, p, now).maxStock == r.maxStock
    ensures p.requireReview.Some? ==> Patched(r, p, now).requireReview == p.requireReview.value
    ensures p.requireReview.None? ==> Patched(r, p, now).requireReview == r.requireReview
    ensures p.createdAt.Some? ==> Patched(r, p, now).createdAt == p.createdAt.value
    ensures p.createdAt.None? ==> Patched(r, p, now).createdAt == r.createdAt
  {
  }

  /** Applying the same patch twice at the same moment changes nothing more. */
  lemma PatchedIdempotent(r: Reward, p: RewardPatch, now: Timestamp)
    ensures Patched(Patched(r, p, now), p, now) == Patched(r, p, now)
  {
  }

  /** `prev.map(reward => reward.id === id ? {...reward, ...rewardData, updatedAt} : reward)`. */
  function UpdatedList(rs: seq<Reward>, id: string, p: RewardPatch, now: Timestamp): (r: seq<Reward>)
    ensures |r| == |rs|
    ensures forall i :: 0 <= i < |rs| ==>
      r[i] == if rs[i].id == id then Patched(rs[i], p, now) else rs[i]
    ensures (forall i :: 0 <= i < |rs| ==> rs[i].id != id) ==> r == rs
  {
    Lists.MapWhere(rs, (x: Reward) => x.id == id, (x: Reward) => Patched(x, p, now))
  }

  /** `prev.filter(reward => reward.id !== id)`. */
  function WithoutReward(rs: seq<Reward>, id: string): (r: seq<Reward>)
    ensures forall i :: 0 <= i < |r| ==> r[i].id != id
    ensures forall x :: multiset(r)[x] == if x.id == id then 0 else multiset(rs)[x]
    ensures Lists.Subsequence(r, rs)
    ensures (forall i :: 0 <= i < |rs| ==> rs[i].id != id) ==> r == rs
  {
    var keep := (x: Reward) => x.id != id;
    Lists.FilterSpec(rs, keep);
    var r := Lists.Filter(rs, keep);
    assert forall i :: 0 <= i < |r| ==> r[i] in r;
    r
  }

  /** Creating with an id not yet in the list keeps ids unique. */
  lemma CreateKeepsIdsUnique(rs: seq<Reward>, input: RewardInput, id: string, now: Timestamp)
    requires UniqueRewardIds(rs)
    requires forall i :: 0 <= i < |rs| ==> rs[i].id != id
    ensures UniqueRewardIds(rs + [NewReward(input, id, now)])
  {
  }

  /** An update whose patch does not carry an id keeps ids unique. */
  lemma UpdateKeepsIdsUnique(rs: seq<Reward>, id: string, p: RewardPatch, now: Timestamp)
    requires UniqueRewardIds(rs) && p.id.None?
    ensures UniqueRewardIds(UpdatedList(rs, id, p, now))
  {
  }

  /** Deleting keeps ids unique. */
  lemma DeleteKeepsIdsUnique(rs: seq<Reward>, id: string)
    requires UniqueRewardIds(rs)
    ensures UniqueRewardIds(WithoutReward(rs, id))
  {
    FilterKeepsIdsUnique(rs, (x: Reward) => x.id != id);
  }

  lemma {:induction false} FilterKeepsIdsUnique(rs: seq<Reward>, keep: Reward -> bool)
    requires UniqueRewardIds(rs)
    ensures UniqueRewardIds(Lists.Filter(rs, keep))
  {
    if rs != [] {
      var tail := Lists.Filter(rs[1..], keep);
      FilterKeepsIdsUnique(rs[1..], keep);
      if keep(rs[0]) {
        var r := Lists.Filter(rs, keep);
        assert r == [rs[0]] + tail;
        forall i, j | 0 <= i < j < |r| ensures r[i].id != r[j].id {
          assert r[j] == tail[j - 1];
          if i == 0 {
            assert tail[j - 1] in rs[1..];
            var k :| 0 <= k < |rs[1..]| && rs[1..][k] == tail[j - 1];
            assert rs[k + 1] == r[j];
          } else {
            assert r[i] == tail[i - 1];
          }
        }
      }
    }
  }

  /** The state returned by `useRewards()`. */
  class Store {
    var rewards: seq<Reward>
    var loading: bool
    var error: Option<string>

    /** Initial hook state: nothing loaded yet, loading. */
    constructor ()
      ensures rewards == [] && loading && error == None
    {
      rewards, loading, error := [], true, None;
    }

    /** The mount effect: show the mock rewards once the simulated fetch resolves. */
    method Load(mockRewards: seq<Reward>, call: Call)
      modifies this
      ensures !loading
      ensures call.Resolves? ==> rewards == mockRewards && error == old(error)
      ensures call.Rejects? ==> rewards == old(rewards) && error == Some(FetchFailed)
    {
      loading := true;
      if call.Resolves? {
        rewards := mockRewards;
      } else {
        error := Some(FetchFailed);
      }
      loading := false;
    }

    /** `createReward`: append one new reward and return it, or record the error and rethrow. */
    method CreateReward(input: RewardInput, id: string, now: Timestamp, call: Call)
      returns (result: Result<Reward, string>)
      modifies this
      ensures !loading
      ensures call.Resolves? ==>
        && result == Success(NewReward(input, id, now))
        && rewards == old(rewards) + [NewReward(input, id, now)]
        && error == old(error)
      ensures call.Rejects? ==>
        result == Failure(call.reason) && rewards == old(rewards) && error == Some(CreateFailed)
    {
      loading := true;
      if call.Resolves? {
        var created := NewReward(input, id, now);
        rewards := rewards + [created];
        result := Success(created);
      } else {
        error := Some(CreateFailed);
        result := Failure(call.reason);
      }
      loading := false;
    }

    /** `updateReward`: patch every reward with the id, or record the error and rethrow. */
    method UpdateReward(id: string, patch: RewardPatch, now: Timestamp, call: Call)
      returns (result: Result<(), string>)
      modifies this
      ensures !loading
      ensures call.Resolves? ==>
        result == Success(()) && rewards == UpdatedList(old(rewards), id, patch, now) && error == old(error)
      ensures call.Rejects? ==>
        result == Failure(call.reason) && rewards == old(rewards) && error == Some(UpdateFailed)
    {
      loading := true;
      if call.Resolves? {
        rewards := UpdatedList(rewards, id, patch, now);
        result := Success(());
      } else {
        error := Some(UpdateFailed);
        result := Failure(call.reason);
      }
      loading := false;
    }

    /** `deleteReward`: drop every reward with the id, or record the error and rethrow. */
    method DeleteReward(id: string, call: Call) returns (result: Result<(), string>)
      modifies this
      ensures !loading
      ensures call.Resolves? ==>
        result == Success(()) && rewards == WithoutReward(old(rewards), id) && error == old(error)
      ensures call.Rejects? ==>
        result == Failure(call.reason) && rewards == old(rewards) && error == Some(DeleteFailed)
    {
      loading := true;
      if call.Resolves? {
        rewards := WithoutReward(rewards, id);
        result := Success(());
      } else {
        error := Some(DeleteFailed);
        result := Failure(call.reason);
      }
      loading := false;
    }
  }
}
