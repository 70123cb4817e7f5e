/** The rewards page (src/components/dashboard/rewards/rewards-content.tsx): a
    dialog that is either closed, open on a new reward, or open on the reward
    being edited, and a submit handler that sends the form's data to the reward
    store as a create or an update. */
module RewardsContent {
  import opened Wrappers
  import opened Text
  import opened Records
  import RewardStore
  import RewardForm

  /** What `handleFormSubmit` asks the store to do. */
  datatype SaveRequest =
    | UpdateRequest(id: string, patch: RewardStore.RewardPatch)
    | CreateRequest(input: RewardStore.RewardInput)

  /** The form data spread over a stored reward (`{ ...reward, ...data }`). The
      form's `stockLimit` has no counterpart among a reward's fields, so neither
      `stock` nor `maxStock` is touched. */
  function EditPatch(data: RewardForm.RewardFormData): (p: RewardStore.RewardPatch)
    ensures p.id.None? && p.createdAt.None? && p.date.None?
    ensures p.stock.None? && p.maxStock.None?
    ensures p.rewardName == Some(data.rewardName) && p.couponCode == Some(data.couponCode)
    ensures p.description == Some(data.description) && p.expiry == Some(data.expiry)
    ensures p.requireReview == Some(data.requireReview)
  {
    RewardStore.RewardPatch(
      None, Some(data.rewardName), Some(data.description), Some(data.couponCode),
      Some(data.expiry), None, None, None, Some(data.requireReview), None)
  }

  /** `{ ...data, stock: parseInt(data.stockLimit), maxStock: parseInt(data.stockLimit), date }`:
      a new reward starts with its whole stock left. */
  function CreateInput(data: RewardForm.RewardFormData, today: string): (input: RewardStore.RewardInput)
    ensures input.stock == input.maxStock == data.stockLimit
    ensures input.date == today
    ensures input.rewardName == data.rewardName && input.couponCode == data.couponCode
    ensures input.description == data.description && input.expiry == data.expiry
    ensures input.requireReview == data.requireReview
  {
    RewardStore.RewardInput(data.rewardName, data.description, data.couponCode, data.expiry,
                            today, data.stockLimit, data.stockLimit, data.requireReview)
  }

  /** The branch of `handleFormSubmit`: an update of the reward being edited, or a create. */
  function SaveRequestFor(editing: Option<Reward>, data: RewardForm.RewardFormData, today: string): (q: SaveRequest)
    ensures q.UpdateRequest? <==> editing.Some?
    ensures editing.Some? ==> q == UpdateRequest(editing.value.id, EditPatch(data))
    ensures editing.None? ==> q == CreateRequest(CreateInput(data, today))
  {
    match editing
    case Some(r) => UpdateRequest(r.id, EditPatch(data))
    case None => CreateRequest(CreateInput(data, today))
  }

  /** The list a successful save leaves in the store. */
  function Saved(rs: seq<Reward>, q: SaveRequest, newId: string, now: Timestamp): seq<Reward> {
    match q
    case UpdateRequest(id, patch) => RewardStore.UpdatedList(rs, id, patch, now)
    case CreateRequest(input) => rs + [RewardStore.NewReward(input, newId, now)]
  }

  /** The form's initial data: the edited reward's fields, with `stockLimit`
      taken from `maxStock`; nothing when creating. */
  function InitialDataFor(editing: Option<Reward>): (init: Option<RewardForm.InitialData>)
    ensures init.Some? <==> editing.Some?
    ensures editing.Some? ==>
      init.value == RewardForm.InitialData(
        Some(editing.value.rewardName), Some(editing.value.maxStock),
        Some(editing.value.couponCode), Some(editing.value.expiry),
        Some(editing.value.description), Some(editing.value.requireReview))
  {
    match editing
    case Some(r) =>
      Some(RewardForm.InitialData(Some(r.rewardName), Some(r.maxStock), Some(r.couponCode),
                                  Some(r.expiry), Some(r.description), Some(r.requireReview)))
    case None => None
  }

  /** The dialog passes `maxStock.toString()` and the schema coerces it back with
      `Number(...)`: the value the form starts from is `maxStock` itself. */
  lemma StockLimitTextRoundTrip(r: Reward)
    ensures ParseInt(IntToString(r.maxStock)) == InitialDataFor(Some(r)).value.stockLimit
  {
    ParseIntOfIntToString(r.maxStock);
  }

  /** The dialog title. */
  function DialogTitle(editing: Option<Reward>): (t: string)
    ensures t == RewardForm.EditTitle <==> editing.Some?
  {
    if editing.Some? then RewardForm.EditTitle else RewardForm.CreateTitle
  }

  /** The dialog's title and the form's own title always agree. */
  lemma TitlesAgree(editing: Option<Reward>)
    ensures DialogTitle(editing) == RewardForm.Title(InitialDataFor(editing))
  {
  }

  /** A reward whose stored fields all pass the schema. */
  predicate Editable(r: Reward) {
    |r.rewardName| >= 1 && r.maxStock >= 1 && |r.couponCode| >= 1 &&
    r.expiry >= 1 && |r.description| >= 1
  }

  /** Opening a reward for editing and saving the form untouched parses, and the
      update it sends changes nothing but `updatedAt`. */
  lemma UntouchedEditOnlyRefreshesTimestamp(r: Reward, today: string, now: Timestamp)
    requires Editable(r)
    ensures RewardForm.Parse(RewardForm.Defaults(InitialDataFor(Some(r)))).Success?
    ensures
      var data := RewardForm.Parse(RewardForm.Defaults(InitialDataFor(Some(r)))).value;
      var q := SaveRequestFor(Some(r), data, today);
      RewardStore.Patched(r, q.patch, now) == r.(updatedAt := now)
  {
  }

  /** Saving an edit never changes the stock of the edited reward, whatever
      stock limit the form holds. */
  lemma EditKeepsStock(rs: seq<Reward>, r: Reward, data: RewardForm.RewardFormData,
                       today: string, newId: string, now: Timestamp, i: nat)
    requires i < |rs|
    ensures |Saved(rs, SaveRequestFor(Some(r), data, today), newId, now)| == |rs|
    ensures Saved(rs, SaveRequestFor(Some(r), data, today), newId, now)[i].stock == rs[i].stock
    ensures Saved(rs, SaveRequestFor(Some(r), data, today), newId, now)[i].maxStock == rs[i].maxStock
    ensures rs[i].id == r.id ==>
      Saved(rs, SaveRequestFor(Some(r), data, today), newId, now)[i].rewardName == data.rewardName
  {
  }

  /** A created reward from validated form data has a full stock of at least one. */
  lemma CreatedRewardHasFullStock(rs: seq<Reward>, data: RewardForm.RewardFormData,
                                  today: string, newId: string, now: Timestamp)
    requires data.stockLimit >= 1
    ensures
      var after := Saved(rs, SaveRequestFor(None, data, today), newId, now);
      |after| == |rs| + 1 && after[..|rs|] == rs &&
      after[|rs|].stock == after[|rs|].maxStock == data.stockLimit >= 1 &&
      after[|rs|].id == newId && after[|rs|].date == today
  {
  }

  /** The page's dialog state, over the reward store it renders. */
  class Content {
    var isFormOpen: bool
    var editingReward: Option<Reward>
    const store: RewardStore.Store

    /** The dialog starts closed, with nothing being edited. */
    constructor ()
      ensures !isFormOpen && editingReward == None && fresh(store)
      ensures store.rewards == [] && store.loading && store.error == None
    {
      isFormOpen, editingReward := false, None;
      store := new RewardStore.Store();
    }

    /** The dialog's title while it is shown. */
    function Title(): string
      reads this
    {
      DialogTitle(editingReward)
    }

    /** `handleCreateReward`: open the dialog on an empty form. */
    method HandleCreateReward()
      modifies this
      ensures isFormOpen && editingReward == None
      ensures Title() == RewardForm.CreateTitle
      ensures InitialDataFor(editingReward) == None
    {
      editingReward := None;
      isFormOpen := true;
    }

    /** `handleEditReward`: open the dialog on the given reward. */
    method HandleEditReward(reward: Reward)
      modifies this
      ensures isFormOpen && editingReward == Some(reward)
      ensures Title() == RewardForm.EditTitle
    {
      editingReward := Some(reward);
      isFormOpen := true;
    }

    /** `handleFormSubmit`: update the edited reward or create a new one; on success
        close the dialog and forget the edited reward, on failure (the store has
        recorded its error and rethrown, and the handler catches it) leave both. */
    method HandleFormSubmit(data: RewardForm.RewardFormData, today: string, newId: string,
                            now: Timestamp, call: RewardStore.Call)
      modifies this, store
      ensures !store.loading
      ensures call.Resolves? ==>
        && store.rewards == Saved(old(store.rewards), SaveRequestFor(old(editingReward), data, today), newId, now)
        && !isFormOpen && editingReward == None && store.error == old(store.error)
      ensures call.Rejects? ==>
        && store.rewards == old(store.rewards)
        && isFormOpen == old(isFormOpen) && editingReward == old(editingReward)
        && store.error == Some(if old(editingReward).Some? then RewardStore.UpdateFailed
                               else RewardStore.CreateFailed)
    {
      var ok: bool;
      match SaveRequestFor(editingReward, data, today) {
        case UpdateRequest(id, patch) =>
          var result := store.UpdateReward(id, patch, now, call);
          ok := result.Success?;
        case CreateRequest(input) =>
          var result := store.CreateReward(input, newId, now, call);
          ok := result.Success?;
      }
      if ok {
        isFormOpen := false;
        editingReward := None;
      }
    }

    /** `handleFormCancel`: close the dialog and forget the edited reward. */
    method HandleFormCancel()
      modifies this
      ensures !isFormOpen && editingReward == None
    {
      isFormOpen := false;
      editingReward := None;
    }

    /** The dialog's `onOpenChange` (`setIsFormOpen`): closing it by the overlay
        or the close button leaves the edited reward in place. */
    method OnOpenChange(open: bool)
      modifies this
      ensures isFormOpen == open && editingReward == old(editingReward)
    {
      isFormOpen := open;
    }

    /** `handleDeleteReward`: delete through the store; a failure is caught and
        only logged, so the dialog is left as it was either way. */
    method HandleDeleteReward(id: string, call: RewardStore.Call)
      modifies store
      ensures !store.loading
      ensures call.Resolves? ==>
        store.rewards == RewardStore.WithoutReward(old(store.rewards), id) && store.error == old(store.error)
      ensures call.Rejects? ==>
        store.rewards == old(store.rewards) && store.error == Some(RewardStore.DeleteFailed)
      ensures isFormOpen == old(isFormOpen) && editingReward == old(editingReward)
    {
      var _ := store.DeleteReward(id, call);
    }
  }
}
