/** The customer-facing spin result page (src/components/dashboard/pirze/reward-prize.tsx):
    it loads one spin, shows it, and lets a pending prize be claimed. The two
    remote calls are abstract outcomes. */
module SpinResultPage {
  import opened Wrappers
  import opened Text
  import opened Records

  /** What a failed call threw: an `Error` with a message, or something else. */
  datatype Thrown = ErrorObject(message: string) | NonError

  /** A successful fetch always carries a spin, as the API's response type says;
      a null response body is outside the model, so after a fetch the
      "No Spin Result Found" card appears only when the fetch threw. */
  datatype FetchOutcome = Fetched(data: Spin) | FetchThrew(thrown: Thrown)

  /** The claim call either answers (with a success flag and maybe new data) or throws. */
  datatype ClaimOutcome = ClaimAnswered(success: bool, data: Option<Spin>) | ClaimThrew(thrown: Thrown)

  datatype Toast = SuccessToast(message: string) | ErrorToast(message: string)

  const FetchFailedFallback: string := "Failed to fetch spin result"
  const ClaimSucceeded: string := "Spin result claimed successfully!"
  const ClaimFailedPrefix: string := "Spin claim failed: "
  const UnknownError: string := "Unknown error"

  const ClaimingLabel: string := "Claiming..."
  const AlreadyClaimedLabel: string := "Already Claimed"
  const ExpiredLabel: string := "Expired"
  const ClaimPrizeLabel: string := "Claim Prize"

  /** `!spinId`: the route parameter is absent or empty. */
  predicate MissingId(spinId: Option<string>) {
    spinId.None? || spinId.value == ""
  }

  /** What the page shows. */
  datatype View = Spinner | InvalidRequest | NoSpinFound | ResultCard(spin: Spin)

  /** The early returns of the render, in order: spinner while loading, then the
      missing-id card, then the not-found card, then the result. */
  function Render(loading: bool, spinId: Option<string>, spin: Option<Spin>): (v: View)
    ensures v == Spinner <==> loading
    ensures v == InvalidRequest <==> !loading && MissingId(spinId)
    ensures v == NoSpinFound <==> !loading && !MissingId(spinId) && spin.None?
    ensures v.ResultCard? <==> !loading && !MissingId(spinId) && spin.Some?
    ensures v.ResultCard? ==> Some(v.spin) == spin
  {
    if loading then Spinner
    else if MissingId(spinId) then InvalidRequest
    else if spin.None? then NoSpinFound
    else ResultCard(spin.value)
  }

  /** `claiming || status !== "pending"`. */
  predicate ClaimDisabled(claiming: bool, status: SpinStatus)
    ensures !ClaimDisabled(claiming, status) <==> !claiming && status == Pending
  {
    claiming || status != Pending
  }

  /** The button label. */
  function ClaimLabel(claiming: bool, status: SpinStatus): (caption: string)
    ensures caption == ClaimPrizeLabel <==> !claiming && status == Pending
    ensures caption in {ClaimingLabel, AlreadyClaimedLabel, ExpiredLabel, ClaimPrizeLabel}
  {
    assert ClaimingLabel[5] != ClaimPrizeLabel[5];
    assert AlreadyClaimedLabel[0] != ClaimPrizeLabel[0] && ExpiredLabel[0] != ClaimPrizeLabel[0];
    if claiming then ClaimingLabel
    else if status.Claimed? then AlreadyClaimedLabel
    else if status.Expired? then ExpiredLabel
    else ClaimPrizeLabel
  }

  /** The button is enabled exactly when it reads "Claim Prize"; otherwise its
      label says why: claiming, already claimed, or expired. */
  lemma ButtonLabelMatchesState(claiming: bool, status: SpinStatus)
    ensures !ClaimDisabled(claiming, status) <==> ClaimLabel(claiming, status) == ClaimPrizeLabel
    ensures claiming ==> ClaimLabel(claiming, status) == ClaimingLabel
    ensures !claiming && status == Claimed ==> ClaimLabel(claiming, status) == AlreadyClaimedLabel
    ensures !claiming && status == Expired ==> ClaimLabel(claiming, status) == ExpiredLabel
  {
  }

  datatype StatusColour = Yellow | Green | Red

  function StatusColourOf(status: SpinStatus): (c: StatusColour)
    ensures c == Yellow <==> status == Pending
    ensures c == Green <==> status == Claimed
    ensures c == Red <==> status == Expired
  {
    match status
    case Pending => Yellow
    case Claimed => Green
    case Expired => Red
  }

  /** The status as the API spells it. */
  function StatusName(status: SpinStatus): string {
    match status
    case Pending => "pending"
    case Claimed => "claimed"
    case Expired => "expired"
  }

  /** `status.toUpperCase()`. */
  function StatusText(status: SpinStatus): string {
    ToUpper(StatusName(status))
  }

  /** Each status has its own colour and its own upper-case text. */
  lemma StatusDisplay(status: SpinStatus)
    ensures StatusText(status) ==
      match status
      case Pending => "PENDING"
      case Claimed => "CLAIMED"
      case Expired => "EXPIRED"
    ensures StatusColourOf(status) ==
      match status
      case Pending => Yellow
      case Claimed => Green
      case Expired => Red
  {
  }

  /** The `error instanceof Error ? error.message : fallback` choice. */
  function MessageOf(thrown: Thrown, fallback: string): string {
    match thrown
    case ErrorObject(m) => m
    case NonError => fallback
  }

  /** The page's state. */
  class Page {
    const spinId: Option<string>
    var spin: Option<Spin>
    var loading: bool
    var claiming: bool
    var toasts: seq<Toast>
    var fetchesSent: nat

    constructor (spinId: Option<string>)
      ensures this.spinId == spinId && spin == None && loading && !claiming
      ensures toasts == [] && fetchesSent == 0
      ensures View() == Spinner
    {
      this.spinId, spin, loading, claiming, toasts, fetchesSent := spinId, None, true, false, [], 0;
    }

    /** What the page currently renders. */
    function View(): View
      reads this
    {
      Render(loading, spinId, spin)
    }

    /** The mount effect. Without an id it stops loading and fetches nothing;
        otherwise it fetches once, keeps the spin or shows the error, and stops loading. */
    method LoadEffect(outcome: FetchOutcome)
      modifies this
      ensures !loading && claiming == old(claiming)
      ensures MissingId(spinId) ==> View() == InvalidRequest
      ensures !MissingId(spinId) && outcome.Fetched? ==> View() == ResultCard(outcome.data)
      ensures MissingId(spinId) ==>
        spin == old(spin) && toasts == old(toasts) && fetchesSent == old(fetchesSent)
      ensures !MissingId(spinId) ==> fetchesSent == old(fetchesSent) + 1
      ensures !MissingId(spinId) && outcome.Fetched? ==>
        spin == Some(outcome.data) && toasts == old(toasts)
      ensures !MissingId(spinId) && outcome.FetchThrew? ==>
        spin == old(spin) &&
        toasts == old(toasts) + [ErrorToast(MessageOf(outcome.thrown, FetchFailedFallback))]
    {
      if MissingId(spinId) {
        loading := false;
        return;
      }
      fetchesSent := fetchesSent + 1;
      match outcome {
        case Fetched(data) => spin := Some(data);
        case FetchThrew(thrown) =>
          toasts := toasts + [ErrorToast(MessageOf(thrown, FetchFailedFallback))];
      }
      loading := false;
    }

    /** The start of `handleClaim`: the button turns to "Claiming..." and is disabled. */
    method StartClaim()
      modifies this
      ensures claiming
      ensures spin == old(spin) && loading == old(loading) && toasts == old(toasts)
      ensures fetchesSent == old(fetchesSent)
      ensures spin.Some? ==>
        ClaimDisabled(claiming, spin.value.status) &&
        ClaimLabel(claiming, spin.value.status) == ClaimingLabel
    {
      claiming := true;
    }

    /** The end of `handleClaim`: the spin is replaced only by the data of a
        successful answer; a thrown error is shown; claiming ends whatever happened. */
    method FinishClaim(outcome: ClaimOutcome)
      requires claiming
      modifies this
      ensures !claiming && loading == old(loading) && fetchesSent == old(fetchesSent)
      ensures outcome.ClaimAnswered? && outcome.success && outcome.data.Some? ==>
        spin == outcome.data
      ensures !(outcome.ClaimAnswered? && outcome.success && outcome.data.Some?) ==>
        spin == old(spin)
      ensures outcome.ClaimAnswered? && outcome.success ==>
        toasts == old(toasts) + [SuccessToast(ClaimSucceeded)]
      ensures outcome.ClaimAnswered? && !outcome.success ==> toasts == old(toasts)
      ensures outcome.ClaimThrew? ==>
        toasts == old(toasts) + [ErrorToast(ClaimFailedPrefix + MessageOf(outcome.thrown, UnknownError))]
    {
      match outcome {
        case ClaimAnswered(success, data) =>
          if success {
            toasts := toasts + [SuccessToast(ClaimSucceeded)];
            if data.Some? {
              spin := data;
            }
          }
        case ClaimThrew(thrown) =>
          toasts := toasts + [ErrorToast(ClaimFailedPrefix + MessageOf(thrown, UnknownError))];
      }
      claiming := false;
    }

    /** `handleClaim` as a whole. */
    method HandleClaim(outcome: ClaimOutcome)
      modifies this
      ensures !claiming && loading == old(loading) && fetchesSent == old(fetchesSent)
      ensures outcome.ClaimAnswered? && outcome.success && outcome.data.Some? ==>
        spin == outcome.data
      ensures !(outcome.ClaimAnswered? && outcome.success && outcome.data.Some?) ==>
        spin == old(spin)
      ensures outcome.ClaimAnswered? && outcome.success ==>
        toasts == old(toasts) + [SuccessToast(ClaimSucceeded)]
      ensures outcome.ClaimAnswered? && !outcome.success ==> toasts == old(toasts)
      ensures outcome.ClaimThrew? ==>
        toasts == old(toasts) + [ErrorToast(ClaimFailedPrefix + MessageOf(outcome.thrown, UnknownError))]
    {
      StartClaim();
      FinishClaim(outcome);
    }
  }
}
