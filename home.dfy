/**
 The state of the Home view: the open campaigns it shows, the loading and
 error flags of the last fetch, and one text entry per campaign that is both
 the donation amount being typed and, while a donation is in flight, the
 marker "Donating...". The ledger calls are parameters: the outcome of the
 fetch, whether a wallet with a contract handle is at hand, and the outcome
 of the donation's send. Each `await` splits a handler into the steps before
 and after it, so that what other handlers may see in between is explicit.
 */
module Home {
  import opened Wrappers
  import opened JsNumber
  import opened Campaigns

  const DonatingMarker: string := "Donating..."
  const LoadErrorMessage: string := "Failed to load campaigns. Please try again later."

  /** The outcome of asking the ledger for all campaigns. */
  datatype FetchOutcome = FetchFailed | Fetched(records: seq<RawCampaign>)

  /** The outcome of `donateToCampaign(id).send(...)`. */
  datatype SendOutcome = SendFailed | Sent

  /** How far `donateToCampaign` got before its `await` on the send. */
  datatype DonationStart =
    | Rejected                       // the amount did not validate: nothing else happened
    | WalletUnavailable              // no TronLink wallet or contract: the entry was reset
    | InFlight(callValue: real)      // the send was issued with this many sun

  /** A campaign's entry; a missing key reads as the empty string (both are falsy and both parse to NaN). */
  function Entry(amounts: map<nat, string>, id: nat): string {
    if id in amounts then amounts[id] else ""
  }

  /** The validation of `donateToCampaign`: `!parsedAmount || parsedAmount <= 0 || isNaN(parsedAmount)`. */
  function RejectsAmount(parsed: Option<real>): (r: bool)
    ensures r <==> !(parsed.Some? && parsed.value > 0.0)
  {
    (parsed.None? || parsed.value == 0.0) || (parsed.Some? && parsed.value <= 0.0) || parsed.None?
  }

  /** The amount `donateToCampaign` goes on with: the entry's `parseFloat`, when that is a positive number. */
  function ValidAmount(entry: string): (amount: Option<real>)
    ensures amount.Some? <==> !RejectsAmount(ParseFloat(entry))
    ensures amount.Some? ==> amount.value > 0.0 && ParseFloat(entry) == amount
  {
    var parsed := ParseFloat(entry);
    if RejectsAmount(parsed) then None else parsed
  }

  /** The Donate button's `disabled` attribute. */
  function DonateDisabled(amounts: map<nat, string>, id: nat): (r: bool)
    ensures !r ==> id in amounts
  {
    Entry(amounts, id) == "" || Entry(amounts, id) == DonatingMarker
  }

  class HomeState {
    var openCampaigns: seq<Campaign>
    var donationAmounts: map<nat, string>
    var loading: bool
    var error: Option<string>

    constructor ()
      ensures openCampaigns == [] && donationAmounts == map[]
      ensures loading && error == None
    {
      openCampaigns := [];
      donationAmounts := map[];
      loading := true;
      error := None;
    }

    /** `getCampaigns`, the fetch itself being `fetch`, run at clock time `nowMs`. */
    method GetCampaigns(fetch: FetchOutcome, nowMs: int)
      modifies this
      ensures !loading
      ensures fetch.Fetched? ==> error == None && openCampaigns == OpenCampaigns(fetch.records, CurrentTime(nowMs))
      ensures fetch.FetchFailed? ==> error == Some(LoadErrorMessage) && openCampaigns == old(openCampaigns)
      ensures donationAmounts == old(donationAmounts)
    {
      loading := true;
      error := None;
      match fetch {
        case Fetched(records) =>
          var now := CurrentTime(nowMs);
          openCampaigns := FilterOpen(NormalizeAll(records), now);
        case FetchFailed =>
          error := Some(LoadErrorMessage);
      }
      loading := false;
    }

    /** `handleDonationChange`: the input for one campaign was edited. */
    method HandleDonationChange(campaignId: nat, value: string)
      modifies this`donationAmounts
      ensures donationAmounts == old(donationAmounts)[campaignId := value]
      ensures Entry(donationAmounts, campaignId) == value
      ensures forall id | id != campaignId :: Entry(donationAmounts, id) == Entry(old(donationAmounts), id)
    {
      donationAmounts := donationAmounts[campaignId := value];
    }

    /**
     `donateToCampaign` up to the `await` on the send: validate the entry,
     give up (resetting the entry) without a wallet, otherwise mark the entry
     "Donating..." and issue the send with the amount in sun.
     */
    method StartDonation(campaignId: nat, walletReady: bool) returns (start: DonationStart)
      modifies this`donationAmounts
      ensures start.Rejected? <==> ValidAmount(Entry(old(donationAmounts), campaignId)).None?
      ensures start.Rejected? ==> donationAmounts == old(donationAmounts)
      ensures start.WalletUnavailable? <==> !start.Rejected? && !walletReady
      ensures start.WalletUnavailable? ==> donationAmounts == old(donationAmounts)[campaignId := ""]
      ensures start.InFlight? ==>
        && donationAmounts == old(donationAmounts)[campaignId := DonatingMarker]
        && start.callValue == ToSun(ValidAmount(Entry(old(donationAmounts), campaignId)).value)
        && start.callValue > 0.0
    {
      var amount := ValidAmount(Entry(donationAmounts, campaignId));
      if amount.None? {
        return Rejected;
      }
      if !walletReady {
        donationAmounts := donationAmounts[campaignId := ""];
        return WalletUnavailable;
      }
      var amountInSun := ToSun(amount.value);
      donationAmounts := donationAmounts[campaignId := DonatingMarker];
      start := InFlight(amountInSun);
    }

    /** `donateToCampaign` after the send settled: the `finally` resets the entry; success schedules a page reload. */
    method FinishDonation(campaignId: nat, outcome: SendOutcome) returns (reloadScheduled: bool)
      modifies this`donationAmounts
      ensures donationAmounts == old(donationAmounts)[campaignId := ""]
      ensures DonateDisabled(donationAmounts, campaignId)
      ensures reloadScheduled <==> outcome.Sent?
    {
      donationAmounts := donationAmounts[campaignId := ""];
      reloadScheduled := outcome.Sent?;
    }
  }

  // ---------------------------------------------------------------------------
  // What the entry allows.

  lemma EmptyAndMarkerDoNotParse()
    ensures ParseFloat("") == None
    ensures ParseFloat(DonatingMarker) == None
  {
    assert TrimStart(DonatingMarker) == DonatingMarker;
    assert LeadingDigits(DonatingMarker) == 0;
  }

  /**
   An entry that validation accepts also enables the button. While the entry
   still holds "Donating...", a second call of the handler for that campaign
   fails validation before any ledger call, button or not; once the user
   types over the marker (see `RetypingReenablesDonate`), or before the
   marker is set, nothing in the handler stops it.
   */
  lemma ValidEntryEnablesDonate(amounts: map<nat, string>, id: nat)
    ensures ValidAmount(Entry(amounts, id)).Some? ==> !DonateDisabled(amounts, id)
    ensures Entry(amounts, id) == DonatingMarker ==> ValidAmount(Entry(amounts, id)) == None
  {
    EmptyAndMarkerDoNotParse();
  }

  /**
   The button is no check of the amount: an entry such as "abc" enables it,
   and validation then turns it away.
   */
  lemma EnabledButRejected(amounts: map<nat, string>, id: nat)
    requires id in amounts && amounts[id] != [] && amounts[id] != DonatingMarker
    requires !IsSpace(amounts[id][0]) && !IsDigit(amounts[id][0])
    requires amounts[id][0] != '+' && amounts[id][0] != '-' && amounts[id][0] != '.'
    ensures !DonateDisabled(amounts, id)
    ensures ValidAmount(Entry(amounts, id)) == None
  {
    NonNumericAmount(amounts[id]);
  }

  /**
   The in-flight marker is only an entry: typing a valid amount over it while
   the send is pending enables the button again for the same campaign.
   */
  lemma RetypingReenablesDonate(amounts: map<nat, string>, id: nat, typed: string)
    requires ValidAmount(typed).Some?
    ensures DonateDisabled(amounts[id := DonatingMarker], id)
    ensures !DonateDisabled(amounts[id := DonatingMarker][id := typed], id)
  {
    ValidEntryEnablesDonate(amounts[id := DonatingMarker][id := typed], id);
  }

  /**
   An entry that starts with a decimal literal, possibly followed by other
   text, goes through exactly when the literal is positive, and then as the
   literal's value: "0" and "-1" are turned away, "2.5" and "2.5 TRX" give 2.5.
   */
  lemma LiteralAmount(lit: Literal, rest: string)
    requires WellFormed(lit)
    requires rest == [] || (!IsDigit(rest[0]) && (lit.dot || rest[0] != '.'))
    ensures ValidAmount(Render(lit) + rest) == if Value(lit) > 0.0 then Some(Value(lit)) else None
  {
    NumberOfRendered(lit, rest);
  }

  /** An entry whose first character cannot start a number is turned away: "abc" is NaN. */
  lemma NonNumericAmount(entry: string)
    requires entry != [] && !IsSpace(entry[0]) && !IsDigit(entry[0])
    requires entry[0] != '+' && entry[0] != '-' && entry[0] != '.'
    ensures ValidAmount(entry) == None
  {
  }
}
