# Crowdfunding client: campaign views in Dafny

This project models the two views of a crowdfunding web client that hold its logic:

- **Home** lists the open campaigns and takes donations.
  - It fetches every campaign record from the ledger contract.
  - It gives each record its list position as id and converts its amounts from sun to TRX.
  - It keeps only the campaigns still open: the collected amount plus a tolerance of 0.0001 is below the target, and the deadline is still ahead.
  - Per campaign, it keeps one text entry. The entry is the amount being typed and, while a donation is in flight, the marker `Donating...`.
- **Create** edits a draft campaign.
  - It uploads the campaign image to IPFS.
  - It checks the draft, then sends `createCampaign`.
  - A `processing` flag disables the Create button while the transaction is pending.
  - The draft is cleared only when the transaction succeeds.

Modules:

- `Wrappers`: `Option`. `None` stands for JavaScript's NaN and for "no call made".
- `JsNumber`: the string-to-number conversions the views rely on, restricted to plain decimal literals `[+|-] digits [. digits]`:
  - `parseFloat`: the longest literal after leading white space.
  - The `Number` coercion behind `string <= number`: the whole trimmed string, where the empty string is 0.
  - `parseEther`/`parseUnits`: the whole string, unsigned or negative, whose fraction has at most 18 digits once its trailing zeros are dropped; the result is the number times 10^18.

  The module proves that scanning reads back the literal that was rendered, and that `parseEther`'s wei are `Number` of the same text times 10^18. `ScaleUp(x, k)` is x times 10^k, computed ten at a time (`ScaleUpIsProduct` proves it equals `x * 10^k`).
- `Campaigns`: the pure half of `getCampaigns`.
  - Normalisation, the open filter, the clock in whole seconds, and the gateway URL of an image.
  - Lemmas on membership, order, identity and idempotence.
- `Home`: the donation validation, the Donate button's `disabled` rule, and `class HomeState`.
  - The class holds `openCampaigns`, `donationAmounts`, `loading` and `error`.
  - Its methods are `getCampaigns`, `handleDonationChange`, and `donateToCampaign` split at its `await`.
- `Create`: the draft record, the submission check, the call built from the draft, and `class CreateState`.
  - The class holds `processing` and `formInfo`.
  - Its methods are `handleChange`, `handleImageUpload`, and `handleSubmit`, both split at its `await` and whole.

Remote calls are parameters of the methods:

- the fetch, the wallet, the upload, the signer's address and the transactions;
- the clock (`Date.now()` in milliseconds).

Amounts are exact `real`s.

The code has no title check, no in-handler guard against a second donation, and no numeric check on the target or deadline; the model follows the code:

- Creation does not check that the title is non-empty.
- A donation in flight is guarded only by the Donate button and by the `Donating...` marker failing validation, not by `donateToCampaign` itself. See `Home.RetypingReenablesDonate`.
- Target and deadline are compared after JavaScript's `Number` coercion, so a non-numeric value passes the check. See `Create.NonNumericTargetPassesCheck` and `Create.SentCallIsChecked`.

## Model

| member | source | states |
|---|---|---|
| JsNumber.ScanRendered | app/src/components/Home.jsx:66 | scanning the text of any decimal literal, followed by text that cannot extend it, gives back exactly that literal |
| JsNumber.ScanLiteralIsPrefix | app/src/components/Home.jsx:66 | the literal `parseFloat` finds is, character for character, a prefix of the text it reads |
| JsNumber.NumberOfRendered | app/src/components/Create.jsx:60 | the `Number` coercion of a literal's text is the literal's value, and `parseFloat` reads the same value from that text followed by anything that cannot extend it |
| JsNumber.ParseFloat | app/src/components/Home.jsx:66 | `parseFloat`: the longest decimal literal after leading white space, NaN when there is none; what it reads is stated by `ScanRendered`, `ScanLiteralIsPrefix` and `NumberOfRendered` |
| JsNumber.ToNumber | app/src/components/Create.jsx:60 | the `Number` coercion: the whole trimmed text as one literal, blank text as 0, anything else NaN; stated by `NumberOfRendered` and `NumberIsParseFloat` |
| JsNumber.NumberIsParseFloat | app/src/components/Create.jsx:60 | wherever the `Number` coercion of non-blank text is a number, `parseFloat` of the same text is that number |
| JsNumber.UnitsValue | app/src/components/Create.jsx:71 | the units of a literal are its value times 10^decimals, trailing zeros of the fraction included or not |
| JsNumber.UnitsSign | app/src/components/Create.jsx:71 | the units `parseEther` produces are positive exactly when the decimal value is positive |
| JsNumber.ParseUnitsAgreesWithNumber | app/src/components/Create.jsx:60-71 | whatever `parseUnits` accepts is also a number for the coercion in the submission check, and the units are that number times 10^decimals, with the same sign |
| JsNumber.ParseEther | app/src/components/Create.jsx:71 | whatever `parseEther` accepts is a number for the `Number` coercion, and the wei are that number times 10^18 |
| Campaigns.FromSun | app/src/components/Home.jsx:33-34 | sun to TRX: never negative, and times 10^6 it gives back the sun amount |
| Campaigns.ToSun | app/src/components/Home.jsx:82 | TRX to sun, the inverse of `FromSun`; positive exactly when the TRX amount is |
| Campaigns.Normalize | app/src/components/Home.jsx:30-36 | a record at position `index` gets id `index`, its amounts in TRX (times 10^6 they are the ledger's sun), its deadline, and its own owner, title, description and image |
| Campaigns.NormalizeAll | app/src/components/Home.jsx:30-36 | the normalised list has one campaign per record, the i-th with id i, the i-th record's amounts and deadline, and its owner, title, description and image |
| Campaigns.IsOpen | app/src/components/Home.jsx:38-41 | an open campaign has collected less than its target and its deadline is still ahead |
| Campaigns.OpenCampaigns | app/src/components/Home.jsx:30-41 | the open list is never longer than the fetch, and each campaign on it is the normalised record at the position its id names, and is open |
| Campaigns.FilterOpen | app/src/components/Home.jsx:38-41 | a campaign is in the filtered list iff it is in the input and is open (collected + 0.0001 < target, deadline > now); never longer than the input |
| Campaigns.CurrentTime | app/src/components/Home.jsx:26 | `Math.floor(Date.now() / 1000)`: the whole seconds t with t*1000 <= now < t*1000 + 1000 |
| Campaigns.PinataUrl | app/src/components/Home.jsx:122-126 | an empty hash gives the placeholder URL; any other hash gives the gateway prefix followed by exactly the hash |
| Campaigns.PinataUrlInjective | app/src/components/Home.jsx:122-126 | different hashes give different URLs, and no hash gives the placeholder |
| Campaigns.FilterOpenIsSubsequence | app/src/components/Home.jsx:38 | the filtered list keeps the input's order: it is a subsequence of it |
| Campaigns.FilterOpenKeepsIdOrder | app/src/components/Home.jsx:38-41 | filtering a list with increasing ids gives a list with increasing ids |
| Campaigns.OpenIdsIncreasing | app/src/components/Home.jsx:30-41 | the open list has strictly increasing ids, so no campaign twice, and is a subsequence of the normalised list |
| Campaigns.OpenCampaignsExactly | app/src/components/Home.jsx:28-41 | record i is on the open list iff its TRX amount collected plus 0.0001 is below its TRX target and its deadline is after now |
| Campaigns.FilterOpenIdempotent | app/src/components/Home.jsx:38-41 | filtering the open list again at the same time returns it unchanged |
| Campaigns.AllOpenKept | app/src/components/Home.jsx:38-41 | a list of open campaigns passes the filter unchanged |
| Home.RejectsAmount | app/src/components/Home.jsx:68 | the three-clause validation (falsy, at most 0, NaN) turns an amount away exactly when it is not a positive number |
| Home.ValidAmount | app/src/components/Home.jsx:65-71 | the amount the donation goes on with is `parseFloat` of the entry, present exactly when the validation passes, and then positive |
| Home.DonateDisabled | app/src/components/Home.jsx:177 | the Donate button is enabled only for a campaign that has an entry |
| Home.EmptyAndMarkerDoNotParse | app/src/components/Home.jsx:88-91 | neither the empty entry nor the `Donating...` marker parses to a number |
| Home.ValidEntryEnablesDonate | app/src/components/Home.jsx:177 | an entry that passes validation enables the button; the `Donating...` marker fails validation, so while it is in place a second call is turned away |
| Home.EnabledButRejected | app/src/components/Home.jsx:64-71 | the button does not check the amount: an entry like `abc` enables it, and validation turns it away |
| Home.RetypingReenablesDonate | app/src/components/Home.jsx:88-91 | the marker disables the button, but typing a valid amount over it while the send is pending enables the button again |
| Home.LiteralAmount | app/src/components/Home.jsx:65-71 | an entry that starts with a decimal literal passes validation exactly when the literal is positive, and then with the literal's value |
| Home.NonNumericAmount | app/src/components/Home.jsx:65-71 | an entry that cannot start a number is turned away |
| Home.HomeState.constructor | app/src/components/Home.jsx:7-10 | starts with no campaigns, no entries, loading and no error |
| Home.HomeState.GetCampaigns | app/src/components/Home.jsx:12-50 | afterwards `loading` is false and the entries are unchanged; on success, no error and exactly the open campaigns of the normalised fetch; on failure, the fixed error message and the old list |
| Home.HomeState.HandleDonationChange | app/src/components/Home.jsx:57-62 | the entry for the campaign becomes the typed value, and every other entry is unchanged |
| Home.HomeState.StartDonation | app/src/components/Home.jsx:64-93 | an amount that fails validation stops everything, with the entries unchanged; otherwise, without a wallet, the entry is reset to empty; with one, the entry becomes `Donating...` and the call value is the amount in sun, which is positive |
| Home.HomeState.FinishDonation | app/src/components/Home.jsx:93-115 | after the send settles, the entry is empty whatever the outcome, and the button is disabled; a page reload is scheduled exactly on success |
| Create.FormInfo.With | app/src/components/Create.jsx:22-25 | an edit sets the named field to the value and leaves every other field, and the image hash, unchanged |
| Create.BuildCall | app/src/components/Create.jsx:71-80 | a call exists exactly when `parseEther` accepts the target; its arguments are, in order, the signer, title, description, target in wei, deadline and image hash of the draft |
| Create.SubmitRejected | app/src/components/Create.jsx:60 | a draft without an image is rejected; a draft that passes has a target that is positive and a deadline after now, each if it is a number at all; a draft with an image whose target and deadline are both NaN passes |
| Create.SentCallIsChecked | app/src/components/Create.jsx:60-80 | a call that passes the check and is built carries the target, a number, times 10^18 in wei, which is positive; a non-empty image hash; and a deadline after now if the deadline is a number at all |
| Create.BlankFieldsRejected | app/src/components/Create.jsx:60 | an empty target, or an empty deadline with the clock past the epoch, fails the check |
| Create.LiteralDraftChecked | app/src/components/Create.jsx:60 | with literal target and deadline, the draft passes the check exactly when it has an image, the target is positive and the deadline is after now |
| Create.NonNumericTargetPassesCheck | app/src/components/Create.jsx:60-71 | a target that cannot start a number is not rejected by the target clause of the check, and `parseEther` then refuses it, so no call is built |
| Create.CreateState.CreateDisabled | app/src/components/Create.jsx:107 | the Create button is disabled exactly while `processing` is set; `BeginSubmit` and `FinishSubmit` state when it is raised and lowered |
| Create.CreateState.constructor | app/src/components/Create.jsx:9-16 | starts not processing, with an all-empty draft |
| Create.CreateState.HandleChange | app/src/components/Create.jsx:22-25 | the named field becomes the value; every other field and the image hash are unchanged; `processing` is untouched |
| Create.CreateState.HandleImageUpload | app/src/components/Create.jsx:27-50 | with no file, or a failed upload, the draft is unchanged; on success only the image hash changes, to the returned hash |
| Create.CreateState.BeginSubmit | app/src/components/Create.jsx:52-73 | without a wallet, or with a draft that fails the check, nothing changes; otherwise `processing` is raised (the button disabled) and a call is sent exactly when `parseEther` accepts the target, with the draft's arguments |
| Create.CreateState.FinishSubmit | app/src/components/Create.jsx:82-90 | afterwards `processing` is false (the button enabled); the draft is cleared on success and unchanged on failure |
| Create.CreateState.HandleSubmit | app/src/components/Create.jsx:52-91 | the whole handler: without a wallet or on a failed check, no call and no change; otherwise the call is the one built from the draft, `processing` ends false, and the draft is cleared exactly when a call was sent and confirmed |

## Left out

- `app/src/App.js` is not part of this model. It covers wallet detection, contract construction and routing.
- `Closed.jsx` is not part of this model.
- Floating point is not modelled. Amounts, `parseFloat` results and the 0.0001 tolerance are exact reals, so binary rounding cannot make a campaign open or closed.
- Number syntax is restricted to plain decimal literals. The model leaves out:
  - exponents, `Infinity`, and hexadecimal, octal and binary forms;
  - white space other than space, tab, line feed and carriage return.
- Campaigns.ToSun: it is an exact real product. TronWeb's rounding to whole sun is not modelled.
- The TronLink/ethers contract calls, the upload to the pinning service, `signer.getAddress()` and `tx.wait()` become outcome parameters. The model does not cover:
  - a failure to get the signer's address, which is folded into the transaction's `Failed`;
  - the different failures of `getCampaigns`, which are one `FetchFailed`.
- `Home.HomeState.StartDonation`: `walletReady` covers both the TronLink check and the `await` on `tronWeb.contract`, as one step. Between validation and the marker, the handler waits for the contract. A second click in that window passes validation again; the model does not show that interleaving.
- `donateToCampaign` is modelled as its two halves, before and after the send. There is no single composite method for it.
- Handlers read the state at the moment of the call. A stale React closure, which reads an older render's `donationAmounts` or `formInfo`, is not modelled.
- Toasts, `console` logging, `document.title` and JSX rendering are left out. The page reload after a donation appears only as the `reloadScheduled` result.
- `calculateProgress` and the second `fromSun` applied while rendering are display-only, so they are left out. That second conversion shows amounts 10^6 times too small, and the division by the target has no zero guard.
- `handleChange` is modelled for the four inputs it is wired to (title, description, target, deadline). It is not modelled for arbitrary `name` attributes.
