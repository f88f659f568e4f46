/**
 The Create view: a draft campaign edited field by field, an image uploaded
 to IPFS whose hash joins the draft, and a submission that checks the draft,
 raises the `processing` flag, sends `createCampaign` and, once the ledger
 has settled, lowers the flag and clears the draft only on success. The
 wallet, the upload, the signer's address and the transaction are
 parameters; each `await` splits a handler into the steps before and after it.
 */
module Create {
  import opened Wrappers
  import opened JsNumber

  /** The four text inputs wired to `handleChange`, by their `name` attribute. */
  datatype Field = Title | Description | Target | Deadline

  /** The draft: every field is the text the user typed, the image hash the one the upload returned. */
  datatype FormInfo = FormInfo(title: string, description: string, target: string, deadline: string, imageHash: string)
  {
    function Get(f: Field): string {
      match f
      case Title => title
      case Description => description
      case Target => target
      case Deadline => deadline
    }

    /** `{ ...prevState, [name]: value }`. */
    function With(f: Field, v: string): (r: FormInfo)
      ensures r.Get(f) == v
      ensures forall g | g != f :: r.Get(g) == Get(g)
      ensures r.imageHash == imageHash
    {
      match f
      case Title => this.(title := v)
      case Description => this.(description := v)
      case Target => this.(target := v)
      case Deadline => this.(deadline := v)
    }
  }

  const EmptyForm: FormInfo := FormInfo("", "", "", "", "")

  /** The outcome of the upload to the pinning service: the IPFS hash, or a failure. */
  datatype UploadOutcome = Uploaded(hash: string) | UploadFailed

  /** The outcome of `createCampaign` and `tx.wait()`, a failure to get the signer's address included. */
  datatype TxOutcome = Confirmed | Failed

  /** The arguments of `createCampaign`, in the order they are passed. */
  datatype CreateCall = CreateCall(
    owner: string,
    title: string,
    description: string,
    targetWei: int,
    deadline: string,
    imageHash: string)

  /** How far `handleSubmit` got before its first `await`. */
  datatype SubmitStart =
    | NoWallet                 // no injected wallet: nothing happened
    | Invalid                  // the draft failed the check: nothing happened
    | BadTarget                // `parseEther` threw: processing was raised, no call was made
    | Sending(call: CreateCall) // processing was raised and this call was sent

  /**
   The check of `handleSubmit`: no image, a target that coerces to a number
   at most 0, or a deadline that coerces to a number at most the current
   time in (fractional) seconds. A comparison with NaN is false, so a draft
   whose target or deadline is not a number passes this check.
   */
  function SubmitRejected(form: FormInfo, nowMs: int): (rejected: bool)
    ensures form.imageHash == "" ==> rejected
    ensures !rejected && ToNumber(form.target).Some? ==> ToNumber(form.target).value > 0.0
    ensures !rejected && ToNumber(form.deadline).Some? ==> ToNumber(form.deadline).value > nowMs as real / 1000.0
    ensures form.imageHash != "" && ToNumber(form.target).None? && ToNumber(form.deadline).None? ==> !rejected
  {
    || form.imageHash == ""
    || AtMost(ToNumber(form.target), 0.0)
    || AtMost(ToNumber(form.deadline), nowMs as real / 1000.0)
  }

  /** The call `handleSubmit` sends for a draft, by the signer `owner`; `None` when `parseEther` throws on the target. */
  function BuildCall(owner: string, form: FormInfo): (call: Option<CreateCall>)
    ensures call.Some? <==> ParseEther(form.target).Some?
    ensures call.Some? ==>
      && call.value.owner == owner
      && call.value.title == form.title
      && call.value.description == form.description
      && call.value.targetWei == ParseEther(form.target).value
      && call.value.deadline == form.deadline
      && call.value.imageHash == form.imageHash
  {
    match ParseEther(form.target)
    case None => None
    case Some(wei) => Some(CreateCall(owner, form.title, form.description, wei, form.deadline, form.imageHash))
  }

  class CreateState {
    var processing: bool
    var formInfo: FormInfo

    constructor ()
      ensures !processing && formInfo == EmptyForm
    {
      processing := false;
      formInfo := EmptyForm;
    }

    /** The Create button's `disabled` attribute. */
    predicate CreateDisabled()
      reads this
    {
      processing
    }

    /** `handleChange`: the input named `name` now reads `value`. */
    method HandleChange(name: Field, value: string)
      modifies this`formInfo
      ensures formInfo == old(formInfo).With(name, value)
      ensures formInfo.Get(name) == value
      ensures forall f | f != name :: formInfo.Get(f) == old(formInfo).Get(f)
      ensures formInfo.imageHash == old(formInfo).imageHash
    {
      formInfo := formInfo.With(name, value);
    }

    /** `handleImageUpload`, after the upload settled; `fileChosen` is false when the picker returned no file. */
    method HandleImageUpload(fileChosen: bool, upload: UploadOutcome)
      modifies this`formInfo
      ensures fileChosen && upload.Uploaded? ==> formInfo == old(formInfo).(imageHash := upload.hash)
      ensures !fileChosen || upload.UploadFailed? ==> formInfo == old(formInfo)
    {
      if !fileChosen {
        return;
      }
      match upload {
        case Uploaded(hash) =>
          formInfo := formInfo.(imageHash := hash);
        case UploadFailed =>
      }
    }

    /**
     `handleSubmit` up to its first `await`: give up without a wallet or on
     a draft that fails the check, otherwise raise `processing`, convert the
     target with `parseEther` and, if that succeeds, send the call.
     */
    method BeginSubmit(walletPresent: bool, nowMs: int, signer: string) returns (start: SubmitStart)
      modifies this`processing
      ensures start.NoWallet? <==> !walletPresent
      ensures start.Invalid? <==> walletPresent && SubmitRejected(formInfo, nowMs)
      ensures start.NoWallet? || start.Invalid? ==> processing == old(processing)
      ensures start.BadTarget? || start.Sending? ==> processing && CreateDisabled()
      ensures start.Sending? <==> walletPresent && !SubmitRejected(formInfo, nowMs) && BuildCall(signer, formInfo).Some?
      ensures start.Sending? ==> start.call == BuildCall(signer, formInfo).value
    {
      if !walletPresent {
        return NoWallet;
      }
      if SubmitRejected(formInfo, nowMs) {
        return Invalid;
      }
      processing := true;
      var call := BuildCall(signer, formInfo);
      if call.None? {
        return BadTarget;
      }
      start := Sending(call.value);
    }

    /** `handleSubmit` after the transaction settled (or `parseEther` threw): lower `processing`; clear the draft only on success. */
    method FinishSubmit(outcome: TxOutcome)
      modifies this
      ensures !processing && !CreateDisabled()
      ensures outcome.Confirmed? ==> formInfo == EmptyForm
      ensures outcome.Failed? ==> formInfo == old(formInfo)
    {
      if outcome.Confirmed? {
        formInfo := EmptyForm;
      }
      processing := false;
    }

    /**
     `handleSubmit` from start to end, nothing else running meanwhile:
     `sent` is the call made, if any; `outcome` is how the ledger answers it.
     */
    method HandleSubmit(walletPresent: bool, nowMs: int, signer: string, outcome: TxOutcome)
      returns (sent: Option<CreateCall>)
      modifies this
      ensures !walletPresent || SubmitRejected(old(formInfo), nowMs) ==>
        sent == None && processing == old(processing) && formInfo == old(formInfo)
      ensures walletPresent && !SubmitRejected(old(formInfo), nowMs) ==>
        && !processing
        && sent == BuildCall(signer, old(formInfo))
        && formInfo == if sent.Some? && outcome.Confirmed? then EmptyForm else old(formInfo)
    {
      var start := BeginSubmit(walletPresent, nowMs, signer);
      match start {
        case NoWallet =>
          sent := None;
        case Invalid =>
          sent := None;
        case BadTarget =>
          sent := None;
          FinishSubmit(Failed);
        case Sending(call) =>
          sent := Some(call);
          FinishSubmit(outcome);
      }
    }
  }

  // ---------------------------------------------------------------------------
  // What the check lets through.

  /**
   A call that is sent carries the target, as a number, times 10^18 in wei,
   which is positive; an image; and a deadline that, if it is a number at
   all, lies after the current time.
   */
  lemma SentCallIsChecked(owner: string, form: FormInfo, nowMs: int)
    requires !SubmitRejected(form, nowMs) && BuildCall(owner, form).Some?
    ensures ToNumber(form.target).Some?
    ensures BuildCall(owner, form).value.targetWei as real == ScaleUp(ToNumber(form.target).value, EtherDecimals)
    ensures BuildCall(owner, form).value.targetWei > 0
    ensures BuildCall(owner, form).value.imageHash != ""
    ensures ToNumber(form.deadline).Some? ==> ToNumber(form.deadline).value > nowMs as real / 1000.0
  {
    ParseUnitsAgreesWithNumber(form.target, EtherDecimals);
  }

  /** An empty target or deadline coerces to 0, so it is rejected (as long as the clock is past the epoch). */
  lemma BlankFieldsRejected(form: FormInfo, nowMs: int)
    requires form.target == "" || (form.deadline == "" && nowMs >= 0)
    ensures SubmitRejected(form, nowMs)
  {
  }

  /**
   A draft whose target and deadline are decimal literals passes the check
   exactly when it has an image, the target is positive and the deadline is
   later than the current time.
   */
  lemma LiteralDraftChecked(form: FormInfo, nowMs: int, target: Literal, deadline: Literal)
    requires WellFormed(target) && WellFormed(deadline)
    requires form.target == Render(target) && form.deadline == Render(deadline)
    ensures !SubmitRejected(form, nowMs) <==>
      form.imageHash != "" && Value(target) > 0.0 && Value(deadline) > nowMs as real / 1000.0
  {
    NumberOfRendered(target, []);
    NumberOfRendered(deadline, []);
  }

  /**
   A target that does not start like a number is NaN to the check, so the
   check lets it through; `parseEther` then refuses it, and no call is sent.
   */
  lemma NonNumericTargetPassesCheck(owner: string, form: FormInfo)
    requires form.target != [] && !IsSpace(form.target[0]) && !IsDigit(form.target[0])
    requires form.target[0] != '+' && form.target[0] != '-' && form.target[0] != '.'
    ensures !AtMost(ToNumber(form.target), 0.0)
    ensures BuildCall(owner, form) == None
  {
    var t := form.target;
    assert SignOf(t) == Unsigned && LeadingDigits(t) == 0;
    assert ScanLiteral(t) == None;
    assert TrimStart(t) == t;
    assert t[|t| - 1..] != [];
  }
}
