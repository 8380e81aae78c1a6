/**
 * The question box of frontend/components/QuestionForm.js: the blank check,
 * the validation round trip over XMLHttpRequest that settles on the first of
 * several racing outcomes, and the submit that follows.
 */
module QuestionForm {
  import opened Wrappers
  import opened Text
  import opened Js
  import Api

  const BlankError := "Question cannot be blank."
  const ValidationFailed := "Validation failed."
  const SubmissionFailed := "Submission failed \U{2014} check console for details."

  /** What can settle the validation promise, in the order it happens. */
  datatype XhrEvent =
    | Loaded(status: int, body: Option<JsValue>)  // readyState 4; `body` is `JSON.parse(responseText)`
    | SendThrew                                   // `xhr.send` raised
    | TimerFired                                  // the 3000 ms timer

  /** `{ valid: false, reason }` */
  function Rejection(reason: string): (v: JsValue)
    ensures Get(v, "valid") == Bool(false) && Get(v, "reason") == Str(reason)
  {
    Pair("valid", Bool(false), "reason", Str(reason))
  }

  /** The value each event would resolve the promise with. */
  function Outcome(e: XhrEvent): JsValue {
    match e
    case Loaded(status, body) =>
      if 200 <= status < 300 then
        (if body.Some? then body.value else Rejection("Invalid server response."))
      else Rejection("Validation service unavailable.")
    case SendThrew => Rejection("Failed to run validation.")
    case TimerFired => Rejection("Validation timed out.")
  }

  /** The value the promise settles with: the first event's; the timer always fires eventually. */
  function FirstOutcome(events: seq<XhrEvent>): (v: JsValue)
    ensures events != [] ==> v == Outcome(events[0])
    ensures events == [] ==> v == Outcome(TimerFired)
  {
    if events == [] then Outcome(TimerFired) else Outcome(events[0])
  }

  /** Whatever arrives after the first event changes nothing. */
  lemma LaterEventsIgnored(events: seq<XhrEvent>, later: seq<XhrEvent>)
    requires events != []
    ensures FirstOutcome(events + later) == FirstOutcome(events)
  {
    assert (events + later)[0] == events[0];
  }

  /** A promise's settled value: only the first `resolve` counts. */
  class Settlement {
    var value: Option<JsValue>

    constructor ()
      ensures value == None
    {
      value := None;
    }

    method Resolve(v: JsValue)
      modifies this
      ensures value == if old(value).None? then Some(v) else old(value)
    {
      if value.None? {
        value := Some(v);
      }
    }
  }

  /** `validateWithXHR`: every event calls `resolve`, then the timer does; the promise keeps the first. */
  method ValidateWithXhr(events: seq<XhrEvent>) returns (v: JsValue)
    ensures v == FirstOutcome(events)
  {
    var p := new Settlement();
    var i := 0;
    while i < |events|
      invariant 0 <= i <= |events|
      invariant i == 0 ==> p.value == None
      invariant i > 0 ==> p.value == Some(Outcome(events[0]))
    {
      p.Resolve(Outcome(events[i]));
      i := i + 1;
    }
    p.Resolve(Outcome(TimerFired));
    v := p.value.value;
  }

  /** `!message || !message.trim()`: the text is empty or all whitespace. */
  predicate IsBlankInput(message: string) {
    message == [] || IsBlank(message)
  }

  /** The test as written, on the trimmed text, is the same test. */
  lemma BlankInputIsEmptyTrim(message: string)
    ensures IsBlankInput(message) <==> message == [] || Trim(message) == []
  {
    TrimEmptyIffBlank(message);
  }

  /** The client blocks exactly the messages the server would call blank. */
  lemma BlankAgreesWithServer(message: string)
    ensures IsBlankInput(message) <==> Api.ValidateQuestion(message).reason == Api.BlankReason
  {
    TrimEmptyIffBlank(message);
  }

  /** The error a settled validation leaves, or `None` when it lets the submit go ahead. */
  function ValidationError(v: JsValue): (r: Option<JsValue>)
    ensures r.None? <==> Truthy(v) && Truthy(Get(v, "valid"))
    ensures r.Some? ==> Truthy(r.value)
    ensures r.Some? ==> r.value == Or(Get(v, "reason"), Str(ValidationFailed))
  {
    if !Truthy(v) || !Truthy(Get(v, "valid")) then Some(Or(Get(v, "reason"), Str(ValidationFailed))) else None
  }

  /** Each way the validation can fail on its own shows its own text, whatever follows it. */
  lemma FirstEventError(e: XhrEvent, later: seq<XhrEvent>)
    ensures e == TimerFired ==> ValidationError(FirstOutcome([e] + later)) == Some(Str("Validation timed out."))
    ensures e == SendThrew ==> ValidationError(FirstOutcome([e] + later)) == Some(Str("Failed to run validation."))
    ensures e.Loaded? && !(200 <= e.status < 300) ==>
      ValidationError(FirstOutcome([e] + later)) == Some(Str("Validation service unavailable."))
    ensures e.Loaded? && 200 <= e.status < 300 && e.body.None? ==>
      ValidationError(FirstOutcome([e] + later)) == Some(Str("Invalid server response."))
    ensures e.Loaded? && 200 <= e.status < 300 && e.body.Some? ==>
      ValidationError(FirstOutcome([e] + later)) == ValidationError(e.body.value)
  {
    LaterEventsIgnored([e], later);
  }

  /** `{ valid, reason }` as the server's `/validate` encodes it. */
  function VerdictJson(r: Api.Validation): JsValue {
    Pair("valid", Bool(r.valid), "reason", Str(r.reason))
  }

  /** A verdict that reaches the client is obeyed: it goes ahead exactly when the server said valid, else it shows the server's reason. */
  lemma ServerVerdictObeyed(message: string, status: int, later: seq<XhrEvent>)
    requires 200 <= status < 300
    ensures var verdict := Api.ValidateQuestion(message);
      var err := ValidationError(FirstOutcome([Loaded(status, Some(VerdictJson(verdict)))] + later));
      && (err.None? <==> verdict.valid)
      && (!verdict.valid ==> err == Some(Str(verdict.reason)))
  {
    var verdict := Api.ValidateQuestion(message);
    assert !verdict.valid ==> verdict.reason != "";
    VerdictReached(verdict, status, later);
  }

  /** Any `{valid, reason}` verdict with a non-empty reason when invalid is read back as the server meant it. */
  lemma VerdictReached(verdict: Api.Validation, status: int, later: seq<XhrEvent>)
    requires 200 <= status < 300
    requires !verdict.valid ==> verdict.reason != ""
    ensures var err := ValidationError(FirstOutcome([Loaded(status, Some(VerdictJson(verdict)))] + later));
      && (err.None? <==> verdict.valid)
      && (!verdict.valid ==> err == Some(Str(verdict.reason)))
  {
    LaterEventsIgnored([Loaded(status, Some(VerdictJson(verdict)))], later);
  }

  /** `(user && user.user_id) ? user.user_id : 0` */
  function PayloadUserId(user: JsValue): (id: JsValue)
    ensures Truthy(id) ==> id == Get(user, "user_id")
    ensures Truthy(user) && Truthy(Get(user, "user_id")) ==> id == Get(user, "user_id")
    ensures !Truthy(Get(user, "user_id")) ==> id == Num(0)
  {
    if Truthy(user) && Truthy(Get(user, "user_id")) then Get(user, "user_id") else Num(0)
  }

  /** The body of `POST /submit`. */
  function SubmitPayload(message: string, user: JsValue): (p: JsValue)
    ensures Get(p, "message") == Str(Trim(message)) && Get(p, "user_id") == PayloadUserId(user)
  {
    Pair("message", Str(Trim(message)), "user_id", PayloadUserId(user))
  }

  /** A message the server validated is one `/submit` accepts once trimmed: 1 to 500 characters. */
  lemma ValidatedMessageFitsSubmit(message: string)
    requires Api.ValidateQuestion(message).valid
    ensures 1 <= |Trim(message)| <= Api.MaxQuestionLength
  {
  }

  class Form {
    var message: string
    var loading: bool
    var validationError: JsValue
    /** Messages sent to `/validate`, and bodies posted to `/submit`. */
    var validations: seq<string>
    var submissions: seq<JsValue>
    /** How many times `onSubmitted` ran. */
    var submittedCalls: nat

    constructor ()
      ensures message == "" && !loading && validationError == Str("")
      ensures validations == [] && submissions == [] && submittedCalls == 0
    {
      message, loading, validationError := "", false, Str("");
      validations, submissions, submittedCalls := [], [], 0;
    }

    /** Typing into the box. */
    method Edit(text: string)
      modifies this
      ensures message == text
      ensures loading == old(loading) && validationError == old(validationError)
      ensures validations == old(validations) && submissions == old(submissions) && submittedCalls == old(submittedCalls)
    {
      message := text;
    }

    /**
     * `handleSubmit`: `user` is the logged-in user or `null`, `events` what
     * settles the validation request, and `submitOk` whether the submit POST
     * succeeded.
     */
    method HandleSubmit(user: JsValue, events: seq<XhrEvent>, submitOk: bool)
      modifies this
      ensures IsBlankInput(old(message)) ==>
        && validationError == Str(BlankError) && loading == old(loading)
        && validations == old(validations) && submissions == old(submissions)
        && message == old(message) && submittedCalls == old(submittedCalls)
      ensures !IsBlankInput(old(message)) ==> validations == old(validations) + [old(message)] && !loading
      ensures !IsBlankInput(old(message)) && ValidationError(FirstOutcome(events)).Some? ==>
        && validationError == ValidationError(FirstOutcome(events)).value
        && submissions == old(submissions) && message == old(message) && submittedCalls == old(submittedCalls)
      ensures !IsBlankInput(old(message)) && ValidationError(FirstOutcome(events)).None? ==>
        && submissions == old(submissions) + [SubmitPayload(old(message), user)]
        && (submitOk ==> message == "" && validationError == Str("") && submittedCalls == old(submittedCalls) + 1)
        && (!submitOk ==> message == old(message) && validationError == Str(SubmissionFailed) && submittedCalls == old(submittedCalls))
    {
      validationError := Str("");
      if IsBlankInput(message) {
        validationError := Str(BlankError);
        return;
      }
      loading := true;
      validations := validations + [message];
      var validation := ValidateWithXhr(events);
      var err := ValidationError(validation);
      if err.Some? {
        validationError := err.value;
        loading := false;
        return;
      }
      Submit(SubmitPayload(message, user), submitOk);
    }

    /** The `/submit` POST and its outcome, once validation has passed. */
    method Submit(payload: JsValue, submitOk: bool)
      modifies this
      ensures submissions == old(submissions) + [payload] && !loading && validations == old(validations)
      ensures submitOk ==> message == "" && validationError == Str("") && submittedCalls == old(submittedCalls) + 1
      ensures !submitOk ==> message == old(message) && validationError == Str(SubmissionFailed) && submittedCalls == old(submittedCalls)
    {
      submissions := submissions + [payload];
      if submitOk {
        message := "";
        validationError := Str("");
        submittedCalls := submittedCalls + 1;
      } else {
        validationError := Str(SubmissionFailed);
      }
      loading := false;
    }
  }
}
