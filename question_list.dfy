/**
 * The question list of frontend/components/QuestionList.js: the login gate
 * on mark-answered and escalate, the answer prompt, the answers-panel
 * toggle, and the author and answer-count labels.
 */
module QuestionList {
  import opened Wrappers
  import opened Text
  import opened Js
  import opened Toasts
  import Store
  import Api
  import QuestionForm

  /** A request the list sends to the server. */
  datatype Request =
    | MarkRequest(questionId: JsValue)
    | EscalateRequest(questionId: JsValue)
    | AnswerRequest(payload: JsValue)

  /** `` `User ${uid}` ``, or `None` where the template literal throws. */
  function UserLabel(uid: JsValue): (r: Option<JsValue>)
    ensures r.None? <==> ConversionThrows(uid)
    ensures uid.Num? ==> r == Some(Str("User " + DecimalString(uid.n)))
  {
    match ToText(uid)
    case Some(text) => Some(Str("User " + text))
    case None => None
  }

  /**
   * The author shown for a question: the username or `User <id>` for a
   * nonzero id, else "Guest"; `None` where rendering the label throws.
   */
  function QuestionAuthor(q: JsValue): (shown: Option<JsValue>)
    ensures !Truthy(Get(q, "user_id")) ==> shown == Some(Str("Guest"))
    ensures Truthy(Get(q, "user_id")) && Get(q, "user_id") != Num(0) && Truthy(Get(q, "username")) ==> shown == Some(Get(q, "username"))
    ensures shown.None? <==>
      Truthy(Get(q, "user_id")) && Get(q, "user_id") != Num(0) && !Truthy(Get(q, "username")) && ConversionThrows(Get(q, "user_id"))
  {
    var uid := Get(q, "user_id");
    if Truthy(uid) && uid != Num(0) then
      (if Truthy(Get(q, "username")) then Some(Get(q, "username")) else UserLabel(uid))
    else Some(Str("Guest"))
  }

  /**
   * The author shown for an answer: the username when there is one, else
   * `User <id>` for a nonzero id, else "Guest"; `None` where rendering throws.
   */
  function AnswerAuthor(a: JsValue): (shown: Option<JsValue>)
    ensures Truthy(Get(a, "username")) ==> shown == Some(Get(a, "username"))
    ensures !Truthy(Get(a, "username")) && !Truthy(Get(a, "user_id")) ==> shown == Some(Str("Guest"))
    ensures shown.None? <==>
      !Truthy(Get(a, "username")) && Truthy(Get(a, "user_id")) && Get(a, "user_id") != Num(0) && ConversionThrows(Get(a, "user_id"))
  {
    var uid := Get(a, "user_id");
    if Truthy(Get(a, "username")) then Some(Get(a, "username"))
    else if Truthy(uid) && uid != Num(0) then UserLabel(uid)
    else Some(Str("Guest"))
  }

  /** `v.length` for the values the list can meet. */
  function Length(v: JsValue): JsValue {
    match v
    case Arr(items) => Num(|items|)
    case Str(s) => Num(Utf16Length(s))
    case Obj(_) => Get(v, "length")
    case _ => Undefined
  }

  /** `(q.answers && q.answers.length) || 0` */
  function AnswerCount(q: JsValue): (n: JsValue)
    ensures Get(q, "answers").Arr? ==> n == Num(|Get(q, "answers").items|)
    ensures !Truthy(Get(q, "answers")) ==> n == Num(0)
  {
    var answers := Get(q, "answers");
    Or(if Truthy(answers) then Length(answers) else answers, Num(0))
  }

  /** A question the server sends shows its stored author: the name for a nonzero id with a name, "Guest" for id 0. */
  lemma StoredQuestionAuthor(row: Store.QuestionRow)
    ensures row.userId == 0 ==> QuestionAuthor(Api.QuestionJson(row)) == Some(Str("Guest"))
    ensures row.userId != 0 && row.username != "" ==> QuestionAuthor(Api.QuestionJson(row)) == Some(Str(row.username))
    ensures row.userId != 0 && row.username == "" ==>
      QuestionAuthor(Api.QuestionJson(row)) == Some(Str("User " + DecimalString(row.userId)))
  {
    var j := Api.QuestionJson(row);
    assert Get(j, "user_id") == Num(row.userId);
    assert Get(j, "username") == Str(row.username);
  }

  /** An answer the server sends shows its stored name whenever it has one. */
  lemma StoredAnswerAuthor(a: Store.AnswerRow)
    ensures a.username != "" ==> AnswerAuthor(Api.AnswerJson(a)) == Some(Str(a.username))
    ensures a.username == "" && a.userId == 0 ==> AnswerAuthor(Api.AnswerJson(a)) == Some(Str("Guest"))
    ensures a.username == "" && a.userId != 0 ==> AnswerAuthor(Api.AnswerJson(a)) == Some(Str("User " + DecimalString(a.userId)))
  {
    var j := Api.AnswerJson(a);
    assert Get(j, "user_id") == Num(a.userId);
    assert Get(j, "username") == Str(a.username);
  }

  /** The count on a question the server sends is the number of its answers. */
  lemma StoredAnswerCount(v: Store.QuestionView)
    ensures AnswerCount(Api.ViewJson(v)) == Num(|v.answers|)
  {
  }

  /** `message: ans.trim()` with the question id and `user_id` as in the question form. */
  function AnswerPayload(questionId: JsValue, user: JsValue, answer: string): (p: JsValue)
    ensures Get(p, "question_id") == questionId
    ensures Get(p, "user_id") == QuestionForm.PayloadUserId(user)
    ensures Get(p, "message") == Str(Trim(answer))
  {
    Triple("question_id", questionId, "user_id", QuestionForm.PayloadUserId(user), "message", Str(Trim(answer)))
  }

  /** `!ans || !ans.trim()`: the prompt was cancelled (`null`) or left blank. */
  predicate IsNoAnswer(answer: Option<string>) {
    answer.None? || answer.value == [] || IsBlank(answer.value)
  }

  /** An answer that gets past the prompt check has a non-empty trimmed message, as `/answer` requires. */
  lemma SentAnswerNotEmpty(answer: Option<string>)
    requires !IsNoAnswer(answer)
    ensures |Trim(answer.value)| >= 1
  {
    TrimEmptyIffBlank(answer.value);
  }

  class ListPanel {
    /** `openAnswersFor`: the question whose answers are shown, or `null`. */
    var openAnswersFor: JsValue
    var toasts: seq<Toast>
    var requests: seq<Request>
    /** How many times `onAction` ran. */
    var actionCalls: nat

    constructor ()
      ensures openAnswersFor == Null && toasts == [] && requests == [] && actionCalls == 0
    {
      openAnswersFor, toasts, requests, actionCalls := Null, [], [], 0;
    }

    /** Whether the answers of the question with this id are shown. */
    predicate IsOpen(questionId: JsValue)
      reads this
    {
      openAnswersFor == questionId
    }

    /** The Answers button: closes the panel of the question clicked if it is open, else opens it. */
    method ToggleAnswers(questionId: JsValue)
      modifies this
      ensures old(IsOpen(questionId)) ==> openAnswersFor == Null
      ensures !old(IsOpen(questionId)) ==> IsOpen(questionId)
      ensures forall other :: other != questionId && other != Null ==> !IsOpen(other)
      ensures toasts == old(toasts) && requests == old(requests) && actionCalls == old(actionCalls)
    {
      openAnswersFor := if openAnswersFor == questionId then Null else questionId;
    }

    /** `markAnswered(id)`: without a user only a warning; otherwise the request, then `onAction` or an error toast. */
    method MarkAnswered(questionId: JsValue, user: JsValue, ok: bool)
      modifies this
      ensures !Truthy(user) ==>
        && toasts == old(toasts) + [Toast(Warn, "You must log in to mark answered")]
        && requests == old(requests) && actionCalls == old(actionCalls)
      ensures Truthy(user) ==> requests == old(requests) + [MarkRequest(questionId)]
      ensures Truthy(user) && ok ==> actionCalls == old(actionCalls) + 1 && toasts == old(toasts)
      ensures Truthy(user) && !ok ==> actionCalls == old(actionCalls) && toasts == old(toasts) + [Toast(Error, "Failed to mark answered")]
      ensures openAnswersFor == old(openAnswersFor)
    {
      if !Truthy(user) {
        toasts := toasts + [Toast(Warn, "You must log in to mark answered")];
        return;
      }
      requests := requests + [MarkRequest(questionId)];
      if ok {
        actionCalls := actionCalls + 1;
      } else {
        toasts := toasts + [Toast(Error, "Failed to mark answered")];
      }
    }

    /** `escalate(id)`: the same gate with its own texts. */
    method Escalate(questionId: JsValue, user: JsValue, ok: bool)
      modifies this
      ensures !Truthy(user) ==>
        && toasts == old(toasts) + [Toast(Warn, "You must log in to escalate")]
        && requests == old(requests) && actionCalls == old(actionCalls)
      ensures Truthy(user) ==> requests == old(requests) + [EscalateRequest(questionId)]
      ensures Truthy(user) && ok ==> actionCalls == old(actionCalls) + 1 && toasts == old(toasts)
      ensures Truthy(user) && !ok ==> actionCalls == old(actionCalls) && toasts == old(toasts) + [Toast(Error, "Failed to escalate")]
      ensures openAnswersFor == old(openAnswersFor)
    {
      if !Truthy(user) {
        toasts := toasts + [Toast(Warn, "You must log in to escalate")];
        return;
      }
      requests := requests + [EscalateRequest(questionId)];
      if ok {
        actionCalls := actionCalls + 1;
      } else {
        toasts := toasts + [Toast(Error, "Failed to escalate")];
      }
    }

    /**
     * `submitAnswer(id)`: `answer` is what `prompt` returned (`None` for
     * cancel); no login is needed. After a successful post the panel of that
     * question is open.
     */
    method SubmitAnswer(questionId: JsValue, user: JsValue, answer: Option<string>, ok: bool)
      modifies this
      ensures IsNoAnswer(answer) ==>
        && requests == old(requests) && toasts == old(toasts)
        && actionCalls == old(actionCalls) && openAnswersFor == old(openAnswersFor)
      ensures !IsNoAnswer(answer) ==> requests == old(requests) + [AnswerRequest(AnswerPayload(questionId, user, answer.value))]
      ensures !IsNoAnswer(answer) && ok ==>
        && toasts == old(toasts) + [Toast(Toasts.Level.Success, "Answer posted")]
        && actionCalls == old(actionCalls) + 1 && IsOpen(questionId)
      ensures !IsNoAnswer(answer) && !ok ==>
        && toasts == old(toasts) + [Toast(Error, "Failed to post answer")]
        && actionCalls == old(actionCalls) && openAnswersFor == old(openAnswersFor)
    {
      if IsNoAnswer(answer) {
        return;
      }
      requests := requests + [AnswerRequest(AnswerPayload(questionId, user, answer.value))];
      if ok {
        toasts := toasts + [Toast(Toasts.Level.Success, "Answer posted")];
        actionCalls := actionCalls + 1;
        openAnswersFor := questionId;
      } else {
        toasts := toasts + [Toast(Error, "Failed to post answer")];
      }
    }
  }
}
