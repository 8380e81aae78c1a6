/**
 * The dashboard page's resynchronisation policy (frontend/pages/index.js):
 * building the query parameters of `GET /questions`, replacing the question
 * snapshot with each response, and reacting to push events.
 */
module Reconcile {
  import opened Wrappers
  import opened Text
  import opened Js
  import opened Toasts
  import PushChannel

  /** The three search inputs; React state that always holds a string. */
  datatype SearchState = SearchState(text: string, user: string, status: string)

  const EmptySearch := SearchState("", "", "")

  /** The `opts` argument of `fetchQuestions`; a missing field is `undefined`. */
  datatype FetchOpts = FetchOpts(q: JsValue, user: JsValue, status: JsValue)

  /** `fetchQuestions()` */
  const NoOpts := FetchOpts(Undefined, Undefined, Undefined)

  /** `fetchQuestions({ q: "", user: "", status: "" })` from the Clear button. */
  const ClearOpts := FetchOpts(Str(""), Str(""), Str(""))

  /** A `params` object; axios sends one query parameter per key. */
  type Params = map<string, JsValue>

  /** A user token that trims to a non-empty string spelling "guest" in any case. */
  predicate IsGuestToken(s: string) {
    Trim(s) != [] && ToLower(Trim(s)) == "guest"
  }

  /** The guest special case: the token is replaced by the anonymous id `"0"`; anything else is kept untrimmed. */
  function UserParam(v: JsValue): (r: JsValue)
    ensures v.Str? && IsGuestToken(v.s) ==> r == Str("0")
    ensures !(v.Str? && IsGuestToken(v.s)) ==> r == v
  {
    if v.Str? && IsGuestToken(v.s) then Str("0") else v
  }

  /** The `params` object before empty keys are deleted; `opts` wins over state unless it is `null` or `undefined`. */
  function DraftParams(opts: FetchOpts, st: SearchState): Params {
    var userParam := UserParam(Coalesce(Coalesce(opts.user, Str(st.user)), Undefined));
    map[
      "q" := Coalesce(Coalesce(opts.q, Str(st.text)), Undefined),
      "user" := Coalesce(userParam, Undefined),
      "status" := Coalesce(Coalesce(opts.status, Str(st.status)), Undefined)
    ]
  }

  /** The three draft values: each box's value unless `opts` overrides it, with the guest mapping on `user`. */
  lemma DraftValues(opts: FetchOpts, st: SearchState)
    ensures DraftParams(opts, st) == map[
      "q" := Coalesce(opts.q, Str(st.text)),
      "user" := UserParam(Coalesce(opts.user, Str(st.user))),
      "status" := Coalesce(opts.status, Str(st.status))
    ]
  {
  }

  predicate IsEmptyParam(v: JsValue) {
    v == Undefined || v == Null || v == Str("")
  }

  /** The keys that survive: exactly those whose value is not `undefined`, `null` or `""`, with their values. */
  function Compact(p: Params): (r: Params)
    ensures forall k :: k in r <==> k in p && !IsEmptyParam(p[k])
    ensures forall k :: k in r ==> r[k] == p[k]
  {
    map k | k in p && !IsEmptyParam(p[k]) :: p[k]
  }

  /** The parameters `fetchQuestions(opts)` sends, given the search state it closes over. */
  function RequestParams(opts: FetchOpts, st: SearchState): Params {
    Compact(DraftParams(opts, st))
  }

  /** Builds `params` and deletes its empty keys one by one, in `Object.keys` order. */
  method BuildParams(opts: FetchOpts, st: SearchState) returns (params: Params)
    ensures params == RequestParams(opts, st)
  {
    var draft := DraftParams(opts, st);
    params := DeleteEmpty(draft, ["q", "user", "status"]);
  }

  /** The `for (const k of Object.keys(params))` loop: every listed key whose value is empty is deleted. */
  method DeleteEmpty(draft: Params, keys: seq<string>) returns (params: Params)
    requires forall k :: k in draft <==> k in keys
    ensures params == Compact(draft)
  {
    params := draft;
    var i := 0;
    while i < |keys|
      invariant 0 <= i <= |keys|
      invariant params.Keys <= draft.Keys
      invariant forall k :: k in params ==> params[k] == draft[k]
      invariant forall k :: k in draft && k !in keys[..i] ==> k in params
      invariant forall k :: k in draft && k in keys[..i] ==> (k in params <==> !IsEmptyParam(draft[k]))
    {
      var k := keys[i];
      if k in params && IsEmptyParam(params[k]) {
        params := params - {k};
      }
      assert keys[..i + 1] == keys[..i] + [k];
      i := i + 1;
    }
    assert keys[..|keys|] == keys;
    assert params.Keys == Compact(draft).Keys;
  }

  /** The text box is sent as `q` exactly when it is not empty, untouched. */
  lemma QueryKey(opts: FetchOpts, st: SearchState)
    ensures var v := Coalesce(opts.q, Str(st.text));
      && ("q" in RequestParams(opts, st) <==> !IsEmptyParam(v))
      && ("q" in RequestParams(opts, st) ==> RequestParams(opts, st)["q"] == v)
  {
  }

  /** The user box is sent as `user` exactly when its guest-mapped value is not empty. */
  lemma UserKey(opts: FetchOpts, st: SearchState)
    ensures var v := UserParam(Coalesce(opts.user, Str(st.user)));
      && ("user" in RequestParams(opts, st) <==> !IsEmptyParam(v))
      && ("user" in RequestParams(opts, st) ==> RequestParams(opts, st)["user"] == v)
  {
    DraftValues(opts, st);
  }

  /** The status box is sent as `status` exactly when it is not empty, untouched. */
  lemma StatusKey(opts: FetchOpts, st: SearchState)
    ensures var v := Coalesce(opts.status, Str(st.status));
      && ("status" in RequestParams(opts, st) <==> !IsEmptyParam(v))
      && ("status" in RequestParams(opts, st) ==> RequestParams(opts, st)["status"] == v)
  {
    DraftValues(opts, st);
  }

  /** A user value equal to "guest" after trimming and lower-casing is sent as `"0"`. */
  lemma GuestBecomesZero(opts: FetchOpts, st: SearchState)
    requires Coalesce(opts.user, Str(st.user)).Str?
    requires ToLower(Trim(Coalesce(opts.user, Str(st.user)).s)) == "guest"
    ensures "user" in RequestParams(opts, st) && RequestParams(opts, st)["user"] == Str("0")
  {
    UserKey(opts, st);
    assert UserParam(Coalesce(opts.user, Str(st.user))) == Str("0");
  }

  /** Any other non-empty user string is sent exactly as typed, surrounding whitespace included. */
  lemma OtherUserSentUntrimmed(opts: FetchOpts, st: SearchState, u: string)
    requires Coalesce(opts.user, Str(st.user)) == Str(u)
    requires u != [] && !IsGuestToken(u)
    ensures "user" in RequestParams(opts, st) && RequestParams(opts, st)["user"] == Str(u)
  {
    UserKey(opts, st);
  }

  /** The text parameter is never trimmed either. */
  lemma QuerySentUntrimmed(opts: FetchOpts, st: SearchState, q: string)
    requires Coalesce(opts.q, Str(st.text)) == Str(q) && q != []
    ensures "q" in RequestParams(opts, st) && RequestParams(opts, st)["q"] == Str(q)
  {
    QueryKey(opts, st);
  }

  /** The Clear button's `""` options override whatever stale state the closure holds: no parameter is sent. */
  lemma {:induction false} ClearSendsNoParams(st: SearchState)
    ensures RequestParams(ClearOpts, st) == map[]
  {
    assert TrimStart("") == "";
    assert UserParam(Str("")) == Str("");
    assert DraftParams(ClearOpts, st) == map["q" := Str(""), "user" := Str(""), "status" := Str("")];
    CompactOnlyUser(Str(""));
  }

  /** With empty text and status, only a non-empty user value survives. */
  lemma CompactOnlyUser(v: JsValue)
    ensures var r := Compact(map["q" := Str(""), "user" := v, "status" := Str("")]);
      r == if IsEmptyParam(v) then map[] else map["user" := v]
  {
    var r := Compact(map["q" := Str(""), "user" := v, "status" := Str("")]);
    assert "q" !in r && "status" !in r;
    if IsEmptyParam(v) {
      assert r.Keys == {};
    } else {
      assert r.Keys == {"user"};
    }
  }

  /** "Guest", as typed in the user box, is the guest token. */
  lemma GuestIsGuestToken()
    ensures IsGuestToken("Guest")
  {
    assert TrimStart("Guest") == "Guest";
    assert TrimEnd("Guest") == "Guest";
    var lower := ToLower("Guest");
    assert lower[0] == 'g' && lower[1] == 'u' && lower[2] == 'e' && lower[3] == 's' && lower[4] == 't';
    assert lower == "guest";
  }

  /** The example filter `{q: "", user: "Guest", status: ""}` is sent as `{user: "0"}`. */
  lemma GuestOnlyFilter()
    ensures RequestParams(NoOpts, SearchState("", "Guest", "")) == map["user" := Str("0")]
  {
    GuestIsGuestToken();
    GuestOnlySearch("Guest");
  }

  /** Before deletion, a guest-only search holds two empty keys and the anonymous id. */
  lemma GuestOnlyDraft(u: string)
    requires IsGuestToken(u)
    ensures DraftParams(NoOpts, SearchState("", u, "")) == map["q" := Str(""), "user" := Str("0"), "status" := Str("")]
  {
    DraftValues(NoOpts, SearchState("", u, ""));
  }

  /** A search holding only a guest token is sent as `{user: "0"}`. */
  lemma GuestOnlySearch(u: string)
    requires IsGuestToken(u)
    ensures RequestParams(NoOpts, SearchState("", u, "")) == map["user" := Str("0")]
  {
    GuestOnlyDraft(u);
    CompactOnlyUser(Str("0"));
  }

  /** How one fetch settles: the response body, or a rejected request. */
  datatype FetchOutcome = Received(data: JsValue) | FetchFailed

  /** A response replaces the snapshot wholesale with `res.data || []`; a failure leaves it as it was. */
  function Settle(snapshot: JsValue, outcome: FetchOutcome): (r: JsValue)
    ensures outcome.FetchFailed? ==> r == snapshot
    ensures outcome.Received? ==> Truthy(r) && (Truthy(outcome.data) ==> r == outcome.data)
  {
    match outcome
    case Received(data) => Or(data, Arr([]))
    case FetchFailed => snapshot
  }

  /** Fetches settling in the given order (their completion order, not their issue order). */
  function SettleAll(snapshot: JsValue, outcomes: seq<FetchOutcome>): JsValue {
    if outcomes == [] then snapshot
    else Settle(SettleAll(snapshot, outcomes[..|outcomes| - 1]), outcomes[|outcomes| - 1])
  }

  /** The body of the response that completed last, if any fetch succeeded. */
  function LastReceived(outcomes: seq<FetchOutcome>): Option<JsValue> {
    if outcomes == [] then None
    else if outcomes[|outcomes| - 1].Received? then Some(outcomes[|outcomes| - 1].data)
    else LastReceived(outcomes[..|outcomes| - 1])
  }

  /**
   * Last completion wins: after any interleaving of completions the snapshot
   * is the body of the response that completed last, and failures in between
   * change nothing.
   */
  lemma {:induction false} LastCompletedWins(snapshot: JsValue, outcomes: seq<FetchOutcome>)
    ensures SettleAll(snapshot, outcomes) ==
      match LastReceived(outcomes)
      case None => snapshot
      case Some(data) => Or(data, Arr([]))
  {
    if outcomes != [] {
      LastCompletedWins(snapshot, outcomes[..|outcomes| - 1]);
    }
  }

  /** What `handleWS` does before it fetches: nothing, raise a toast, or throw while building the toast text. */
  datatype Reaction = Quiet | Raise(toast: Toast) | Throw

  /** `payload?.question_id ? payload.question_id : ""` */
  function QuestionIdOf(payload: JsValue): (id: JsValue)
    ensures Truthy(Get(payload, "question_id")) ==> id == Get(payload, "question_id")
    ensures !Truthy(Get(payload, "question_id")) ==> id == Str("")
    ensures ConversionThrows(id) <==> ConversionThrows(Get(payload, "question_id"))
  {
    if Truthy(Get(payload, "question_id")) then Get(payload, "question_id") else Str("")
  }

  /** A toast whose text names the question, or a throw where the id cannot become text. */
  function Named(level: Level, prefix: string, id: JsValue, suffix: string): (r: Reaction)
    ensures r == Throw <==> ConversionThrows(id)
    ensures r != Throw ==> r == Raise(Toast(level, prefix + ToText(id).value + suffix))
  {
    match ToText(id)
    case Some(text) => Raise(Toast(level, prefix + text + suffix))
    case None => Throw
  }

  /** The events whose toast names the question. */
  const NamingEvents := {Str("answered"), Str("escalated"), Str("new_answer")}

  /** The level, and the text before and after the question id, of each naming event's toast. */
  function NamingToast(event: JsValue): (Level, string, string) {
    if event == Str("answered") then (Level.Success, "Question ", " answered")
    else if event == Str("escalated") then (Warn, "Question ", " escalated")
    else (Info, "New answer received for question ", "")
  }

  /** The toast that accompanies a push event, if any, or the throw that cuts `handleWS` short. */
  function EventToast(event: JsValue, payload: JsValue): (r: Reaction)
    ensures !Truthy(payload) ==> r == Quiet
    ensures r.Raise? ==> event == Str("new_question") || event in NamingEvents
    ensures Truthy(payload) && (event == Str("new_question") || event in NamingEvents) ==> r != Quiet
    ensures r == Throw <==> Truthy(payload) && event in NamingEvents && ConversionThrows(Get(payload, "question_id"))
    ensures Truthy(payload) && event == Str("new_question") ==> r == Raise(Toast(Info, "New question received"))
    ensures Truthy(payload) && event in NamingEvents ==>
      var (level, prefix, suffix) := NamingToast(event);
      r == Named(level, prefix, QuestionIdOf(payload), suffix)
  {
    if !Truthy(payload) then Quiet
    else
      var questionId := QuestionIdOf(payload);
      if event == Str("new_question") then Raise(Toast(Info, "New question received"))
      else if event == Str("answered") then Named(Level.Success, "Question ", questionId, " answered")
      else if event == Str("escalated") then Named(Warn, "Question ", questionId, " escalated")
      else if event == Str("new_answer") then Named(Info, "New answer received for question ", questionId, "")
      else Quiet
  }

  /** The toast of each known kind, for a truthy payload. */
  lemma ToastPerKind(payload: JsValue)
    requires Truthy(payload)
    ensures EventToast(Str("new_question"), payload) == Raise(Toast(Info, "New question received"))
    ensures EventToast(Str("answered"), payload) == Named(Level.Success, "Question ", QuestionIdOf(payload), " answered")
    ensures EventToast(Str("escalated"), payload) == Named(Warn, "Question ", QuestionIdOf(payload), " escalated")
    ensures EventToast(Str("new_answer"), payload) == Named(Info, "New answer received for question ", QuestionIdOf(payload), "")
  {
    assert Str("answered") in NamingEvents && Str("escalated") in NamingEvents && Str("new_answer") in NamingEvents;
  }

  function ToastList(r: Reaction): seq<Toast> {
    if r.Raise? then [r.toast] else []
  }

  /**
   * An `escalated` frame with a payload raises one warning naming the question
   * id it carries, unless that id cannot become text.
   */
  lemma EscalatedFrameWarns(data: string, payload: JsValue)
    requires Truthy(payload)
    ensures var frame := Obj(map["event" := Str("escalated"), "payload" := payload]);
      var d := PushChannel.Classify(data, Some(frame));
      var id := QuestionIdOf(payload);
      && (ConversionThrows(id) ==> EventToast(d.event, d.payload) == Throw)
      && (!ConversionThrows(id) ==> EventToast(d.event, d.payload) == Raise(Toast(Warn, "Question " + ToText(id).value + " escalated")))
  {
    var frame := Obj(map["event" := Str("escalated"), "payload" := payload]);
    assert Get(frame, "event") == Str("escalated");
    assert Get(frame, "payload") == payload;
  }

  /** A `raw` call never throws and never raises a toast. */
  lemma RawIsQuiet(data: string)
    ensures EventToast(Str("raw"), Str(data)) == Quiet
  {
  }

  /**
   * A frame whose question id cannot become text (an object with its own
   * `toString`) makes `handleWS` throw before its fetch; the push client then
   * calls it again with the raw text, which raises no toast.
   */
  lemma UnprintableIdFallsBackToRaw(data: string, event: JsValue, id: JsValue)
    requires event in NamingEvents && ConversionThrows(id)
    ensures var frame := Obj(map["event" := event, "payload" := Obj(map["question_id" := id])]);
      var d := PushChannel.Classify(data, Some(frame));
      && EventToast(d.event, d.payload) == Throw
      && PushChannel.OnMessage(data, Some(frame), true) == [d, PushChannel.Dispatch(Str("raw"), Str(data))]
      && EventToast(Str("raw"), Str(data)) == Quiet
  {
    var payload := Obj(map["question_id" := id]);
    var frame := Obj(map["event" := event, "payload" := payload]);
    assert Get(frame, "event") == event && Truthy(event);
    assert Get(frame, "payload") == payload;
    assert Get(payload, "question_id") == id;
  }

  const FetchFailedToast := Toast(Error, "Failed to fetch questions")

  /** The dashboard page: its snapshot, search inputs, issued requests and raised toasts. */
  class Home {
    /** The `questions` state: the last snapshot the server sent. */
    var questions: JsValue
    var search: SearchState
    /** The parameters of every `GET /questions`, in issue order. */
    var requests: seq<Params>
    var toasts: seq<Toast>

    /** Mounting: an empty list and blank inputs, and one initial fetch. */
    constructor ()
      ensures questions == Arr([]) && search == EmptySearch && toasts == []
      ensures requests == [map[]]
    {
      questions, search, toasts, requests := Arr([]), EmptySearch, [], [];
      new;
      FetchQuestions(NoOpts);
      ClearSendsNoParams(EmptySearch);
      assert RequestParams(NoOpts, EmptySearch) == RequestParams(ClearOpts, EmptySearch);
    }

    /** Typing into the search inputs. */
    method EditSearch(st: SearchState)
      modifies this
      ensures search == st
      ensures questions == old(questions) && requests == old(requests) && toasts == old(toasts)
    {
      search := st;
    }

    /** `fetchQuestions(opts)` issuing its request; the response arrives later through `OnFetchSettled`. */
    method FetchQuestions(opts: FetchOpts)
      modifies this
      ensures requests == old(requests) + [RequestParams(opts, search)]
      ensures questions == old(questions) && search == old(search) && toasts == old(toasts)
    {
      var params := BuildParams(opts, search);
      requests := requests + [params];
    }

    /** A fetch completes: a response replaces the snapshot, a failure keeps it and raises one error toast. */
    method OnFetchSettled(outcome: FetchOutcome)
      modifies this
      ensures questions == Settle(old(questions), outcome)
      ensures toasts == old(toasts) + (if outcome.FetchFailed? then [FetchFailedToast] else [])
      ensures requests == old(requests) && search == old(search)
    {
      match outcome
      case Received(data) =>
        questions := Or(data, Arr([]));
      case FetchFailed =>
        toasts := toasts + [FetchFailedToast];
    }

    /**
     * `handleWS`: a push event raises its toast, if any, then fetches once;
     * when building the toast text throws, neither happens.
     */
    method HandleWS(event: JsValue, payload: JsValue) returns (threw: bool)
      modifies this
      ensures threw <==> EventToast(event, payload) == Throw
      ensures requests == old(requests) + (if threw then [] else [RequestParams(NoOpts, search)])
      ensures toasts == old(toasts) + ToastList(EventToast(event, payload))
      ensures questions == old(questions) && search == old(search)
    {
      var r := EventToast(event, payload);
      if r == Throw {
        return true;
      }
      if r.Raise? {
        toasts := toasts + [r.toast];
      }
      FetchQuestions(NoOpts);
      threw := false;
    }

    /**
     * One frame through the push client's `onmessage` into `handleWS`: every
     * frame raises its event's toast, unless building it throws, and causes
     * exactly one fetch, made by the event or by the `raw` call that follows
     * a throw.
     */
    method OnFrame(data: string, parsed: Option<JsValue>)
      modifies this
      ensures var d := PushChannel.Classify(data, parsed);
        toasts == old(toasts) + ToastList(EventToast(d.event, d.payload))
      ensures requests == old(requests) + [RequestParams(NoOpts, search)]
      ensures questions == old(questions) && search == old(search)
    {
      var d := PushChannel.Classify(data, parsed);
      if parsed.None? {
        assert d == PushChannel.Dispatch(Str("raw"), Str(data));
        RawIsQuiet(data);
      }
      var threw := HandleWS(d.event, d.payload);
      var calls := PushChannel.OnMessage(data, parsed, threw);
      if |calls| == 2 {
        assert requests == old(requests) && toasts == old(toasts);
        var raw := calls[1];
        assert raw == PushChannel.Dispatch(Str("raw"), Str(data));
        RawIsQuiet(data);
        threw := HandleWS(raw.event, raw.payload);
      } else {
        assert !threw;
      }
    }

    /** The Search button: a fetch with the current inputs. */
    method OnSearchSubmit()
      modifies this
      ensures requests == old(requests) + [RequestParams(NoOpts, search)]
      ensures questions == old(questions) && search == old(search) && toasts == old(toasts)
    {
      FetchQuestions(NoOpts);
    }

    /** The Clear button: blank inputs and a request with no parameters at all. */
    method OnClearSearch()
      modifies this
      ensures search == EmptySearch
      ensures requests == old(requests) + [map[]]
      ensures questions == old(questions) && toasts == old(toasts)
    {
      FetchQuestions(ClearOpts);
      ClearSendsNoParams(old(search));
      search := EmptySearch;
    }
  }
}
