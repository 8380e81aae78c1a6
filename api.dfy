/**
 * The HTTP handlers of backend/app/api.py over the `Store.Database` model:
 * question validation, the registration password policy, the list filter,
 * and the submit / mark-answered / escalate / answer handlers with the push
 * event each one hands to the broadcaster.
 */
module Api {
  import opened Wrappers
  import opened Text
  import opened Js
  import opened Sorting
  import opened Store

  // ---------------------------------------------------------------------------
  // Responses

  /**
   * What a handler answers: a body, an `HTTPException` with its status and
   * detail, or the 422 that FastAPI sends when the request model rejects the
   * body before the handler runs.
   */
  datatype Reply<+T> = Ok(body: T) | HttpError(status: nat, detail: string) | Unprocessable

  /** A push event handed to `broadcast(event, payload)`. */
  datatype Event = Event(name: string, payload: JsValue)

  /** A question row as JSON (the timestamp, an ISO string on the wire, is an integer here). */
  function QuestionJson(q: QuestionRow): (j: JsValue)
    ensures Get(j, "question_id") == Num(q.questionId)
    ensures Get(j, "status") == Str(q.status.Name())
  {
    Obj(map[
      "question_id" := Num(q.questionId),
      "user_id" := Num(q.userId),
      "message" := Str(q.message),
      "status" := Str(q.status.Name()),
      "timestamp" := Num(q.timestamp),
      "username" := Str(q.username)])
  }

  function AnswerJson(a: AnswerRow): JsValue {
    Obj(map[
      "answer_id" := Num(a.answerId),
      "question_id" := Num(a.questionId),
      "user_id" := Num(a.userId),
      "username" := Str(a.username),
      "message" := Str(a.message),
      "timestamp" := Num(a.timestamp)])
  }

  function AnswersJson(answers: seq<AnswerRow>): (items: seq<JsValue>)
    ensures |items| == |answers|
    ensures forall i :: 0 <= i < |answers| ==> items[i] == AnswerJson(answers[i])
  {
    if answers == [] then [] else [AnswerJson(answers[0])] + AnswersJson(answers[1..])
  }

  /** A `get_questions` item as JSON: the row with an `answers` array. */
  function ViewJson(v: QuestionView): (j: JsValue)
    ensures Get(j, "question_id") == Num(v.row.questionId)
    ensures Get(j, "answers") == Arr(AnswersJson(v.answers))
  {
    Obj(QuestionJson(v.row).props["answers" := Arr(AnswersJson(v.answers))])
  }

  // ---------------------------------------------------------------------------
  // POST /validate

  datatype Validation = Validation(valid: bool, reason: string)

  const MaxQuestionLength := 500
  const BlankReason := "Question cannot be blank."
  const TooLongReason := "Question too long. Maximum 500 characters."
  const NoAlnumReason := "Question must contain letters or numbers."
  const ProfanityReason := "Please avoid profanity."

  /** `re.search(r"[A-Za-z0-9]", msg)` */
  predicate HasAsciiAlnum(s: string) {
    exists i :: 0 <= i < |s| && IsAsciiLetterOrDigit(s[i])
  }

  /** Case-insensitive substring test against the two listed words. */
  predicate IsProfane(s: string) {
    var low := ToLower(s);
    Contains(low, "badword1") || Contains(low, "badword2")
  }

  /** `validate_question`: four checks on the stripped message, the first failure giving its fixed reason. */
  function ValidateQuestion(message: string): (r: Validation)
    ensures var m := Trim(message);
      r.valid <==> m != [] && |m| <= MaxQuestionLength && HasAsciiAlnum(m) && !IsProfane(m)
    ensures r.valid ==> r.reason == ""
    ensures !r.valid ==> r.reason in {BlankReason, TooLongReason, NoAlnumReason, ProfanityReason}
    ensures r.reason == BlankReason <==> IsBlank(message)
    ensures r.reason == TooLongReason <==> |Trim(message)| > MaxQuestionLength
    ensures r.reason == NoAlnumReason ==> Trim(message) != [] && !HasAsciiAlnum(Trim(message))
    ensures r.reason == ProfanityReason ==> IsProfane(Trim(message)) && HasAsciiAlnum(Trim(message))
  {
    TrimEmptyIffBlank(message);
    var m := Trim(message);
    if |m| == 0 then Validation(false, BlankReason)
    else if |m| > MaxQuestionLength then Validation(false, TooLongReason)
    else if !HasAsciiAlnum(m) then Validation(false, NoAlnumReason)
    else if IsProfane(m) then Validation(false, ProfanityReason)
    else Validation(true, "")
  }

  /** The profanity test does not see case: lower-casing the message first changes nothing. */
  lemma ProfanityIgnoresCase(s: string)
    ensures IsProfane(ToLower(s)) == IsProfane(s)
  {
    ToLowerIdempotent(s);
  }

  // ---------------------------------------------------------------------------
  // POST /register

  const PasswordPolicyDetail := "Password must be 8+ chars, include uppercase, number, special char."
  const UsernameTakenDetail := "Username already exists."

  predicate IsPasswordSpecial(c: char) {
    c == '!' || c == '@' || c == '#' || c == '$' || c == '%' || c == '^' || c == '&' || c == '*'
  }

  /** Python's `\d` on a `str`: a decimal digit of any script. */
  predicate IsPyDigit(c: char) {
    IsDecimalDigit(c)
  }

  /** What `.{8,}$` spans under `re.match`: the whole text, or all but one final line feed. */
  function PyLineBody(s: string): (b: string)
    ensures b == s || b + "\n" == s
  {
    if |s| > 0 && s[|s| - 1] == '\n' then s[..|s| - 1] else s
  }

  /**
   * `re.match(r"^(?=.*[A-Z])(?=.*\d)(?=.*[!@#$%^&*]).{8,}$", pw)`: an accepted
   * password has at least 8 characters, a capital, a digit and a special, and
   * a line feed only as its last character.
   */
  predicate ServerPasswordOk(pw: string)
    ensures ServerPasswordOk(pw) ==> |pw| >= 8 && forall i :: 0 <= i < |pw| - 1 ==> pw[i] != '\n'
    ensures ServerPasswordOk(pw) ==>
      && (exists i :: 0 <= i < |pw| && IsAsciiUpper(pw[i]))
      && (exists i :: 0 <= i < |pw| && IsPyDigit(pw[i]))
      && (exists i :: 0 <= i < |pw| && IsPasswordSpecial(pw[i]))
  {
    var b := PyLineBody(pw);
    && (forall i :: 0 <= i < |b| ==> b[i] != '\n')
    && |b| >= 8
    && (exists i :: 0 <= i < |b| && IsAsciiUpper(b[i]))
    && (exists i :: 0 <= i < |b| && IsPyDigit(b[i]))
    && (exists i :: 0 <= i < |b| && IsPasswordSpecial(b[i]))
  }

  /** The fields of `RegisterOut`. */
  datatype Registered = Registered(userId: int, username: string, email: string, isAdmin: bool)

  /**
   * The error `register` answers with, if any, given whether the username is
   * already taken: the request-model bounds (422) first, then the password
   * policy, then the duplicate name. `emailOk` stands for `EmailStr`.
   */
  function RegisterError(username: string, emailOk: bool, password: string, taken: bool): (r: Option<Reply<Registered>>)
    ensures r.None? <==> 3 <= |username| <= 50 && emailOk && |password| >= 8 && ServerPasswordOk(password) && !taken
    ensures r.Some? ==> !r.value.Ok?
  {
    if !(3 <= |username| <= 50 && emailOk && |password| >= 8) then Some(Unprocessable)
    else if !ServerPasswordOk(password) then Some(HttpError(400, PasswordPolicyDetail))
    else if taken then Some(HttpError(400, UsernameTakenDetail))
    else None
  }

  /** A password outside the policy is refused the same way whether or not the name is taken. */
  lemma PolicyCheckedBeforeName(username: string, emailOk: bool, password: string)
    requires 3 <= |username| <= 50 && emailOk && |password| >= 8
    requires !ServerPasswordOk(password)
    ensures RegisterError(username, emailOk, password, true) == Some(HttpError(400, PasswordPolicyDetail))
    ensures RegisterError(username, emailOk, password, false) == Some(HttpError(400, PasswordPolicyDetail))
  {
  }

  /** `register`: `passwordHash` is the bcrypt hash of `password`, computed outside the model. */
  method Register(db: Database, username: string, emailOk: bool, email: string, password: string, passwordHash: string)
    returns (r: Reply<Registered>)
    requires db.Valid()
    modifies db
    ensures db.Valid()
    ensures var err := RegisterError(username, emailOk, password, old(db.UserByName(username)).Some?);
      && (err.Some? ==> r == err.value && db.users == old(db.users))
      && (err.None? ==> r == Ok(Registered(old(db.lastUserId) + 1, username, email, false))
                        && db.users == old(db.users) + [User(old(db.lastUserId) + 1, username, email, passwordHash, false)])
    ensures db.questions == old(db.questions) && db.answers == old(db.answers)
  {
    var err := RegisterError(username, emailOk, password, db.UserByName(username).Some?);
    if err.Some? {
      return err.value;
    }
    var u := db.AddUser(username, email, passwordHash);
    r := Ok(Registered(u.value.userId, u.value.username, u.value.email, u.value.isAdmin));
  }

  // ---------------------------------------------------------------------------
  // GET /questions

  /** A `from_ts` / `to_ts` argument after `datetime.fromisoformat`: absent or empty, unparsable, or a time. */
  datatype TimeArg = NoTime | BadTime | At(t: int)

  /** The outcome of resolving the `user` argument. */
  datatype UserFilter = AnyUser | UserId(id: int) | UnknownUser

  /** An integer is an id; any other text is looked up as a username. */
  function ResolveUser(db: Database, user: Option<string>): (f: UserFilter)
    reads db
    ensures user.None? || user.value == [] ==> f == AnyUser
    ensures user.Some? && user.value != [] && ParseInt(user.value).Some? ==> f == UserId(ParseInt(user.value).value)
    ensures user.Some? && user.value != [] && ParseInt(user.value).None? && db.UserByName(user.value).Some? ==>
      f == UserId(db.UserByName(user.value).value.userId)
    ensures f == UnknownUser <==>
      user.Some? && user.value != [] && ParseInt(user.value).None? && db.UserByName(user.value).None?
  {
    if user.None? || user.value == [] then AnyUser
    else match ParseInt(user.value)
      case Some(id) => UserId(id)
      case None =>
        match db.UserByName(user.value)
        case Some(u) => UserId(u.userId)
        case None => UnknownUser
  }

  /** The active filters of one `list_questions` call. */
  datatype Criteria = Criteria(q: Option<string>, user: UserFilter, status: Option<string>, from: TimeArg, to: TimeArg)

  /**
   * Whether an item passes the text, user, status and time-window tests (an
   * unparsable bound is ignored). Without any active filter every item
   * passes, and a window that ends before it starts lets nothing through.
   */
  predicate Matches(v: QuestionView, c: Criteria)
    ensures
      && (c.q.None? || c.q.value == [])
      && !c.user.UserId?
      && (c.status.None? || c.status.value == [])
      && !c.from.At? && !c.to.At?
      ==> Matches(v, c)
    ensures c.from.At? && c.to.At? && c.to.t < c.from.t ==> !Matches(v, c)
  {
    && (c.q.None? || c.q.value == [] || Contains(ToLower(v.row.message), ToLower(c.q.value)))
    && (!c.user.UserId? || v.row.userId == c.user.id)
    && (c.status.None? || c.status.value == [] || ToLower(v.row.status.Name()) == ToLower(c.status.value))
    && (!c.from.At? || v.row.timestamp >= c.from.t)
    && (!c.to.At? || v.row.timestamp <= c.to.t)
  }

  /** The items that pass, in their original order. */
  function Select(vs: seq<QuestionView>, c: Criteria): (r: seq<QuestionView>)
    ensures forall i :: 0 <= i < |r| ==> Matches(r[i], c)
  {
    if vs == [] then []
    else if Matches(vs[0], c) then [vs[0]] + Select(vs[1..], c)
    else Select(vs[1..], c)
  }

  predicate IsSubsequence<T(==)>(a: seq<T>, b: seq<T>) {
    if a == [] then true
    else if b == [] then false
    else (a[0] == b[0] && IsSubsequence(a[1..], b[1..])) || IsSubsequence(a, b[1..])
  }

  /** Filtering keeps the relative order of what it keeps. */
  lemma {:induction false} SelectIsSubsequence(vs: seq<QuestionView>, c: Criteria)
    ensures IsSubsequence(Select(vs, c), vs)
  {
    if vs != [] {
      SelectIsSubsequence(vs[1..], c);
      var rest := Select(vs[1..], c);
      if Matches(vs[0], c) {
        assert Select(vs, c)[1..] == rest;
      } else if rest != [] {
        assert Select(vs, c) == rest;
      }
    }
  }

  /** Each item is kept exactly as many times as it occurs, if it matches, and dropped otherwise. */
  lemma {:induction false} SelectCounts(vs: seq<QuestionView>, c: Criteria, v: QuestionView)
    ensures multiset(Select(vs, c))[v] == if Matches(v, c) then multiset(vs)[v] else 0
  {
    if vs != [] {
      SelectCounts(vs[1..], c, v);
      assert vs == [vs[0]] + vs[1..];
    }
  }

  lemma SelectStep(vs: seq<QuestionView>, i: nat, c: Criteria)
    requires i < |vs|
    ensures Select(vs[i..], c) == (if Matches(vs[i], c) then [vs[i]] else []) + Select(vs[i + 1..], c)
  {
    assert vs[i..][1..] == vs[i + 1..];
  }

  /** The result of `list_questions` for a given snapshot: nothing for an unknown user name, else the matches in order. */
  function ListResult(snapshot: seq<QuestionView>, c: Criteria): seq<QuestionView> {
    if c.user == UnknownUser then [] else Select(snapshot, c)
  }

  /** The first loop of `list_questions`: append each item that passes every test. */
  method FilterItems(qs: seq<QuestionView>, c: Criteria) returns (filtered: seq<QuestionView>)
    ensures filtered == Select(qs, c)
  {
    filtered := [];
    var i := 0;
    while i < |qs|
      invariant 0 <= i <= |qs|
      invariant filtered + Select(qs[i..], c) == Select(qs, c)
    {
      SelectStep(qs, i, c);
      if Matches(qs[i], c) {
        filtered := filtered + [qs[i]];
      }
      i := i + 1;
    }
    assert qs[i..] == [];
  }

  /** `list_questions`: an unknown user name answers `[]`; otherwise the snapshot is filtered item by item. */
  method ListQuestions(db: Database, q: Option<string>, user: Option<string>, status: Option<string>, from: TimeArg, to: TimeArg)
    returns (r: seq<QuestionView>)
    ensures r == ListResult(db.Snapshot(), Criteria(q, ResolveUser(db, user), status, from, to))
  {
    var qs := db.GetQuestions();
    var uf := ResolveUser(db, user);
    if uf == UnknownUser {
      return [];
    }
    r := FilterItems(qs, Criteria(q, uf, status, from, to));
  }

  /** A user argument that is a number filters by that id, whether or not such a user exists. */
  lemma NumericUserFiltersById(db: Database, user: string, v: QuestionView)
    requires ParseInt(user).Some?
    ensures var c := Criteria(None, ResolveUser(db, Some(user)), None, NoTime, NoTime);
      v in ListResult(db.Snapshot(), c) <==> v in db.Snapshot() && v.row.userId == ParseInt(user).value
  {
    var c := Criteria(None, ResolveUser(db, Some(user)), None, NoTime, NoTime);
    SelectCounts(db.Snapshot(), c, v);
    assert v in Select(db.Snapshot(), c) <==> v in multiset(Select(db.Snapshot(), c));
  }

  /** The registered user a non-numeric name denotes: user names are unique, so the lookup finds that very user. */
  lemma NamedUserResolves(db: Database, u: Store.User)
    requires db.Valid() && u in db.users
    requires u.username != [] && ParseInt(u.username).None?
    ensures ResolveUser(db, Some(u.username)) == UserId(u.userId)
  {
    var found := db.UserByName(u.username).value;
    var i, j :| 0 <= i < |db.users| && db.users[i] == u && 0 <= j < |db.users| && db.users[j] == found;
    assert i == j;
  }

  /** A user argument naming a registered user filters by that user's id. */
  lemma NamedUserFiltersById(db: Database, u: Store.User, v: QuestionView)
    requires db.Valid() && u in db.users
    requires u.username != [] && ParseInt(u.username).None?
    ensures var c := Criteria(None, ResolveUser(db, Some(u.username)), None, NoTime, NoTime);
      v in ListResult(db.Snapshot(), c) <==> v in db.Snapshot() && v.row.userId == u.userId
  {
    NamedUserResolves(db, u);
    var c := Criteria(None, ResolveUser(db, Some(u.username)), None, NoTime, NoTime);
    SelectCounts(db.Snapshot(), c, v);
    assert v in Select(db.Snapshot(), c) <==> v in multiset(Select(db.Snapshot(), c));
  }

  /** The time window is inclusive at both ends, and an unparsable bound drops out. */
  lemma TimeWindowInclusive(v: QuestionView)
    ensures Matches(v, Criteria(None, AnyUser, None, At(v.row.timestamp), At(v.row.timestamp)))
    ensures Matches(v, Criteria(None, AnyUser, None, BadTime, BadTime))
  {
  }

  // ---------------------------------------------------------------------------
  // POST /submit, /mark_answered, /escalate, /answer

  /** Pydantic's `Optional[int] = 0`, then `user_id or 0`. */
  function UserIdOrZero(userId: Option<int>): int {
    if userId.Some? then userId.value else 0
  }

  /**
   * `submit_question`: a message of 1..500 characters is stored and announced
   * as `new_question`. The reply goes through `response_model=QuestionOut`,
   * which adds its default `"answers": []`; the broadcast payload does not.
   */
  method SubmitQuestion(db: Database, userId: Option<int>, message: string, now: int)
    returns (r: Reply<JsValue>, ev: Option<Event>)
    requires db.Valid()
    modifies db
    ensures db.Valid()
    ensures !(1 <= |message| <= MaxQuestionLength) ==> r == Unprocessable && ev == None && db.questions == old(db.questions)
    ensures 1 <= |message| <= MaxQuestionLength ==>
      var q := QuestionRow(old(db.lastQuestionId) + 1, UserIdOrZero(userId), message, Pending, now, old(db.AuthorName(UserIdOrZero(userId))));
      && db.questions == old(db.questions) + [q]
      && r == Ok(ViewJson(QuestionView(q, [])))
      && ev == Some(Event("new_question", QuestionJson(q)))
    ensures db.users == old(db.users) && db.answers == old(db.answers)
  {
    if !(1 <= |message| <= MaxQuestionLength) {
      return Unprocessable, None;
    }
    var q := db.AddQuestion(UserIdOrZero(userId), message, now);
    r := Ok(ViewJson(QuestionView(q, [])));
    ev := Some(Event("new_question", QuestionJson(q)));
  }

  const NotFoundDetail := "Question not found"

  /** `{"message": ..., "question": q}` */
  function StatusReply(message: string, q: QuestionRow): JsValue {
    Pair("message", Str(message), "question", QuestionJson(q))
  }

  /** `mark_question_answered`: 404 and no event for an unknown id. */
  method MarkQuestionAnswered(db: Database, id: int) returns (r: Reply<JsValue>, ev: Option<Event>)
    requires db.Valid()
    modifies db
    ensures db.Valid()
    ensures db.questions == WithStatus(old(db.questions), id, Answered)
    ensures old(FindQuestion(db.questions, id)).None? ==> r == HttpError(404, NotFoundDetail) && ev == None
    ensures old(FindQuestion(db.questions, id)).Some? ==>
      var q := old(FindQuestion(db.questions, id)).value.(status := Answered);
      r == Ok(StatusReply("marked", q)) && ev == Some(Event("answered", QuestionJson(q)))
    ensures db.users == old(db.users) && db.answers == old(db.answers)
  {
    var q := db.MarkAnswered(id);
    if q.None? {
      return HttpError(404, NotFoundDetail), None;
    }
    r := Ok(StatusReply("marked", q.value));
    ev := Some(Event("answered", QuestionJson(q.value)));
  }

  /** `escalate`: 404 and no event for an unknown id. */
  method Escalate(db: Database, id: int) returns (r: Reply<JsValue>, ev: Option<Event>)
    requires db.Valid()
    modifies db
    ensures db.Valid()
    ensures db.questions == WithStatus(old(db.questions), id, Escalated)
    ensures old(FindQuestion(db.questions, id)).None? ==> r == HttpError(404, NotFoundDetail) && ev == None
    ensures old(FindQuestion(db.questions, id)).Some? ==>
      var q := old(FindQuestion(db.questions, id)).value.(status := Escalated);
      r == Ok(StatusReply("escalated", q)) && ev == Some(Event("escalated", QuestionJson(q)))
    ensures db.users == old(db.users) && db.answers == old(db.answers)
  {
    var q := db.EscalateQuestion(id);
    if q.None? {
      return HttpError(404, NotFoundDetail), None;
    }
    r := Ok(StatusReply("escalated", q.value));
    ev := Some(Event("escalated", QuestionJson(q.value)));
  }

  const MaxAnswerLength := 1000

  /** The first item of a snapshot with the given id. */
  function FindView(vs: seq<QuestionView>, id: int): (r: Option<QuestionView>)
    ensures r.Some? ==> r.value in vs && r.value.row.questionId == id
    ensures r.None? <==> forall i :: 0 <= i < |vs| ==> vs[i].row.questionId != id
  {
    if vs == [] then None
    else if vs[0].row.questionId == id then Some(vs[0])
    else FindView(vs[1..], id)
  }

  /** The payload of the `new_answer` event: the updated question, or just its id when there is none. */
  function NewAnswerPayload(found: Option<QuestionView>, questionId: int): JsValue {
    if found.Some? then ViewJson(found.value) else Obj(map["question_id" := Num(questionId)])
  }

  /** The lookup loop of `post_answer`: stop at the first item with the id. */
  method FirstWithId(qs: seq<QuestionView>, id: int) returns (found: Option<QuestionView>)
    ensures found == FindView(qs, id)
  {
    var i := 0;
    while i < |qs|
      invariant 0 <= i <= |qs|
      invariant FindView(qs, id) == FindView(qs[i..], id)
    {
      assert qs[i..][1..] == qs[i + 1..];
      if qs[i].row.questionId == id {
        return Some(qs[i]);
      }
      i := i + 1;
    }
    return None;
  }

  /** The question a `new_answer` event carries already lists the answer just stored. */
  lemma PostedAnswerInPayload(db: Database, a: AnswerRow)
    requires a in db.answers
    requires FindView(db.Snapshot(), a.questionId).Some?
    ensures a in FindView(db.Snapshot(), a.questionId).value.answers
  {
    var snap := db.Snapshot();
    var v := FindView(snap, a.questionId).value;
    SnapshotAnswersMatch(db);
    var i :| 0 <= i < |snap| && snap[i] == v;
  }

  /** `post_answer`: store the answer, then look its question up in a fresh snapshot (first match, then stop). */
  method PostAnswer(db: Database, questionId: int, userId: Option<int>, message: string, now: int)
    returns (r: Reply<JsValue>, ev: Option<Event>, found: Option<QuestionView>)
    requires db.Valid()
    modifies db
    ensures db.Valid()
    ensures !(1 <= |message| <= MaxAnswerLength) ==> r == Unprocessable && ev == None && db.answers == old(db.answers)
    ensures 1 <= |message| <= MaxAnswerLength ==>
      var a := AnswerRow(old(db.lastAnswerId) + 1, questionId, UserIdOrZero(userId), old(db.AuthorName(UserIdOrZero(userId))), message, now);
      && db.answers == old(db.answers) + [a]
      && found == FindView(db.Snapshot(), questionId)
      && r == Ok(Pair("answer", AnswerJson(a), "question", if found.Some? then ViewJson(found.value) else Null))
      && ev == Some(Event("new_answer", NewAnswerPayload(found, questionId)))
    ensures db.users == old(db.users) && db.questions == old(db.questions)
  {
    if !(1 <= |message| <= MaxAnswerLength) {
      return Unprocessable, None, None;
    }
    var a := db.AddAnswer(questionId, UserIdOrZero(userId), message, now);
    var qs := db.GetQuestions();
    found := FirstWithId(qs, questionId);
    r := Ok(Pair("answer", AnswerJson(a), "question", if found.Some? then ViewJson(found.value) else Null));
    ev := Some(Event("new_answer", NewAnswerPayload(found, questionId)));
  }
}
