/**
 * The three SQLite tables of backend/app/db.py as in-memory sequences, in
 * rowid order, with the AUTOINCREMENT counters that hand out ids.
 */
module Store {
  import opened Wrappers
  import opened Sorting

  datatype Status = Pending | Escalated | Answered {
    /** The text stored in the `status` column. */
    function Name(): string {
      match this
      case Pending => "Pending"
      case Escalated => "Escalated"
      case Answered => "Answered"
    }
  }

  /** A `users` row; the password hash is an opaque string produced by bcrypt. */
  datatype User = User(userId: int, username: string, email: string, passwordHash: string, isAdmin: bool)

  /** A `questions` row; the ISO timestamp is an integer here. */
  datatype QuestionRow = QuestionRow(questionId: int, userId: int, message: string, status: Status, timestamp: int, username: string)

  /** An `answers` row. */
  datatype AnswerRow = AnswerRow(answerId: int, questionId: int, userId: int, username: string, message: string, timestamp: int)

  /** A question as `get_questions` returns it: the row with its answers attached. */
  datatype QuestionView = QuestionView(row: QuestionRow, answers: seq<AnswerRow>)

  const GuestName := "Guest"

  /** `sort_key` of `get_questions`: Escalated first, then newest first. */
  function QuestionKey(q: QuestionView): (k: Key)
    ensures k.0 == 0 || k.0 == 1
    ensures k.0 == 0 <==> q.row.status == Escalated
  {
    (if q.row.status == Escalated then 0 else 1, -q.row.timestamp)
  }

  /** `ORDER BY timestamp DESC` */
  function AnswerKey(a: AnswerRow): Key {
    (0, -a.timestamp)
  }

  function FindUserById(users: seq<User>, id: int): (r: Option<User>)
    ensures r.Some? ==> r.value in users && r.value.userId == id
    ensures r.None? <==> forall i :: 0 <= i < |users| ==> users[i].userId != id
  {
    if users == [] then None
    else if users[0].userId == id then Some(users[0])
    else FindUserById(users[1..], id)
  }

  function FindUserByName(users: seq<User>, name: string): (r: Option<User>)
    ensures r.Some? ==> r.value in users && r.value.username == name
    ensures r.None? <==> forall i :: 0 <= i < |users| ==> users[i].username != name
  {
    if users == [] then None
    else if users[0].username == name then Some(users[0])
    else FindUserByName(users[1..], name)
  }

  function FindQuestion(rows: seq<QuestionRow>, id: int): (r: Option<QuestionRow>)
    ensures r.Some? ==> r.value in rows && r.value.questionId == id
    ensures r.None? <==> forall i :: 0 <= i < |rows| ==> rows[i].questionId != id
  {
    if rows == [] then None
    else if rows[0].questionId == id then Some(rows[0])
    else FindQuestion(rows[1..], id)
  }

  /** `WHERE question_id = ?` over the answers table, in table order. */
  function AnswersOf(rows: seq<AnswerRow>, questionId: int): (r: seq<AnswerRow>)
    ensures forall a :: a in r <==> a in rows && a.questionId == questionId
    ensures forall a :: multiset(r)[a] == if a.questionId == questionId then multiset(rows)[a] else 0
  {
    if rows == [] then []
    else
      var rest := AnswersOf(rows[1..], questionId);
      assert rows == [rows[0]] + rows[1..];
      if rows[0].questionId == questionId then [rows[0]] + rest else rest
  }

  /** `UPDATE questions SET status = ? WHERE question_id = ?` */
  function WithStatus(rows: seq<QuestionRow>, id: int, status: Status): (r: seq<QuestionRow>)
    ensures |r| == |rows|
    ensures forall i :: 0 <= i < |rows| ==>
      r[i] == if rows[i].questionId == id then rows[i].(status := status) else rows[i]
  {
    if rows == [] then []
    else
      [if rows[0].questionId == id then rows[0].(status := status) else rows[0]] + WithStatus(rows[1..], id, status)
  }

  /** Setting a status twice is setting it once. */
  lemma {:induction false} WithStatusIdempotent(rows: seq<QuestionRow>, id: int, status: Status)
    ensures WithStatus(WithStatus(rows, id, status), id, status) == WithStatus(rows, id, status)
  {
    var once := WithStatus(rows, id, status);
    var twice := WithStatus(once, id, status);
    assert forall i :: 0 <= i < |rows| ==> twice[i] == once[i];
  }

  /** The UPDATE never changes an id. */
  lemma WithStatusKeepsIds(rows: seq<QuestionRow>, id: int, status: Status)
    ensures QuestionIds(WithStatus(rows, id, status)) == QuestionIds(rows)
  {
    var r := WithStatus(rows, id, status);
    assert forall i :: 0 <= i < |rows| ==> QuestionIds(r)[i] == QuestionIds(rows)[i];
  }

  /** An UPDATE whose WHERE matches no row changes nothing. */
  lemma WithStatusAbsent(rows: seq<QuestionRow>, id: int, status: Status)
    requires FindQuestion(rows, id).None?
    ensures WithStatus(rows, id, status) == rows
  {
    var r := WithStatus(rows, id, status);
    assert forall i :: 0 <= i < |rows| ==> r[i] == rows[i];
  }

  /** Ids that strictly increase along a table: each one is unique. */
  ghost predicate Increasing(ids: seq<int>) {
    forall i, j :: 0 <= i < j < |ids| ==> ids[i] < ids[j]
  }

  /** A table's ids under AUTOINCREMENT: increasing, positive, and at most the last id handed out. */
  ghost predicate IdsBelow(ids: seq<int>, last: int) {
    Increasing(ids) && forall i :: 0 <= i < |ids| ==> 0 < ids[i] <= last
  }

  /** Handing out the next id keeps the table's ids valid, and the new id is fresh. */
  lemma IdsAppend(ids: seq<int>, last: nat)
    requires IdsBelow(ids, last)
    ensures IdsBelow(ids + [last + 1], last + 1)
    ensures forall i :: 0 <= i < |ids| ==> ids[i] != last + 1
  {
  }

  /** The UNIQUE constraint on `users.username`. */
  ghost predicate UniqueNames(users: seq<User>) {
    forall i, j :: 0 <= i < j < |users| ==> users[i].username != users[j].username
  }

  /** Inserting a name no user has keeps the names unique. */
  lemma NamesAppend(users: seq<User>, u: User)
    requires UniqueNames(users) && FindUserByName(users, u.username).None?
    ensures UniqueNames(users + [u])
  {
  }

  lemma UserIdsAppend(users: seq<User>, u: User)
    ensures UserIds(users + [u]) == UserIds(users) + [u.userId]
  {
    assert forall i :: 0 <= i < |users| ==> UserIds(users + [u])[i] == UserIds(users)[i];
  }

  lemma QuestionIdsAppend(rows: seq<QuestionRow>, q: QuestionRow)
    ensures QuestionIds(rows + [q]) == QuestionIds(rows) + [q.questionId]
  {
    assert forall i :: 0 <= i < |rows| ==> QuestionIds(rows + [q])[i] == QuestionIds(rows)[i];
  }

  lemma AnswerIdsAppend(rows: seq<AnswerRow>, a: AnswerRow)
    ensures AnswerIds(rows + [a]) == AnswerIds(rows) + [a.answerId]
  {
    assert forall i :: 0 <= i < |rows| ==> AnswerIds(rows + [a])[i] == AnswerIds(rows)[i];
  }

  function UserIds(users: seq<User>): (r: seq<int>)
    ensures |r| == |users| && forall i :: 0 <= i < |users| ==> r[i] == users[i].userId
  {
    if users == [] then [] else [users[0].userId] + UserIds(users[1..])
  }

  function QuestionIds(rows: seq<QuestionRow>): (r: seq<int>)
    ensures |r| == |rows| && forall i :: 0 <= i < |rows| ==> r[i] == rows[i].questionId
  {
    if rows == [] then [] else [rows[0].questionId] + QuestionIds(rows[1..])
  }

  function AnswerIds(rows: seq<AnswerRow>): (r: seq<int>)
    ensures |r| == |rows| && forall i :: 0 <= i < |rows| ==> r[i] == rows[i].answerId
  {
    if rows == [] then [] else [rows[0].answerId] + AnswerIds(rows[1..])
  }

  /** Rows whose answer ids strictly increase hold each row once. */
  lemma {:induction false} IncreasingIdsOnce(rows: seq<AnswerRow>)
    requires Increasing(AnswerIds(rows))
    ensures forall a :: multiset(rows)[a] <= 1
  {
    if rows != [] {
      assert rows == [rows[0]] + rows[1..];
      assert AnswerIds(rows[1..]) == AnswerIds(rows)[1..];
      IncreasingIdsOnce(rows[1..]);
      assert forall i :: 0 <= i < |rows[1..]| ==> rows[1..][i].answerId > rows[0].answerId;
      assert rows[0] !in rows[1..];
    }
  }

  /** The invariant of the three tables and their AUTOINCREMENT counters. */
  ghost predicate TablesOk(users: seq<User>, questions: seq<QuestionRow>, answers: seq<AnswerRow>,
                           lastUserId: int, lastQuestionId: int, lastAnswerId: int) {
    && IdsBelow(UserIds(users), lastUserId)
    && IdsBelow(QuestionIds(questions), lastQuestionId)
    && IdsBelow(AnswerIds(answers), lastAnswerId)
    && UniqueNames(users)
  }

  /** Inserting a user under the next id and an unused name keeps the tables valid; the id is fresh. */
  lemma UserInserted(users: seq<User>, questions: seq<QuestionRow>, answers: seq<AnswerRow>, lu: nat, lq: int, la: int, u: User)
    requires TablesOk(users, questions, answers, lu, lq, la)
    requires u.userId == lu + 1 && FindUserByName(users, u.username).None?
    ensures TablesOk(users + [u], questions, answers, lu + 1, lq, la)
    ensures forall i :: 0 <= i < |users| ==> users[i].userId != u.userId
  {
    IdsAppend(UserIds(users), lu);
    UserIdsAppend(users, u);
    NamesAppend(users, u);
  }

  /** Inserting a question under the next id keeps the tables valid; the id is fresh. */
  lemma QuestionInserted(users: seq<User>, questions: seq<QuestionRow>, answers: seq<AnswerRow>, lu: int, lq: nat, la: int, q: QuestionRow)
    requires TablesOk(users, questions, answers, lu, lq, la)
    requires q.questionId == lq + 1
    ensures TablesOk(users, questions + [q], answers, lu, lq + 1, la)
    ensures forall i :: 0 <= i < |questions| ==> questions[i].questionId != q.questionId
  {
    IdsAppend(QuestionIds(questions), lq);
    QuestionIdsAppend(questions, q);
  }

  /** Inserting an answer under the next id keeps the tables valid; the id is fresh. */
  lemma AnswerInserted(users: seq<User>, questions: seq<QuestionRow>, answers: seq<AnswerRow>, lu: int, lq: int, la: nat, a: AnswerRow)
    requires TablesOk(users, questions, answers, lu, lq, la)
    requires a.answerId == la + 1
    ensures TablesOk(users, questions, answers + [a], lu, lq, la + 1)
    ensures forall i :: 0 <= i < |answers| ==> answers[i].answerId != a.answerId
  {
    IdsAppend(AnswerIds(answers), la);
    AnswerIdsAppend(answers, a);
  }

  /** A status update keeps the tables valid. */
  lemma StatusUpdated(users: seq<User>, questions: seq<QuestionRow>, answers: seq<AnswerRow>, lu: int, lq: int, la: int, id: int, status: Status)
    requires TablesOk(users, questions, answers, lu, lq, la)
    ensures TablesOk(users, WithStatus(questions, id, status), answers, lu, lq, la)
  {
    WithStatusKeepsIds(questions, id, status);
  }

  class Database {
    var users: seq<User>
    var questions: seq<QuestionRow>
    var answers: seq<AnswerRow>
    /** `sqlite_sequence`: the largest id each table has handed out. */
    var lastUserId: nat
    var lastQuestionId: nat
    var lastAnswerId: nat

    ghost predicate Valid()
      reads this
    {
      TablesOk(users, questions, answers, lastUserId, lastQuestionId, lastAnswerId)
    }

    /** `init_db` on a fresh database file: three empty tables. */
    constructor ()
      ensures Valid()
      ensures users == [] && questions == [] && answers == []
    {
      users, questions, answers := [], [], [];
      lastUserId, lastQuestionId, lastAnswerId := 0, 0, 0;
    }

    /** `get_user_by_id` */
    function UserById(id: int): Option<User>
      reads this
    {
      FindUserById(users, id)
    }

    /** `get_user_by_username` */
    function UserByName(name: string): Option<User>
      reads this
    {
      FindUserByName(users, name)
    }

    /** The name recorded with a post: the author's username when `userId` is non-zero and names a user, else "Guest". */
    function AuthorName(userId: int): (name: string)
      reads this
      ensures userId == 0 ==> name == GuestName
      ensures userId != 0 && UserById(userId).Some? ==> name == UserById(userId).value.username
      ensures UserById(userId).None? ==> name == GuestName
    {
      if userId != 0 && UserById(userId).Some? then UserById(userId).value.username else GuestName
    }

    /** `add_user`: the INSERT fails on the UNIQUE username constraint, leaving the table as it was. */
    method AddUser(username: string, email: string, passwordHash: string) returns (r: Option<User>)
      requires Valid()
      modifies this
      ensures Valid()
      ensures old(UserByName(username)).Some? ==> r.None? && users == old(users)
      ensures old(UserByName(username)).None? ==>
        && r == Some(User(old(lastUserId) + 1, username, email, passwordHash, false))
        && users == old(users) + [r.value]
        && forall i :: 0 <= i < |old(users)| ==> old(users)[i].userId != r.value.userId
      ensures questions == old(questions) && answers == old(answers)
      ensures lastQuestionId == old(lastQuestionId) && lastAnswerId == old(lastAnswerId)
    {
      if UserByName(username).Some? {
        return None;
      }
      var u := User(lastUserId + 1, username, email, passwordHash, false);
      UserInserted(users, questions, answers, lastUserId, lastQuestionId, lastAnswerId, u);
      lastUserId := lastUserId + 1;
      users := users + [u];
      r := Some(u);
    }

    /**
     * `add_question`: a new Pending row with a fresh id, the caller's user id,
     * and the author's name or "Guest". `now` is the server clock.
     */
    method AddQuestion(userId: int, message: string, now: int) returns (q: QuestionRow)
      requires Valid()
      modifies this
      ensures Valid()
      ensures q == QuestionRow(old(lastQuestionId) + 1, userId, message, Pending, now, old(AuthorName(userId)))
      ensures forall i :: 0 <= i < |old(questions)| ==> old(questions)[i].questionId != q.questionId
      ensures questions == old(questions) + [q]
      ensures users == old(users) && answers == old(answers)
      ensures lastUserId == old(lastUserId) && lastAnswerId == old(lastAnswerId)
    {
      var name := AuthorName(userId);
      q := QuestionRow(lastQuestionId + 1, userId, message, Pending, now, name);
      QuestionInserted(users, questions, answers, lastUserId, lastQuestionId, lastAnswerId, q);
      lastQuestionId := lastQuestionId + 1;
      questions := questions + [q];
    }

    /** `add_answer`: a new row with a fresh id; no check that the question exists. */
    method AddAnswer(questionId: int, userId: int, message: string, now: int) returns (a: AnswerRow)
      requires Valid()
      modifies this
      ensures Valid()
      ensures a == AnswerRow(old(lastAnswerId) + 1, questionId, userId, old(AuthorName(userId)), message, now)
      ensures forall i :: 0 <= i < |old(answers)| ==> old(answers)[i].answerId != a.answerId
      ensures answers == old(answers) + [a]
      ensures users == old(users) && questions == old(questions)
      ensures lastUserId == old(lastUserId) && lastQuestionId == old(lastQuestionId)
    {
      var name := AuthorName(userId);
      a := AnswerRow(lastAnswerId + 1, questionId, userId, name, message, now);
      AnswerInserted(users, questions, answers, lastUserId, lastQuestionId, lastAnswerId, a);
      lastAnswerId := lastAnswerId + 1;
      answers := answers + [a];
    }

    /** The UPDATE then SELECT shared by `mark_answered` and `escalate_question`. */
    method UpdateStatus(id: int, status: Status) returns (r: Option<QuestionRow>)
      requires Valid()
      modifies this
      ensures Valid()
      ensures questions == WithStatus(old(questions), id, status)
      ensures r.None? <==> old(FindQuestion(questions, id)).None?
      ensures r.None? ==> questions == old(questions)
      ensures r.Some? ==> r.value == old(FindQuestion(questions, id)).value.(status := status)
      ensures users == old(users) && answers == old(answers)
      ensures lastUserId == old(lastUserId) && lastQuestionId == old(lastQuestionId) && lastAnswerId == old(lastAnswerId)
    {
      ghost var before := questions;
      StatusUpdated(users, questions, answers, lastUserId, lastQuestionId, lastAnswerId, id, status);
      questions := WithStatus(questions, id, status);
      r := FindQuestion(questions, id);
      FindAfterUpdate(before, id, status);
      if r.None? {
        WithStatusAbsent(before, id, status);
      }
    }

    /** `mark_answered`: only the row with that id becomes Answered; `None` and no change if there is none. */
    method MarkAnswered(id: int) returns (r: Option<QuestionRow>)
      requires Valid()
      modifies this
      ensures Valid()
      ensures questions == WithStatus(old(questions), id, Answered)
      ensures r.None? <==> old(FindQuestion(questions, id)).None?
      ensures r.None? ==> questions == old(questions)
      ensures r.Some? ==> r.value == old(FindQuestion(questions, id)).value.(status := Answered)
      ensures users == old(users) && answers == old(answers)
    {
      r := UpdateStatus(id, Answered);
    }

    /** `escalate_question`: only the row with that id becomes Escalated; `None` and no change if there is none. */
    method EscalateQuestion(id: int) returns (r: Option<QuestionRow>)
      requires Valid()
      modifies this
      ensures Valid()
      ensures questions == WithStatus(old(questions), id, Escalated)
      ensures r.None? <==> old(FindQuestion(questions, id)).None?
      ensures r.None? ==> questions == old(questions)
      ensures r.Some? ==> r.value == old(FindQuestion(questions, id)).value.(status := Escalated)
      ensures users == old(users) && answers == old(answers)
    {
      r := UpdateStatus(id, Escalated);
    }

    /** `get_answers_for_question`: that question's answers, newest first. */
    function AnswersFor(questionId: int): (r: seq<AnswerRow>)
      reads this
      ensures forall a :: a in r <==> a in answers && a.questionId == questionId
      ensures multiset(r) == multiset(AnswersOf(answers, questionId))
      ensures SortedBy(r, AnswerKey)
    {
      var matching := AnswersOf(answers, questionId);
      SortBySorted(matching, AnswerKey);
      var r := SortBy(matching, AnswerKey);
      assert forall a :: a in r <==> a in multiset(r);
      r
    }

    /** Under the invariant each answer to the question is listed exactly once. */
    lemma AnswersForOnce(questionId: int)
      requires Valid()
      ensures forall a :: multiset(AnswersFor(questionId))[a] == if a in answers && a.questionId == questionId then 1 else 0
    {
      IncreasingIdsOnce(answers);
    }

    /** The rows of `SELECT ... FROM questions` with their answers attached, in table order. */
    function Views(): (vs: seq<QuestionView>)
      reads this
      ensures |vs| == |questions|
      ensures forall i :: 0 <= i < |questions| ==> vs[i] == QuestionView(questions[i], AnswersFor(questions[i].questionId))
    {
      seq(|questions|, i reads this requires 0 <= i < |questions| => QuestionView(questions[i], AnswersFor(questions[i].questionId)))
    }

    /**
     * What `get_questions` returns: every stored question once, with its own
     * answers, sorted by `sort_key`; questions with equal keys stay in table order.
     */
    function Snapshot(): (r: seq<QuestionView>)
      reads this
      ensures multiset(r) == multiset(Views())
      ensures SortedBy(r, QuestionKey)
      ensures forall k :: WithKey(r, QuestionKey, k) == WithKey(Views(), QuestionKey, k)
    {
      SortBySorted(Views(), QuestionKey);
      SortByStableAll(Views(), QuestionKey);
      SortBy(Views(), QuestionKey)
    }

    /** `get_questions`: attach each row's answers in a loop, then sort. */
    method GetQuestions() returns (r: seq<QuestionView>)
      ensures r == Snapshot()
    {
      var qs: seq<QuestionView> := [];
      var i := 0;
      while i < |questions|
        invariant 0 <= i <= |questions|
        invariant |qs| == i
        invariant forall k :: 0 <= k < i ==> qs[k] == QuestionView(questions[k], AnswersFor(questions[k].questionId))
      {
        var row := questions[i];
        qs := qs + [QuestionView(row, AnswersFor(row.questionId))];
        i := i + 1;
      }
      assert qs == Views();
      r := SortBy(qs, QuestionKey);
    }

    /** `seed_admin_if_needed`: the admin account is inserted only into an empty users table. */
    method SeedAdminIfNeeded(adminHash: string)
      requires Valid()
      modifies this
      ensures Valid()
      ensures old(users) == [] ==> users == [User(old(lastUserId) + 1, "admin", "admin@example.com", adminHash, true)]
      ensures old(users) != [] ==> users == old(users) && lastUserId == old(lastUserId)
      ensures questions == old(questions) && answers == old(answers)
      ensures lastQuestionId == old(lastQuestionId) && lastAnswerId == old(lastAnswerId)
    {
      if |users| == 0 {
        var admin := User(lastUserId + 1, "admin", "admin@example.com", adminHash, true);
        UserInserted(users, questions, answers, lastUserId, lastQuestionId, lastAnswerId, admin);
        lastUserId := lastUserId + 1;
        users := [admin];
      }
    }
  }

  /** Looking a row up after the status update finds the same row, with the new status. */
  lemma {:induction false} FindAfterUpdate(rows: seq<QuestionRow>, id: int, status: Status)
    ensures FindQuestion(WithStatus(rows, id, status), id).None? <==> FindQuestion(rows, id).None?
    ensures FindQuestion(rows, id).Some? ==>
      FindQuestion(WithStatus(rows, id, status), id) == Some(FindQuestion(rows, id).value.(status := status))
  {
    if rows != [] && rows[0].questionId != id {
      FindAfterUpdate(rows[1..], id, status);
      assert WithStatus(rows, id, status)[1..] == WithStatus(rows[1..], id, status);
    }
  }

  /** `get_questions` lists every Escalated question before any other, and newest first within each group. */
  lemma SnapshotOrder(db: Database)
    ensures var r := db.Snapshot();
      forall i, j :: 0 <= i < j < |r| ==>
        && (r[j].row.status == Escalated ==> r[i].row.status == Escalated)
        && ((r[i].row.status == Escalated) == (r[j].row.status == Escalated) ==> r[i].row.timestamp >= r[j].row.timestamp)
  {
    var r := db.Snapshot();
    forall i, j | 0 <= i < j < |r|
      ensures r[j].row.status == Escalated ==> r[i].row.status == Escalated
      ensures (r[i].row.status == Escalated) == (r[j].row.status == Escalated) ==> r[i].row.timestamp >= r[j].row.timestamp
    {
      assert KeyLe(QuestionKey(r[i]), QuestionKey(r[j]));
    }
  }

  /** Each question in `get_questions` is a stored row carrying exactly its own answers, newest first. */
  lemma SnapshotAnswersMatch(db: Database)
    ensures var r := db.Snapshot();
      forall i :: 0 <= i < |r| ==>
        && r[i].row in db.questions
        && r[i].answers == db.AnswersFor(r[i].row.questionId)
        && (forall a :: a in r[i].answers <==> a in db.answers && a.questionId == r[i].row.questionId)
  {
    var r := db.Snapshot();
    var vs := db.Views();
    forall i | 0 <= i < |r|
      ensures r[i].row in db.questions && r[i].answers == db.AnswersFor(r[i].row.questionId)
    {
      assert r[i] in multiset(r);
      assert r[i] in multiset(vs);
      var k :| 0 <= k < |vs| && vs[k] == r[i];
    }
  }

  /** The admin seed runs at every start-up; running it twice is running it once. */
  method SeedTwice(db: Database, adminHash: string)
    requires db.Valid()
    modifies db
    ensures db.Valid()
    ensures old(db.users) == [] ==> db.users == [User(old(db.lastUserId) + 1, "admin", "admin@example.com", adminHash, true)]
    ensures old(db.users) != [] ==> db.users == old(db.users)
  {
    db.SeedAdminIfNeeded(adminHash);
    db.SeedAdminIfNeeded(adminHash);
  }
}
