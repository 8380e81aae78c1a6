/**
 * The push side of backend/app/main.py: the list of connected sockets, the
 * `{event, payload}` envelope that `broadcast` sends to each of them, the
 * pruning of dead sockets, and the per-socket endpoint that answers an id
 * with a `status` frame. Sockets are identified by number; which ones are
 * CONNECTED and which sends raise are inputs.
 */
module BroadcastHub {
  import opened Wrappers
  import opened Text
  import opened Js
  import opened Store
  import Api
  import PushChannel

  type SocketId = nat

  /** The frame `json.dumps({"event": event, "payload": payload})` encodes. */
  function Envelope(event: string, payload: JsValue): (frame: JsValue)
    ensures Get(frame, "event") == Str(event) && Get(frame, "payload") == payload
  {
    Pair("event", Str(event), "payload", payload)
  }

  /** The browser's `onmessage` decodes an envelope back into the event and payload that were broadcast. */
  lemma EnvelopeRoundTrip(text: string, event: string, payload: JsValue)
    requires event != ""
    ensures PushChannel.Classify(text, Some(Envelope(event, payload))) == PushChannel.Dispatch(Str(event), payload)
  {
  }

  /** An empty event name is falsy in the browser, so the whole envelope arrives as a `new_question` payload. */
  lemma EmptyEventNameIsNewQuestion(text: string, payload: JsValue)
    ensures PushChannel.Classify(text, Some(Envelope("", payload))) == PushChannel.Dispatch(Str("new_question"), Envelope("", payload))
  {
  }

  function Elems(s: seq<SocketId>): set<SocketId> {
    set x | x in s
  }

  predicate NoDuplicates(s: seq<SocketId>) {
    forall i, j :: 0 <= i < j < |s| ==> s[i] != s[j]
  }

  /** A socket `broadcast` keeps: CONNECTED, and its send did not raise. */
  predicate Survives(ws: SocketId, live: set<SocketId>, failing: set<SocketId>) {
    ws in live && ws !in failing
  }

  /** The sockets still listed after a broadcast, in their original order. */
  function Keep(cs: seq<SocketId>, live: set<SocketId>, failing: set<SocketId>): (r: seq<SocketId>)
    ensures forall ws :: ws in r <==> ws in cs && Survives(ws, live, failing)
  {
    if cs == [] then []
    else if Survives(cs[0], live, failing) then [cs[0]] + Keep(cs[1..], live, failing)
    else Keep(cs[1..], live, failing)
  }

  /** `to_remove`: the sockets that were not CONNECTED or whose send raised, in list order. */
  function Doomed(cs: seq<SocketId>, live: set<SocketId>, failing: set<SocketId>): (r: seq<SocketId>)
    ensures forall ws :: ws in r <==> ws in cs && !Survives(ws, live, failing)
  {
    if cs == [] then []
    else if Survives(cs[0], live, failing) then Doomed(cs[1..], live, failing)
    else [cs[0]] + Doomed(cs[1..], live, failing)
  }

  /** One frame for each surviving socket, in list order. */
  function Deliveries(cs: seq<SocketId>, live: set<SocketId>, failing: set<SocketId>, frame: JsValue): (r: seq<(SocketId, JsValue)>)
    ensures |r| == |Keep(cs, live, failing)|
    ensures forall i :: 0 <= i < |r| ==> r[i] == (Keep(cs, live, failing)[i], frame)
  {
    if cs == [] then []
    else if Survives(cs[0], live, failing) then [(cs[0], frame)] + Deliveries(cs[1..], live, failing, frame)
    else Deliveries(cs[1..], live, failing, frame)
  }

  /** The sockets of `cs` not in `gone`, in order. */
  function Without(cs: seq<SocketId>, gone: set<SocketId>): (r: seq<SocketId>)
    ensures forall ws :: ws in r <==> ws in cs && ws !in gone
  {
    if cs == [] then []
    else if cs[0] in gone then Without(cs[1..], gone)
    else [cs[0]] + Without(cs[1..], gone)
  }

  /** `list.remove(x)`: drop the first occurrence. */
  function RemoveFirst(cs: seq<SocketId>, x: SocketId): (r: seq<SocketId>)
  {
    if cs == [] then []
    else if cs[0] == x then cs[1..]
    else [cs[0]] + RemoveFirst(cs[1..], x)
  }

  /** On a list without duplicates, removing the first occurrence removes the socket altogether. */
  lemma {:induction false} RemoveFirstIsWithout(cs: seq<SocketId>, gone: set<SocketId>, x: SocketId)
    requires NoDuplicates(cs)
    ensures RemoveFirst(Without(cs, gone), x) == Without(cs, gone + {x})
  {
    if cs != [] {
      assert NoDuplicates(cs[1..]) by {
        forall i, j | 0 <= i < j < |cs| - 1 ensures cs[1..][i] != cs[1..][j] {
          assert cs[1..][i] == cs[i + 1] && cs[1..][j] == cs[j + 1];
        }
      }
      RemoveFirstIsWithout(cs[1..], gone, x);
      if cs[0] !in gone && cs[0] == x {
        assert x !in cs[1..];
        WithoutAbsent(cs[1..], gone, x);
      }
    }
  }

  lemma {:induction false} WithoutAbsent(cs: seq<SocketId>, gone: set<SocketId>, x: SocketId)
    requires x !in cs
    ensures Without(cs, gone) == Without(cs, gone + {x})
  {
    if cs != [] {
      WithoutAbsent(cs[1..], gone, x);
    }
  }

  /** Removing what was marked for removal leaves exactly the survivors. */
  lemma {:induction false} WithoutDoomedIsKeep(cs: seq<SocketId>, gone: set<SocketId>, live: set<SocketId>, failing: set<SocketId>)
    requires forall ws :: ws in cs ==> (ws in gone <==> !Survives(ws, live, failing))
    ensures Without(cs, gone) == Keep(cs, live, failing)
  {
    if cs != [] {
      WithoutDoomedIsKeep(cs[1..], gone, live, failing);
    }
  }

  lemma {:induction false} KeepNoDuplicates(cs: seq<SocketId>, live: set<SocketId>, failing: set<SocketId>)
    requires NoDuplicates(cs)
    ensures NoDuplicates(Keep(cs, live, failing))
  {
    if cs != [] {
      assert NoDuplicates(cs[1..]) by {
        forall i, j | 0 <= i < j < |cs| - 1 ensures cs[1..][i] != cs[1..][j] {
          assert cs[1..][i] == cs[i + 1] && cs[1..][j] == cs[j + 1];
        }
      }
      KeepNoDuplicates(cs[1..], live, failing);
      assert cs[0] !in cs[1..];
    }
  }

  /** Each surviving socket receives exactly one frame per broadcast; a pruned one receives none. */
  lemma {:induction false} DeliveredOnce(cs: seq<SocketId>, live: set<SocketId>, failing: set<SocketId>, frame: JsValue, ws: SocketId)
    requires NoDuplicates(cs)
    ensures multiset(Deliveries(cs, live, failing, frame))[(ws, frame)] == if ws in cs && Survives(ws, live, failing) then 1 else 0
  {
    if cs != [] {
      assert NoDuplicates(cs[1..]) by {
        forall i, j | 0 <= i < j < |cs| - 1 ensures cs[1..][i] != cs[1..][j] {
          assert cs[1..][i] == cs[i + 1] && cs[1..][j] == cs[j + 1];
        }
      }
      DeliveredOnce(cs[1..], live, failing, frame, ws);
      assert cs == [cs[0]] + cs[1..];
      assert cs[0] !in cs[1..];
    }
  }

  /** The `status` frames the endpoint sends for one id: one per snapshot item with that id. */
  function StatusFrames(ws: SocketId, vs: seq<QuestionView>, id: int): (r: seq<(SocketId, JsValue)>)
    ensures forall i :: 0 <= i < |r| ==> r[i].0 == ws
  {
    if vs == [] then []
    else if vs[0].row.questionId == id then [(ws, Envelope("status", Api.ViewJson(vs[0])))] + StatusFrames(ws, vs[1..], id)
    else StatusFrames(ws, vs[1..], id)
  }

  lemma {:induction false} StatusFramesNonEmpty(ws: SocketId, vs: seq<QuestionView>, id: int)
    ensures StatusFrames(ws, vs, id) != [] <==> exists i :: 0 <= i < |vs| && vs[i].row.questionId == id
  {
    if vs != [] {
      StatusFramesNonEmpty(ws, vs[1..], id);
      if vs[0].row.questionId != id {
        assert forall i :: 1 <= i < |vs| ==> vs[i] == vs[1..][i - 1];
      }
    }
  }

  /** An id gets a `status` reply exactly when a question with that id is stored. */
  lemma StatusReplyIffStored(db: Database, ws: SocketId, id: int)
    ensures StatusFrames(ws, db.Snapshot(), id) != [] <==> FindQuestion(db.questions, id).Some?
  {
    var snap := db.Snapshot();
    var vs := db.Views();
    StatusFramesNonEmpty(ws, snap, id);
    SnapshotAnswersMatch(db);
    if FindQuestion(db.questions, id).Some? {
      var k :| 0 <= k < |db.questions| && db.questions[k] == FindQuestion(db.questions, id).value;
      assert vs[k] in multiset(snap);
      var j :| 0 <= j < |snap| && snap[j] == vs[k];
      assert snap[j].row.questionId == id;
    }
    if exists i :: 0 <= i < |snap| && snap[i].row.questionId == id {
      var i :| 0 <= i < |snap| && snap[i].row.questionId == id;
      assert snap[i].row in db.questions;
    }
  }

  class Hub {
    /** `connected_websockets` */
    var connected: seq<SocketId>
    /** Every frame sent so far, with the socket it went to. */
    var outbox: seq<(SocketId, JsValue)>

    ghost predicate Valid()
      reads this
    {
      NoDuplicates(connected)
    }

    constructor ()
      ensures Valid() && connected == [] && outbox == []
    {
      connected, outbox := [], [];
    }

    /** The endpoint's registration: a newly accepted socket is appended. */
    method Accept(ws: SocketId)
      requires Valid() && ws !in connected
      modifies this
      ensures Valid()
      ensures connected == old(connected) + [ws] && outbox == old(outbox)
    {
      connected := connected + [ws];
    }

    /** The endpoint's `finally`: the socket is removed if it is still listed. */
    method Release(ws: SocketId)
      requires Valid()
      modifies this
      ensures Valid()
      ensures connected == Without(old(connected), {ws}) && outbox == old(outbox)
    {
      ghost var before := connected;
      WithoutEmpty(connected);
      assert {} + {ws} == {ws};
      WithoutNoDuplicates(before, {ws});
      if ws in connected {
        RemoveFirstIsWithout(connected, {}, ws);
        connected := RemoveFirst(connected, ws);
      } else {
        WithoutAbsent(connected, {}, ws);
      }
    }

    /**
     * `broadcast(event, payload)`: send the envelope to every CONNECTED socket,
     * collect those that were not CONNECTED or whose send raised, then remove
     * each of them if it is still listed.
     */
    method Broadcast(event: string, payload: JsValue, live: set<SocketId>, failing: set<SocketId>)
      requires Valid()
      modifies this
      ensures Valid()
      ensures connected == Keep(old(connected), live, failing)
      ensures outbox == old(outbox) + Deliveries(old(connected), live, failing, Envelope(event, payload))
    {
      var cs := connected;
      var toRemove := SendAll(Envelope(event, payload), live, failing);
      RemoveAll(toRemove);
      var gone := Elems(toRemove);
      assert forall ws :: ws in cs ==> (ws in gone <==> ws in toRemove);
      WithoutDoomedIsKeep(cs, gone, live, failing);
      KeepNoDuplicates(cs, live, failing);
    }

    /** The sending loop of `broadcast`; answers `to_remove`. */
    method SendAll(frame: JsValue, live: set<SocketId>, failing: set<SocketId>) returns (toRemove: seq<SocketId>)
      modifies this
      ensures connected == old(connected)
      ensures toRemove == Doomed(connected, live, failing)
      ensures outbox == old(outbox) + Deliveries(connected, live, failing, frame)
    {
      var cs := connected;
      toRemove := [];
      var i := 0;
      while i < |cs|
        invariant 0 <= i <= |cs|
        invariant toRemove == Doomed(cs[..i], live, failing)
        invariant outbox == old(outbox) + Deliveries(cs[..i], live, failing, frame)
        invariant connected == cs
      {
        PrefixStep(cs, i, live, failing, frame);
        if cs[i] in live && cs[i] !in failing {
          outbox := outbox + [(cs[i], frame)];
        } else {
          toRemove := toRemove + [cs[i]];
        }
        i := i + 1;
      }
      assert cs[..i] == cs;
    }

    /** The removal loop of `broadcast`: each marked socket goes if it is still listed. */
    method RemoveAll(toRemove: seq<SocketId>)
      requires Valid()
      modifies this
      ensures Valid()
      ensures connected == Without(old(connected), Elems(toRemove))
      ensures outbox == old(outbox)
    {
      var cs := connected;
      WithoutEmpty(cs);
      assert Elems(toRemove[..0]) == {};
      var j := 0;
      while j < |toRemove|
        invariant 0 <= j <= |toRemove|
        invariant connected == Without(cs, Elems(toRemove[..j]))
        invariant outbox == old(outbox)
      {
        var gone := Elems(toRemove[..j]);
        assert toRemove[..j + 1] == toRemove[..j] + [toRemove[j]];
        assert Elems(toRemove[..j + 1]) == gone + {toRemove[j]};
        if toRemove[j] in connected {
          RemoveFirstIsWithout(cs, gone, toRemove[j]);
          connected := RemoveFirst(connected, toRemove[j]);
        } else {
          WithoutAbsentOrGone(cs, gone, toRemove[j]);
        }
        j := j + 1;
      }
      assert toRemove[..j] == toRemove;
      WithoutNoDuplicates(cs, Elems(toRemove));
    }

    /**
     * One message on the endpoint: text that `int()` accepts is an id, and a
     * `status` frame goes back for each question with that id; other text is
     * ignored. `sendOk` false means the send raised, which ends that reply.
     */
    method Receive(ws: SocketId, text: string, db: Database, sendOk: bool)
      requires Valid()
      modifies this
      ensures Valid() && connected == old(connected)
      ensures ParseInt(text).None? || !sendOk ==> outbox == old(outbox)
      ensures ParseInt(text).Some? && sendOk ==>
        outbox == old(outbox) + StatusFrames(ws, db.Snapshot(), ParseInt(text).value)
    {
      var id := ParseInt(text);
      if id.None? {
        return;
      }
      var qs := db.GetQuestions();
      ReplyStatus(ws, qs, id.value, sendOk);
    }

    /** The reply loop over `get_questions()`: one `status` frame per question with the id, until a send raises. */
    method ReplyStatus(ws: SocketId, qs: seq<QuestionView>, id: int, sendOk: bool)
      modifies this
      ensures connected == old(connected)
      ensures sendOk ==> outbox == old(outbox) + StatusFrames(ws, qs, id)
      ensures !sendOk ==> outbox == old(outbox)
    {
      var i := 0;
      while i < |qs|
        invariant 0 <= i <= |qs|
        invariant sendOk ==> outbox + StatusFrames(ws, qs[i..], id) == old(outbox) + StatusFrames(ws, qs, id)
        invariant !sendOk ==> outbox == old(outbox)
        invariant connected == old(connected)
      {
        StatusFramesStep(ws, qs, i, id);
        if qs[i].row.questionId == id {
          if !sendOk {
            break;
          }
          outbox := outbox + [(ws, Envelope("status", Api.ViewJson(qs[i])))];
        }
        i := i + 1;
      }
    }

    /** A whole endpoint session: accept, answer each message, and unregister however the loop ends. */
    method Serve(ws: SocketId, texts: seq<string>, sendOks: seq<bool>, db: Database)
      requires Valid() && ws !in connected && |sendOks| == |texts|
      modifies this
      ensures Valid() && connected == old(connected)
    {
      Accept(ws);
      var n := 0;
      while n < |texts|
        invariant Valid() && connected == old(connected) + [ws]
      {
        Receive(ws, texts[n], db, sendOks[n]);
        n := n + 1;
      }
      Release(ws);
      WithoutAppended(old(connected), ws);
    }
  }

  lemma StatusFramesStep(ws: SocketId, vs: seq<QuestionView>, i: nat, id: int)
    requires i < |vs|
    ensures StatusFrames(ws, vs[i..], id) ==
      (if vs[i].row.questionId == id then [(ws, Envelope("status", Api.ViewJson(vs[i])))] else []) + StatusFrames(ws, vs[i + 1..], id)
  {
    assert vs[i..][1..] == vs[i + 1..];
  }

  /** A socket no longer listed after removing `gone` is either absent or already gone. */
  lemma WithoutAbsentOrGone(cs: seq<SocketId>, gone: set<SocketId>, x: SocketId)
    requires x !in Without(cs, gone)
    ensures Without(cs, gone) == Without(cs, gone + {x})
  {
    if x in gone {
      assert gone + {x} == gone;
    } else {
      WithoutAbsent(cs, gone, x);
    }
  }

  lemma {:induction false} WithoutEmpty(cs: seq<SocketId>)
    ensures Without(cs, {}) == cs
  {
    if cs != [] {
      WithoutEmpty(cs[1..]);
    }
  }

  lemma {:induction false} WithoutNoDuplicates(cs: seq<SocketId>, gone: set<SocketId>)
    requires NoDuplicates(cs)
    ensures NoDuplicates(Without(cs, gone))
  {
    if cs != [] {
      assert NoDuplicates(cs[1..]) by {
        forall i, j | 0 <= i < j < |cs| - 1 ensures cs[1..][i] != cs[1..][j] {
          assert cs[1..][i] == cs[i + 1] && cs[1..][j] == cs[j + 1];
        }
      }
      WithoutNoDuplicates(cs[1..], gone);
      assert cs[0] !in cs[1..];
    }
  }

  /** Unregistering the socket just appended restores the list. */
  lemma {:induction false} WithoutAppended(cs: seq<SocketId>, ws: SocketId)
    requires ws !in cs
    ensures Without(cs + [ws], {ws}) == cs
  {
    if cs == [] {
      assert Without([ws], {ws}) == Without([], {ws});
    } else {
      assert (cs + [ws])[1..] == cs[1..] + [ws];
      WithoutAppended(cs[1..], ws);
    }
  }

  lemma PrefixStep(cs: seq<SocketId>, i: nat, live: set<SocketId>, failing: set<SocketId>, frame: JsValue)
    requires i < |cs|
    ensures Doomed(cs[..i + 1], live, failing) ==
      Doomed(cs[..i], live, failing) + (if Survives(cs[i], live, failing) then [] else [cs[i]])
    ensures Deliveries(cs[..i + 1], live, failing, frame) ==
      Deliveries(cs[..i], live, failing, frame) + (if Survives(cs[i], live, failing) then [(cs[i], frame)] else [])
  {
    assert cs[..i + 1] == cs[..i] + [cs[i]];
    DoomedAppend(cs[..i], cs[i], live, failing);
    DeliveriesAppend(cs[..i], cs[i], live, failing, frame);
  }

  lemma {:induction false} DoomedAppend(cs: seq<SocketId>, x: SocketId, live: set<SocketId>, failing: set<SocketId>)
    ensures Doomed(cs + [x], live, failing) == Doomed(cs, live, failing) + (if Survives(x, live, failing) then [] else [x])
  {
    if cs == [] {
      assert [x][1..] == [];
    } else {
      assert (cs + [x])[1..] == cs[1..] + [x];
      DoomedAppend(cs[1..], x, live, failing);
    }
  }

  lemma {:induction false} DeliveriesAppend(cs: seq<SocketId>, x: SocketId, live: set<SocketId>, failing: set<SocketId>, frame: JsValue)
    ensures Deliveries(cs + [x], live, failing, frame) ==
      Deliveries(cs, live, failing, frame) + (if Survives(x, live, failing) then [(x, frame)] else [])
  {
    if cs == [] {
      assert [x][1..] == [];
    } else {
      assert (cs + [x])[1..] == cs[1..] + [x];
      DeliveriesAppend(cs[1..], x, live, failing, frame);
    }
  }
}
