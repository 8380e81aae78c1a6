/**
 * The browser's push-channel client (frontend/components/WebSocket.js).
 *
 * Every frame is classified into one `onEvent(event, payload)` call, which
 * is followed by a second, `raw` one when the first throws.
 * The component keeps two refs that survive re-renders (`wsRef`,
 * `reconnectTimerRef`); each run of its effect has its own `shouldReconnect`
 * flag and its own `connect` closure. A parent that passes a fresh `onEvent`
 * on every render makes every render tear one effect run down and start the
 * next, so the client below keeps one flag per run.
 */
module PushChannel {
  import opened Wrappers
  import opened Js

  /** Delay before a reconnect attempt, in milliseconds. */
  const ReconnectDelayMs := 1500

  /** One call `onEvent(event, payload)`. */
  datatype Dispatch = Dispatch(event: JsValue, payload: JsValue)

  /**
   * The first `onEvent` call of the `onmessage` handler: `parsed` is the
   * result of `JSON.parse(data)`, `None` where it throws. The call always
   * carries a truthy event name.
   */
  function Classify(data: string, parsed: Option<JsValue>): (d: Dispatch)
    ensures Truthy(d.event)
    ensures parsed.None? ==> d == Dispatch(Str("raw"), Str(data))
    ensures parsed.Some? && Truthy(Get(parsed.value, "event")) ==>
      d == Dispatch(Get(parsed.value, "event"), Get(parsed.value, "payload"))
    ensures parsed.Some? && !Truthy(Get(parsed.value, "event")) ==>
      d == Dispatch(Str("new_question"), parsed.value)
  {
    match parsed
    case None => Dispatch(Str("raw"), Str(data))
    case Some(v) =>
      if Truthy(v) && Truthy(Get(v, "event")) then Dispatch(Get(v, "event"), Get(v, "payload"))
      else Dispatch(Str("new_question"), v)
  }

  /**
   * Every `onEvent` call one frame causes, given whether the first call
   * threw. A throw from the call inside the `try` is caught and followed by
   * `onEvent("raw", data)`; when the frame does not parse, the first call is
   * already the `catch`'s, and a throw from it leaves the handler.
   */
  function OnMessage(data: string, parsed: Option<JsValue>, firstThrows: bool): (calls: seq<Dispatch>)
    ensures 1 <= |calls| <= 2 && calls[0] == Classify(data, parsed)
    ensures |calls| == 2 <==> parsed.Some? && firstThrows
    ensures forall i :: 1 <= i < |calls| ==> calls[i] == Dispatch(Str("raw"), Str(data))
  {
    if parsed.Some? && firstThrows then [Classify(data, parsed), Dispatch(Str("raw"), Str(data))]
    else [Classify(data, parsed)]
  }

  /**
   * A socket goes from Open to Closing when the page asks it to close, and to
   * Closed when its `onclose` handler has run.
   */
  datatype SocketState = Open | Closing | Closed

  /** A socket and the effect run whose `connect` opened it. */
  datatype Socket = Socket(run: nat, state: SocketState)

  class ChannelClient {
    /** `wsRef.current`: the socket opened last. */
    var wsRef: Option<nat>
    /** `reconnectTimerRef.current`: the timer scheduled last (never reset after it fires). */
    var timerRef: Option<nat>
    /** Every socket opened, in order. */
    var sockets: seq<Socket>
    /** Every timer scheduled, in order: `timers[id]` is the run whose `connect` it calls. */
    var timers: seq<nat>
    /** Timers that have neither fired nor been cleared. */
    var pending: set<nat>
    /** The `shouldReconnect` flag of each effect run, oldest first. */
    var shouldReconnect: seq<bool>

    ghost predicate NoOpenSocket()
      reads this
    {
      forall i :: 0 <= i < |sockets| ==> sockets[i].state != Open
    }

    ghost predicate Valid()
      reads this
    {
      InRange() && Live()
    }

    /** Every reference points into the history it refers to. */
    ghost predicate InRange()
      reads this
    {
      && (wsRef.Some? ==> wsRef.value < |sockets|)
      && (timerRef.Some? ==> timerRef.value < |timers|)
      && (forall i :: 0 <= i < |sockets| ==> sockets[i].run < |shouldReconnect|)
      && (forall id :: 0 <= id < |timers| ==> timers[id] < |shouldReconnect|)
    }

    /** Which runs, sockets and timers can still be live. */
    ghost predicate Live()
      reads this
    {
      // only the newest effect run can still be live
      && (forall r :: 0 <= r < |shouldReconnect| - 1 ==> !shouldReconnect[r])
      // the one open socket is wsRef.current, owned by a live run
      && (forall i :: 0 <= i < |sockets| && sockets[i].state == Open ==>
            wsRef == Some(i) && sockets[i].run < |shouldReconnect| && shouldReconnect[sockets[i].run])
      // a socket is closing only because its run was torn down
      && (forall i :: 0 <= i < |sockets| && sockets[i].state == Closing ==>
            sockets[i].run < |shouldReconnect| && !shouldReconnect[sockets[i].run])
      // a pending timer is the one the ref holds, for a live run that has no open socket
      && (forall id :: id in pending ==>
            timerRef == Some(id) && id < |timers| && timers[id] < |shouldReconnect| && shouldReconnect[timers[id]])
      && (pending != {} ==> NoOpenSocket())
    }

    /** Mounting the component: both refs start out null. */
    constructor ()
      ensures Valid()
      ensures wsRef == None && timerRef == None
      ensures sockets == [] && timers == [] && pending == {} && shouldReconnect == []
    {
      wsRef, timerRef := None, None;
      sockets, timers, pending := [], [], {};
      shouldReconnect := [];
    }

    /** At most one reconnect is ever pending. */
    lemma AtMostOnePending()
      requires Valid()
      ensures |pending| <= 1
    {
      if timerRef.Some? {
        assert pending == {} || pending == {timerRef.value};
      } else {
        assert pending == {};
      }
    }

    /** `connect()`: open one socket and make it `wsRef.current`. */
    method Connect(run: nat)
      requires Valid()
      requires run < |shouldReconnect| && shouldReconnect[run]
      requires NoOpenSocket() && pending == {}
      modifies this
      ensures Valid()
      ensures sockets == old(sockets) + [Socket(run, Open)]
      ensures wsRef == Some(|old(sockets)|)
      ensures timerRef == old(timerRef) && timers == old(timers) && pending == {}
      ensures shouldReconnect == old(shouldReconnect)
    {
      sockets := sockets + [Socket(run, Open)];
      wsRef := Some(|sockets| - 1);
    }

    /** A run of the effect: a fresh `shouldReconnect = true`, then `connect()`. */
    method RunEffect()
      requires Valid()
      requires forall r :: 0 <= r < |shouldReconnect| ==> !shouldReconnect[r]
      modifies this
      ensures Valid()
      ensures shouldReconnect == old(shouldReconnect) + [true]
      ensures sockets == old(sockets) + [Socket(|old(shouldReconnect)|, Open)]
      ensures wsRef == Some(|old(sockets)|)
      ensures timerRef == old(timerRef) && timers == old(timers) && pending == {}
    {
      assert pending == {};
      shouldReconnect := shouldReconnect + [true];
      Connect(|shouldReconnect| - 1);
    }

    /**
     * `ws.onclose` of socket `i`. While its run is live it clears the timer the
     * ref holds and schedules exactly one reconnect; after teardown it does
     * nothing but let the socket go.
     */
    method OnClose(i: nat)
      requires Valid()
      requires i < |sockets| && sockets[i].state != Closed
      modifies this
      ensures Valid()
      ensures sockets == old(sockets)[i := Socket(old(sockets[i].run), Closed)]
      ensures wsRef == old(wsRef) && shouldReconnect == old(shouldReconnect)
      ensures old(shouldReconnect[sockets[i].run]) ==>
        && timers == old(timers) + [old(sockets[i].run)]
        && pending == {|old(timers)|}
        && timerRef == Some(|old(timers)|)
      ensures !old(shouldReconnect[sockets[i].run]) ==>
        timers == old(timers) && pending == old(pending) && timerRef == old(timerRef)
    {
      var run := sockets[i].run;
      sockets := sockets[i := Socket(run, Closed)];
      if shouldReconnect[run] {
        if timerRef.Some? {
          pending := pending - {timerRef.value};
        }
        assert pending == {};
        assert NoOpenSocket();
        timers := timers + [run];
        pending := {|timers| - 1};
        timerRef := Some(|timers| - 1);
      }
      assert InRange();
    }

    /** A pending reconnect timer fires and calls its run's `connect()`. */
    method FireTimer(id: nat)
      requires Valid()
      requires id in pending
      modifies this
      ensures Valid()
      ensures pending == {}
      ensures sockets == old(sockets) + [Socket(old(timers[id]), Open)]
      ensures wsRef == Some(|old(sockets)|)
      ensures timerRef == old(timerRef) && timers == old(timers)
      ensures shouldReconnect == old(shouldReconnect)
    {
      pending := pending - {id};
      assert pending == {};
      Connect(timers[id]);
    }

    /**
     * The effect's cleanup: clear the flag first, then the timer, then close
     * `wsRef.current`. No reconnect is pending and no socket is open afterwards.
     */
    method Cleanup(run: nat)
      requires Valid()
      requires run < |shouldReconnect| && shouldReconnect[run]
      modifies this
      ensures Valid()
      ensures shouldReconnect == old(shouldReconnect)[run := false]
      ensures pending == {} && NoOpenSocket()
      ensures wsRef == old(wsRef) && timerRef == old(timerRef) && timers == old(timers)
      ensures old(wsRef).Some? && old(sockets[wsRef.value].state) == Open ==>
        sockets == old(sockets)[wsRef.value := Socket(old(sockets[wsRef.value].run), Closing)]
      ensures !(old(wsRef).Some? && old(sockets[wsRef.value].state) == Open) ==>
        sockets == old(sockets)
    {
      assert run == |shouldReconnect| - 1;
      shouldReconnect := shouldReconnect[run := false];
      if timerRef.Some? {
        pending := pending - {timerRef.value};
      }
      assert pending == {};
      if wsRef.Some? && sockets[wsRef.value].state == Open {
        var w := wsRef.value;
        sockets := sockets[w := Socket(sockets[w].run, Closing)];
      }
      assert InRange();
      assert NoOpenSocket();
    }

    /** A re-render with a new `onEvent`: the live run is torn down and a new run starts. */
    method Rerender()
      requires Valid()
      requires |shouldReconnect| > 0 && shouldReconnect[|shouldReconnect| - 1]
      modifies this
      ensures Valid()
      ensures shouldReconnect == old(shouldReconnect)[|old(shouldReconnect)| - 1 := false] + [true]
      ensures pending == {} && timers == old(timers) && timerRef == old(timerRef)
      ensures |sockets| == |old(sockets)| + 1 && sockets[|sockets| - 1] == Socket(|old(shouldReconnect)|, Open)
      ensures forall i :: 0 <= i < |old(sockets)| ==>
        sockets[i] == if old(sockets[i].state) == Open then Socket(old(sockets[i].run), Closing) else old(sockets[i])
      ensures wsRef == Some(|old(sockets)|)
    {
      Cleanup(|shouldReconnect| - 1);
      RunEffect();
    }
  }

  /**
   * A run that loses its socket reconnects; after a re-render the old socket's
   * close schedules nothing, and the new run is the only one with a socket open.
   */
  method ReconnectThenRerender() returns (sockets: seq<Socket>, timers: seq<nat>)
    ensures sockets == [Socket(0, Closed), Socket(0, Closed), Socket(1, Open)]
    ensures timers == [0]
  {
    var c := new ChannelClient();
    c.RunEffect();
    c.OnClose(0);
    assert c.pending == {0} && c.timers == [0];
    c.FireTimer(0);
    assert c.sockets == [Socket(0, Closed), Socket(0, Open)];
    c.Rerender();
    assert c.sockets[1] == Socket(0, Closing) && c.shouldReconnect == [false, true];
    c.OnClose(1);
    assert c.timers == [0] && c.pending == {};
    assert c.sockets[2] == Socket(1, Open) && c.wsRef == Some(2);
    sockets, timers := c.sockets, c.timers;
  }
}
