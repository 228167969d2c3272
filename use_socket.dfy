/** The `useSocket` hook: the registry of event subscribers, the fan-out of
    received frames, the guarded send, the connect guard with its URL, and
    the reconnect decision on close.

    Callbacks are told apart by an identity number. A JavaScript `Set` keeps
    insertion order and holds no duplicates, so each event's subscribers are
    a duplicate-free sequence. Timers, React's stale closures and effect
    cleanup are not modelled: the registry is one map, and authentication
    and the token are given to the operations that read them. */
module UseSocket {
  import opened JsCore

  type Callback = nat

  /** Subscribers by event name. */
  type Registry = map<string, seq<Callback>>

  /** Every present event has at least one subscriber, none twice. */
  predicate WellFormed(reg: Registry) {
    forall e :: e in reg ==> reg[e] != [] && Distinct(reg[e])
  }

  function Subscribers(reg: Registry, e: string): seq<Callback> {
    if e in reg then reg[e] else []
  }

  /** `subscribe(event, callback)`: the callback is added to the event's
      set. */
  function WithSubscriber(reg: Registry, e: string, cb: Callback): (r: Registry)
    ensures r.Keys == reg.Keys + {e}
    ensures cb in r[e]
    ensures forall x :: x in r[e] <==> x in Subscribers(reg, e) || x == cb
    ensures forall k :: k in reg && k != e ==> r[k] == reg[k]
  {
    var cur := Subscribers(reg, e);
    reg[e := if cb in cur then cur else cur + [cb]]
  }

  function NotCallback(cb: Callback): Callback -> bool {
    (c: Callback) => c != cb
  }

  /** The function `subscribe` returns: the callback leaves the event's set,
      and the event is dropped once its set is empty. */
  function WithoutSubscriber(reg: Registry, e: string, cb: Callback): (r: Registry)
    ensures r.Keys <= reg.Keys
    ensures e in r ==> cb !in r[e] && (forall x :: x in r[e] <==> x in reg[e] && x != cb)
    ensures forall k :: k in reg && k != e ==> k in r && r[k] == reg[k]
  {
    if e !in reg then reg
    else
      var rest := Filter(reg[e], NotCallback(cb));
      if rest == [] then reg - {e} else reg[e := rest]
  }

  lemma DistinctAppend(s: seq<Callback>, x: Callback)
    requires Distinct(s) && x !in s
    ensures Distinct(s + [x])
  {
    forall i, j | 0 <= i < j < |s + [x]| ensures (s + [x])[i] != (s + [x])[j] {
      assert (s + [x])[i] == s[i];
      if j == |s| {
        assert s[i] in s;
      } else {
        assert (s + [x])[j] == s[j];
      }
    }
  }

  /** Subscribing keeps the registry well formed and is idempotent: the same
      callback is never held twice. */
  lemma SubscribeIdempotent(reg: Registry, e: string, cb: Callback)
    requires WellFormed(reg)
    ensures WellFormed(WithSubscriber(reg, e, cb))
    ensures WithSubscriber(WithSubscriber(reg, e, cb), e, cb) == WithSubscriber(reg, e, cb)
  {
    var cur := Subscribers(reg, e);
    if cb !in cur {
      DistinctAppend(cur, cb);
    }
    var r := WithSubscriber(reg, e, cb);
    assert r[e := r[e]] == r;
  }

  /** Unsubscribing keeps the registry well formed and calling it a second
      time changes nothing. */
  lemma UnsubscribeTwiceHarmless(reg: Registry, e: string, cb: Callback)
    requires WellFormed(reg)
    ensures WellFormed(WithoutSubscriber(reg, e, cb))
    ensures WithoutSubscriber(WithoutSubscriber(reg, e, cb), e, cb) == WithoutSubscriber(reg, e, cb)
  {
    var r := WithoutSubscriber(reg, e, cb);
    if e in reg {
      FilterDistinct(reg[e], NotCallback(cb));
      FilterIdempotent(reg[e], NotCallback(cb));
    }
    if e in r {
      assert r[e := r[e]] == r;
    }
  }

  /** Unsubscribing a callback that was just subscribed, and was not
      subscribed before, restores the registry. */
  lemma SubscribeThenUnsubscribe(reg: Registry, e: string, cb: Callback)
    requires WellFormed(reg) && cb !in Subscribers(reg, e)
    ensures WithoutSubscriber(WithSubscriber(reg, e, cb), e, cb) == reg
  {
    var cur := Subscribers(reg, e);
    var p := NotCallback(cb);
    FilterConcat(cur, [cb], p);
    assert Filter([cb], p) == [] by {
      assert [cb][1..] == [];
    }
    FilterKeepsAll(cur, p);
    assert cur + [] == cur;
    if e in reg {
      assert reg[e := cur] == reg;
    } else {
      assert reg[e := [cb]] - {e} == reg;
    }
  }

  // ---------------------------------------------------------------------------
  // Received frames

  /** A received text after `JSON.parse`. Any value other than `null`
      destructures: `event` is the key its `event` member is looked up under
      (None when the member is absent, as for an array, a string or a
      number) and `data` is its `data` member (None for `undefined`).
      Destructuring `null` throws, and so does parsing text that is not
      JSON. */
  datatype Frame<D> = Message(event: Option<string>, data: Option<D>) | NullFrame | Malformed

  /** What a number, a string, a boolean or an array destructures to. */
  function NonObject<D>(): (f: Frame<D>)
    ensures f.Message? && f.event.None? && f.data.None?
  {
    Message(None, None)
  }

  /** The property key a missing event name is looked up under. */
  function EventKey(event: Option<string>): string {
    if event.None? then "undefined" else event.value
  }

  /** The set `subscribers[eventName]` that `onmessage` iterates over. */
  function Listeners<D>(reg: Registry, f: Frame<D>): (r: seq<Callback>)
    ensures f.Message? ==> r == Subscribers(reg, EventKey(f.event))
    ensures !f.Message? ==> r == []
  {
    if f.Message? then Subscribers(reg, EventKey(f.event)) else []
  }

  /** The callbacks `onmessage` calls for a frame, in order. `throwsAt` is
      the position among the listeners of the first callback that throws, if
      any: `forEach` stops after calling it and the `catch` swallows the
      error, so the listeners after it are never called. */
  function Receivers<D>(reg: Registry, f: Frame<D>, throwsAt: Option<nat>): (r: seq<Callback>)
    ensures |r| <= |Listeners(reg, f)| && r == Listeners(reg, f)[..|r|]
    ensures throwsAt.None? || throwsAt.value >= |Listeners(reg, f)| ==> r == Listeners(reg, f)
    ensures throwsAt.Some? && throwsAt.value < |Listeners(reg, f)| ==> |r| == throwsAt.value + 1
  {
    var l := Listeners(reg, f);
    if throwsAt.Some? && throwsAt.value < |l| then l[..throwsAt.value + 1] else l
  }

  /** When no callback throws, a frame reaches a callback exactly when it is
      subscribed to the frame's event, and then exactly once; `null` and text
      that does not parse reach nobody, and a frame without an `event`
      member reaches the subscribers of `"undefined"`. */
  lemma DeliveryIff<D>(reg: Registry, f: Frame<D>, cb: Callback)
    requires WellFormed(reg)
    ensures var r := Receivers(reg, f, None);
      && (cb in r <==> f.Message? && EventKey(f.event) in reg && cb in reg[EventKey(f.event)])
      && (forall i, j :: 0 <= i < j < |r| ==> r[i] != r[j])
    ensures f.Message? && f.event.None? ==> Receivers(reg, f, None) == Subscribers(reg, "undefined")
  {
  }

  /** A throwing callback ends the delivery: the listeners up to and
      including it are called, the ones after it are not. */
  lemma ThrowStopsDelivery<D>(reg: Registry, f: Frame<D>, t: nat)
    requires WellFormed(reg) && t < |Listeners(reg, f)|
    ensures var l := Listeners(reg, f);
      forall i :: 0 <= i < |l| ==> (l[i] in Receivers(reg, f, Some(t)) <==> i <= t)
  {
    var l := Listeners(reg, f);
    var r := Receivers(reg, f, Some(t));
    assert Distinct(l);
    forall i | 0 <= i < |l| ensures l[i] in r <==> i <= t {
      if i <= t {
        assert r[i] == l[i];
      } else {
        forall j | 0 <= j < |r| ensures r[j] != l[i] {
          assert r[j] == l[j] && j < i;
        }
      }
    }
  }

  // ---------------------------------------------------------------------------
  // The connection

  datatype ReadyState = Connecting | Open | Closing | Closed

  datatype Socket = Socket(url: string, readyState: ReadyState)

  /** `${url}${namespace}` followed by `?token=<token>` for a truthy token. */
  function SocketUrl(url: string, namespace: string, token: Option<string>): (r: string)
    ensures StartsWith(r, url + namespace)
    ensures |r| > |url + namespace| <==> Truthy(token)
    ensures Truthy(token) ==> r[|url + namespace|..] == "?token=" + token.value
  {
    url + namespace + (if Truthy(token) then "?token=" + token.value else "")
  }

  /** `connect` returns at once for an unauthenticated user and for a socket
      that is already open. */
  predicate ConnectSkipped(isAuthenticated: bool, socket: Option<Socket>) {
    !isAuthenticated || (socket.Some? && socket.value.readyState == Open)
  }

  class SocketHook<D> {
    const url: string
    const namespace: string
    const reconnect: bool
    var subscribers: Registry
    var socket: Option<Socket>
    var isConnected: bool
    /** The `{event, data}` frames handed to `socket.send`, in order. */
    var sent: seq<(string, D)>

    constructor (url: string, namespace: string, reconnect: bool)
      ensures this.url == url && this.namespace == namespace && this.reconnect == reconnect
      ensures subscribers == map[] && socket.None? && !isConnected && sent == []
    {
      this.url, this.namespace, this.reconnect := url, namespace, reconnect;
      subscribers, socket, isConnected, sent := map[], None, false, [];
    }

    method Subscribe(e: string, cb: Callback)
      modifies this
      ensures subscribers == WithSubscriber(old(subscribers), e, cb)
      ensures socket == old(socket) && isConnected == old(isConnected) && sent == old(sent)
    {
      var eventSubscribers := if e in subscribers then subscribers[e] else [];
      if cb !in eventSubscribers {
        eventSubscribers := eventSubscribers + [cb];
      }
      subscribers := subscribers[e := eventSubscribers];
    }

    method Unsubscribe(e: string, cb: Callback)
      modifies this
      ensures subscribers == WithoutSubscriber(old(subscribers), e, cb)
      ensures socket == old(socket) && isConnected == old(isConnected) && sent == old(sent)
    {
      if e in subscribers {
        var eventSubscribers := Filter(subscribers[e], NotCallback(cb));
        if eventSubscribers == [] {
          subscribers := subscribers - {e};
        } else {
          subscribers := subscribers[e := eventSubscribers];
        }
      }
    }

    /** `onmessage`: the subscribers of the frame's event are called with its
        data, in the set's order, until one throws; `throwsAt` is that
        callback's position. The calls are returned. */
    method Receive(f: Frame<D>, throwsAt: Option<nat>) returns (calls: seq<(Callback, Option<D>)>)
      ensures |calls| == |Receivers(subscribers, f, throwsAt)|
      ensures forall i :: 0 <= i < |calls| ==> calls[i].0 == Receivers(subscribers, f, throwsAt)[i]
      ensures f.Message? ==> forall i :: 0 <= i < |calls| ==> calls[i].1 == f.data
    {
      calls := [];
      if f.NullFrame? || f.Malformed? {
        // The parse or the destructuring throws; the error is only logged.
        return;
      }
      var key := EventKey(f.event);
      if key in subscribers {
        var callbacks := subscribers[key];
        var i := 0;
        while i < |callbacks|
          invariant 0 <= i <= |callbacks|
          invariant |calls| == i
          invariant forall k :: 0 <= k < i ==> calls[k] == (callbacks[k], f.data)
          invariant throwsAt.Some? ==> i <= throwsAt.value
        {
          calls := calls + [(callbacks[i], f.data)];
          if throwsAt == Some(i) {
            // The callback threw: `forEach` ends and the catch logs it.
            return;
          }
          i := i + 1;
        }
      }
    }

    /** `connect`; `creationFails` says whether the `WebSocket` constructor
        throws, which is caught and logged. */
    method Connect(isAuthenticated: bool, token: Option<string>, creationFails: bool)
      modifies this
      ensures ConnectSkipped(isAuthenticated, old(socket)) || creationFails ==> socket == old(socket)
      ensures !ConnectSkipped(isAuthenticated, old(socket)) && !creationFails ==>
        socket == Some(Socket(SocketUrl(url, namespace, token), Connecting))
      ensures subscribers == old(subscribers) && isConnected == old(isConnected) && sent == old(sent)
    {
      if !isAuthenticated || (socket.Some? && socket.value.readyState == Open) {
        return;
      }
      var wsUrl := url + namespace + (if Truthy(token) then "?token=" + token.value else "");
      if !creationFails {
        socket := Some(Socket(wsUrl, Connecting));
      }
    }

    /** `onopen` of the current socket. */
    method Opened()
      modifies this
      ensures socket == (if old(socket).Some? then Some(old(socket).value.(readyState := Open)) else None)
      ensures isConnected
      ensures subscribers == old(subscribers) && sent == old(sent)
    {
      if socket.Some? {
        socket := Some(socket.value.(readyState := Open));
      }
      isConnected := true;
    }

    /** `onclose`, with the authentication state the handler saw when the
        socket was created; the result says whether a reconnect is
        scheduled. It is scheduled after an explicit `disconnect` too. The
        browser has closed the socket the hook still holds, so a later send
        is refused and a later `connect` opens a new one. */
    method Closed(isAuthenticated: bool) returns (scheduleReconnect: bool)
      modifies this
      ensures scheduleReconnect <==> reconnect && isAuthenticated
      ensures !isConnected
      ensures socket == (if old(socket).Some? then Some(old(socket).value.(readyState := ReadyState.Closed)) else None)
      ensures subscribers == old(subscribers) && sent == old(sent)
    {
      if socket.Some? {
        socket := Some(socket.value.(readyState := ReadyState.Closed));
      }
      isConnected := false;
      scheduleReconnect := reconnect && isAuthenticated;
    }

    method Disconnect()
      modifies this
      ensures old(socket).Some? ==> socket.None? && !isConnected
      ensures old(socket).None? ==> socket.None? && isConnected == old(isConnected)
      ensures subscribers == old(subscribers) && sent == old(sent)
    {
      if socket.Some? {
        socket := None;
        isConnected := false;
      }
    }

    /** `sendMessage`: the frame is sent only on an open socket; otherwise
        only a warning is logged. */
    method SendMessage(event: string, data: D) returns (transmitted: bool)
      modifies this
      ensures transmitted <==> old(socket).Some? && old(socket).value.readyState == Open
      ensures sent == if transmitted then old(sent) + [(event, data)] else old(sent)
      ensures subscribers == old(subscribers) && socket == old(socket) && isConnected == old(isConnected)
    {
      transmitted := socket.Some? && socket.value.readyState == Open;
      if transmitted {
        sent := sent + [(event, data)];
      }
    }
  }
}
