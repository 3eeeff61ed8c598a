/**
 * The server's broadcast hub (websocket/hub.go): a set of clients and three
 * events, register, unregister and broadcast, plus stop. The `select` loop is
 * sequential here: one event is handled at a time, in the order given.
 *
 * Clients are values of a type `C` compared by the `equal` relation the
 * client type supplies (`Client.Equal`). What the clients observe is kept in
 * the state: the messages each one received, and every `Close` call. Whether
 * a client's `Send` fails is not known to the hub; each broadcast is given the
 * set of clients whose `Send` would fail at that moment.
 */
module Hub {
  import opened Messages

  datatype HubState<C, T> = HubState(
    clients: set<C>,
    inbox: map<C, seq<Message<T>>>,
    closes: multiset<C>,
    stopped: bool)

  /** The events the hub's loop receives, one per channel. */
  datatype Event<C, T> =
    | Register(client: C)
    | Unregister(client: C)
    | BroadcastRequest(message: Message<T>, sender: C, failing: set<C>)
    | StopSignal

  /** The hub with no clients, nothing delivered, nothing closed. */
  function InitialHub<C, T>(): HubState<C, T>
  {
    HubState({}, map[], multiset{}, false)
  }

  /** Everything client `c` has received so far. */
  function Received<C, T>(inbox: map<C, seq<Message<T>>>, c: C): seq<Message<T>>
  {
    if c in inbox then inbox[c] else []
  }

  /** The message every other client receives: a `sync` with the broadcast's content. */
  function SyncOf<T>(m: Message<T>): (s: Message<T>)
    ensures s.kind == Sync && s.content == m.content
  {
    Message(Sync, m.content)
  }

  /** `m` appended to the inbox of each client in `to`. */
  function Deliver<C, T>(inbox: map<C, seq<Message<T>>>, to: set<C>, m: Message<T>): map<C, seq<Message<T>>>
  {
    map c | c in inbox.Keys + to :: if c in to then Received(inbox, c) + [m] else inbox[c]
  }

  /** The register case: the client joins the set (a second registration changes nothing). */
  function RegisterStep<C, T>(h: HubState<C, T>, c: C): (r: HubState<C, T>)
    ensures r.clients == h.clients + {c}
    ensures r.(clients := h.clients) == h
  {
    h.(clients := h.clients + {c})
  }

  /** The unregister case: a present client is removed and closed; an absent one is ignored. */
  function UnregisterStep<C, T>(h: HubState<C, T>, c: C): (r: HubState<C, T>)
    ensures c in h.clients ==> r.clients == h.clients - {c} && r.closes == h.closes + multiset{c}
    ensures r.inbox == h.inbox && r.stopped == h.stopped
    ensures c !in h.clients ==> r == h
  {
    if c in h.clients then h.(clients := h.clients - {c}, closes := h.closes + multiset{c}) else h
  }

  /** The clients among `visited` that a broadcast from `sender` addresses. */
  function Targets<C>(visited: set<C>, sender: C, equal: (C, C) -> bool): set<C>
  {
    set c | c in visited && !equal(c, sender)
  }

  /**
   * The broadcast case restricted to the clients in `visited`: each of them
   * that is not `equal` to the sender is sent the `sync` message; the ones
   * whose send fails are closed and removed instead.
   */
  function BroadcastTo<C, T>(h: HubState<C, T>, visited: set<C>, m: Message<T>, sender: C, failing: set<C>,
                             equal: (C, C) -> bool): HubState<C, T>
  {
    var targets := Targets(visited, sender, equal);
    var dropped := targets * failing;
    h.(clients := h.clients - dropped,
       inbox := Deliver(h.inbox, targets - failing, SyncOf(m)),
       closes := h.closes + multiset(dropped))
  }

  /** The broadcast case: every registered client is visited once. */
  function BroadcastStep<C, T>(h: HubState<C, T>, m: Message<T>, sender: C, failing: set<C>,
                               equal: (C, C) -> bool): (r: HubState<C, T>)
    ensures r.clients <= h.clients && r.stopped == h.stopped
    ensures h.clients * failing == {} ==> r.clients == h.clients && r.closes == h.closes
    ensures forall c :: c in h.clients - r.clients ==> c in failing && !equal(c, sender) && r.closes[c] == h.closes[c] + 1
  {
    var dropped := Targets(h.clients, sender, equal) * failing;
    assert dropped <= h.clients * failing;
    assert forall c :: c in dropped ==> multiset(dropped)[c] == 1;
    BroadcastTo(h, h.clients, m, sender, failing, equal)
  }

  /** One pass of the loop; once stopped, the loop has returned and no event is handled. */
  function Step<C, T>(h: HubState<C, T>, e: Event<C, T>, equal: (C, C) -> bool): (r: HubState<C, T>)
    ensures h.stopped ==> r == h
    ensures r.stopped <==> h.stopped || e == StopSignal
    ensures forall c :: c in r.clients && c !in h.clients ==> e == Register(c)
  {
    if h.stopped then h
    else
      match e
      case Register(c) => RegisterStep(h, c)
      case Unregister(c) => UnregisterStep(h, c)
      case BroadcastRequest(m, sender, failing) => BroadcastStep(h, m, sender, failing, equal)
      case StopSignal => h.(stopped := true)
  }

  /** The loop over a run of events. */
  function RunEvents<C, T>(h: HubState<C, T>, events: seq<Event<C, T>>, equal: (C, C) -> bool): (r: HubState<C, T>)
    ensures r.stopped <==> h.stopped || StopSignal in events
    ensures forall c :: c in r.clients && c !in h.clients ==> Register(c) in events
    decreases |events|
  {
    if events == [] then h else RunEvents(Step(h, events[0], equal), events[1..], equal)
  }

  /** Registering adds exactly that client; registering a present client changes nothing. */
  lemma RegisterAdds<C, T>(h: HubState<C, T>, c: C)
    ensures RegisterStep(h, c).clients == h.clients + {c}
    ensures RegisterStep(h, c).inbox == h.inbox && RegisterStep(h, c).closes == h.closes
    ensures c in h.clients ==> RegisterStep(h, c) == h
  {
  }

  /**
   * Unregistering a present client removes it and closes it exactly once;
   * unregistering an absent client does nothing at all.
   */
  lemma UnregisterRemoves<C, T>(h: HubState<C, T>, c: C)
    ensures c in h.clients ==> UnregisterStep(h, c).clients == h.clients - {c}
    ensures c in h.clients ==> UnregisterStep(h, c).closes[c] == h.closes[c] + 1
    ensures forall d :: d != c ==> UnregisterStep(h, c).closes[d] == h.closes[d]
    ensures UnregisterStep(h, c).inbox == h.inbox
    ensures c !in h.clients ==> UnregisterStep(h, c) == h
  {
  }

  lemma {:induction false} ReceivedDeliver<C, T>(inbox: map<C, seq<Message<T>>>, to: set<C>, m: Message<T>, c: C)
    ensures Received(Deliver(inbox, to, m), c) == Received(inbox, c) + (if c in to then [m] else [])
  {
  }

  /**
   * What a broadcast does to each client: a registered client not `equal` to
   * the sender gets exactly one more message, a `sync` with the broadcast's
   * content, unless its send fails, in which case it is closed once and
   * removed. Every other client, the sender among them, receives nothing and
   * stays as it was. No client is ever added.
   */
  lemma {:induction false} BroadcastEffect<C, T>(h: HubState<C, T>, m: Message<T>, sender: C, failing: set<C>,
                                                 equal: (C, C) -> bool, c: C)
    ensures var after := BroadcastStep(h, m, sender, failing, equal);
            var targeted := c in h.clients && !equal(c, sender);
            && Received(after.inbox, c) == Received(h.inbox, c) + (if targeted && c !in failing then [SyncOf(m)] else [])
            && (c in after.clients <==> c in h.clients && !(targeted && c in failing))
            && after.closes[c] == h.closes[c] + (if targeted && c in failing then 1 else 0)
            && after.clients <= h.clients
            && after.stopped == h.stopped
  {
    ReceivedDeliver(h.inbox, Targets(h.clients, sender, equal) - failing, SyncOf(m), c);
  }

  /** In particular the sender, and every client `equal` to it, receives nothing. */
  lemma SenderReceivesNothing<C, T>(h: HubState<C, T>, m: Message<T>, sender: C, failing: set<C>,
                                    equal: (C, C) -> bool, c: C)
    requires equal(c, sender)
    ensures Received(BroadcastStep(h, m, sender, failing, equal).inbox, c) == Received(h.inbox, c)
  {
    BroadcastEffect(h, m, sender, failing, equal, c);
  }

  /** Once stopped, no event has any effect. */
  lemma {:induction false} StoppedIgnoresEvents<C, T>(h: HubState<C, T>, events: seq<Event<C, T>>, equal: (C, C) -> bool)
    requires h.stopped
    ensures RunEvents(h, events, equal) == h
    decreases |events|
  {
    if events != [] {
      StoppedIgnoresEvents(Step(h, events[0], equal), events[1..], equal);
    }
  }

  lemma {:induction false} RunEventsAppend<C, T>(h: HubState<C, T>, pre: seq<Event<C, T>>, post: seq<Event<C, T>>,
                                                 equal: (C, C) -> bool)
    ensures RunEvents(h, pre + post, equal) == RunEvents(RunEvents(h, pre, equal), post, equal)
    decreases |pre|
  {
    if pre == [] {
      assert pre + post == post;
    } else {
      assert (pre + post)[1..] == pre[1..] + post;
      RunEventsAppend(Step(h, pre[0], equal), pre[1..], post, equal);
    }
  }

  /** Running one more event is one more step. */
  lemma RunEventsSnoc<C, T>(h: HubState<C, T>, events: seq<Event<C, T>>, e: Event<C, T>, equal: (C, C) -> bool)
    ensures RunEvents(h, events + [e], equal) == Step(RunEvents(h, events, equal), e, equal)
  {
    RunEventsAppend(h, events, [e], equal);
  }

  /** Events after a stop are never processed: the run ends where the stop is. */
  lemma {:induction false} NothingAfterStop<C, T>(h: HubState<C, T>, pre: seq<Event<C, T>>, post: seq<Event<C, T>>,
                                                  equal: (C, C) -> bool)
    ensures RunEvents(h, pre + [StopSignal] + post, equal) == RunEvents(h, pre + [StopSignal], equal)
    ensures RunEvents(h, pre + [StopSignal], equal).stopped
  {
    RunEventsAppend(h, pre + [StopSignal], post, equal);
    RunEventsAppend(h, pre, [StopSignal], equal);
    var stopped := RunEvents(h, pre + [StopSignal], equal);
    assert RunEvents(RunEvents(h, pre, equal), [StopSignal], equal) == Step(RunEvents(h, pre, equal), StopSignal, equal);
    StoppedIgnoresEvents(stopped, post, equal);
  }

  /** Clients compared by their id, as the test's mock clients are. */
  function SameId(a: string, b: string): bool
  {
    a == b
  }

  /** The hub test's setup: registering client1, client2 and client3 in turn. */
  lemma RegisterScenario()
    ensures RunEvents(InitialHub<string, string>(), [Register("client1"), Register("client2"), Register("client3")], SameId)
         == HubState({"client1", "client2", "client3"}, map[], multiset{}, false)
  {
  }

  /**
   * The hub test's broadcast: an update from client1 with no failing send.
   * client2 and client3 each receive one `sync` with the same content, client1
   * receives nothing, and no client is closed or removed.
   */
  lemma BroadcastScenario(content: string)
    ensures var h := BroadcastStep(HubState({"client1", "client2", "client3"}, map[], multiset{}, false),
                                   Message(Update, content), "client1", {}, SameId);
            && Received(h.inbox, "client2") == [Message(Sync, content)]
            && Received(h.inbox, "client3") == [Message(Sync, content)]
            && Received(h.inbox, "client1") == []
            && h.clients == {"client1", "client2", "client3"}
            && h.closes == multiset{}
  {
    var h0 := HubState({"client1", "client2", "client3"}, map[], multiset{}, false);
    var m := Message(Update, content);
    assert Targets(h0.clients, "client1", SameId) * {} == {};
    BroadcastEffect(h0, m, "client1", {}, SameId, "client1");
    BroadcastEffect(h0, m, "client1", {}, SameId, "client2");
    BroadcastEffect(h0, m, "client1", {}, SameId, "client3");
  }

  /** Visiting one more client adds it to the targets exactly when it is not `equal` to the sender. */
  lemma TargetsVisit<C>(visited: set<C>, c: C, sender: C, equal: (C, C) -> bool)
    requires c !in visited
    ensures Targets(visited + {c}, sender, equal) == Targets(visited, sender, equal) + (if equal(c, sender) then {} else {c})
    ensures c !in Targets(visited, sender, equal)
  {
  }

  /** Delivering to one more client is appending to that client's inbox alone. */
  lemma DeliverOneMore<C, T>(inbox: map<C, seq<Message<T>>>, to: set<C>, c: C, m: Message<T>)
    requires c !in to
    ensures Deliver(inbox, to + {c}, m) == Deliver(inbox, to, m)[c := Received(Deliver(inbox, to, m), c) + [m]]
  {
    ReceivedDeliver(inbox, to, m, c);
  }

  /** The broadcast loop's body as a step on the partial result: client `c` is skipped, closed or sent `m`. */
  function VisitStep<C, T>(h: HubState<C, T>, c: C, sender: C, failing: set<C>, equal: (C, C) -> bool,
                           m: Message<T>): HubState<C, T>
  {
    if equal(c, sender) then h
    else if c in failing then h.(clients := h.clients - {c}, closes := h.closes + multiset{c})
    else h.(inbox := h.inbox[c := Received(h.inbox, c) + [m]])
  }

  /** Visiting one more client, one loop step, extends the broadcast to that client. */
  lemma VisitOne<C, T>(h0: HubState<C, T>, visited: set<C>, c: C, m: Message<T>, sender: C, failing: set<C>,
                       equal: (C, C) -> bool)
    requires c !in visited
    ensures BroadcastTo(h0, visited + {c}, m, sender, failing, equal)
         == VisitStep(BroadcastTo(h0, visited, m, sender, failing, equal), c, sender, failing, equal, SyncOf(m))
  {
    TargetsVisit(visited, c, sender, equal);
    if equal(c, sender) {
      assert Targets(visited + {c}, sender, equal) == Targets(visited, sender, equal);
    } else if c in failing {
      VisitClosing(h0, visited, c, m, sender, failing, equal);
    } else {
      VisitSending(h0, visited, c, m, sender, failing, equal);
    }
  }

  lemma VisitClosing<C, T>(h0: HubState<C, T>, visited: set<C>, c: C, m: Message<T>, sender: C, failing: set<C>,
                           equal: (C, C) -> bool)
    requires c !in visited && !equal(c, sender) && c in failing
    ensures var b0 := BroadcastTo(h0, visited, m, sender, failing, equal);
            BroadcastTo(h0, visited + {c}, m, sender, failing, equal)
            == b0.(clients := b0.clients - {c}, closes := b0.closes + multiset{c})
  {
    var t0, t1 := Targets(visited, sender, equal), Targets(visited + {c}, sender, equal);
    TargetsVisit(visited, c, sender, equal);
    assert t1 * failing == t0 * failing + {c};
    assert c !in t0 * failing;
    assert t1 - failing == t0 - failing;
  }

  lemma VisitSending<C, T>(h0: HubState<C, T>, visited: set<C>, c: C, m: Message<T>, sender: C, failing: set<C>,
                           equal: (C, C) -> bool)
    requires c !in visited && !equal(c, sender) && c !in failing
    ensures var b0 := BroadcastTo(h0, visited, m, sender, failing, equal);
            BroadcastTo(h0, visited + {c}, m, sender, failing, equal)
            == b0.(inbox := b0.inbox[c := Received(b0.inbox, c) + [SyncOf(m)]])
  {
    var t0, t1 := Targets(visited, sender, equal), Targets(visited + {c}, sender, equal);
    TargetsVisit(visited, c, sender, equal);
    assert t1 * failing == t0 * failing;
    assert t1 - failing == (t0 - failing) + {c};
    DeliverOneMore(h0.inbox, t0 - failing, c, SyncOf(m));
  }

  lemma BroadcastToEmpty<C, T>(h: HubState<C, T>, m: Message<T>, sender: C, failing: set<C>, equal: (C, C) -> bool)
    ensures BroadcastTo(h, {}, m, sender, failing, equal) == h
  {
    assert Targets({}, sender, equal) == {};
    assert Deliver(h.inbox, {}, SyncOf(m)) == h.inbox;
  }

  /** The hub's goroutine state, updated in place by each event. */
  class Hub<C(==), T> {
    const equal: (C, C) -> bool
    var clients: set<C>
    var inbox: map<C, seq<Message<T>>>
    var closes: multiset<C>
    var stopped: bool

    function State(): HubState<C, T>
      reads this
    {
      HubState(clients, inbox, closes, stopped)
    }

    /** NewHub: no clients. */
    constructor (equal: (C, C) -> bool)
      ensures this.equal == equal && State() == InitialHub()
    {
      this.equal := equal;
      clients := {};
      inbox := map[];
      closes := multiset{};
      stopped := false;
    }

    /** RegisterClient, handled by the register case. After a stop the request is never taken. */
    method RegisterClient(c: C)
      modifies this
      ensures State() == Step(old(State()), Register(c), equal)
    {
      if !stopped {
        clients := clients + {c};
      }
    }

    /** UnregisterClient, handled by the unregister case. */
    method UnregisterClient(c: C)
      modifies this
      ensures State() == Step(old(State()), Unregister(c), equal)
    {
      if !stopped && c in clients {
        clients := clients - {c};
        closes := closes + multiset{c};
      }
    }

    /**
     * Broadcast, handled by the broadcast case: re-tag the message as `sync`
     * and offer it to every registered client.
     */
    method Broadcast(m: Message<T>, sender: C, failing: set<C>)
      modifies this
      ensures State() == Step(old(State()), BroadcastRequest(m, sender, failing), equal)
    {
      if !stopped {
        clients, inbox, closes := SendToClients(clients, inbox, closes, stopped, m, sender, failing, equal);
      }
    }

    /**
     * The loop over the clients, on the hub's three fields passed by value:
     * visit each registered client once, in any order; skip those `equal` to
     * the sender; close and delete those whose send fails; the others receive
     * the `sync` message.
     */
    static method SendToClients(clients: set<C>, inbox: map<C, seq<Message<T>>>, closes: multiset<C>, stopped: bool,
                           m: Message<T>, sender: C, failing: set<C>, equal: (C, C) -> bool)
      returns (clients': set<C>, inbox': map<C, seq<Message<T>>>, closes': multiset<C>)
      ensures HubState(clients', inbox', closes', stopped)
           == BroadcastStep(HubState(clients, inbox, closes, stopped), m, sender, failing, equal)
    {
      var syncMsg := Message(Sync, m.content);
      ghost var h0 := HubState(clients, inbox, closes, stopped);
      clients', inbox', closes' := clients, inbox, closes;
      var pending := clients;
      ghost var visited: set<C> := {};
      BroadcastToEmpty(h0, m, sender, failing, equal);
      while pending != {}
        invariant pending <= clients && visited == clients - pending
        invariant HubState(clients', inbox', closes', stopped) == BroadcastTo(h0, visited, m, sender, failing, equal)
        decreases pending
      {
        var c :| c in pending;
        VisitOne(h0, visited, c, m, sender, failing, equal);
        if !equal(c, sender) {
          if c in failing {
            closes' := closes' + multiset{c};
            clients' := clients' - {c};
          } else {
            inbox' := inbox'[c := Received(inbox', c) + [syncMsg]];
          }
        }
        pending := pending - {c};
        visited := visited + {c};
      }
      assert visited == clients;
    }

    /** Stop: the loop returns. Closing the stop channel twice panics, so it happens once. */
    method Stop()
      requires !stopped
      modifies this
      ensures State() == Step(old(State()), StopSignal, equal)
    {
      stopped := true;
    }

    /** Run: handle the events in order, each by its case; after a stop nothing more is handled. */
    method Run(events: seq<Event<C, T>>)
      modifies this
      ensures State() == RunEvents(old(State()), events, equal)
    {
      var i := 0;
      while i < |events|
        invariant 0 <= i <= |events|
        decreases |events| - i
        invariant State() == RunEvents(old(State()), events[..i], equal)
      {
        RunEventsAppend(old(State()), events[..i], [events[i]], equal);
        assert events[..i + 1] == events[..i] + [events[i]];
        match events[i] {
          case Register(c) => RegisterClient(c);
          case Unregister(c) => UnregisterClient(c);
          case BroadcastRequest(m, sender, failing) => Broadcast(m, sender, failing);
          case StopSignal => if !stopped { Stop(); }
        }
        i := i + 1;
      }
      assert events[..i] == events;
    }
  }
}
