/**
 * The standalone server (server/main.go): one websocket session per client,
 * which registers the client, forwards every inbound `update` frame to the
 * hub's broadcast with the client as sender, and unregisters the client when
 * reading fails. Its hub handles the same register, unregister and broadcast
 * cases as websocket/hub.go, with clients compared by pointer identity and no
 * stop case, so it is the `Hub` class with `Identity` as its equality.
 *
 * A frame is what `json.Unmarshal` gives for one read: an envelope whose
 * `type` is any string and whose `content` is kept as raw JSON text; the
 * parser is a parameter and `None` stands for a frame it rejects.
 */
module Server {
  import opened Wrappers
  import opened Messages
  import opened Hub

  /** A connected client: the connection is left out, only its identity matters. */
  class Client {
    const id: string

    constructor (id: string)
      ensures this.id == id
    {
      this.id := id;
    }
  }

  /** The unmarshalled frame: the `type` field as sent, and the raw `content`. */
  datatype Envelope = Envelope(kind: string, content: string)

  /** Clients are map keys of pointer type, so two clients are the same client only if they are the same object. */
  function Identity(a: Client, b: Client): bool
  {
    a == b
  }

  /**
   * The type switch of the read loop: an `update` frame is forwarded as an
   * update with the same content; a frame of any other type is dropped, and
   * so is a frame that does not parse.
   */
  function Forward(parsed: Option<Envelope>): (r: Option<Message<string>>)
    ensures r.Some? <==> parsed.Some? && parsed.value.kind == Tag(Update)
    ensures r.Some? ==> r.value.kind == Update && r.value.content == parsed.value.content
  {
    match parsed
    case Some(e) => if e.kind == Tag(Update) then Some(Message(Update, e.content)) else None
    case None => None
  }

  /**
   * The broadcasts a session of `frames` sends to the hub, in order; the
   * broadcast of frame i meets the clients in `failures[i]` whose send fails.
   */
  function SessionBroadcasts(client: Client, frames: seq<string>, parse: string -> Option<Envelope>,
                             failures: seq<set<Client>>): (r: seq<Event<Client, string>>)
    requires |failures| == |frames|
    ensures |r| <= |frames|
    ensures forall k :: 0 <= k < |r| ==> r[k].BroadcastRequest? && r[k].sender == client && r[k].message.kind == Update
    decreases |frames|
  {
    if frames == [] then []
    else
      var n := |frames| - 1;
      SessionBroadcasts(client, frames[..n], parse, failures[..n])
      + match Forward(parse(frames[n]))
        case Some(m) => [BroadcastRequest(m, client, failures[n])]
        case None => []
  }

  /** Everything the session does to the hub: register, the broadcasts, and the deferred unregister. */
  function SessionEvents(client: Client, frames: seq<string>, parse: string -> Option<Envelope>,
                         failures: seq<set<Client>>): (r: seq<Event<Client, string>>)
    requires |failures| == |frames|
    ensures |r| >= 2 && r[0] == Register(client) && r[|r| - 1] == Unregister(client)
    ensures forall k :: 0 < k < |r| - 1 ==> r[k].BroadcastRequest? && r[k].sender == client
  {
    [Register(client)] + SessionBroadcasts(client, frames, parse, failures) + [Unregister(client)]
  }

  /**
   * Every event a session sends is a broadcast of an `update`, with the
   * session's client as sender and the content of an `update` frame it read;
   * there are never more broadcasts than frames.
   */
  lemma {:induction false} BroadcastsAreUpdates(client: Client, frames: seq<string>, parse: string -> Option<Envelope>,
                                                failures: seq<set<Client>>)
    requires |failures| == |frames|
    ensures var es := SessionBroadcasts(client, frames, parse, failures);
            && |es| <= |frames|
            && forall k :: 0 <= k < |es| ==>
                 && es[k].BroadcastRequest?
                 && es[k].sender == client
                 && es[k].message.kind == Update
                 && exists j :: 0 <= j < |frames| && parse(frames[j]) == Some(Envelope(Tag(Update), es[k].message.content))
    decreases |frames|
  {
    if frames != [] {
      var n := |frames| - 1;
      BroadcastsAreUpdates(client, frames[..n], parse, failures[..n]);
      var es0 := SessionBroadcasts(client, frames[..n], parse, failures[..n]);
      var es := SessionBroadcasts(client, frames, parse, failures);
      forall k | 0 <= k < |es|
        ensures exists j :: 0 <= j < |frames| && parse(frames[j]) == Some(Envelope(Tag(Update), es[k].message.content))
      {
        if k < |es0| {
          assert es[k] == es0[k];
          var j :| 0 <= j < n && parse(frames[..n][j]) == Some(Envelope(Tag(Update), es0[k].message.content));
          assert frames[..n][j] == frames[j];
        } else {
          assert parse(frames[n]) == Some(Envelope(Tag(Update), es[k].message.content));
        }
      }
    }
  }

  /**
   * Reading one more frame adds one broadcast when the frame is an `update`,
   * and nothing when it has another type or does not parse.
   */
  lemma ReadOneMore(client: Client, frames: seq<string>, frame: string, parse: string -> Option<Envelope>,
                    failures: seq<set<Client>>, failing: set<Client>)
    requires |failures| == |frames|
    ensures var before := SessionBroadcasts(client, frames, parse, failures);
            var after := SessionBroadcasts(client, frames + [frame], parse, failures + [failing]);
            && (parse(frame).Some? && parse(frame).value.kind == Tag(Update) ==>
                  after == before + [BroadcastRequest(Message(Update, parse(frame).value.content), client, failing)])
            && (parse(frame).None? || parse(frame).value.kind != Tag(Update) ==> after == before)
  {
    assert (frames + [frame])[..|frames|] == frames;
    assert (failures + [failing])[..|frames|] == failures;
  }

  /**
   * main.go's broadcast, with clients compared by identity: every registered
   * client other than the sender gets one `sync` with the update's content,
   * or, if the write fails, is closed once and deleted; the sender itself and
   * unregistered clients are untouched.
   */
  lemma IdentityBroadcast(h: HubState<Client, string>, m: Message<string>, sender: Client, failing: set<Client>,
                          c: Client)
    ensures var after := BroadcastStep(h, m, sender, failing, Identity);
            var targeted := c in h.clients && c != sender;
            && Received(after.inbox, c) == Received(h.inbox, c) + (if targeted && c !in failing then [Message(Sync, m.content)] else [])
            && (c in after.clients <==> c in h.clients && !(targeted && c in failing))
            && after.closes[c] == h.closes[c] + (if targeted && c in failing then 1 else 0)
  {
    BroadcastEffect(h, m, sender, failing, Identity, c);
  }

  /** With identity as equality, a broadcast addresses exactly the clients other than the sender. */
  lemma IdentityTargets(clients: set<Client>, sender: Client)
    ensures Targets(clients, sender, Identity) == clients - {sender}
  {
  }

  /** newHub: an empty client set, with identity as the comparison. */
  method NewHub() returns (hub: Hub<Client, string>)
    ensures fresh(hub) && hub.equal == Identity && hub.State() == InitialHub()
  {
    hub := new Hub(Identity);
  }

  /**
   * handleWebSocket for one client: register it, read `frames` until reading
   * fails, forward each `update` to the broadcast with the client as sender,
   * skip the rest, and unregister the client on the way out.
   */
  method HandleWebSocket(hub: Hub<Client, string>, client: Client, frames: seq<string>,
                         parse: string -> Option<Envelope>, failures: seq<set<Client>>)
    requires |failures| == |frames|
    modifies hub
    ensures hub.State() == RunEvents(old(hub.State()), SessionEvents(client, frames, parse, failures), hub.equal)
  {
    ghost var h0 := hub.State();
    hub.RegisterClient(client);
    RunEventsSnoc(h0, [], Register(client), hub.equal);
    assert [] + [Register(client)] == [Register(client)] + SessionBroadcasts(client, frames[..0], parse, failures[..0]);
    var i := 0;
    while i < |frames|
      invariant 0 <= i <= |frames|
      invariant hub.State()
             == RunEvents(h0, [Register(client)] + SessionBroadcasts(client, frames[..i], parse, failures[..i]), hub.equal)
      decreases |frames| - i
    {
      SessionStep(client, frames, parse, failures, i);
      ReadFrame(hub, client, frames[i], parse, failures[i], h0,
                [Register(client)] + SessionBroadcasts(client, frames[..i], parse, failures[..i]));
      i := i + 1;
    }
    assert frames[..i] == frames && failures[..i] == failures;
    RunEventsSnoc(h0, [Register(client)] + SessionBroadcasts(client, frames, parse, failures), Unregister(client), hub.equal);
    hub.UnregisterClient(client);
  }

  /**
   * One pass of the read loop: parse the frame, broadcast it with the client
   * as sender if its type is `update`, and otherwise go on to the next frame.
   * `done` is the run of events the hub has handled so far, from `h0`.
   */
  method ReadFrame(hub: Hub<Client, string>, client: Client, frame: string, parse: string -> Option<Envelope>,
                   failing: set<Client>, ghost h0: HubState<Client, string>, ghost done: seq<Event<Client, string>>)
    requires hub.State() == RunEvents(h0, done, hub.equal)
    modifies hub
    ensures parse(frame).Some? && parse(frame).value.kind == Tag(Update) ==>
      hub.State() == RunEvents(h0, done + [BroadcastRequest(Message(Update, parse(frame).value.content), client, failing)], hub.equal)
    ensures parse(frame).None? || parse(frame).value.kind != Tag(Update) ==> hub.State() == old(hub.State())
  {
    var parsed := parse(frame);
    match parsed {
      case Some(message) =>
        if message.kind == Tag(Update) {
          var m := Message(Update, message.content);
          RunEventsSnoc(h0, done, BroadcastRequest(m, client, failing), hub.equal);
          hub.Broadcast(m, client, failing);
        }
      case None =>
    }
  }

  /** The session's events after frame i are those before it and the broadcast frame i yields, if any. */
  lemma SessionStep(client: Client, frames: seq<string>, parse: string -> Option<Envelope>,
                    failures: seq<set<Client>>, i: int)
    requires |failures| == |frames| && 0 <= i < |frames|
    ensures var before := [Register(client)] + SessionBroadcasts(client, frames[..i], parse, failures[..i]);
            var after := [Register(client)] + SessionBroadcasts(client, frames[..i + 1], parse, failures[..i + 1]);
            && (parse(frames[i]).Some? && parse(frames[i]).value.kind == Tag(Update) ==>
                  after == before + [BroadcastRequest(Message(Update, parse(frames[i]).value.content), client, failures[i])])
            && (parse(frames[i]).None? || parse(frames[i]).value.kind != Tag(Update) ==> after == before)
  {
    ReadOneMore(client, frames[..i], frames[i], parse, failures[..i], failures[i]);
    assert frames[..i + 1] == frames[..i] + [frames[i]];
    assert failures[..i + 1] == failures[..i] + [failures[i]];
  }
}
