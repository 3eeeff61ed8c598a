/**
 * The page's channel adapter (useMessageQueue): the queue of inbound messages
 * and the transport's send primitive. JSON decoding is the parameter `parse`;
 * JSON encoding is left out, so the transport log keeps the messages themselves.
 */
module MessageQueue {
  import opened Wrappers
  import opened Messages

  /** The message a local edit sends: an `update` carrying `content` unchanged. */
  function CreateOutgoingMessage<T>(content: T): (m: Message<T>)
    ensures m.kind == Update && m.content == content
  {
    Message(Update, content)
  }

  /** The queue after one inbound payload: a parsed message goes to the tail, a parse failure changes nothing. */
  function Receive<T>(queue: seq<Message<T>>, parsed: Option<Message<T>>): (r: seq<Message<T>>)
    ensures |r| == |queue| + (if parsed.Some? then 1 else 0) && r[..|queue|] == queue
    ensures parsed.Some? ==> r[|queue|] == parsed.value
  {
    match parsed
    case Some(m) => queue + [m]
    case None => queue
  }

  /** The queue after a run of inbound payloads, delivered one at a time in arrival order. */
  function ReceiveAll<T>(queue: seq<Message<T>>, payloads: seq<string>, parse: string -> Option<Message<T>>): (r: seq<Message<T>>)
    ensures |queue| <= |r| <= |queue| + |payloads| && r[..|queue|] == queue
    decreases |payloads|
  {
    if payloads == [] then queue
    else ReceiveAll(Receive(queue, parse(payloads[0])), payloads[1..], parse)
  }

  /** The messages that parse, in arrival order: the reference for what the queue accumulates. */
  function Parsed<T>(payloads: seq<string>, parse: string -> Option<Message<T>>): (r: seq<Message<T>>)
    ensures |r| <= |payloads|
    decreases |payloads|
  {
    if payloads == [] then []
    else
      var last := payloads[|payloads| - 1];
      Parsed(payloads[..|payloads| - 1], parse) + (if parse(last).Some? then [parse(last).value] else [])
  }

  lemma {:induction false} ParsedAppend<T>(payloads: seq<string>, p: string, parse: string -> Option<Message<T>>)
    ensures Parsed(payloads + [p], parse) == Parsed(payloads, parse) + (if parse(p).Some? then [parse(p).value] else [])
  {
    assert (payloads + [p])[..|payloads|] == payloads;
  }

  /**
   * Delivering payloads one by one appends exactly the ones that parse, in
   * arrival order, after the messages already queued; none is reordered or lost.
   */
  lemma {:induction false} ReceiveAllAppendsParsed<T>(queue: seq<Message<T>>, payloads: seq<string>, parse: string -> Option<Message<T>>)
    ensures ReceiveAll(queue, payloads, parse) == queue + Parsed(payloads, parse)
    decreases |payloads|
  {
    if payloads != [] {
      var rest := payloads[1..];
      ReceiveAllAppendsParsed(Receive(queue, parse(payloads[0])), rest, parse);
      ParsedPrepend(payloads[0], rest, parse);
      assert [payloads[0]] + rest == payloads;
    }
  }

  lemma {:induction false} ParsedPrepend<T>(p: string, payloads: seq<string>, parse: string -> Option<Message<T>>)
    ensures Parsed([p] + payloads, parse) == (if parse(p).Some? then [parse(p).value] else []) + Parsed(payloads, parse)
    decreases |payloads|
  {
    if payloads == [] {
      assert [p] + payloads == [] + [p];
      ParsedAppend([], p, parse);
    } else {
      var init := payloads[..|payloads| - 1];
      var last := payloads[|payloads| - 1];
      assert [p] + payloads == ([p] + init) + [last];
      assert payloads == init + [last];
      ParsedAppend([p] + init, last, parse);
      ParsedPrepend(p, init, parse);
      ParsedAppend(init, last, parse);
    }
  }

  /** The hook's state: the inbound queue and everything handed to the transport. */
  class Channel<T> {
    var messages: seq<Message<T>>
    var sent: seq<Message<T>>

    /** The queue starts empty and nothing has been sent. */
    constructor ()
      ensures messages == [] && sent == []
    {
      messages := [];
      sent := [];
    }

    /** `onMessage`: a payload that parses is appended at the tail; one that does not is dropped. */
    method OnMessage(data: string, parse: string -> Option<Message<T>>)
      modifies this`messages
      ensures parse(data).Some? ==> messages == old(messages) + [parse(data).value]
      ensures parse(data).None? ==> messages == old(messages)
      ensures messages == Receive(old(messages), parse(data))
    {
      var parsed := parse(data);
      if parsed.Some? {
        messages := messages + [parsed.value];
      }
    }

    /** `clearQueue`: the queue becomes empty. */
    method ClearQueue()
      modifies this`messages
      ensures messages == []
    {
      messages := [];
    }

    /** `sendMessage`: forwards exactly one message to the transport. */
    method SendMessage(m: Message<T>)
      modifies this`sent
      ensures sent == old(sent) + [m]
    {
      sent := sent + [m];
    }
  }
}
