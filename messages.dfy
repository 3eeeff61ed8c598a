/** The envelope shared by the page and the server: `Message{Type, Content}`. */
module Messages {

  /** The two message kinds: `update` (page to server) and `sync` (server to the other pages). */
  datatype MessageType = Update | Sync

  datatype Message<T> = Message(kind: MessageType, content: T)

  /** The wire tag of each kind, as the JSON `type` field carries it. */
  function Tag(kind: MessageType): (s: string)
  {
    match kind
    case Update => "update"
    case Sync => "sync"
  }
}
