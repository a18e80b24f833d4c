/** The records the views share: messages of the chat log, the study board's
    subjects and topics, and the mind-map board's projects, nodes and
    connections. Ids and timestamps are produced by the clock in the
    application; here they are plain values handed in by the caller. */
module Types {

  datatype Option<+T> = None | Some(value: T)

  /** A `prompt` answer the handlers act on: `None` when the dialog was
      cancelled; the empty answer is falsy and ignored as well. */
  predicate Entered(name: Option<string>)
  {
    name.Some? && name.value != ""
  }

  /** Who wrote a chat message. */
  datatype Role = User | Model

  /** One entry of the append-only chat log. */
  datatype Message = Message(id: string, role: Role, text: string, timestamp: int)

  datatype Difficulty = Easy | Medium | Hard

  /** A topic belongs to one of three school terms. */
  type Term = t: int | 1 <= t <= 3 witness 1

  datatype TopicStatus = Learning | Mastered

  datatype Topic = Topic(
    id: string,
    name: string,
    difficulty: Difficulty,
    term: Term,
    status: TopicStatus,
    progress: int)

  datatype Subject = Subject(id: string, name: string, topics: seq<Topic>)

  datatype NodeKind = TextNode | ImageNode | LinkNode

  /** A mind-map node; `caption` is its label (a reserved word in Dafny), and
      `x` and `y` are its canvas position in pixels. */
  datatype Node = Node(
    id: string,
    caption: string,
    x: int,
    y: int,
    kind: NodeKind,
    content: Option<string>)

  /** An edge of the mind map, naming its endpoints by node id. */
  datatype Connection = Connection(from: string, to: string)

  datatype Project = Project(
    id: string,
    name: string,
    nodes: seq<Node>,
    connections: seq<Connection>)
}
