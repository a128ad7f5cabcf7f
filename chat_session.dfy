/** The chat page's session: the socket's open/message/close handlers and
    `sendMessage`, stripped of the UI framework. `Step` is the specification of
    one event; the class `Session` holds the same state in mutable fields and
    each of its methods is proved to perform exactly that step. */
module ChatSession {
  import opened JsText

  /** One transcript entry as the server sends it (and as presence notices are built). */
  datatype Chat = Chat(username: string, text: string, createdAt: string)

  /** A decoded server-to-client frame, by its `type` tag. `Unrecognised` stands
      for a frame whose tag is none of the six handled ones. */
  datatype Frame =
    | AuthSuccess
    | History(entries: seq<Chat>)
    | Message(chat: Chat)
    | UserJoined(username: string)
    | UserLeft(username: string)
    | Error(message: string)
    | Unrecognised(kind: string)

  /** A client-to-server frame: `{type: "auth", token}` or `{type: "message", text}`. */
  datatype Outbound = Auth(token: string) | Text(text: string)

  /** The WebSocket `readyState` values. */
  datatype ReadyState = SocketConnecting | SocketOpen | SocketClosing | SocketClosed

  /** What can happen to the page: the socket opens, a frame arrives (with the
      local clock reading used for presence notices), the socket starts closing
      (its ready state becomes CLOSING; no handler runs until `onclose`), the
      socket closes, the user presses send, or the user edits the input box. */
  datatype Event =
    | Open
    | Inbound(frame: Frame, now: string)
    | Closing
    | Close
    | Send
    | Edit(text: string)

  /** The page's state: the session token it was mounted with, the two flags,
      the transcript, the input box, the socket's ready state and every frame
      sent on the socket so far. */
  datatype State = State(
    token: string,
    connected: bool,
    authenticated: bool,
    messages: seq<Chat>,
    input: string,
    ready: ReadyState,
    outbox: seq<Outbound>)

  /** The state right after mounting: the socket exists and is still connecting. */
  function Initial(token: string): State {
    State(token, false, false, [], "", SocketConnecting, [])
  }

  /** The entry added for a `user_joined` / `user_left` frame. */
  function Notice(text: string, now: string): Chat {
    Chat("System", text, now)
  }

  function JoinedText(who: string): string { who + " joined the chat." }
  function LeftText(who: string): string { who + " left the chat." }

  /** The send gate: the input is not blank after trimming and the socket is OPEN.
      Authentication plays no part. */
  predicate CanSend(s: State) {
    Trim(s.input) != [] && s.ready == SocketOpen
  }

  /** The `onmessage` dispatch on the frame's type. */
  function Dispatch(s: State, f: Frame, now: string): State {
    match f
    case AuthSuccess => s.(authenticated := true)
    case History(h) => s.(messages := h)
    case Message(m) => s.(messages := s.messages + [m])
    case UserJoined(u) => s.(messages := s.messages + [Notice(JoinedText(u), now)])
    case UserLeft(u) => s.(messages := s.messages + [Notice(LeftText(u), now)])
    case Error(_) => s
    case Unrecognised(_) => s
  }

  /** One event applied to the page state. */
  function Step(s: State, e: Event): State {
    match e
    case Open => s.(connected := true, ready := SocketOpen, outbox := s.outbox + [Auth(s.token)])
    case Inbound(f, now) => Dispatch(s, f, now)
    case Closing => s.(ready := SocketClosing)
    case Close => s.(connected := false, authenticated := false, ready := SocketClosed)
    case Send =>
      if CanSend(s) then s.(outbox := s.outbox + [Text(s.input)], input := "") else s
    case Edit(t) => s.(input := t)
  }

  /** The events applied in arrival order. */
  function Run(s: State, events: seq<Event>): State {
    if events == [] then s else Step(Run(s, events[..|events| - 1]), events[|events| - 1])
  }

  /** The page as a mutable object. `wsRef` is represented by `ready` and `outbox`. */
  class Session {
    const token: string
    var connected: bool
    var authenticated: bool
    var messages: seq<Chat>
    var input: string
    var ready: ReadyState
    var outbox: seq<Outbound>

    /** The fields as a `State` value. */
    ghost function Snapshot(): State
      reads this
    {
      State(token, connected, authenticated, messages, input, ready, outbox)
    }

    /** Mounting the page with `token`: both flags false, empty transcript and
        input, a new socket that is connecting, nothing sent yet. */
    constructor (token: string)
      ensures this.token == token
      ensures !connected && !authenticated && messages == [] && input == ""
      ensures ready == SocketConnecting && outbox == []
      ensures Snapshot() == Initial(token)
    {
      this.token := token;
      connected, authenticated := false, false;
      messages, input := [], "";
      ready, outbox := SocketConnecting, [];
    }

    /** `onopen`: the socket is open, `connected` becomes true and exactly one
        `auth` frame carrying the session token is sent. */
    method HandleOpen()
      modifies this
      ensures connected && ready == SocketOpen
      ensures outbox == old(outbox) + [Auth(token)]
      ensures authenticated == old(authenticated) && messages == old(messages) && input == old(input)
      ensures Snapshot() == Step(old(Snapshot()), Open)
    {
      ready := SocketOpen;
      connected := true;
      outbox := outbox + [Auth(token)];
    }

    /** `onmessage`: one decoded frame. `now` is the local clock reading. */
    method HandleMessage(frame: Frame, now: string)
      modifies this
      ensures connected == old(connected) && input == old(input)
      ensures ready == old(ready) && outbox == old(outbox)
      ensures authenticated == (old(authenticated) || frame.AuthSuccess?)
      ensures frame.AuthSuccess? ==> messages == old(messages)
      ensures frame.History? ==> messages == frame.entries
      ensures frame.Message? ==> messages == old(messages) + [frame.chat]
      ensures frame.UserJoined? ==>
                messages == old(messages) + [Chat("System", frame.username + " joined the chat.", now)]
      ensures frame.UserLeft? ==>
                messages == old(messages) + [Chat("System", frame.username + " left the chat.", now)]
      ensures frame.Error? || frame.Unrecognised? ==> messages == old(messages)
      ensures Snapshot() == Step(old(Snapshot()), Inbound(frame, now))
    {
      match frame {
        case AuthSuccess =>
          authenticated := true;
        case History(h) =>
          messages := h;
        case Message(m) =>
          messages := messages + [m];
        case UserJoined(u) =>
          messages := messages + [Notice(JoinedText(u), now)];
        case UserLeft(u) =>
          messages := messages + [Notice(LeftText(u), now)];
        case Error(_) =>
        case Unrecognised(_) =>
      }
    }

    /** The socket starts closing: only its ready state changes, to CLOSING.
        The page runs no code for this; `onclose` comes later. */
    method BeginClosing()
      modifies this
      ensures ready == SocketClosing
      ensures connected == old(connected) && authenticated == old(authenticated)
      ensures messages == old(messages) && input == old(input) && outbox == old(outbox)
      ensures Snapshot() == Step(old(Snapshot()), Closing)
    {
      ready := SocketClosing;
    }

    /** `onclose`: both flags drop to false whatever they were; the transcript,
        the input and what was sent stay as they are. */
    method HandleClose()
      modifies this
      ensures !connected && !authenticated && ready == SocketClosed
      ensures messages == old(messages) && input == old(input) && outbox == old(outbox)
      ensures Snapshot() == Step(old(Snapshot()), Close)
    {
      ready := SocketClosed;
      connected := false;
      authenticated := false;
    }

    /** `sendMessage`: when the trimmed input is non-empty and the socket is OPEN,
        the untrimmed input goes out as one `message` frame and the input is
        cleared; otherwise nothing happens. The transcript never changes. */
    method SendMessage()
      modifies this
      ensures Trim(old(input)) != [] && old(ready) == SocketOpen ==>
                outbox == old(outbox) + [Text(old(input))] && input == ""
      ensures Trim(old(input)) == [] || old(ready) != SocketOpen ==>
                outbox == old(outbox) && input == old(input)
      ensures connected == old(connected) && authenticated == old(authenticated)
      ensures messages == old(messages) && ready == old(ready)
      ensures Snapshot() == Step(old(Snapshot()), Send)
    {
      ghost var before := Snapshot();
      var blank := Trim(input) == [];
      if !blank && ready == SocketOpen {
        outbox := outbox + [Text(input)];
        input := "";
      }
      assert Snapshot() == if CanSend(before) then before.(outbox := before.outbox + [Text(before.input)], input := "") else before;
    }

    /** The input box's `onChange`: the input becomes what the user typed. */
    method EditInput(text: string)
      modifies this
      ensures input == text
      ensures connected == old(connected) && authenticated == old(authenticated)
      ensures messages == old(messages) && ready == old(ready) && outbox == old(outbox)
      ensures Snapshot() == Step(old(Snapshot()), Edit(text))
    {
      input := text;
    }
  }
}
