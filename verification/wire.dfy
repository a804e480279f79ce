/** The values the chat relay reads from and writes to its sockets: inbound frames as
    they come out of JSON parsing, registered users, stored chat messages and the
    typed envelopes `{type, data}` that `createMsg` serialises. */
module Wire {

  /** An opaque socket handle; the relay only ever compares handles for identity. */
  type Conn = nat

  datatype Option<T> = None | Some(value: T)

  /** A field of a parsed frame: a string, or anything else JSON can hold
      (number, boolean, object, array, null) including a missing field. */
  datatype Value = Str(s: string) | NonStr

  /** An inbound frame: either text that is not well-formed JSON, or the `type`,
      `data` and `userId` fields of the parsed object. */
  datatype Frame = Malformed | Parsed(kind: Value, data: Value, userId: Value)

  /** One registry entry `{username, ws, id}`. */
  datatype User = User(username: string, ws: Conn, id: string)

  /** One history entry `{username, message, messageId, date}`; `date` is the
      acceptance time as supplied by the clock. */
  datatype ChatMsg = ChatMsg(username: string, message: string, messageId: string, date: nat)

  /** The fixed reasons carried by `error` and `usernameError` envelopes. */
  datatype Reason =
    | NameNotString
    | NameBlank
    | NameTaken
    | BadJson
    | MessageNotString
    | MessageBlank

  /** An outbound envelope; the constructor is the envelope's `type`. */
  datatype Envelope =
    | UserId(username: string, id: string)
    | UserCame(name: string)
    | UserGone(name: string)
    | Message(msg: ChatMsg)
    | Error(reason: Reason)
    | UsernameError(reason: Reason)

  /** One `send` of an envelope to a socket, as recorded in the outbox. */
  datatype Send = Send(to: Conn, env: Envelope)

  /** The `type` tag `createMsg` writes for an envelope. */
  function Tag(e: Envelope): string
  {
    match e
    case UserId(_, _) => "userId"
    case UserCame(_) => "userCame"
    case UserGone(_) => "userGone"
    case Message(_) => "message"
    case Error(_) => "error"
    case UsernameError(_) => "usernameError"
  }

  /** The human-readable text that goes out as `data` with each reason. */
  function Text(r: Reason): string
  {
    match r
    case NameNotString => "Username должен быть строкой!"
    case NameBlank => "У вас username пустой!"
    case NameTaken => "Пользователь с таким именем уже есть!"
    case BadJson => "Вы отправили некорректный JSON"
    case MessageNotString => "Сообщение должно быть строкой"
    case MessageBlank => "Сообщение должно быть не пустое"
  }

  /** The `type` tag alone tells which kind of envelope a frame carries. */
  lemma TagDeterminesKind(a: Envelope, b: Envelope)
    requires Tag(a) == Tag(b)
    ensures a.UserId? == b.UserId? && a.UserCame? == b.UserCame? && a.UserGone? == b.UserGone? &&
            a.Message? == b.Message? && a.Error? == b.Error? && a.UsernameError? == b.UsernameError?
  {
  }

  /** Distinct reasons go out with distinct texts, so a client can tell them apart. */
  lemma TextDeterminesReason(a: Reason, b: Reason)
    requires Text(a) == Text(b)
    ensures a == b
  {
  }
}
