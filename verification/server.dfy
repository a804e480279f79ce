/** The relay's shared state as the program keeps it: the `users` and `messages`
    arrays that the handlers push to and splice, and the sends they make, recorded in
    an outbox. Each handler is proved to perform exactly the transition that
    `Protocol` defines for it, so every property proved there holds of the handler. */
module Server {
  import opened Wire
  import opened Registry
  import opened Protocol

  class ChatServer {
    var users: seq<User>
    var messages: seq<ChatMsg>
    /** Every `send` made so far, oldest first. */
    var outbox: seq<Send>

    function Snapshot(): State
      reads this
    {
      State(users, messages, outbox)
    }

    ghost predicate Valid()
      reads this
    {
      Protocol.Valid(Snapshot())
    }

    constructor ()
      ensures Valid()
      ensures Snapshot() == Initial()
    {
      users := [];
      messages := [];
      outbox := [];
    }

    /** `sendToAll(msg)`: one send to each open connection, in their order. */
    method SendToAll(open: seq<Conn>, e: Envelope)
      modifies this`outbox
      ensures outbox == old(outbox) + Broadcast(open, e)
    {
      var i := 0;
      while i < |open|
        invariant 0 <= i <= |open|
        invariant outbox == old(outbox) + Broadcast(open[..i], e)
      {
        assert Broadcast(open[..i + 1], e) == Broadcast(open[..i], e) + [Send(open[i], e)];
        outbox := outbox + [Send(open[i], e)];
        i := i + 1;
      }
      assert open[..i] == open;
    }

    /** The `connection` listener's two replay loops: every registered user, then every
        stored message, sent to the new socket only. */
    method OnConnection(ws: Conn)
      requires Valid()
      modifies this`outbox
      ensures Valid()
      ensures Snapshot() == Connect(old(Snapshot()), ws)
    {
      for i := 0 to |users|
        invariant outbox == old(outbox) + ReplayUsers(users[..i], ws)
      {
        assert ReplayUsers(users[..i + 1], ws) == ReplayUsers(users[..i], ws) + [Send(ws, UserCame(users[i].username))];
        outbox := outbox + [Send(ws, UserCame(users[i].username))];
      }
      assert users[..|users|] == users;
      ghost var afterUsers := outbox;
      for j := 0 to |messages|
        invariant outbox == afterUsers + ReplayHistory(messages[..j], ws)
      {
        assert ReplayHistory(messages[..j + 1], ws) == ReplayHistory(messages[..j], ws) + [Send(ws, Message(messages[j]))];
        outbox := outbox + [Send(ws, Message(messages[j]))];
      }
      assert messages[..|messages|] == messages;
    }

    /** `newUserHandler(data, ws)`; `id` is the value `uuid.v4()` returns. */
    method NewUserHandler(data: Value, ws: Conn, id: string, open: seq<Conn>)
      requires Valid()
      modifies this
      ensures Valid()
      ensures Snapshot() == NewUser(old(Snapshot()), ws, data, id, open)
    {
      NewUserKeepsDistinct(Snapshot(), ws, data, id, open);
      if data.NonStr? {
        outbox := outbox + [Send(ws, UsernameError(NameNotString))];
        return;
      }
      if Blank(data.s) {
        outbox := outbox + [Send(ws, UsernameError(NameBlank))];
        return;
      }
      if Taken(users, data.s) {
        outbox := outbox + [Send(ws, UsernameError(NameTaken))];
        return;
      }
      var username := data.s;
      users := users + [User(username, ws, id)];
      outbox := outbox + [Send(ws, UserId(username, id))];
      SendToAll(open, UserCame(username));
    }

    /** `messageHandler(msg, ws)`; `messageId` and `date` are what `uuid.v4()` and
        `new Date()` return. */
    method MessageHandler(ws: Conn, data: Value, userId: Value, messageId: string, date: nat,
                          open: seq<Conn>)
      requires Valid()
      modifies this
      ensures Valid()
      ensures Snapshot() == PostMessage(old(Snapshot()), ws, data, userId, messageId, date, open)
    {
      if data.NonStr? {
        outbox := outbox + [Send(ws, Error(MessageNotString))];
        return;
      }
      if Blank(data.s) {
        outbox := outbox + [Send(ws, Error(MessageBlank))];
        return;
      }
      var user := FindById(users, userId);
      if user.Some? {
        var messageData := ChatMsg(user.value.username, data.s, messageId, date);
        messages := messages + [messageData];
        SendToAll(open, Message(messageData));
      }
    }

    /** The socket's `message` listener: a frame that is not JSON draws an `error`; a
        `newUser` or `message` frame goes to its handler; any other type is ignored. */
    method OnMessage(ws: Conn, frame: Frame, freshId: string, date: nat, open: seq<Conn>)
      requires Valid()
      modifies this
      ensures Valid()
      ensures Snapshot() == Receive(old(Snapshot()), ws, frame, freshId, date, open)
    {
      match frame
      case Malformed =>
        outbox := outbox + [Send(ws, Error(BadJson))];
      case Parsed(kind, data, userId) =>
        if kind == Str("newUser") {
          NewUserHandler(data, ws, freshId, open);
        } else if kind == Str("message") {
          MessageHandler(ws, data, userId, freshId, date, open);
        }
    }

    /** The socket's `close` listener: `findIndex` by socket, `splice` that one entry
        out and announce its name. */
    method OnClose(ws: Conn, open: seq<Conn>)
      requires Valid()
      modifies this
      ensures Valid()
      ensures Snapshot() == Close(old(Snapshot()), ws, open)
    {
      CloseKeepsDistinct(Snapshot(), ws, open);
      var index := IndexOfConn(users, ws);
      if index != -1 {
        var username := users[index].username;
        users := users[..index] + users[index + 1..];
        SendToAll(open, UserGone(username));
      }
    }
  }
}
