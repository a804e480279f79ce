/** The relay's behaviour as pure transitions on its whole state: the registry, the
    history and the outbox of every `send` made so far. Each socket event (connect,
    inbound frame, close) is one atomic transition, as Node runs the handlers one at a
    time. */
module Protocol {
  import opened Wire
  import opened Registry

  datatype State = State(users: seq<User>, messages: seq<ChatMsg>, outbox: seq<Send>)

  /** The state the process starts in. */
  function Initial(): State
  {
    State([], [], [])
  }

  /** The relay's invariant: registered usernames are pairwise distinct. */
  ghost predicate Valid(st: State)
  {
    NamesDistinct(st.users)
  }

  /** `sendToAll`: the envelope goes to every open connection, in their order. */
  function Broadcast(open: seq<Conn>, e: Envelope): (r: seq<Send>)
    ensures |r| == |open|
    ensures forall i :: 0 <= i < |open| ==> r[i] == Send(open[i], e)
  {
    if |open| == 0 then [] else [Send(open[0], e)] + Broadcast(open[1..], e)
  }

  /** The `userCame` replay: one envelope per registered user, in registry order. */
  function ReplayUsers(users: seq<User>, ws: Conn): (r: seq<Send>)
    ensures |r| == |users|
    ensures forall i :: 0 <= i < |users| ==> r[i] == Send(ws, UserCame(users[i].username))
  {
    if |users| == 0 then [] else [Send(ws, UserCame(users[0].username))] + ReplayUsers(users[1..], ws)
  }

  /** The history replay: one `message` envelope per stored message, in insertion order. */
  function ReplayHistory(messages: seq<ChatMsg>, ws: Conn): (r: seq<Send>)
    ensures |r| == |messages|
    ensures forall i :: 0 <= i < |messages| ==> r[i] == Send(ws, Message(messages[i]))
  {
    if |messages| == 0 then [] else [Send(ws, Message(messages[0]))] + ReplayHistory(messages[1..], ws)
  }

  /** A new socket is accepted: it is sent the registry and then the history. */
  function Connect(st: State, ws: Conn): State
  {
    st.(outbox := st.outbox + ReplayUsers(st.users, ws) + ReplayHistory(st.messages, ws))
  }

  /** `newUserHandler(data, ws)` with `id` the freshly generated user id. */
  function NewUser(st: State, ws: Conn, data: Value, id: string, open: seq<Conn>): State
  {
    match CheckName(st.users, data)
    case Some(reason) =>
      st.(outbox := st.outbox + [Send(ws, UsernameError(reason))])
    case None =>
      var name := data.s;
      State(st.users + [User(name, ws, id)],
            st.messages,
            st.outbox + [Send(ws, UserId(name, id))] + Broadcast(open, UserCame(name)))
  }

  /** `messageHandler(msg, ws)` with the frame's `data` and `userId`, and the freshly
      generated message id and acceptance time. */
  function PostMessage(st: State, ws: Conn, data: Value, userId: Value,
                       messageId: string, date: nat, open: seq<Conn>): State
  {
    match data
    case NonStr =>
      st.(outbox := st.outbox + [Send(ws, Error(MessageNotString))])
    case Str(text) =>
      if Blank(text) then
        st.(outbox := st.outbox + [Send(ws, Error(MessageBlank))])
      else
        match FindById(st.users, userId)
        case None => st
        case Some(user) =>
          var m := ChatMsg(user.username, text, messageId, date);
          st.(messages := st.messages + [m], outbox := st.outbox + Broadcast(open, Message(m)))
  }

  /** The socket's `message` listener: decode failure, then dispatch on `type`. */
  function Receive(st: State, ws: Conn, frame: Frame, freshId: string, date: nat,
                   open: seq<Conn>): State
  {
    match frame
    case Malformed =>
      st.(outbox := st.outbox + [Send(ws, Error(BadJson))])
    case Parsed(kind, data, userId) =>
      if kind == Str("newUser") then NewUser(st, ws, data, freshId, open)
      else if kind == Str("message") then PostMessage(st, ws, data, userId, freshId, date, open)
      else st
  }

  /** The socket's `close` listener: remove the first entry bound to it and announce it. */
  function Close(st: State, ws: Conn, open: seq<Conn>): State
  {
    var k := IndexOfConn(st.users, ws);
    if k == -1 then st
    else
      st.(users := RemoveAt(st.users, k),
          outbox := st.outbox + Broadcast(open, UserGone(st.users[k].username)))
  }

  /** One event the transport hands the relay. `freshId` and `date` stand for what
      `uuid.v4()` and `new Date()` return while the frame is handled; `open` is the
      set of connections whose state is OPEN at that moment. */
  datatype Event =
    | Connected(ws: Conn)
    | Received(ws: Conn, frame: Frame, freshId: string, date: nat, open: seq<Conn>)
    | Closed(ws: Conn, open: seq<Conn>)

  function Step(st: State, ev: Event): State
  {
    match ev
    case Connected(ws) => Connect(st, ws)
    case Received(ws, frame, freshId, date, open) => Receive(st, ws, frame, freshId, date, open)
    case Closed(ws, open) => Close(st, ws, open)
  }

  /** The state after handling the events in order. */
  function Run(st: State, evs: seq<Event>): State
    decreases |evs|
  {
    if |evs| == 0 then st else Run(Step(st, evs[0]), evs[1..])
  }

  // ---------------------------------------------------------------- dispatch

  /** A frame that is not JSON draws one `error` to its sender and changes nothing
      else; a parsed frame whose `type` is neither `newUser` nor `message` is ignored. */
  lemma ReceiveMalformedOrUnknown(st: State, ws: Conn, frame: Frame, freshId: string, date: nat,
                                  open: seq<Conn>)
    requires frame.Malformed? || (frame.kind != Str("newUser") && frame.kind != Str("message"))
    ensures Receive(st, ws, frame, freshId, date, open) ==
            if frame.Malformed? then st.(outbox := st.outbox + [Send(ws, Error(BadJson))]) else st
  {
  }

  // ---------------------------------------------------------------- registration

  /** A name that is not a string, or is blank, is refused: exactly one
      `usernameError` goes to the requester and nothing else changes. */
  lemma NewUserInvalidName(st: State, ws: Conn, data: Value, id: string, open: seq<Conn>)
    requires data.NonStr? || Blank(data.s)
    ensures var st' := NewUser(st, ws, data, id, open);
      st'.users == st.users && st'.messages == st.messages &&
      st'.outbox == st.outbox + [Send(ws, UsernameError(if data.NonStr? then NameNotString else NameBlank))]
  {
  }

  /** A name some entry already carries is refused with `usernameError` to the
      requester only; the registry is unchanged. */
  lemma NewUserDuplicateName(st: State, ws: Conn, name: string, id: string, open: seq<Conn>, i: nat)
    requires !Blank(name)
    requires i < |st.users| && st.users[i].username == name
    ensures var st' := NewUser(st, ws, Str(name), id, open);
      st'.users == st.users && st'.messages == st.messages &&
      st'.outbox == st.outbox + [Send(ws, UsernameError(NameTaken))]
  {
  }

  /** An accepted name appends exactly one entry `{username, ws, id}` after the
      earlier ones; then `userId` goes to the requester, followed by `userCame` to
      every open connection in turn. */
  lemma NewUserAccepted(st: State, ws: Conn, name: string, id: string, open: seq<Conn>)
    requires !Blank(name)
    requires forall i :: 0 <= i < |st.users| ==> st.users[i].username != name
    ensures var st' := NewUser(st, ws, Str(name), id, open);
      var n := |st.outbox|;
      st'.users == st.users + [User(name, ws, id)] &&
      st'.messages == st.messages &&
      |st'.outbox| == n + 1 + |open| &&
      st'.outbox[..n] == st.outbox &&
      st'.outbox[n] == Send(ws, UserId(name, id)) &&
      forall i :: 0 <= i < |open| ==> st'.outbox[n + 1 + i] == Send(open[i], UserCame(name))
  {
  }

  /** The announcement of a new name reaches the requester too, whenever its own
      socket is open. */
  lemma NewUserEchoesToRequester(st: State, ws: Conn, name: string, id: string, open: seq<Conn>)
    requires !Blank(name) && !Taken(st.users, name)
    requires ws in open
    ensures Send(ws, UserCame(name)) in NewUser(st, ws, Str(name), id, open).outbox[|st.outbox| + 1..]
  {
  }

  /** Registration keeps usernames pairwise distinct, and keeps ids pairwise distinct
      when the generated id is fresh. */
  lemma NewUserKeepsDistinct(st: State, ws: Conn, data: Value, id: string, open: seq<Conn>)
    ensures NamesDistinct(st.users) ==> NamesDistinct(NewUser(st, ws, data, id, open).users)
    ensures IdsDistinct(st.users) && IdUnused(st.users, id) ==> IdsDistinct(NewUser(st, ws, data, id, open).users)
  {
  }

  // ---------------------------------------------------------------- messages

  /** A message body that is not a string, or is blank, draws one `error` to the
      sender; the history is unchanged and nothing is broadcast. */
  lemma PostMessageInvalidBody(st: State, ws: Conn, data: Value, userId: Value,
                               messageId: string, date: nat, open: seq<Conn>)
    requires data.NonStr? || Blank(data.s)
    ensures var st' := PostMessage(st, ws, data, userId, messageId, date, open);
      st'.users == st.users && st'.messages == st.messages &&
      st'.outbox == st.outbox + [Send(ws, Error(if data.NonStr? then MessageNotString else MessageBlank))]
  {
  }

  /** A valid body whose declared id matches no registered id is dropped silently. */
  lemma PostMessageUnknownId(st: State, ws: Conn, text: string, userId: Value,
                             messageId: string, date: nat, open: seq<Conn>)
    requires !Blank(text)
    requires forall i :: 0 <= i < |st.users| ==> Str(st.users[i].id) != userId
    ensures PostMessage(st, ws, Str(text), userId, messageId, date, open) == st
  {
  }

  /** A valid body from a declared id whose first match is entry `k` appends exactly one
      message, with that entry's username and the given body, after the earlier ones,
      and sends it to every open connection in turn. Nothing ties entry `k` to the
      sending socket. */
  lemma PostMessageAccepted(st: State, ws: Conn, text: string, userId: Value,
                            messageId: string, date: nat, open: seq<Conn>, k: nat)
    requires !Blank(text)
    requires k < |st.users| && Str(st.users[k].id) == userId
    requires forall i :: 0 <= i < k ==> Str(st.users[i].id) != userId
    ensures var st' := PostMessage(st, ws, Str(text), userId, messageId, date, open);
      var m := ChatMsg(st.users[k].username, text, messageId, date);
      var n := |st.outbox|;
      st'.users == st.users &&
      st'.messages == st.messages + [m] &&
      |st'.outbox| == n + |open| &&
      st'.outbox[..n] == st.outbox &&
      forall i :: 0 <= i < |open| ==> st'.outbox[n + i] == Send(open[i], Message(m))
  {
  }

  // ---------------------------------------------------------------- close

  /** Closing a socket no entry is bound to changes nothing and sends nothing. */
  lemma CloseUnbound(st: State, ws: Conn, open: seq<Conn>)
    requires forall i :: 0 <= i < |st.users| ==> st.users[i].ws != ws
    ensures Close(st, ws, open) == st
  {
  }

  /** Closing a socket whose first entry is `k` removes that entry only, keeps the
      others in their order (later entries bound to the same socket stay), and sends
      `userGone` with its name to every open connection in turn. */
  lemma CloseBound(st: State, ws: Conn, open: seq<Conn>, k: nat)
    requires k < |st.users| && st.users[k].ws == ws
    requires forall i :: 0 <= i < k ==> st.users[i].ws != ws
    ensures var st' := Close(st, ws, open);
      var n := |st.outbox|;
      st'.users == st.users[..k] + st.users[k + 1..] &&
      st'.messages == st.messages &&
      |st'.outbox| == n + |open| &&
      st'.outbox[..n] == st.outbox &&
      forall i :: 0 <= i < |open| ==> st'.outbox[n + i] == Send(open[i], UserGone(st.users[k].username))
  {
  }

  /** When at most one entry is bound to a socket, closing it twice is the same as
      closing it once: the second close finds nothing and announces nothing. */
  lemma CloseIdempotent(st: State, ws: Conn, open: seq<Conn>, open': seq<Conn>)
    requires forall i, j :: 0 <= i < j < |st.users| && st.users[i].ws == ws ==> st.users[j].ws != ws
    ensures Close(Close(st, ws, open), ws, open') == Close(st, ws, open)
  {
  }

  /** A socket that registered two names keeps the later one after it closes: close
      removes only the first entry bound to it, so the registry still holds an entry
      for a socket that is gone. */
  lemma CloseLeavesLaterBinding(st: State, ws: Conn, open: seq<Conn>, i: nat, j: nat)
    requires i < j < |st.users| && st.users[i].ws == ws && st.users[j].ws == ws
    ensures st.users[j] in Close(st, ws, open).users
  {
  }

  /** Closing keeps usernames and ids pairwise distinct. */
  lemma CloseKeepsDistinct(st: State, ws: Conn, open: seq<Conn>)
    ensures NamesDistinct(st.users) ==> NamesDistinct(Close(st, ws, open).users)
    ensures IdsDistinct(st.users) ==> IdsDistinct(Close(st, ws, open).users)
  {
  }

  // ---------------------------------------------------------------- connect

  /** A new socket receives one `userCame` per user in registry order and then one
      `message` per history entry in insertion order, and nothing else changes. */
  lemma ConnectReplays(st: State, ws: Conn)
    ensures var st' := Connect(st, ws);
      var n := |st.outbox|;
      var u := |st.users|;
      st'.users == st.users && st'.messages == st.messages &&
      |st'.outbox| == n + u + |st.messages| &&
      st'.outbox[..n] == st.outbox &&
      (forall i :: 0 <= i < u ==> st'.outbox[n + i] == Send(ws, UserCame(st.users[i].username))) &&
      (forall i :: 0 <= i < |st.messages| ==> st'.outbox[n + u + i] == Send(ws, Message(st.messages[i])))
  {
  }

  // ---------------------------------------------------------------- runs

  /** Every event keeps usernames pairwise distinct. */
  lemma StepKeepsValid(st: State, ev: Event)
    requires Valid(st)
    ensures Valid(Step(st, ev))
  {
  }

  /** Usernames stay pairwise distinct along any sequence of events. */
  lemma {:induction false} RunKeepsValid(st: State, evs: seq<Event>)
    requires Valid(st)
    ensures Valid(Run(st, evs))
    decreases |evs|
  {
    if |evs| != 0 {
      StepKeepsValid(st, evs[0]);
      RunKeepsValid(Step(st, evs[0]), evs[1..]);
    }
  }

  /** The history and the outbox only grow at their end: whatever was stored or sent
      before an event is still there, in the same place, after it. */
  lemma StepAppendOnly(st: State, ev: Event)
    ensures st.messages <= Step(st, ev).messages
    ensures st.outbox <= Step(st, ev).outbox
  {
  }

  /** The history and the outbox only grow at their end along any sequence of events. */
  lemma {:induction false} RunAppendOnly(st: State, evs: seq<Event>)
    ensures st.messages <= Run(st, evs).messages
    ensures st.outbox <= Run(st, evs).outbox
    decreases |evs|
  {
    if |evs| != 0 {
      StepAppendOnly(st, evs[0]);
      RunAppendOnly(Step(st, evs[0]), evs[1..]);
    }
  }

  /** The ids generated while handling `evs` are pairwise distinct and unused in `st`,
      which is what `uuid.v4()` is relied on for. */
  ghost predicate FreshIds(st: State, evs: seq<Event>)
  {
    forall i :: 0 <= i < |evs| && evs[i].Received? ==>
      IdUnused(st.users, evs[i].freshId) &&
      forall j :: 0 <= j < i && evs[j].Received? ==> evs[j].freshId != evs[i].freshId
  }

  /** Every entry after an event was there before, or is the one registered with the
      event's generated id. */
  lemma StepUsersFrom(st: State, ev: Event)
    ensures forall u :: u in Step(st, ev).users ==> u in st.users || (ev.Received? && u.id == ev.freshId)
  {
  }

  /** Ids stay pairwise distinct along any run whose generated ids are fresh. */
  lemma {:induction false} RunKeepsIdsDistinct(st: State, evs: seq<Event>)
    requires IdsDistinct(st.users)
    requires FreshIds(st, evs)
    ensures IdsDistinct(Run(st, evs).users)
    decreases |evs|
  {
    if |evs| != 0 {
      var ev := evs[0];
      var st' := Step(st, ev);
      match ev {
        case Connected(_) =>
        case Received(ws, frame, freshId, date, open) =>
          if frame.Parsed? && frame.kind == Str("newUser") {
            NewUserKeepsDistinct(st, ws, frame.data, freshId, open);
          }
        case Closed(ws, open) =>
          CloseKeepsDistinct(st, ws, open);
      }
      StepUsersFrom(st, ev);
      forall i | 0 <= i < |evs[1..]| && evs[1..][i].Received?
        ensures IdUnused(st'.users, evs[1..][i].freshId)
      {
        assert evs[1..][i] == evs[i + 1];
        forall k | 0 <= k < |st'.users| ensures st'.users[k].id != evs[i + 1].freshId {
          assert st'.users[k] in st'.users;
        }
      }
      RunKeepsIdsDistinct(st', evs[1..]);
    }
  }

  /** With distinct ids, a message declared under an entry's id is always credited to
      that entry. */
  lemma FindByIdUnique(users: seq<User>, k: nat)
    requires IdsDistinct(users)
    requires k < |users|
    ensures FindById(users, Str(users[k].id)) == Some(users[k])
  {
  }

  /** One socket registers "ann" and then "bob", then closes: only "ann" is removed,
      and "bob" stays registered to the closed socket. */
  lemma StaleNameAfterClose()
    ensures var evs := [Received(1, Parsed(Str("newUser"), Str("ann"), NonStr), "id1", 0, [1]),
                        Received(1, Parsed(Str("newUser"), Str("bob"), NonStr), "id2", 0, [1]),
                        Closed(1, [])];
      Run(Initial(), evs).users == [User("bob", 1, "id2")]
  {
    assert !IsWs("ann"[0]) && !IsWs("bob"[0]);
    var s1 := NewUser(Initial(), 1, Str("ann"), "id1", [1]);
    assert s1.users == [User("ann", 1, "id1")];
    assert !Taken(s1.users, "bob");
    var s2 := NewUser(s1, 1, Str("bob"), "id2", [1]);
    assert s2.users == [User("ann", 1, "id1"), User("bob", 1, "id2")];
    assert IndexOfConn(s2.users, 1) == 0;
    assert Close(s2, 1, []).users == [User("bob", 1, "id2")];
  }
}
