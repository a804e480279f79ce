/** The pure checks the relay runs against its user registry: the blank test of
    `/^\s*$/`, the exact-match name test, `findIndex` by socket, `find` by declared id,
    and the single-entry `splice` that removes a user. */
module Registry {
  import opened Wire

  /** A character matched by JavaScript's `\s` class. */
  predicate IsWs(c: char)
  {
    var n := c as int;
    n == 0x09 || n == 0x0A || n == 0x0B || n == 0x0C || n == 0x0D || n == 0x20 ||
    n == 0xA0 || n == 0x1680 || (0x2000 <= n <= 0x200A) || n == 0x2028 || n == 0x2029 ||
    n == 0x202F || n == 0x205F || n == 0x3000 || n == 0xFEFF
  }

  /** `/^\s*$/.test(s)`: every character is white space, so the empty string is blank. */
  predicate Blank(s: string)
  {
    forall i :: 0 <= i < |s| ==> IsWs(s[i])
  }

  /** Some registry entry carries exactly this name. */
  predicate Taken(users: seq<User>, name: string)
  {
    exists i :: 0 <= i < |users| && users[i].username == name
  }

  /** No two registry entries share a name. */
  ghost predicate NamesDistinct(users: seq<User>)
  {
    forall i, j :: 0 <= i < j < |users| ==> users[i].username != users[j].username
  }

  /** No two registry entries share an id. */
  ghost predicate IdsDistinct(users: seq<User>)
  {
    forall i, j :: 0 <= i < j < |users| ==> users[i].id != users[j].id
  }

  /** No registry entry carries this id. */
  ghost predicate IdUnused(users: seq<User>, id: string)
  {
    forall i :: 0 <= i < |users| ==> users[i].id != id
  }

  /** `users.findIndex(elem => elem.ws === ws)`: the first entry bound to the socket, or -1. */
  function IndexOfConn(users: seq<User>, ws: Conn): (r: int)
    ensures -1 <= r < |users|
    ensures r == -1 <==> forall i :: 0 <= i < |users| ==> users[i].ws != ws
    ensures r != -1 ==> users[r].ws == ws && forall i :: 0 <= i < r ==> users[i].ws != ws
  {
    if |users| == 0 then -1
    else if users[0].ws == ws then 0
    else
      var k := IndexOfConn(users[1..], ws);
      if k == -1 then -1 else k + 1
  }

  /** The first entry whose id is strictly equal to the declared `userId`, or -1;
      a declared id that is not a string matches nothing. */
  function IndexOfId(users: seq<User>, userId: Value): (r: int)
    ensures -1 <= r < |users|
    ensures r == -1 <==> forall i :: 0 <= i < |users| ==> Str(users[i].id) != userId
    ensures r != -1 ==> Str(users[r].id) == userId && forall i :: 0 <= i < r ==> Str(users[i].id) != userId
  {
    if |users| == 0 then -1
    else if Str(users[0].id) == userId then 0
    else
      var k := IndexOfId(users[1..], userId);
      if k == -1 then -1 else k + 1
  }

  /** `users.find(elem => elem.id === userId)`. */
  function FindById(users: seq<User>, userId: Value): (r: Option<User>)
    ensures r.None? <==> forall i :: 0 <= i < |users| ==> Str(users[i].id) != userId
    ensures r.Some? ==> exists k :: 0 <= k < |users| && r.value == users[k] && Str(users[k].id) == userId &&
                                    forall i :: 0 <= i < k ==> Str(users[i].id) != userId
  {
    var k := IndexOfId(users, userId);
    if k == -1 then None else Some(users[k])
  }

  /** `users.splice(k, 1)`: drop entry `k`, keeping the others in order. */
  function RemoveAt(users: seq<User>, k: nat): (r: seq<User>)
    requires k < |users|
    ensures |r| == |users| - 1
    ensures forall i :: 0 <= i < k ==> r[i] == users[i]
    ensures forall i :: k <= i < |r| ==> r[i] == users[i + 1]
  {
    users[..k] + users[k + 1..]
  }

  /** The validation `newUserHandler` runs, in its order: not a string, blank, taken.
      `None` means the name is accepted. */
  function CheckName(users: seq<User>, data: Value): Option<Reason>
  {
    match data
    case NonStr => Some(NameNotString)
    case Str(s) =>
      if Blank(s) then Some(NameBlank)
      else if Taken(users, s) then Some(NameTaken)
      else None
  }

  /** A name is accepted exactly when it is a non-blank string no entry carries. */
  lemma CheckNameAccepts(users: seq<User>, data: Value)
    ensures CheckName(users, data).None? <==>
            data.Str? && !Blank(data.s) && forall i :: 0 <= i < |users| ==> users[i].username != data.s
  {
  }

  /** Removing one entry keeps names and ids pairwise distinct. */
  lemma RemoveAtKeepsDistinct(users: seq<User>, k: nat)
    requires k < |users|
    ensures NamesDistinct(users) ==> NamesDistinct(RemoveAt(users, k))
    ensures IdsDistinct(users) ==> IdsDistinct(RemoveAt(users, k))
  {
  }

  /** Appending an entry whose name (resp. id) no entry carries keeps names (resp. ids)
      pairwise distinct. */
  lemma AppendKeepsDistinct(users: seq<User>, u: User)
    ensures NamesDistinct(users) && !Taken(users, u.username) ==> NamesDistinct(users + [u])
    ensures IdsDistinct(users) && IdUnused(users, u.id) ==> IdsDistinct(users + [u])
  {
  }
}
