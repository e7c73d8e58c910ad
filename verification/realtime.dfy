/** The push channel: the handshake gate, the process-wide map from user id to
    socket id that connect and disconnect maintain, and the two ways of
    emitting an event (to one user, to everyone). */
module Realtime {
  import opened Wrappers
  import opened Domain

  type SocketId = string

  /** One `emit` call: the sockets it reaches, the event name and its JSON
      payload (kept as text). */
  datatype Emission = Emission(targets: set<SocketId>, event: string, payload: string)

  const NoTokenError: string := "Authentication error: No token provided"
  const InvalidTokenError: string := "Authentication error: Invalid token"

  /** The handshake middleware. `verified` is what token verification yields:
      the id in the token, or `None` when verification throws. */
  function Authenticate(token: string, verified: Option<UserId>): (r: Result<UserId>)
    ensures r.Ok? <==> token != "" && verified.Some?
    ensures r.Ok? ==> r.value == verified.value
    ensures token == "" ==> r == Err(NoTokenError)
    ensures token != "" && verified.None? ==> r == Err(InvalidTokenError)
  {
    if token == "" then Err(NoTokenError)
    else match verified
      case None => Err(InvalidTokenError)
      case Some(id) => Ok(id)
  }

  /** The registry after socket `sid` of user `owner` disconnects, as written:
      the user's entry goes, whichever socket it names. */
  function DropOnDisconnect(reg: map<UserId, SocketId>, owner: UserId, sid: SocketId)
    : (r: map<UserId, SocketId>)
    ensures owner !in r
    ensures forall u :: u in r <==> u in reg && u != owner
    ensures forall u :: u in r ==> r[u] == reg[u]
  {
    reg - {owner}
  }

  /** The registry after socket `sid` of user `owner` disconnects, removing the
      entry only while it still names `sid`. */
  function DropOwnOnDisconnect(reg: map<UserId, SocketId>, owner: UserId, sid: SocketId)
    : (r: map<UserId, SocketId>)
    ensures forall u :: u in r <==> u in reg && !(u == owner && reg[u] == sid)
    ensures forall u :: u in r ==> r[u] == reg[u]
  {
    if owner in reg && reg[owner] == sid then reg - {owner} else reg
  }

  /** As written: a user with two tabs (socket "s1" then "s2") who closes the
      first one is no longer reachable, although "s2" is still connected. */
  lemma StaleDisconnectDropsNewerSocket()
    ensures var reg := map["alice" := "s2"];
      && reg["alice"] != "s1"
      && "alice" !in DropOnDisconnect(reg, "alice", "s1")
  {
  }

  /** Corrected: a disconnect leaves every entry that names another socket
      untouched, so a user stays reachable through the newest connection
      until that connection itself closes. */
  lemma {:induction false} OwnDisconnectKeepsNewerSocket(reg: map<UserId, SocketId>, owner: UserId, sid: SocketId)
    ensures forall u :: u in reg && reg[u] != sid ==>
      u in DropOwnOnDisconnect(reg, owner, sid) && DropOwnOnDisconnect(reg, owner, sid)[u] == reg[u]
    ensures owner in reg && reg[owner] == sid ==> owner !in DropOwnOnDisconnect(reg, owner, sid)
  {
  }

  /** The sockets a targeted emit reaches: the user's registered socket, or
      none. */
  function Recipients(reg: map<UserId, SocketId>, user: UserId): (r: set<SocketId>)
    ensures user in reg ==> r == {reg[user]}
    ensures user !in reg ==> r == {}
  {
    if user in reg then {reg[user]} else {}
  }

  class SocketServer {
    /** The live connections and the user each one authenticated as. */
    var sockets: map<SocketId, UserId>
    /** `userSockets`: user id to socket id. */
    var userSockets: map<UserId, SocketId>
    /** Every emit so far, in order. */
    var outbox: seq<Emission>

    /** Each registered socket is live and belongs to the user it is filed
        under; a map holds at most one socket per user. */
    ghost predicate Valid()
      reads this
    {
      forall u | u in userSockets :: userSockets[u] in sockets && sockets[userSockets[u]] == u
    }

    constructor ()
      ensures Valid()
      ensures sockets == map[] && userSockets == map[] && outbox == []
    {
      sockets := map[];
      userSockets := map[];
      outbox := [];
    }

    /** A connection attempt on the fresh socket `sid`: the gate, then the
        `connection` handler, which files the socket under its user and
        replaces any earlier socket of that user. */
    method Connect(sid: SocketId, token: string, verified: Option<UserId>) returns (r: Result<UserId>)
      requires Valid() && sid !in sockets
      modifies this
      ensures Valid()
      ensures r == Authenticate(token, verified)
      ensures r.Err? ==> sockets == old(sockets) && userSockets == old(userSockets)
      ensures r.Ok? ==>
        sockets == old(sockets)[sid := r.value] &&
        userSockets == old(userSockets)[r.value := sid]
      ensures outbox == old(outbox)
    {
      r := Authenticate(token, verified);
      if r.Ok? {
        sockets := sockets[sid := r.value];
        userSockets := userSockets[r.value := sid];
      }
    }

    /** The `disconnect` handler as written: deletes the user's entry even if
        it now names a newer socket of the same user. */
    method Disconnect(sid: SocketId)
      requires Valid() && sid in sockets
      modifies this
      ensures Valid()
      ensures sockets == old(sockets) - {sid}
      ensures userSockets == DropOnDisconnect(old(userSockets), old(sockets)[sid], sid)
      ensures outbox == old(outbox)
    {
      var owner := sockets[sid];
      userSockets := DropOnDisconnect(userSockets, owner, sid);
      sockets := sockets - {sid};
    }

    /** The corrected `disconnect` handler: deletes the user's entry only
        while it names the closing socket. */
    method DisconnectOwn(sid: SocketId)
      requires Valid() && sid in sockets
      modifies this
      ensures Valid()
      ensures sockets == old(sockets) - {sid}
      ensures userSockets == DropOwnOnDisconnect(old(userSockets), old(sockets)[sid], sid)
      ensures outbox == old(outbox)
    {
      var owner := sockets[sid];
      userSockets := DropOwnOnDisconnect(userSockets, owner, sid);
      sockets := sockets - {sid};
    }

    /** `notifyUser`: one emit to the user's socket when there is one;
        otherwise nothing happens and nothing fails. */
    method NotifyUser(user: UserId, event: string, payload: string)
      requires Valid()
      modifies this
      ensures Valid()
      ensures sockets == old(sockets) && userSockets == old(userSockets)
      ensures user in userSockets ==>
        outbox == old(outbox) + [Emission(Recipients(userSockets, user), event, payload)]
      ensures user !in userSockets ==> outbox == old(outbox)
      ensures forall s :: s in Recipients(userSockets, user) ==> s in sockets && sockets[s] == user
    {
      if user in userSockets {
        outbox := outbox + [Emission(Recipients(userSockets, user), event, payload)];
      }
    }

    /** `broadcastUpdate`: one emit to every connected socket. */
    method BroadcastUpdate(event: string, payload: string)
      requires Valid()
      modifies this
      ensures Valid()
      ensures sockets == old(sockets) && userSockets == old(userSockets)
      ensures outbox == old(outbox) + [Emission(sockets.Keys, event, payload)]
    {
      outbox := outbox + [Emission(sockets.Keys, event, payload)];
    }
  }
}
