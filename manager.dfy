/** The server's registry of open WebSocket connections: each user id maps to
    the list of that user's sockets (one per open tab), and messages are sent
    to one user's sockets or to all of them. */
module Realtime {

  /** A connected socket, known by its identity. */
  type Socket = nat

  /** One `send_json` call: the socket written to and the JSON text sent. */
  datatype Send = Send(socket: Socket, message: string)

  /** The registry invariant: no user id maps to an empty list. */
  ghost predicate NoEmptyLists(m: map<nat, seq<Socket>>)
  {
    forall u :: u in m ==> m[u] != []
  }

  /** `connect`: `ws` appended to `u`'s list, the list created if absent. */
  function ConnectMap(m: map<nat, seq<Socket>>, ws: Socket, u: nat): (r: map<nat, seq<Socket>>)
    ensures u in r && r[u] == (if u in m then m[u] else []) + [ws]
    ensures forall v :: v != u ==> (v in r <==> v in m)
    ensures forall v :: v != u && v in m ==> r[v] == m[v]
    ensures NoEmptyLists(m) ==> NoEmptyLists(r)
  {
    m[u := (if u in m then m[u] else []) + [ws]]
  }

  /** `list.remove(x)` when `x` is present: the first occurrence taken out. */
  function RemoveFirst(s: seq<Socket>, x: Socket): (r: seq<Socket>)
    ensures x !in s ==> r == s
    ensures x in s ==> |r| == |s| - 1
  {
    if s == [] then []
    else if s[0] == x then s[1..]
    else [s[0]] + RemoveFirst(s[1..], x)
  }

  /** Exactly one copy of `x` goes, if there is one; every other socket stays. */
  lemma {:induction false} RemoveFirstMultiset(s: seq<Socket>, x: Socket)
    ensures multiset(RemoveFirst(s, x)) == multiset(s) - multiset{x}
  {
    if s != [] {
      assert s == [s[0]] + s[1..];
      if s[0] != x {
        RemoveFirstMultiset(s[1..], x);
      }
    }
  }

  /** Position of the first occurrence of `x` (`list.index(x)`). */
  function IndexOf(s: seq<Socket>, x: Socket): (i: nat)
    requires x in s
    ensures i < |s| && s[i] == x && x !in s[..i]
  {
    if s[0] == x then 0
    else
      var k := IndexOf(s[1..], x);
      assert s[..k + 1] == [s[0]] + s[1..][..k];
      k + 1
  }

  /** The occurrence taken out is the first one: what precedes it stays, what follows it
      moves up by one. */
  lemma {:induction false} RemoveFirstSplits(s: seq<Socket>, x: Socket)
    requires x in s
    ensures RemoveFirst(s, x) == s[..IndexOf(s, x)] + s[IndexOf(s, x) + 1..]
  {
    if s[0] == x {
      assert IndexOf(s, x) == 0;
      assert s[..0] + s[1..] == s[1..];
    } else {
      var t := s[1..];
      assert x in t;
      var k := IndexOf(t, x);
      assert IndexOf(s, x) == k + 1;
      RemoveFirstSplits(t, x);
      assert RemoveFirst(s, x) == [s[0]] + (t[..k] + t[k + 1..]);
      assert s[..k + 1] == [s[0]] + t[..k];
      assert s[k + 2..] == t[k + 1..];
    }
  }

  /** Removing a socket appended to a list that did not hold it gives the list back. */
  lemma {:induction false} RemoveFirstAppended(s: seq<Socket>, x: Socket)
    requires x !in s
    ensures RemoveFirst(s + [x], x) == s
  {
    if s != [] {
      assert (s + [x])[1..] == s[1..] + [x];
      RemoveFirstAppended(s[1..], x);
    }
  }

  /** `disconnect`: for a known user, `ws` is removed from the list if present and the
      user dropped once the list is empty; an unknown user changes nothing. */
  function DisconnectMap(m: map<nat, seq<Socket>>, ws: Socket, u: nat): (r: map<nat, seq<Socket>>)
    ensures u !in m ==> r == m
    ensures u in m && ws !in m[u] && m[u] != [] ==> r == m
    ensures u in m && RemoveFirst(m[u], ws) != [] ==> r == m[u := RemoveFirst(m[u], ws)]
    ensures u in m && RemoveFirst(m[u], ws) == [] ==> r == m - {u}
    ensures NoEmptyLists(m) ==> NoEmptyLists(r)
  {
    if u in m then
      var rest := RemoveFirst(m[u], ws);
      if rest == [] then m - {u} else m[u := rest]
    else m
  }

  /** Connecting a socket the user did not hold and disconnecting it restores the registry. */
  lemma ConnectDisconnectRoundTrip(m: map<nat, seq<Socket>>, ws: Socket, u: nat)
    requires NoEmptyLists(m)
    requires u !in m || ws !in m[u]
    ensures DisconnectMap(ConnectMap(m, ws, u), ws, u) == m
  {
    var before := if u in m then m[u] else [];
    var connected := m[u := before + [ws]];
    assert ConnectMap(m, ws, u) == connected;
    RemoveFirstAppended(before, ws);
    assert RemoveFirst(connected[u], ws) == before;
    if u !in m {
      assert DisconnectMap(connected, ws, u) == connected - {u};
      assert connected - {u} == m;
    } else {
      assert DisconnectMap(connected, ws, u) == connected[u := before];
      assert connected[u := before] == m;
    }
  }

  /** One message to each socket of `sockets`, in list order. */
  function SendsTo(sockets: seq<Socket>, message: string): (r: seq<Send>)
    ensures |r| == |sockets|
    ensures forall i :: 0 <= i < |r| ==> r[i] == Send(sockets[i], message)
  {
    if sockets == [] then [] else [Send(sockets[0], message)] + SendsTo(sockets[1..], message)
  }

  class ConnectionManager {
    var activeConnections: map<nat, seq<Socket>>

    ghost predicate Valid()
      reads this
    {
      NoEmptyLists(activeConnections)
    }

    /** `__init__`: no connection registered. */
    constructor()
      ensures Valid() && activeConnections == map[]
    {
      activeConnections := map[];
    }

    /** `connect` (after the socket was accepted). */
    method Connect(ws: Socket, userId: nat)
      requires Valid()
      modifies this
      ensures Valid()
      ensures activeConnections == ConnectMap(old(activeConnections), ws, userId)
    {
      if userId !in activeConnections {
        activeConnections := activeConnections[userId := []];
      }
      activeConnections := activeConnections[userId := activeConnections[userId] + [ws]];
    }

    method Disconnect(ws: Socket, userId: nat)
      requires Valid()
      modifies this
      ensures Valid()
      ensures activeConnections == DisconnectMap(old(activeConnections), ws, userId)
    {
      if userId in activeConnections {
        if ws in activeConnections[userId] {
          activeConnections := activeConnections[userId := RemoveFirst(activeConnections[userId], ws)];
        }
        if activeConnections[userId] == [] {
          activeConnections := activeConnections - {userId};
        }
      }
    }

    /** `send_personal_message`: one send to each of the user's sockets, in list order;
        nothing for a user with no connection. */
    method SendPersonalMessage(message: string, userId: nat) returns (sent: seq<Send>)
      ensures userId !in activeConnections ==> sent == []
      ensures userId in activeConnections ==> sent == SendsTo(activeConnections[userId], message)
    {
      sent := [];
      if userId in activeConnections {
        var sockets := activeConnections[userId];
        for i := 0 to |sockets|
          invariant sent == SendsTo(sockets[..i], message)
        {
          assert sockets[..i + 1] == sockets[..i] + [sockets[i]];
          SendsToAppend(sockets[..i], sockets[i], message);
          sent := sent + [Send(sockets[i], message)];
        }
        assert sockets[..|sockets|] == sockets;
      }
    }

    /** `broadcast`: every registered socket of every user is sent the message,
        and no other socket is. */
    method Broadcast(message: string) returns (sent: seq<Send>)
      ensures forall s :: Send(s, message) in sent <==> exists u :: u in activeConnections && s in activeConnections[u]
      ensures forall e :: e in sent ==> e.message == message
    {
      sent := [];
      var pending := activeConnections.Keys;
      while |pending| > 0
        invariant pending <= activeConnections.Keys
        invariant forall e :: e in sent ==> e.message == message
        invariant forall s :: Send(s, message) in sent <==>
          exists u :: u in activeConnections && u !in pending && s in activeConnections[u]
        decreases |pending|
      {
        var user :| user in pending;
        var sockets := activeConnections[user];
        ghost var before := sent;
        for i := 0 to |sockets|
          invariant forall e :: e in sent ==> e.message == message
          invariant forall s :: Send(s, message) in sent <==> Send(s, message) in before || s in sockets[..i]
        {
          sent := sent + [Send(sockets[i], message)];
          assert sockets[..i + 1] == sockets[..i] + [sockets[i]];
        }
        assert sockets[..|sockets|] == sockets;
        pending := pending - {user};
      }
    }

    /** `broadcast_to_role`: its body is `pass`, so nobody is sent anything. */
    method BroadcastToRole(message: string, role: string) returns (sent: seq<Send>)
      ensures sent == []
    {
      sent := [];
    }
  }

  lemma SendsToAppend(sockets: seq<Socket>, s: Socket, message: string)
    ensures SendsTo(sockets + [s], message) == SendsTo(sockets, message) + [Send(s, message)]
  {
    var a, b := SendsTo(sockets + [s], message), SendsTo(sockets, message) + [Send(s, message)];
    assert |a| == |b|;
    forall i | 0 <= i < |a| ensures a[i] == b[i] {
      if i < |sockets| { assert (sockets + [s])[i] == sockets[i]; }
    }
  }
}
