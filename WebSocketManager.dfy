/**
 * The connection registry of websocket_manager.py: the set of open dashboard
 * connections, bounded by MAX_CONNECTIONS, with failed sends pruned after a
 * broadcast. A connection is any value compared by identity; whether sending
 * to it succeeds is the parameter `sendSucceeds`.
 */
module WebSocketManager {

  const MaxConnections: nat := 10

  datatype ConnectResult = Accepted | Rejected

  predicate Distinct<C(==)>(s: seq<C>) {
    forall i, j :: 0 <= i < j < |s| ==> s[i] != s[j]
  }

  class Manager<C(==)> {
    /** `active_connections`. */
    var activeConnections: set<C>

    ghost predicate Valid()
      reads this
    {
      |activeConnections| <= MaxConnections
    }

    constructor()
      ensures Valid() && activeConnections == {}
    {
      activeConnections := {};
    }

    /**
     * `connect`: rejected, with nothing changed, when MAX_CONNECTIONS are open;
     * otherwise the connection is added. The bound is kept either way.
     */
    method Connect(ws: C) returns (r: ConnectResult)
      requires Valid()
      modifies this
      ensures Valid()
      ensures r == Rejected <==> |old(activeConnections)| >= MaxConnections
      ensures r == Rejected ==> activeConnections == old(activeConnections)
      ensures r == Accepted ==> activeConnections == old(activeConnections) + {ws}
    {
      if |activeConnections| >= MaxConnections {
        return Rejected;
      }
      activeConnections := activeConnections + {ws};
      return Accepted;
    }

    /** `disconnect`: removes the connection if present, and changes nothing otherwise. */
    method Disconnect(ws: C)
      requires Valid()
      modifies this
      ensures Valid()
      ensures activeConnections == old(activeConnections) - {ws}
      ensures ws !in old(activeConnections) ==> activeConnections == old(activeConnections)
    {
      activeConnections := activeConnections - {ws};
    }

    /** `list(self.active_connections)`: every open connection once, in some order. */
    method Snapshot() returns (s: seq<C>)
      ensures Distinct(s)
      ensures forall c :: c in s <==> c in activeConnections
    {
      var rest := activeConnections;
      s := [];
      while rest != {}
        invariant Distinct(s)
        invariant forall c :: c in s ==> c !in rest
        invariant forall c :: c in activeConnections <==> c in s || c in rest
        decreases |rest|
      {
        var c :| c in rest;
        s := s + [c];
        rest := rest - {c};
      }
    }

    /**
     * `broadcast`: with no connection open nothing happens; otherwise the
     * message is sent once to each open connection, and exactly those whose
     * send failed are removed.
     */
    method Broadcast(sendSucceeds: C -> bool) returns (attempted: seq<C>, failed: seq<C>)
      requires Valid()
      modifies this
      ensures Valid()
      ensures old(activeConnections) == {} ==> attempted == [] && failed == []
      ensures Distinct(attempted) && forall c :: c in attempted <==> c in old(activeConnections)
      ensures forall c :: c in failed <==> c in old(activeConnections) && !sendSucceeds(c)
      ensures forall c :: c in activeConnections <==> c in old(activeConnections) && c !in failed
      ensures forall c :: c in activeConnections <==> c in old(activeConnections) && sendSucceeds(c)
    {
      if activeConnections == {} {
        return [], [];
      }
      attempted := Snapshot();
      failed := [];
      var i := 0;
      while i < |attempted|
        invariant 0 <= i <= |attempted|
        invariant forall c :: c in failed <==> c in attempted[..i] && !sendSucceeds(c)
      {
        if !sendSucceeds(attempted[i]) {
          failed := failed + [attempted[i]];
        }
        i := i + 1;
      }
      assert attempted[..i] == attempted;
      ghost var before := activeConnections;
      var j := 0;
      while j < |failed|
        invariant 0 <= j <= |failed|
        invariant Valid()
        invariant forall c :: c in activeConnections <==> c in before && c !in failed[..j]
      {
        assert failed[..j + 1] == failed[..j] + [failed[j]];
        Disconnect(failed[j]);
        j := j + 1;
      }
      assert failed[..j] == failed;
    }
  }
}
