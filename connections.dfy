/** `ConnectionManager` of app/utils.py: the list of open WebSocket
    connections. Accepting the socket is transport work and is not modelled;
    what remains is the list bookkeeping. */
module Connections {

  /** `list.remove(x)`: drops the first element equal to `x`. */
  function RemoveFirst<T(==)>(s: seq<T>, x: T): (r: seq<T>)
    ensures x !in s ==> r == s
    ensures x in s ==> |r| == |s| - 1 && multiset(r) == multiset(s) - multiset{x}
  {
    if s == [] then []
    else
      assert s == [s[0]] + s[1..];
      if s[0] == x then s[1..] else [s[0]] + RemoveFirst(s[1..], x)
  }

  /** Removing an element that was appended to a list not holding it gives
      the list back: `disconnect` undoes `connect`. */
  lemma {:induction false} RemoveFirstUndoesAppend<T>(s: seq<T>, x: T)
    requires x !in s
    ensures RemoveFirst(s + [x], x) == s
    decreases |s|
  {
    if s != [] {
      assert (s + [x])[1..] == s[1..] + [x];
      RemoveFirstUndoesAppend(s[1..], x);
    }
  }

  /** Removing the only occurrence leaves none, so a second removal is a
      no-op. */
  lemma RemoveFirstOnce<T>(s: seq<T>, x: T)
    requires multiset(s)[x] <= 1
    ensures x !in RemoveFirst(s, x)
    ensures RemoveFirst(RemoveFirst(s, x), x) == RemoveFirst(s, x)
  {
    var r := RemoveFirst(s, x);
    if x in s {
      assert multiset(r)[x] == multiset(s)[x] - 1;
    }
  }

  class ConnectionManager<T(==)> {
    var activeConnections: seq<T>

    constructor ()
      ensures activeConnections == []
    {
      activeConnections := [];
    }

    /** `connect`: registers the connection at the end of the list. */
    method Connect(ws: T)
      modifies this
      ensures activeConnections == old(activeConnections) + [ws]
    {
      activeConnections := activeConnections + [ws];
    }

    /** `disconnect`: removes the connection if it is registered; no error
        otherwise. */
    method Disconnect(ws: T)
      modifies this
      ensures activeConnections == RemoveFirst(old(activeConnections), ws)
      ensures ws !in old(activeConnections) ==> activeConnections == old(activeConnections)
    {
      if ws in activeConnections {
        activeConnections := RemoveFirst(activeConnections, ws);
      }
    }
  }
}
