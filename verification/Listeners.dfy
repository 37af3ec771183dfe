/** The listener manager: listeners by port, tied to the sessions of that port. Each method is what one
  * call does under the manager's lock.
  */
module Listeners {
  import opened Prelude
  import opened Managers

  /** A listening socket; cancelled and closed together. */
  class Listener {
    const port: int
    var open: bool

    constructor (port: int)
      ensures this.port == port && open
    {
      this.port := port;
      open := true;
    }

    method Close()
      modifies this`open
      ensures !open
    {
      open := false;
    }
  }

  class ListenerManager {
    var listeners: map<int, Listener>
    const sessions: SessionManager

    constructor (sessions: SessionManager)
      ensures Valid() && this.sessions == sessions && listeners == map[]
    {
      this.sessions := sessions;
      listeners := map[];
    }

    /** Listeners are keyed by their port. */
    predicate Valid()
      reads this
    {
      forall p :: p in listeners ==> listeners[p].port == p
    }

    /** Open: refuses a port that is listed; `started` says whether the host could be resolved and the
      * socket bound. */
    method Open(port: int, started: bool) returns (ok: bool)
      requires Valid()
      modifies this
      ensures Valid()
      ensures ok <==> port !in old(listeners) && started
      ensures listeners.Keys == old(listeners).Keys + if ok then {port} else {}
      ensures forall p :: p in old(listeners) ==> listeners[p] == old(listeners)[p]
      ensures ok ==> fresh(listeners[port]) && listeners[port].open
    {
      if port in listeners || !started {
        return false;
      }
      var l := new Listener(port);
      listeners := listeners[port := l];
      ok := true;
    }

    /** Close: kills the port's sessions and no others, closes its listener and forgets it. */
    method Close(port: int) returns (ok: bool)
      requires Valid() && sessions.Valid()
      modifies this`listeners, (if port in listeners then {listeners[port]} else {})`open
      modifies sessions.sessions.Values`state
      ensures Valid() && sessions.Valid()
      ensures ok <==> port in old(listeners)
      ensures listeners == old(listeners) - {port}
      ensures ok ==> !old(listeners)[port].open
      ensures forall id :: id in sessions.sessions ==>
        var s := sessions.sessions[id]; s.state == if ok && s.port == port then Dead else old(s.state)
    {
      if port !in listeners {
        return false;
      }
      sessions.CloseAll(port);
      var l := listeners[port];
      l.Close();
      listeners := listeners - {port};
      ok := true;
    }

    /** CloseAll: no listener is left, and no live session on any port that had one. */
    method CloseAll()
      requires Valid() && sessions.Valid()
      modifies this`listeners, listeners.Values`open, sessions.sessions.Values`state
      ensures Valid() && sessions.Valid() && listeners == map[]
      ensures forall p :: p in old(listeners) ==> !old(listeners)[p].open
      ensures forall id :: id in sessions.sessions ==>
        var s := sessions.sessions[id]; s.state == if s.port in old(listeners) then Dead else old(s.state)
    {
      var ports := KeysOf(listeners);
      ghost var before, all := listeners, sessions.sessions;
      var i := 0;
      while i < |ports|
        invariant 0 <= i <= |ports| && Valid() && sessions.Valid()
        invariant forall p :: p in listeners ==> p in before && listeners[p] == before[p]
        invariant forall j :: 0 <= j < i ==> ports[j] !in listeners
        invariant forall p :: p in before && p !in listeners ==> !before[p].open
        invariant sessions.sessions == all
        invariant forall id :: id in all ==>
          var s := all[id]; s.state == if s.port in before && s.port !in listeners then Dead else old(s.state)
      {
        var _ := Close(ports[i]);
        i := i + 1;
      }
      assert forall p :: p in listeners ==> p in ports;
      assert listeners.Keys == {};
    }
  }
}
