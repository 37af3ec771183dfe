/** The session manager: the index of sessions by ID. Each method is what one call does under the
  * manager's lock.
  */
module Managers {
  import opened Prelude
  import opened SessionObject

  /** One pass over the keys of a map in some order, each key once. */
  method KeysOf<K(==), V>(m: map<K, V>) returns (keys: seq<K>)
    ensures forall k :: k in keys <==> k in m
    ensures forall i, j :: 0 <= i < j < |keys| ==> keys[i] != keys[j]
  {
    keys := [];
    var todo := m.Keys;
    while todo != {}
      invariant todo <= m.Keys
      invariant forall k :: k in keys <==> k in m && k !in todo
      invariant forall i, j :: 0 <= i < j < |keys| ==> keys[i] != keys[j]
      decreases todo
    {
      var k :| k in todo;
      todo := todo - {k};
      keys := keys + [k];
    }
  }

  predicate NoDuplicates<T(==)>(s: seq<T>)
  {
    forall i, j :: 0 <= i < j < |s| ==> s[i] != s[j]
  }

  class SessionManager {
    var sessions: map<int, Session>
    var counter: int  // a 32-bit counter

    constructor ()
      ensures Valid() && sessions == map[] && counter == 0
    {
      sessions := map[];
      counter := 0;
    }

    /** Every key is its session's ID. */
    predicate Valid()
      reads this
    {
      && -INT32 / 2 <= counter < INT32 / 2
      && forall id :: id in sessions ==> sessions[id].id == id
    }

    /** A registered session that is not Dead. */
    predicate Live(s: Session)
      reads this, s
    {
      s.id in sessions && sessions[s.id] == s && s.state != Dead
    }

    /** Accept: the next ID, wrapping around, and a new Active session under it. */
    method Accept(port: int, remoteAddr: string) returns (s: Session)
      requires Valid()
      modifies this
      ensures Valid() && fresh(s) && fresh(s.store) && s.Valid()
      ensures counter == (old(counter) + 1 + INT32 / 2) % INT32 - INT32 / 2
      ensures s.id == counter && s.port == port && s.remoteAddr == remoteAddr && s.state == Active
      ensures sessions == old(sessions)[counter := s]
    {
      counter := if counter + 1 == INT32 / 2 then -INT32 / 2 else counter + 1;
      s := new Session(counter, port, remoteAddr);
      sessions := sessions[counter := s];
    }

    /** ByPort: exactly the live sessions of the port, each once, in some order. */
    method ByPort(port: int) returns (result: seq<Session>)
      requires Valid()
      ensures forall s :: s in result <==> Live(s) && s.port == port
      ensures NoDuplicates(result)
    {
      var keys := KeysOf(sessions);
      result := [];
      var i := 0;
      while i < |keys|
        invariant 0 <= i <= |keys|
        invariant forall s :: s in result <==> Live(s) && s.port == port && s.id in keys[..i]
        invariant NoDuplicates(result)
      {
        var id := keys[i];
        assert id in keys && keys[..i + 1] == keys[..i] + [id];
        var s := sessions[id];
        if s.port == port && s.state != Dead {
          assert s !in result;
          result := result + [s];
        }
        i := i + 1;
      }
      assert keys[..i] == keys;
    }

    /** All: exactly the live sessions, each once, in some order. */
    method All() returns (result: seq<Session>)
      requires Valid()
      ensures forall s :: s in result <==> Live(s)
      ensures NoDuplicates(result)
    {
      var keys := KeysOf(sessions);
      result := [];
      var i := 0;
      while i < |keys|
        invariant 0 <= i <= |keys|
        invariant forall s :: s in result <==> Live(s) && s.id in keys[..i]
        invariant NoDuplicates(result)
      {
        var id := keys[i];
        assert id in keys && keys[..i + 1] == keys[..i] + [id];
        var s := sessions[id];
        if s.state != Dead {
          assert s !in result;
          result := result + [s];
        }
        i := i + 1;
      }
      assert keys[..i] == keys;
    }

    method Remove(id: int)
      requires Valid()
      modifies this`sessions
      ensures Valid() && sessions == old(sessions) - {id}
    {
      sessions := sessions - {id};
    }

    /** CloseAll: afterwards no session of the port is live, and no other session has changed. */
    method CloseAll(port: int)
      requires Valid()
      modifies sessions.Values`state
      ensures Valid()
      ensures forall id :: id in sessions ==>
        sessions[id].state == if sessions[id].port == port then Dead else old(sessions[id].state)
    {
      var live := ByPort(port);
      var i := 0;
      while i < |live|
        invariant 0 <= i <= |live|
        invariant forall s :: s in live ==> s.id in sessions && sessions[s.id] == s
        invariant forall id :: id in sessions ==>
          sessions[id].state == if sessions[id] in live[..i] then Dead else old(sessions[id].state)
      {
        assert live[i] in live;
        live[i].Close();
        assert live[..i + 1] == live[..i] + [live[i]];
        i := i + 1;
      }
      assert live[..i] == live;
      forall id | id in sessions
        ensures sessions[id].state == if sessions[id].port == port then Dead else old(sessions[id].state)
      {
        assert old(Live(sessions[id])) <==> old(sessions[id].state) != Dead;
      }
    }
  }
}
