/** The forward manager: forwards and proxies by local port. */
module Forwards {
  import opened Managers

  /** A forward or proxy: its rule, and whether it still accepts connections. */
  class Entry {
    const localPort: int
    const remoteHost: string
    const remotePort: int
    const isProxy: bool
    const logFile: string
    var open: bool

    constructor (localPort: int, remoteHost: string, remotePort: int, isProxy: bool, logFile: string)
      ensures this.localPort == localPort && this.remoteHost == remoteHost && this.remotePort == remotePort
      ensures this.isProxy == isProxy && this.logFile == logFile && open
    {
      this.localPort, this.remoteHost, this.remotePort := localPort, remoteHost, remotePort;
      this.isProxy, this.logFile, open := isProxy, logFile, true;
    }

    method Close()
      modifies this`open
      ensures !open
    {
      open := false;
    }
  }

  class ForwardManager {
    var entries: map<int, Entry>

    constructor ()
      ensures Valid() && entries == map[]
    {
      entries := map[];
    }

    /** Every key is its entry's local port. */
    predicate Valid()
      reads this
    {
      forall p :: p in entries ==> entries[p].localPort == p
    }

    predicate Registered(e: Entry)
      reads this
    {
      e.localPort in entries && entries[e.localPort] == e
    }

    /** Open and OpenProxy: refuse a port that has a forward or a proxy; `started` says whether the
      * socket could be bound and a proxy's log file opened. */
    method Open(localPort: int, host: string, port: int, isProxy: bool, logFile: string, started: bool)
        returns (ok: bool)
      requires Valid()
      modifies this
      ensures Valid()
      ensures ok <==> localPort !in old(entries) && started
      ensures !ok ==> entries == old(entries)
      ensures ok ==> entries.Keys == old(entries).Keys + {localPort}
      ensures forall p :: p in old(entries) ==> entries[p] == old(entries)[p]
      ensures ok ==> fresh(entries[localPort]) && entries[localPort].open && entries[localPort].isProxy == isProxy
      ensures ok ==> entries[localPort].remoteHost == host && entries[localPort].remotePort == port
      ensures ok ==> entries[localPort].logFile == logFile
    {
      if localPort in entries || !started {
        return false;
      }
      var e := new Entry(localPort, host, port, isProxy, logFile);
      entries := entries[localPort := e];
      ok := true;
    }

    method Close(localPort: int) returns (ok: bool)
      requires Valid()
      modifies this, if localPort in entries then {entries[localPort]} else {}
      ensures Valid()
      ensures ok <==> localPort in old(entries)
      ensures entries == old(entries) - {localPort}
      ensures ok ==> !old(entries)[localPort].open
    {
      if localPort !in entries {
        return false;
      }
      var e := entries[localPort];
      e.Close();
      entries := entries - {localPort};
      ok := true;
    }

    method All() returns (result: seq<Entry>)
      requires Valid()
      ensures forall e :: e in result <==> Registered(e)
      ensures NoDuplicates(result)
    {
      var keys := KeysOf(entries);
      result := [];
      var i := 0;
      while i < |keys|
        invariant 0 <= i <= |keys|
        invariant forall e :: e in result <==> Registered(e) && e.localPort in keys[..i]
        invariant NoDuplicates(result)
      {
        var p := keys[i];
        assert p in keys && keys[..i + 1] == keys[..i] + [p];
        assert entries[p] !in result;
        result := result + [entries[p]];
        i := i + 1;
      }
      assert keys[..i] == keys;
    }

    /** Forwards and Proxies, by the kind they keep. */
    method OfKind(isProxy: bool) returns (result: seq<Entry>)
      requires Valid()
      ensures forall e :: e in result <==> Registered(e) && e.isProxy == isProxy
      ensures NoDuplicates(result)
    {
      var all := All();
      result := [];
      var i := 0;
      while i < |all|
        invariant 0 <= i <= |all|
        invariant forall e :: e in result <==> e in all[..i] && e.isProxy == isProxy
        invariant NoDuplicates(result)
      {
        assert all[..i + 1] == all[..i] + [all[i]];
        if all[i].isProxy == isProxy {
          assert all[i] !in result;
          result := result + [all[i]];
        }
        i := i + 1;
      }
      assert all[..i] == all;
    }

    /** CloseAll: no entry is left, and every one that was there has stopped. */
    method CloseAll()
      requires Valid()
      modifies this, entries.Values
      ensures Valid() && entries == map[]
      ensures forall p :: p in old(entries) ==> !old(entries)[p].open
    {
      var ports := KeysOf(entries);
      ghost var before := entries;
      var i := 0;
      while i < |ports|
        invariant 0 <= i <= |ports| && Valid()
        invariant forall p :: p in entries <==> p in before && p !in ports[..i]
        invariant forall p :: p in entries ==> entries[p] == before[p]
        invariant forall p :: p in before && p !in entries ==> !before[p].open
      {
        var port := ports[i];
        assert port in ports && ports[..i + 1] == ports[..i] + [port];
        var _ := Close(port);
        i := i + 1;
      }
      assert ports[..i] == ports;
      assert forall p: int :: p !in entries;
    }
  }
}
