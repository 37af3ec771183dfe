/** One accepted connection with its receive buffer in place: a backing array that appends fill,
  * drains copy out of, and the next appends overwrite.
  */
module SessionObject {
  import opened Prelude
  import opened FrameIO

  /** What one Conn.Read returns: data, and possibly an error along with it. */
  datatype ReadResult = ReadResult(data: bytes, fin: bool)

  /** The bytes of a connection up to and including its first error. */
  function Arriving(incoming: seq<ReadResult>): bytes
  {
    if incoming == [] then []
    else if incoming[0].fin then incoming[0].data
    else incoming[0].data + Arriving(incoming[1..])
  }

  /** A read moves its data from what is to come into what has been appended. */
  lemma ArrivingStep(incoming: seq<ReadResult>, i: nat, had: bytes)
    requires i < |incoming|
    ensures var r := incoming[i];
      had + Arriving(incoming[i..]) == had + r.data + if r.fin then [] else Arriving(incoming[i + 1..])
    ensures var r := incoming[i];
      |Arriving(incoming[i..])| == |r.data| + if r.fin then 0 else |Arriving(incoming[i + 1..])|
  {
    assert incoming[i..][1..] == incoming[i + 1..];
    assert incoming[i..][0] == incoming[i];
  }

  predicate Ends(incoming: seq<ReadResult>)
  {
    exists i :: 0 <= i < |incoming| && incoming[i].fin
  }

  /** What Conn.Read does to the buffer that it is given. */
  method Fill(buf: array<byte>, data: bytes) returns (n: nat)
    requires |data| <= buf.Length
    modifies buf
    ensures n == |data| && buf[..n] == data
  {
    forall j | 0 <= j < |data| {
      buf[j] := data[j];
    }
    n := |data|;
  }

  class Session {
    const id: int
    const port: int
    const remoteAddr: string

    var bytesTX: int
    var bytesRX: int
    var state: Life

    var store: array<byte>  // the backing array of rxBuf
    var len: nat            // and its length

    constructor (id: int, port: int, remoteAddr: string)
      ensures this.id == id && this.port == port && this.remoteAddr == remoteAddr
      ensures Valid() && RxBuf() == [] && state == Active && bytesTX == bytesRX == 0
      ensures fresh(store)
    {
      this.id, this.port, this.remoteAddr := id, port, remoteAddr;
      bytesTX, bytesRX, state := 0, 0, Active;
      store, len := new byte[0], 0;
    }

    predicate Valid()
      reads this
    {
      len <= store.Length
    }

    /** The slice rxBuf. */
    function RxBuf(): bytes
      requires Valid()
      reads this, store
    {
      store[..len]
    }

    method SetState(st: Life)
      modifies this`state
      ensures state == st
    {
      state := st;
    }

    /** append(rxBuf, chunk...): in place if the capacity allows, else into a larger array. */
    method AppendRx(chunk: array<byte>)
      requires Valid() && chunk != store
      modifies this`store, this`len, store
      ensures Valid() && RxBuf() == old(RxBuf()) + chunk[..]
      ensures store == old(store) || fresh(store)
    {
      if len + chunk.Length > store.Length {
        var grown := new byte[2 * (len + chunk.Length)];
        forall i | 0 <= i < len {
          grown[i] := store[i];
        }
        store := grown;
      }
      assert store[..len] == old(RxBuf());
      forall i | 0 <= i < chunk.Length {
        store[len + i] := chunk[i];
      }
      len := len + chunk.Length;
    }

    /** DrainRxBuf, and ReadBuffered under its lock: the contents go out in an array of their own,
      * which no later append can reach, and the backing array is kept for reuse. */
    method DrainRxBuf() returns (out: array?<byte>)
      requires Valid()
      modifies this`len
      ensures Valid() && RxBuf() == [] && store == old(store)
      ensures out == null <==> old(RxBuf()) == []
      ensures out != null ==> fresh(out) && out[..] == old(RxBuf())
    {
      if len == 0 {
        return null;
      }
      var copy := new byte[len];
      forall i | 0 <= i < len {
        copy[i] := store[i];
      }
      len := 0;
      out := copy;
    }

    /** The receive loop's handling of n bytes in its read buffer: count them, copy them out and
      * append the copy. */
    method Receive(buf: array<byte>, n: nat)
      requires Valid() && buf != store && 0 < n <= buf.Length
      modifies this`store, this`len, this`bytesRX, store
      ensures Valid() && RxBuf() == old(RxBuf()) + buf[..n] && bytesRX == old(bytesRX) + n
      ensures store == old(store) || fresh(store)
    {
      bytesRX := bytesRX + n;
      var chunk := new byte[n];
      forall j | 0 <= j < n {
        chunk[j] := buf[j];
      }
      assert chunk[..] == buf[..n];
      AppendRx(chunk);
    }

    /** The receive loop over what the connection returns: one read buffer for all reads, a copy of
      * each chunk, and Dead after the first error. It takes nothing behind the error. */
    method RxLoop(incoming: seq<ReadResult>)
      requires Valid()
      requires forall i :: 0 <= i < |incoming| ==> |incoming[i].data| <= RX_CHUNK
      modifies this`store, this`len, this`bytesRX, this`state, store
      ensures Valid()
      ensures RxBuf() == old(RxBuf()) + Arriving(incoming)
      ensures bytesRX == old(bytesRX) + |Arriving(incoming)|
      ensures state == if Ends(incoming) then Dead else old(state)
    {
      var buf := new byte[RX_CHUNK];
      var i := 0;
      ghost var had, counted := RxBuf(), bytesRX;
      while i < |incoming|
        invariant 0 <= i <= |incoming| && Valid() && buf != store && fresh(buf) && buf.Length == RX_CHUNK
        invariant store == old(store) || fresh(store)
        invariant RxBuf() + Arriving(incoming[i..]) == had + Arriving(incoming)
        invariant bytesRX + |Arriving(incoming[i..])| == counted + |Arriving(incoming)|
        invariant state == old(state) && forall j :: 0 <= j < i ==> !incoming[j].fin
      {
        ArrivingStep(incoming, i, RxBuf());
        var n := Fill(buf, incoming[i].data);
        if n > 0 {
          Receive(buf, n);
        }
        if incoming[i].fin {
          if state != Dead {
            SetState(Dead);
          }
          return;
        }
        i := i + 1;
      }
    }

    /** Write: BytesTX counts what the connection took, also when it failed. */
    method Write(conn: Sender, data: bytes) returns (n: nat, ok: bool)
      modifies this`bytesTX, conn
      ensures n <= |data| && conn.sent == old(conn.sent) + data[..n]
      ensures ok <==> n == |data| && |data| <= old(conn.budget)
      ensures bytesTX == old(bytesTX) + n
    {
      ghost var before := conn.sent;
      var room := conn.budget;
      ok := conn.Write(data);
      n := if |data| <= room then |data| else room;
      assert Taken(data, room) == data[..n];
      bytesTX := bytesTX + n;
    }

    /** Close and ForceClose, as far as the session itself goes. */
    method Close()
      modifies this`state
      ensures state == Dead
    {
      SetState(Dead);
    }
  }

  /** A drained chunk stays what it was, whatever is received and drained after it. */
  method DrainedChunkIsSafe(s: Session, more: seq<ReadResult>) returns (first: array?<byte>, second: array?<byte>)
    requires s.Valid() && forall i :: 0 <= i < |more| ==> |more[i].data| <= RX_CHUNK
    modifies s, s.store
    ensures first != null ==> first[..] == old(s.RxBuf())
    ensures second != null ==> second[..] == Arriving(more)
    ensures (if first == null then [] else first[..]) + (if second == null then [] else second[..])
         == old(s.RxBuf()) + Arriving(more)
  {
    first := s.DrainRxBuf();
    s.RxLoop(more);
    second := s.DrainRxBuf();
  }
}
