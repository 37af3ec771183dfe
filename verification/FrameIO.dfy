/** WriteFrame, ReadFrame and the handshakes over a TCP connection and a buffered reader, proved
  * against the codec functions of Framing.
  */
module FrameIO {
  import opened Prelude
  import opened Framing

  /** The receiving side of a connection: the pieces TCP will deliver, then end of stream. */
  class Conn {
    var chunks: seq<bytes>

    constructor (chunks: seq<bytes>)
      requires forall i :: 0 <= i < |chunks| ==> chunks[i] != []
      ensures this.chunks == chunks && Valid()
    {
      this.chunks := chunks;
    }

    predicate Valid()
      reads this
    {
      forall i :: 0 <= i < |chunks| ==> chunks[i] != []
    }

    /** One Read: a non-empty part of the next piece, or end of stream. */
    method Read(max: nat) returns (p: bytes, eof: bool)
      requires Valid() && max > 0
      modifies this
      ensures Valid()
      ensures eof <==> old(chunks) == []
      ensures eof ==> p == [] && chunks == []
      ensures !eof ==> 0 < |p| <= max
      ensures p + Flatten(chunks) == Flatten(old(chunks))
    {
      if chunks == [] {
        return [], true;
      }
      var head := chunks[0];
      if |head| <= max {
        p, eof := head, false;
        chunks := chunks[1..];
      } else {
        p, eof := head[..max], false;
        ghost var rest := chunks[1..];
        chunks := [head[max..]] + chunks[1..];
        assert chunks[1..] == rest;
        assert p + (head[max..] + Flatten(rest)) == head + Flatten(rest);
      }
    }
  }

  /** A buffered reader of 64 KiB over a connection. */
  class BufReader {
    const conn: Conn
    var buf: bytes

    constructor (conn: Conn)
      ensures this.conn == conn && buf == []
    {
      this.conn := conn;
      buf := [];
    }

    predicate Valid()
      reads this, conn
    {
      conn.Valid()
    }

    /** Everything this reader can still return. */
    function Pending(): bytes
      reads this, conn
    {
      buf + Flatten(conn.chunks)
    }

    /** One Read: from the buffer if it holds anything, else one Read of the connection, which
      * bypasses the buffer when the caller's slice is at least as long. */
    method Read(max: nat) returns (p: bytes, eof: bool)
      requires Valid() && max > 0
      modifies this, conn
      ensures Valid()
      ensures eof <==> old(Pending()) == []
      ensures eof ==> p == []
      ensures !eof ==> 0 < |p| <= max
      ensures p + Pending() == old(Pending())
    {
      ghost var before := Pending();
      if buf == [] {
        if max >= BUF_SIZE {
          p, eof := conn.Read(max);
          NonEmptyPieces(old(conn.chunks));
          return;
        }
        buf, eof := conn.Read(BUF_SIZE);
        NonEmptyPieces(old(conn.chunks));
        if eof {
          return [], true;
        }
      }
      var n := if |buf| < max then |buf| else max;
      p, eof := buf[..n], false;
      ghost var was := buf;
      buf := buf[n..];
      assert p + buf == was;
      assert p + (buf + Flatten(conn.chunks)) == (p + buf) + Flatten(conn.chunks);
    }

    /** io.ReadFull: exactly n bytes, or an error once the stream has ended short of them. */
    method ReadFull(n: nat) returns (p: bytes, ok: bool)
      requires Valid()
      modifies this, conn
      ensures Valid()
      ensures ok <==> n <= |old(Pending())|
      ensures ok ==> p == old(Pending())[..n] && Pending() == old(Pending())[n..]
      ensures !ok ==> Pending() == []
    {
      ghost var before := Pending();
      p := [];
      while |p| < n
        invariant Valid() && |p| <= n
        invariant p + Pending() == before
        decreases n - |p|
      {
        ghost var here := p;
        var q, eof := Read(n - |p|);
        assert here + (q + Pending()) == (here + q) + Pending();
        if eof {
          return p, false;
        }
        p := p + q;
      }
      ok := true;
      assert p == before[..n] && Pending() == before[n..];
    }

    /** ReadFrame: what it returns and what it leaves depend only on the bytes still to come, never
      * on how TCP cuts them or how much of them is buffered. */
    method ReadFrame(a: Aead, key: bytes) returns (r: Outcome)
      requires Valid()
      modifies this, conn
      ensures Valid()
      ensures r == Expected(a, key, old(Pending()))
      ensures r.Plain? ==>
        var f := Head(a, key, old(Pending())); f.Frame? && Pending() == old(Pending())[f.size..]
      ensures r.HeaderCut? || r.BodyCut? ==> Pending() == []
    {
      ghost var s := Pending();
      var hdr, ok := ReadFull(LEN_FIELD_SIZE);
      if !ok {
        return HeaderCut;
      }
      var len := Uint32(hdr);
      if len < NONCE_SIZE + TAG_SIZE {
        return Short;
      }
      if len > MAX_FRAME_BYTES {
        return Large;
      }
      var frame;
      frame, ok := ReadFull(len);
      if !ok {
        return BodyCut;
      }
      assert frame == s[LEN_FIELD_SIZE..LEN_FIELD_SIZE + len];
      var nonce := frame[..NONCE_SIZE];
      var ciphertext := frame[NONCE_SIZE..];
      match a.open(key, nonce, ciphertext) {
        case None => return Undecryptable;
        case Some(plain) => return Plain(plain);
      }
    }

    /** ReadTypedFrame: the type byte and the payload, or an error for an empty plaintext. */
    method ReadTypedFrame(a: Aead, key: bytes) returns (typ: byte, payload: bytes, ok: bool)
      requires Valid()
      modifies this, conn
      ensures Valid()
      ensures var f := Head(a, key, old(Pending()));
        && (ok <==> f.Frame? && f.plain != [])
        && (ok ==> [typ] + payload == f.plain && Pending() == old(Pending())[f.size..])
    {
      var r := ReadFrame(a, key);
      match r {
        case Plain(plain) =>
          if plain == [] {
            return 0, [], false;
          }
          return plain[0], plain[1..], true;
        case _ => return 0, [], false;
      }
    }
  }

  lemma NonEmptyPieces(chunks: seq<bytes>)
    requires forall i :: 0 <= i < |chunks| ==> chunks[i] != []
    ensures Flatten(chunks) == [] <==> chunks == []
  {
  }

  /** The result of ReadFrame, one value per error it can return. */
  datatype Outcome = Plain(plain: bytes) | HeaderCut | BodyCut | Short | Large | Undecryptable

  /** ReadFrame's result as a function of the bytes to come. */
  function Expected(a: Aead, key: bytes, s: bytes): Outcome
  {
    match Head(a, key, s)
    case Frame(plain, _) => Plain(plain)
    case Partial => if |s| < LEN_FIELD_SIZE then HeaderCut else BodyCut
    case TooShort => Short
    case TooLarge => Large
    case Forged => Undecryptable
  }

  /** The sending side of a connection, which fails once it has taken `budget` more bytes. */
  class Sender {
    var sent: bytes
    var budget: nat

    constructor (budget: nat)
      ensures sent == [] && this.budget == budget
    {
      sent := [];
      this.budget := budget;
    }

    method Write(p: bytes) returns (ok: bool)
      modifies this
      ensures ok <==> |p| <= old(budget)
      ensures sent == old(sent) + Taken(p, old(budget))
      ensures budget == old(budget) - |Taken(p, old(budget))|
    {
      var q := Taken(p, budget);
      sent := sent + q;
      budget := budget - |q|;
      ok := q == p;
    }
  }

  /** The part of p that a connection with room for `budget` bytes takes. */
  function Taken(p: bytes, budget: nat): (q: bytes)
    ensures q <= p
  {
    if |p| <= budget then p else p[..budget]
  }

  /** WriteFrame: the three writes put the whole frame on the wire, or report an error and leave a
    * proper prefix of it there. */
  method WriteFrame(w: Sender, a: Aead, key: bytes, n: Nonce, plain: bytes) returns (ok: bool)
    requires Lawful(a)
    modifies w
    ensures ok <==> |FrameOf(a, key, n, plain)| <= old(w.budget)
    ensures w.sent == old(w.sent) + Taken(FrameOf(a, key, n, plain), old(w.budget))
    ensures w.budget == old(w.budget) - |Taken(FrameOf(a, key, n, plain), old(w.budget))|
  {
    ghost var whole := FrameOf(a, key, n, plain);
    ghost var before := w.sent;
    ghost var room := w.budget;
    var ciphertext := a.seal(key, n, plain);
    var frameLen := (NONCE_SIZE + |ciphertext|) % UINT32;
    var hdr := PutUint32(frameLen);
    assert whole == hdr + n + ciphertext;
    ok := w.Write(hdr);
    if !ok {
      assert Taken(hdr, room) == Taken(whole, room);
      return;
    }
    ok := w.Write(n);
    if !ok {
      assert Taken(whole, room) == hdr + Taken(n, room - |hdr|);
      return;
    }
    ok := w.Write(ciphertext);
    assert Taken(whole, room) == hdr + n + Taken(ciphertext, room - |hdr| - |n|);
  }

  /** WriteTypedFrame: the type byte in front of the payload. */
  method WriteTypedFrame(w: Sender, a: Aead, key: bytes, n: Nonce, typ: byte, payload: bytes) returns (ok: bool)
    requires Lawful(a)
    modifies w
    ensures var frame := FrameOf(a, key, n, [typ] + payload);
      (ok <==> |frame| <= old(w.budget)) && w.sent == old(w.sent) + Taken(frame, old(w.budget))
  {
    ok := WriteFrame(w, a, key, n, [typ] + payload);
  }

  /** SendHandshake, the client's half: success means HELLO went out whole and the next frame is
    * READY, and the reader is left exactly behind that frame. */
  method SendHandshake(w: Sender, r: BufReader, a: Aead, key: bytes, n: Nonce) returns (ok: bool)
    requires Lawful(a) && r.Valid()
    modifies w, r, r.conn
    ensures r.Valid()
    ensures w.sent == old(w.sent) + Taken(FrameOf(a, key, n, HELLO), old(w.budget))
    ensures var f := Head(a, key, old(r.Pending()));
      && (ok <==> |FrameOf(a, key, n, HELLO)| <= old(w.budget) && f.Frame? && f.plain == READY)
      && (ok ==> r.Pending() == old(r.Pending())[f.size..])
  {
    ok := WriteFrame(w, a, key, n, HELLO);
    if !ok {
      return;
    }
    var reply := r.ReadFrame(a, key);
    ok := reply == Plain(READY);
  }

  /** ReceiveHandshake, the server's half. Nothing is written unless HELLO was read. */
  method ReceiveHandshake(w: Sender, r: BufReader, a: Aead, key: bytes, n: Nonce) returns (ok: bool)
    requires Lawful(a) && r.Valid()
    modifies w, r, r.conn
    ensures r.Valid()
    ensures var f := Head(a, key, old(r.Pending())); var hello := f.Frame? && f.plain == HELLO;
      && (ok <==> hello && |FrameOf(a, key, n, READY)| <= old(w.budget))
      && (hello ==> r.Pending() == old(r.Pending())[f.size..])
      && w.sent == old(w.sent) + if hello then Taken(FrameOf(a, key, n, READY), old(w.budget)) else []
  {
    var msg := r.ReadFrame(a, key);
    if msg != Plain(HELLO) {
      return false;
    }
    ok := WriteFrame(w, a, key, n, READY);
  }

  lemma DecodeHead(a: Aead, key: bytes, s: bytes, msgs: seq<bytes>)
    ensures var f := Head(a, key, s);
      msgs + Decode(a, key, s) == if f.Frame? then msgs + [f.plain] + Decode(a, key, s[f.size..]) else msgs
  {
  }

  /** Repeated reads, as the reader goroutine and the client's router make them: they return
    * exactly the messages of the stream, whatever the pieces it arrives in. */
  method ReadAll(r: BufReader, a: Aead, key: bytes) returns (msgs: seq<bytes>)
    requires r.Valid()
    modifies r, r.conn
    ensures msgs == Decode(a, key, old(r.Pending()))
  {
    msgs := [];
    ghost var all := Decode(a, key, r.Pending());
    while true
      invariant r.Valid()
      invariant msgs + Decode(a, key, r.Pending()) == all
      decreases |r.Pending()|
    {
      DecodeHead(a, key, r.Pending(), msgs);
      var m := r.ReadFrame(a, key);
      if !m.Plain? {
        return;
      }
      msgs := msgs + [m.plain];
    }
  }
}
