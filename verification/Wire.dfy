/** The server's side of the client's connection, which has two writers: the writer goroutine, fed by
  * outCh, and the dispatcher, which writes "Bye." past it. Each makes three writes for a frame, and
  * the writes of the two interleave.
  */
module Wire {
  import opened Prelude
  import opened Framing

  /** Who made a message; this is not on the wire. */
  datatype Origin =
    | Begin(t: nat)      // the dispatcher's session-start frame of attach t
    | Payload(t: nat)    // session data sent by the RX goroutine of attach t
    | Farewell(t: nat)   // its closed notice and its back-to-menu response
    | Other              // responses, listener events, output of local commands
    | Goodbye

  datatype Msg = Msg(origin: Origin, typ: byte, text: bytes)

  const BYE: bytes := [66, 121, 101, 46]
  const GOODBYE := Msg(Goodbye, FRAME_RESPONSE, BYE)

  /** The writer goroutine: waiting on outCh; with a message in its hands; or inside a frame, `part`
    * of its three writes made. */
  datatype Pen = Idle | Holding(m: Msg) | Inside(frame: nat, part: nat)

  datatype Bye = Unsaid | Said(frame: nat, part: nat)

  /** One write: which frame, which of its three parts, and the bytes. */
  datatype Piece = Piece(frame: nat, part: nat, text: bytes)

  /** `pushed`: every message ever sent on outCh. `written` and `frames`: the messages whose first
    * write has been made, in that order, and the frames they are. */
  datatype State = State(
    out: seq<Msg>, pen: Pen, bye: Bye,
    pushed: seq<Msg>, written: seq<Msg>, frames: seq<Sealed>, pieces: seq<Piece>)

  datatype Action =
    | Push(m: Msg)          // anybody's send on outCh
    | Take                  // the writer receives from outCh
    | FrameStart(n: Nonce)  // its first write of a frame
    | FrameNext             // its second and third
    | ByeStart(n: Nonce)    // the dispatcher's first write of the goodbye
    | ByeNext

  function Init(): State
  {
    State([], Idle, Unsaid, [], [], [], [])
  }

  function PlainOf(m: Msg): bytes
  {
    [m.typ] + m.text
  }

  predicate InsideBye(bye: Bye)
  {
    bye.Said? && bye.part < 3
  }

  predicate Enabled(s: State, a: Action)
  {
    match a
    case Push(m) => |s.out| < OUT_CAP && !m.origin.Goodbye?
    case Take => s.pen.Idle? && s.out != []
    case FrameStart(_) => s.pen.Holding?
    case FrameNext => s.pen.Inside? && s.pen.frame < |s.frames|
    case ByeStart(_) => s.bye.Unsaid?
    case ByeNext => InsideBye(s.bye) && s.bye.frame < |s.frames|
  }

  /** The bytes of one write: length field, nonce, ciphertext. */
  function PartOf(c: Suite, f: Sealed, part: nat): bytes
  {
    var frame := FrameOf(c.aead, c.key, f.nonce, f.plain);
    if part == 0 then frame[..LEN_FIELD_SIZE]
    else if part == 1 then frame[LEN_FIELD_SIZE..LEN_FIELD_SIZE + NONCE_SIZE]
    else frame[LEN_FIELD_SIZE + NONCE_SIZE..]
  }

  /** The first write of a new frame. */
  function StartFrame(c: Suite, s: State, m: Msg, n: Nonce): State
  {
    var f := Sealed(n, PlainOf(m));
    s.(written := s.written + [m], frames := s.frames + [f],
       pieces := s.pieces + [Piece(|s.frames|, 0, PartOf(c, f, 0))])
  }

  function WritePart(c: Suite, s: State, frame: nat, part: nat): State
    requires frame < |s.frames|
  {
    s.(pieces := s.pieces + [Piece(frame, part, PartOf(c, s.frames[frame], part))])
  }

  function Do(c: Suite, s: State, a: Action): State
    requires Enabled(s, a)
  {
    match a
    case Push(m) => s.(out := s.out + [m], pushed := s.pushed + [m])
    case Take => s.(out := s.out[1..], pen := Holding(s.out[0]))
    case FrameStart(n) => StartFrame(c, s, s.pen.m, n).(pen := Inside(|s.frames|, 1))
    case FrameNext =>
      WritePart(c, s, s.pen.frame, s.pen.part).(pen := if s.pen.part == 1 then Inside(s.pen.frame, 2) else Idle)
    case ByeStart(n) => StartFrame(c, s, GOODBYE, n).(bye := Said(|s.frames|, 1))
    case ByeNext => WritePart(c, s, s.bye.frame, s.bye.part).(bye := Said(s.bye.frame, s.bye.part + 1))
  }

  function Exec(c: Suite, run: Log<Action>): Option<State>
  {
    match run
    case Start => Some(Init())
    case Then(before, a) =>
      match Exec(c, before)
      case None => None
      case Some(m) => if Enabled(m, a) then Some(Do(c, m, a)) else None
  }

  predicate Reaches(c: Suite, run: Log<Action>, s: State)
  {
    Exec(c, run) == Some(s)
  }

  /** What the client's connection has been given. */
  function Bytes(pieces: seq<Piece>): bytes
    decreases |pieces|
  {
    if pieces == [] then [] else Bytes(pieces[..|pieces| - 1]) + pieces[|pieces| - 1].text
  }

  // ----- what every run keeps ----------------------------------------------------------------

  function Held(pen: Pen): seq<Msg>
  {
    if pen.Holding? then [pen.m] else []
  }

  /** The messages written, the goodbye left out. */
  function FromOut(written: seq<Msg>, bye: Bye): seq<Msg>
    requires bye.Said? ==> bye.frame < |written|
  {
    if bye.Said? then written[..bye.frame] + written[bye.frame + 1..] else written
  }

  predicate Framed(written: seq<Msg>, frames: seq<Sealed>)
  {
    && |frames| == |written|
    && (forall i :: 0 <= i < |frames| ==> frames[i].plain == PlainOf(written[i]))
  }

  predicate ByePlaced(written: seq<Msg>, bye: Bye)
  {
    bye.Said? ==> bye.frame < |written| && written[bye.frame] == GOODBYE && 1 <= bye.part <= 3
  }

  predicate NoGoodbye(pushed: seq<Msg>)
  {
    forall i :: 0 <= i < |pushed| ==> !pushed[i].origin.Goodbye?
  }

  /** outCh is first in, first out up to the wire; the goodbye stands in between somewhere. */
  predicate Fifo(s: State)
  {
    && Framed(s.written, s.frames)
    && ByePlaced(s.written, s.bye)
    && s.pushed == FromOut(s.written, s.bye) + Held(s.pen) + s.out
    && (s.pen.Inside? ==> s.pen.frame < |s.frames| && 1 <= s.pen.part <= 2)
    && NoGoodbye(s.pushed)
  }

  lemma FramedSnoc(written: seq<Msg>, frames: seq<Sealed>, m: Msg, n: Nonce)
    requires Framed(written, frames)
    ensures Framed(written + [m], frames + [Sealed(n, PlainOf(m))])
  {
  }

  lemma FromOutSnoc(written: seq<Msg>, bye: Bye, m: Msg)
    requires ByePlaced(written, bye)
    ensures ByePlaced(written + [m], bye)
    ensures FromOut(written + [m], bye) == FromOut(written, bye) + [m]
  {
  }

  lemma FromOutBye(written: seq<Msg>)
    ensures FromOut(written + [GOODBYE], Said(|written|, 1)) == written
  {
  }

  lemma FrameStartFifo(c: Suite, s: State, n: Nonce)
    requires Fifo(s) && s.pen.Holding?
    ensures Fifo(Do(c, s, FrameStart(n)))
  {
    FramedSnoc(s.written, s.frames, s.pen.m, n);
    FromOutSnoc(s.written, s.bye, s.pen.m);
    var sent := FromOut(s.written, s.bye);
    assert sent + [s.pen.m] + s.out == (sent + [s.pen.m]) + [] + s.out;
  }

  lemma ByeStartFifo(c: Suite, s: State, n: Nonce)
    requires Fifo(s) && s.bye.Unsaid?
    ensures Fifo(Do(c, s, ByeStart(n)))
  {
    FramedSnoc(s.written, s.frames, GOODBYE, n);
    FromOutBye(s.written);
  }

  lemma PushMsgs(x: seq<Msg>, y: seq<Msg>, z: seq<Msg>, m: Msg)
    ensures x + y + (z + [m]) == (x + y + z) + [m]
  {
  }

  lemma TakeMsgs(x: seq<Msg>, z: seq<Msg>)
    requires z != []
    ensures x + [] + z == x + [z[0]] + z[1..]
  {
    assert z == [z[0]] + z[1..];
    assert x + [] == x;
    assert x + [z[0]] + z[1..] == x + ([z[0]] + z[1..]);
  }

  lemma PushFifo(c: Suite, s: State, m: Msg)
    requires Fifo(s) && Enabled(s, Push(m))
    ensures Fifo(Do(c, s, Push(m)))
  {
    PushMsgs(FromOut(s.written, s.bye), Held(s.pen), s.out, m);
  }

  lemma TakeFifo(c: Suite, s: State)
    requires Fifo(s) && Enabled(s, Take)
    ensures Fifo(Do(c, s, Take))
  {
    TakeMsgs(FromOut(s.written, s.bye), s.out);
  }

  lemma FifoKeeps(c: Suite, s: State, a: Action)
    requires Fifo(s) && Enabled(s, a)
    ensures Fifo(Do(c, s, a))
  {
    match a
    case Push(m) => PushFifo(c, s, m);
    case Take => TakeFifo(c, s);
    case FrameStart(n) => FrameStartFifo(c, s, n);
    case ByeStart(n) => ByeStartFifo(c, s, n);
    case _ => assert Do(c, s, a).written == s.written;
  }

  lemma {:induction false} FifoRun(c: Suite, run: Log<Action>, s: State)
    requires Reaches(c, run, s)
    ensures Fifo(s)
    decreases run
  {
    if run.Then? {
      var m := Exec(c, run.before).value;
      FifoRun(c, run.before, m);
      FifoKeeps(c, m, run.last);
    }
  }

  /** How many of the first k messages written came from outCh. */
  function Slot(bye: Bye, k: nat): nat
  {
    if bye.Said? && bye.frame < k then k - 1 else k
  }

  lemma FromOutAt(written: seq<Msg>, bye: Bye, i: nat)
    requires ByePlaced(written, bye) && i < |written| && !(bye.Said? && bye.frame == i)
    ensures Slot(bye, i) < |FromOut(written, bye)| && FromOut(written, bye)[Slot(bye, i)] == written[i]
  {
  }

  lemma PushedAt(s: State, k: nat)
    requires Fifo(s) && k < |FromOut(s.written, s.bye)|
    ensures k < |s.pushed| && s.pushed[k] == FromOut(s.written, s.bye)[k]
  {
  }

  /** A message written that is not the goodbye, among those pushed. */
  lemma WrittenAt(s: State, i: nat)
    requires Fifo(s) && i < |s.written| && !(s.bye.Said? && s.bye.frame == i)
    ensures Slot(s.bye, i) < |s.pushed| && s.pushed[Slot(s.bye, i)] == s.written[i]
    ensures !s.written[i].origin.Goodbye?
  {
    FromOutAt(s.written, s.bye, i);
    PushedAt(s, Slot(s.bye, i));
  }

  /** The first messages written, less the goodbye, are the first pushed. */
  lemma WrittenFront(s: State, k: nat)
    requires Fifo(s) && k <= |s.written|
    ensures Slot(s.bye, k) <= |s.pushed|
    ensures s.pushed[..Slot(s.bye, k)] ==
      if s.bye.Said? && s.bye.frame < k then s.written[..s.bye.frame] + s.written[s.bye.frame + 1..k]
      else s.written[..k]
  {
    Front(FromOut(s.written, s.bye), Held(s.pen), s.out, Slot(s.bye, k));
    if s.bye.Said? && s.bye.frame < k {
      FrontWithout(s.written, s.bye.frame, k);
    } else if s.bye.Said? {
      Front(s.written[..s.bye.frame], s.written[s.bye.frame + 1..], [], k);
      FrontTwice(s.written, s.bye.frame, k);
    }
  }

  lemma Front(x: seq<Msg>, y: seq<Msg>, z: seq<Msg>, k: nat)
    requires k <= |x|
    ensures (x + y + z)[..k] == x[..k] && (x + y)[..k] == x[..k]
  {
  }

  lemma FrontTwice(w: seq<Msg>, f: nat, k: nat)
    requires k <= f <= |w|
    ensures w[..f][..k] == w[..k]
  {
  }

  lemma FrontWithout(w: seq<Msg>, f: nat, k: nat)
    requires f < k <= |w|
    ensures (w[..f] + w[f + 1..])[..k - 1] == w[..f] + w[f + 1..k]
    ensures w[..k] == w[..f] + [w[f]] + w[f + 1..k]
  {
  }

  // ----- whole frames ------------------------------------------------------------------------

  /** One writer writes while the other is inside its frame. */
  predicate Collides(s: State, a: Action)
  {
    || ((a.FrameStart? || a.FrameNext?) && InsideBye(s.bye))
    || ((a.ByeStart? || a.ByeNext?) && s.pen.Inside?)
  }

  /** No write of the run collides. */
  predicate Apart(c: Suite, run: Log<Action>)
  {
    match run
    case Start => true
    case Then(before, a) =>
      Apart(c, before) && (Exec(c, before).Some? ==> !Collides(Exec(c, before).value, a))
  }

  /** The writes are whole frames, one after the other, up to the last. */
  predicate WholeFrames(pieces: seq<Piece>)
  {
    forall i :: 0 <= i < |pieces| ==> pieces[i].frame == i / 3 && pieces[i].part == i % 3
  }

  /** The frame that a writer is inside of is the last, and there is no other. */
  predicate OneInside(s: State)
  {
    && |s.frames| == |s.written|
    && !(s.pen.Inside? && InsideBye(s.bye))
    && (s.pen.Inside? ==>
          s.pen.frame == |s.frames| - 1 && 1 <= s.pen.part <= 2 && |s.pieces| == 3 * s.pen.frame + s.pen.part)
    && (InsideBye(s.bye) ==>
          s.bye.frame == |s.frames| - 1 && 1 <= s.bye.part && |s.pieces| == 3 * s.bye.frame + s.bye.part)
    && (!s.pen.Inside? && !InsideBye(s.bye) ==> |s.pieces| == 3 * |s.frames|)
  }

  lemma WholeStep(c: Suite, s: State, a: Action)
    requires OneInside(s) && WholeFrames(s.pieces) && Enabled(s, a)
    ensures !Collides(s, a) ==> OneInside(Do(c, s, a)) && WholeFrames(Do(c, s, a).pieces)
    ensures Collides(s, a) ==> !WholeFrames(Do(c, s, a).pieces)
  {
    var s' := Do(c, s, a);
    if |s'.pieces| > |s.pieces| {
      var last := s'.pieces[|s.pieces|];
      assert s'.pieces[..|s.pieces|] == s.pieces;
    }
  }

  /** Whole frames exactly when the goodbye is kept apart: over every run, the writes on the wire are
    * whole frames one after the other if and only if none is made by either writer while the other
    * is inside its frame. */
  lemma {:induction false} WholeFramesExactlyWhenApart(c: Suite, run: Log<Action>, s: State)
    requires Reaches(c, run, s)
    ensures WholeFrames(s.pieces) <==> Apart(c, run)
    ensures Apart(c, run) ==> OneInside(s)
    decreases run
  {
    if run.Then? {
      var m := Exec(c, run.before).value;
      WholeFramesExactlyWhenApart(c, run.before, m);
      if Apart(c, run.before) {
        WholeStep(c, m, run.last);
      } else {
        assert s.pieces[..|m.pieces|] == m.pieces;
        var i :| 0 <= i < |m.pieces| && !(m.pieces[i].frame == i / 3 && m.pieces[i].part == i % 3);
        assert s.pieces[i] == m.pieces[i];
      }
    }
  }

  // ----- the bytes ---------------------------------------------------------------------------

  /** What is missing of a frame after some of its parts. */
  function RestOf(c: Suite, f: Sealed, part: nat): bytes
  {
    FrameOf(c.aead, c.key, f.nonce, f.plain)[if part == 1 then LEN_FIELD_SIZE else LEN_FIELD_SIZE + NONCE_SIZE..]
  }

  /** What is missing on the wire to end the last frame. */
  function Missing(c: Suite, s: State): bytes
    requires OneInside(s)
  {
    if s.pen.Inside? then RestOf(c, s.frames[s.pen.frame], s.pen.part)
    else if InsideBye(s.bye) then RestOf(c, s.frames[s.bye.frame], s.bye.part)
    else []
  }

  lemma Parts(c: Suite, f: Sealed)
    ensures PartOf(c, f, 0) + RestOf(c, f, 1) == FrameOf(c.aead, c.key, f.nonce, f.plain)
    ensures PartOf(c, f, 1) + RestOf(c, f, 2) == RestOf(c, f, 1)
    ensures PartOf(c, f, 2) == RestOf(c, f, 2)
  {
  }

  lemma BytesSnoc(pieces: seq<Piece>, p: Piece)
    ensures Bytes(pieces + [p]) == Bytes(pieces) + p.text
  {
    assert (pieces + [p])[..|pieces|] == pieces;
  }

  /** Up to the missing part of the last frame, the wire is the stream of the frames. */
  predicate Streaming(c: Suite, s: State)
    requires OneInside(s)
  {
    Bytes(s.pieces) + Missing(c, s) == Stream(c.aead, c.key, s.frames)
  }

  lemma StartStreams(c: Suite, s: State, m: Msg, n: Nonce)
    requires OneInside(s) && Streaming(c, s) && Missing(c, s) == []
    ensures var f := Sealed(n, PlainOf(m)); var s' := StartFrame(c, s, m, n);
      Bytes(s'.pieces) + RestOf(c, f, 1) == Stream(c.aead, c.key, s'.frames)
  {
    var f := Sealed(n, PlainOf(m));
    BytesSnoc(s.pieces, Piece(|s.frames|, 0, PartOf(c, f, 0)));
    StreamSnoc(c.aead, c.key, s.frames, f);
    Parts(c, f);
    Regroup(Bytes(s.pieces), PartOf(c, f, 0), RestOf(c, f, 1));
  }

  lemma Regroup(x: bytes, y: bytes, z: bytes)
    ensures (x + y) + z == x + (y + z)
    ensures x + [] == x
  {
  }

  lemma PartStreams(c: Suite, s: State, frame: nat, part: nat)
    requires frame < |s.frames| && 1 <= part <= 2
    requires Bytes(s.pieces) + RestOf(c, s.frames[frame], part) == Stream(c.aead, c.key, s.frames)
    ensures var s' := WritePart(c, s, frame, part);
      Bytes(s'.pieces) + (if part == 1 then RestOf(c, s.frames[frame], 2) else []) == Stream(c.aead, c.key, s.frames)
  {
    var f := s.frames[frame];
    BytesSnoc(s.pieces, Piece(frame, part, PartOf(c, f, part)));
    Parts(c, f);
    Regroup(Bytes(s.pieces), PartOf(c, f, part), RestOf(c, f, 2));
    Regroup(Bytes(s.pieces) + PartOf(c, f, part), [], []);
  }

  lemma StreamingStep(c: Suite, s: State, a: Action)
    requires OneInside(s) && Streaming(c, s) && Enabled(s, a) && !Collides(s, a)
    requires OneInside(Do(c, s, a))
    ensures Streaming(c, Do(c, s, a))
  {
    match a
    case FrameStart(n) => StartStreams(c, s, s.pen.m, n);
    case ByeStart(n) => StartStreams(c, s, GOODBYE, n);
    case FrameNext => PartStreams(c, s, s.pen.frame, s.pen.part);
    case ByeNext => PartStreams(c, s, s.bye.frame, s.bye.part);
    case _ =>
  }

  lemma {:induction false} StreamingRun(c: Suite, run: Log<Action>, s: State)
    requires Reaches(c, run, s) && Apart(c, run)
    ensures OneInside(s) && Streaming(c, s)
    decreases run
  {
    WholeFramesExactlyWhenApart(c, run, s);
    if run.Then? {
      var m := Exec(c, run.before).value;
      WholeFramesExactlyWhenApart(c, run.before, m);
      StreamingRun(c, run.before, m);
      StreamingStep(c, m, run.last);
    }
  }

  // ----- what the client decodes -------------------------------------------------------------

  /** In order: as long as the goodbye is kept apart, whatever part of the wire has arrived decodes to
    * the first of the messages written; and these are the messages sent on outCh, in order, with the
    * goodbye where it was written. */
  lemma DecodedInOrder(c: Suite, run: Log<Action>, s: State, k: nat)
    requires Lawful(c.aead) && Reaches(c, run, s) && Apart(c, run) && NoWrap(s.frames)
    requires k <= |Bytes(s.pieces)|
    ensures Fifo(s)
    ensures var got := Decode(c.aead, c.key, Bytes(s.pieces)[..k]);
      |got| <= |s.written| && forall i :: 0 <= i < |got| ==> got[i] == PlainOf(s.written[i])
  {
    FifoRun(c, run, s);
    StreamingRun(c, run, s);
    var stream := Stream(c.aead, c.key, s.frames);
    assert Bytes(s.pieces) <= stream;
    assert Bytes(s.pieces)[..k] == stream[..k];
    DecodesToPrefix(c.aead, c.key, s.frames, k);
    var got := Decode(c.aead, c.key, stream[..k]);
    forall i | 0 <= i < |got|
      ensures got[i] == PlainOf(s.written[i])
    {
      assert got[i] == Plains(s.frames)[i] == s.frames[i].plain;
    }
  }

  /** And in full: once outCh is empty and both writers are between frames, frames within the cap are
    * all decoded, one for each message sent on outCh and one for the goodbye if it was said. */
  lemma DecodedInFull(c: Suite, run: Log<Action>, s: State)
    requires Lawful(c.aead) && Reaches(c, run, s) && Apart(c, run) && Fits(s.frames)
    requires s.out == [] && s.pen.Idle? && !InsideBye(s.bye)
    ensures |Decode(c.aead, c.key, Bytes(s.pieces))| == |s.pushed| + if s.bye.Said? then 1 else 0
  {
    FifoRun(c, run, s);
    StreamingRun(c, run, s);
    assert Bytes(s.pieces) + [] == Bytes(s.pieces);
    StreamDecodes(c.aead, c.key, s.frames);
  }

  // ----- a goodbye inside a frame ------------------------------------------------------------

  /** The whole goodbye g after `cut` bytes of the frame f. */
  function Mixture(c: Suite, f: Sealed, g: Sealed, cut: nat): bytes
    requires cut <= LEN_FIELD_SIZE + NONCE_SIZE
  {
    var frame := FrameOf(c.aead, c.key, f.nonce, f.plain);
    frame[..cut] + FrameOf(c.aead, c.key, g.nonce, g.plain) + frame[cut..]
  }

  predicate IsCut(cut: nat)
  {
    cut == LEN_FIELD_SIZE || cut == LEN_FIELD_SIZE + NONCE_SIZE
  }

  lemma BodyIsOpened(c: Suite, s: bytes, size: nat)
    requires LEN_FIELD_SIZE + NONCE_SIZE + TAG_SIZE <= size <= |s| && size - LEN_FIELD_SIZE <= MAX_FRAME_BYTES
    requires Uint32(s[..LEN_FIELD_SIZE]) == size - LEN_FIELD_SIZE
    ensures Head(c.aead, c.key, s) ==
      match c.aead.open(c.key, s[LEN_FIELD_SIZE..LEN_FIELD_SIZE + NONCE_SIZE], s[LEN_FIELD_SIZE + NONCE_SIZE..size])
      case None => Forged
      case Some(plain) => Frame(plain, size)
  {
    var body := s[LEN_FIELD_SIZE..size];
    assert body[..NONCE_SIZE] == s[LEN_FIELD_SIZE..LEN_FIELD_SIZE + NONCE_SIZE];
    assert body[NONCE_SIZE..] == s[LEN_FIELD_SIZE + NONCE_SIZE..size];
  }

  lemma MixtureHead(c: Suite, f: Sealed, g: Sealed, cut: nat)
    requires Lawful(c.aead) && |f.plain| <= MAX_PLAIN && IsCut(cut)
    ensures var mix := Mixture(c, f, g, cut); var size := LEN_FIELD_SIZE + NONCE_SIZE + TAG_SIZE + |f.plain|;
      size <= |mix| && Uint32(mix[..LEN_FIELD_SIZE]) == size - LEN_FIELD_SIZE
  {
    var frame := FrameOf(c.aead, c.key, f.nonce, f.plain);
    FrameSize(c.aead, c.key, f.nonce, f.plain);
    Uint32RoundTrip(NONCE_SIZE + TAG_SIZE + |f.plain|);
    assert Mixture(c, f, g, cut)[..LEN_FIELD_SIZE] == frame[..LEN_FIELD_SIZE];
  }

  /** What the client makes of it: it reads the length of the frame, and then that many bytes of the
    * mixture; the frame comes through exactly if the AEAD opens these to its plaintext. */
  lemma MixtureIsRead(c: Suite, f: Sealed, g: Sealed, cut: nat, rest: bytes)
    requires Lawful(c.aead) && |f.plain| <= MAX_PLAIN && IsCut(cut)
    ensures var mix := Mixture(c, f, g, cut); var size := LEN_FIELD_SIZE + NONCE_SIZE + TAG_SIZE + |f.plain|;
      && size <= |mix|
      && Head(c.aead, c.key, mix + rest) ==
         match c.aead.open(c.key, mix[LEN_FIELD_SIZE..LEN_FIELD_SIZE + NONCE_SIZE],
                           mix[LEN_FIELD_SIZE + NONCE_SIZE..size])
         case None => Forged
         case Some(plain) => Frame(plain, size)
  {
    var mix := Mixture(c, f, g, cut);
    var size := LEN_FIELD_SIZE + NONCE_SIZE + TAG_SIZE + |f.plain|;
    MixtureHead(c, f, g, cut);
    Slice(mix, rest, 0, LEN_FIELD_SIZE);
    Slice(mix, rest, LEN_FIELD_SIZE, LEN_FIELD_SIZE + NONCE_SIZE);
    Slice(mix, rest, LEN_FIELD_SIZE + NONCE_SIZE, size);
    BodyIsOpened(c, mix + rest, size);
  }

  lemma Slice(x: bytes, y: bytes, i: nat, j: nat)
    requires i <= j <= |x|
    ensures (x + y)[i..j] == x[i..j]
  {
  }

  /** Words that commute agree with themselves one length on, and around the end. */
  lemma Commuting(p: bytes, g: bytes)
    requires p + g == g + p && |p| <= |g|
    ensures forall i :: |p| <= i < |g| ==> g[i] == g[i - |p|]
    ensures forall i :: 0 <= i < |p| ==> g[i] == g[|g| - |p| + i]
  {
    var x, y := p + g, g + p;
    forall i | |p| <= i < |g|
      ensures g[i] == g[i - |p|]
    {
      assert x[i] == y[i];
    }
    forall i | 0 <= i < |p|
      ensures g[i] == g[|g| - |p| + i]
    {
      assert x[i] == y[i] && x[|g| + i] == y[|g| + i];
    }
  }

  /** The length of the goodbye's frame has no divisor in common with 4 or 16, so what commutes with
    * it consists of one byte. */
  lemma OneByte(p: bytes, g: bytes)
    requires |g| == 37 && IsCut(|p|) && p + g == g + p
    ensures g[0] == g[3]
  {
    Commuting(p, g);
    if |p| == 4 {
      assert g[3] == g[36] == g[32] == g[28] == g[24] == g[20] == g[16] == g[12] == g[8] == g[4] == g[0];
    } else {
      assert g[3] == g[24] == g[8] == g[29] == g[13] == g[34] == g[18] == g[2] == g[23] == g[7] == g[28];
      assert g[28] == g[12] == g[33] == g[17] == g[1] == g[22] == g[6] == g[27] == g[11] == g[32] == g[16] == g[0];
    }
  }

  lemma GoodbyeFrame(c: Suite, n: Nonce)
    requires Lawful(c.aead)
    ensures var g := FrameOf(c.aead, c.key, n, PlainOf(GOODBYE)); |g| == 37 && g[0] == 0 && g[3] == 33
  {
    FrameSize(c.aead, c.key, n, PlainOf(GOODBYE));
  }

  lemma CancelLeft(p: bytes, x: bytes, y: bytes)
    ensures p + x == p + y <==> x == y
  {
    if p + x == p + y {
      assert (p + x)[|p|..] == x && (p + y)[|p|..] == y;
    }
  }

  lemma CancelRight(x: bytes, y: bytes, s: bytes)
    requires |x| == |y|
    ensures x + s == y + s <==> x == y
  {
    if x + s == y + s {
      assert (x + s)[..|x|] == x && (y + s)[..|y|] == y;
    }
  }

  /** Exactly when the bytes of the mixture are those of the two frames one after the other: never with
    * the goodbye first, and with the goodbye last if and only if the rest of the frame, behind the
    * cut, commutes with the goodbye's frame. */
  lemma MixtureIsStreamExactly(c: Suite, f: Sealed, n: Nonce, cut: nat)
    requires Lawful(c.aead) && IsCut(cut)
    ensures var g := Sealed(n, PlainOf(GOODBYE));
      var first, last := FrameOf(c.aead, c.key, f.nonce, f.plain), FrameOf(c.aead, c.key, n, g.plain);
      && cut <= |first|
      && Mixture(c, f, g, cut) != last + first
      && (Mixture(c, f, g, cut) == first + last <==> last + first[cut..] == first[cut..] + last)
  {
    var first := FrameOf(c.aead, c.key, f.nonce, f.plain);
    var last := FrameOf(c.aead, c.key, n, PlainOf(GOODBYE));
    var p, s := first[..cut], first[cut..];
    assert first == p + s;
    GoodbyeFrame(c, n);
    if p + last == last + p {
      OneByte(p, last);
    }
    CancelRight(p + last, last + p, s);
    Regroup(last, p, s);
    Regroup(p, last, s);
    Regroup(p, s, last);
    CancelLeft(p, last + s, s + last);
  }

  lemma PlainFrame(key: bytes, n: Nonce, plain: bytes)
    ensures FrameOf(PlainAead(), key, n, plain)
         == PutUint32((NONCE_SIZE + TAG_SIZE + |plain|) % UINT32) + n + (plain + Zeros())
  {
  }

  /** The condition can be met: under an AEAD that only appends sixteen zero bytes, the event whose frame
    * repeats the goodbye's behind its length field lets the goodbye pass inside it. */
  lemma GoodbyeInsideCanPass(key: bytes, n: Nonce) returns (f: Sealed)
    requires n[8] == FRAME_EVENT
    ensures f.plain != [] && f.plain[0] == FRAME_EVENT
    ensures var c := Suite(PlainAead(), key); var g := Sealed(n, PlainOf(GOODBYE));
      Mixture(c, f, g, LEN_FIELD_SIZE)
      == FrameOf(c.aead, key, f.nonce, f.plain) + FrameOf(c.aead, key, n, g.plain)
  {
    var c := Suite(PlainAead(), key);
    var last := FrameOf(c.aead, key, n, PlainOf(GOODBYE));
    LawsSatisfiable();
    GoodbyeFrame(c, n);
    PlainFrame(key, n, PlainOf(GOODBYE));
    f := Sealed(last[..NONCE_SIZE], last[NONCE_SIZE..21]);
    PlainFrame(key, f.nonce, f.plain);
    var first := FrameOf(c.aead, key, f.nonce, f.plain);
    assert last[21..] == Zeros();
    assert first[LEN_FIELD_SIZE..] == last;
    assert last[12] == n[8];
    MixtureIsStreamExactly(c, f, n, LEN_FIELD_SIZE);
  }

  lemma Play(c: Suite, run: Log<Action>, s: State, a: Action) returns (run': Log<Action>, s': State)
    requires Reaches(c, run, s) && Enabled(s, a)
    ensures run' == Then(run, a) && s' == Do(c, s, a) && Reaches(c, run', s')
  {
    run', s' := Then(run, a), Do(c, s, a);
  }

  /** A message whose frame the writer has begun. */
  lemma BeginFrame(c: Suite, m: Msg, n: Nonce) returns (run: Log<Action>, s: State)
    requires !m.origin.Goodbye?
    ensures Reaches(c, run, s)
    ensures s.out == [] && s.pen == Inside(0, 1) && s.bye == Unsaid && s.written == [m]
    ensures var f := Sealed(n, PlainOf(m)); s.frames == [f] && s.pieces == [Piece(0, 0, PartOf(c, f, 0))]
  {
    run, s := Start, Init();
    run, s := Play(c, run, s, Push(m));
    assert s.out == [m];
    run, s := Play(c, run, s, Take);
    run, s := Play(c, run, s, FrameStart(n));
  }

  lemma GoodbyeWritten(c: Suite, m: Msg, n: Nonce, n': Nonce) returns (run: Log<Action>, s: State)
    requires !m.origin.Goodbye?
    ensures Reaches(c, run, s)
    ensures s.out == [] && s.pen == Inside(0, 1) && s.bye == Said(1, 3) && s.written == [m, GOODBYE]
    ensures var f, g := Sealed(n, PlainOf(m)), Sealed(n', PlainOf(GOODBYE));
      && s.frames == [f, g]
      && s.pieces == [Piece(0, 0, PartOf(c, f, 0)), Piece(1, 0, PartOf(c, g, 0)), Piece(1, 1, PartOf(c, g, 1)),
                      Piece(1, 2, PartOf(c, g, 2))]
  {
    run, s := BeginFrame(c, m, n);
    run, s := Play(c, run, s, ByeStart(n'));
    assert s.frames == [Sealed(n, PlainOf(m)), Sealed(n', PlainOf(GOODBYE))];
    run, s := Play(c, run, s, ByeNext);
    run, s := Play(c, run, s, ByeNext);
  }

  lemma GoodbyeInsideRun(c: Suite, m: Msg, n: Nonce, n': Nonce) returns (run: Log<Action>, s: State)
    requires !m.origin.Goodbye?
    ensures Reaches(c, run, s)
    ensures s.out == [] && s.pen.Idle? && s.bye == Said(1, 3) && s.written == [m, GOODBYE]
    ensures var f, g := Sealed(n, PlainOf(m)), Sealed(n', PlainOf(GOODBYE));
      s.pieces == [Piece(0, 0, PartOf(c, f, 0)), Piece(1, 0, PartOf(c, g, 0)), Piece(1, 1, PartOf(c, g, 1)),
                   Piece(1, 2, PartOf(c, g, 2)), Piece(0, 1, PartOf(c, f, 1)), Piece(0, 2, PartOf(c, f, 2))]
  {
    run, s := GoodbyeWritten(c, m, n, n');
    run, s := Play(c, run, s, FrameNext);
    run, s := Play(c, run, s, FrameNext);
  }

  /** The goodbye inside a frame, for any message: `exit` is typed while the writer is between its first
    * two writes. Both frames end up on the wire, and the bytes are their mixture. */
  lemma GoodbyeInsideFrame(c: Suite, m: Msg, n: Nonce, n': Nonce) returns (run: Log<Action>, s: State)
    requires !m.origin.Goodbye?
    ensures Reaches(c, run, s) && !Apart(c, run) && !WholeFrames(s.pieces)
    ensures s.out == [] && s.pen.Idle? && s.bye == Said(1, 3) && s.written == [m, GOODBYE]
    ensures Bytes(s.pieces) == Mixture(c, Sealed(n, PlainOf(m)), Sealed(n', PlainOf(GOODBYE)), LEN_FIELD_SIZE)
  {
    var f, g := Sealed(n, PlainOf(m)), Sealed(n', PlainOf(GOODBYE));
    run, s := GoodbyeInsideRun(c, m, n, n');
    assert s.pieces[1].part == 0;
    WholeFramesExactlyWhenApart(c, run, s);
    SixPieces(s.pieces[0], s.pieces[1], s.pieces[2], s.pieces[3], s.pieces[4], s.pieces[5]);
    Parts(c, f);
    Parts(c, g);
  }

  lemma ThreePieces(before: seq<Piece>, x: Piece, y: Piece, z: Piece)
    ensures Bytes(before + [x, y, z]) == Bytes(before) + x.text + y.text + z.text
  {
    BytesSnoc(before, x);
    BytesSnoc(before + [x], y);
    BytesSnoc(before + [x] + [y], z);
    assert before + [x, y, z] == before + [x] + [y] + [z];
  }

  /** A frame's first write, the goodbye's three, and the frame's other two. */
  lemma SixPieces(a: Piece, x: Piece, y: Piece, z: Piece, b: Piece, d: Piece)
    ensures Bytes([a, x, y, z, b, d]) == a.text + (x.text + (y.text + z.text)) + (b.text + d.text)
  {
    ThreePieces([], a, x, y);
    ThreePieces([a, x, y], z, b, d);
    assert [] + [a, x, y] == [a, x, y] && [a, x, y] + [z, b, d] == [a, x, y, z, b, d];
    SixTexts(a.text, x.text, y.text, z.text, b.text, d.text);
  }

  lemma SixTexts(a: bytes, x: bytes, y: bytes, z: bytes, b: bytes, d: bytes)
    ensures [] + a + x + y + z + b + d == a + (x + (y + z)) + (b + d)
  {
    Regroup(x, y, z);
    Regroup(a, x + y, z);
    Regroup(a, x, y);
    Regroup(a + (x + y + z), b, d);
  }

  /** And these are no stream of frames for a client to read: under an AEAD that accepts all but the
    * wrong tag, a one-byte event and the goodbye leave it with an error and no message at all. */
  lemma GoodbyeInsideIsUnreadable(key: bytes, x: byte, n: Nonce, n': Nonce)
    ensures var c := Suite(PlainAead(), key);
      var mix := Mixture(c, Sealed(n, [FRAME_EVENT, x]), Sealed(n', PlainOf(GOODBYE)), LEN_FIELD_SIZE);
      Head(c.aead, key, mix) == Forged && Decode(c.aead, key, mix) == []
  {
    var c := Suite(PlainAead(), key);
    var f, g := Sealed(n, [FRAME_EVENT, x]), Sealed(n', PlainOf(GOODBYE));
    var mix := Mixture(c, f, g, LEN_FIELD_SIZE);
    LawsSatisfiable();
    MixtureIsRead(c, f, g, LEN_FIELD_SIZE, []);
    assert mix + [] == mix;
    var cipher := mix[LEN_FIELD_SIZE + NONCE_SIZE..34];
    var frame := FrameOf(c.aead, key, n', PlainOf(GOODBYE));
    assert frame[16] == FRAME_RESPONSE;
    assert cipher[2..][2] == mix[20] == frame[16];
    assert Zeros()[2] == 0;
  }
}
