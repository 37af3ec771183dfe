/** The frame codec: [4-byte big-endian length][12-byte nonce][ciphertext with 16-byte tag].
  *
  * The AEAD (the construction of section 2.8 of RFC 8439), its key and its nonces are parameters.
  */
module Framing {
  import opened Prelude

  const NONCE_SIZE := 12
  const TAG_SIZE := 16
  const LEN_FIELD_SIZE := 4
  const MAX_FRAME_BYTES := 4 * 1024 * 1024
  const UINT32 := 0x1_0000_0000

  /** The longest plaintext whose frame the reader accepts. */
  const MAX_PLAIN := MAX_FRAME_BYTES - NONCE_SIZE - TAG_SIZE

  const FRAME_RESPONSE: byte := 82       // 'R'
  const FRAME_EVENT: byte := 69          // 'E'
  const FRAME_SESSION_START: byte := 83  // 'S'

  const HELLO: bytes := [72, 69, 76, 76, 79]
  const READY: bytes := [82, 69, 65, 68, 89]

  type Nonce = n: bytes | |n| == NONCE_SIZE witness seq(12, _ => 0)

  datatype Aead = Aead(seal: (bytes, Nonce, bytes) -> bytes, open: (bytes, Nonce, bytes) -> Option<bytes>)

  datatype Suite = Suite(aead: Aead, key: bytes)

  /** The two laws assumed of an AEAD. */
  ghost predicate Lawful(a: Aead)
  {
    forall key: bytes, n: Nonce, p: bytes ::
      |a.seal(key, n, p)| == |p| + TAG_SIZE && a.open(key, n, a.seal(key, n, p)) == Some(p)
  }

  function Zeros(): bytes { seq(16, _ => 0) }

  /** An instance that satisfies the laws and nothing else: the tag is sixteen zero bytes. */
  function PlainAead(): Aead
  {
    Aead((key, n, p) => p + Zeros(),
         (key, n, c) => if |c| >= 16 && c[|c| - 16..] == Zeros() then Some(c[..|c| - 16]) else None)
  }

  lemma LawsSatisfiable()
    ensures Lawful(PlainAead())
  {
    forall key: bytes, n: Nonce, p: bytes
      ensures |PlainAead().seal(key, n, p)| == |p| + TAG_SIZE
      ensures PlainAead().open(key, n, PlainAead().seal(key, n, p)) == Some(p)
    {
      var c := PlainAead().seal(key, n, p);
      assert c == p + Zeros();
      assert c[|c| - 16..] == Zeros() && c[..|c| - 16] == p;
    }
  }

  // ----- the codec as functions --------------------------------------------------------------

  function PutUint32(n: nat): (b: bytes)
    requires n < UINT32
    ensures |b| == LEN_FIELD_SIZE
  {
    [n / 256 / 256 / 256, n / 256 / 256 % 256, n / 256 % 256, n % 256]
  }

  function Uint32(b: bytes): (n: nat)
    requires |b| == LEN_FIELD_SIZE
    ensures n < UINT32
  {
    var b0: int, b1: int, b2: int, b3: int := b[0], b[1], b[2], b[3];
    ((b0 * 256 + b1) * 256 + b2) * 256 + b3
  }

  lemma Uint32RoundTrip(n: nat)
    requires n < UINT32
    ensures Uint32(PutUint32(n)) == n
  {
  }

  /** The bytes WriteFrame puts on the wire; the length field is truncated to 32 bits. */
  function FrameOf(a: Aead, key: bytes, n: Nonce, plain: bytes): bytes
  {
    var sealed := a.seal(key, n, plain);
    PutUint32((NONCE_SIZE + |sealed|) % UINT32) + n + sealed
  }

  datatype Fetch =
    | Frame(plain: bytes, size: nat)  // a whole frame and the number of bytes it took
    | Partial                         // the bytes end inside the frame
    | TooShort
    | TooLarge
    | Forged

  /** What the head of a byte stream holds for a reader. */
  function Head(a: Aead, key: bytes, s: bytes): (f: Fetch)
    ensures f.Frame? ==> LEN_FIELD_SIZE + NONCE_SIZE + TAG_SIZE <= f.size <= |s|
  {
    if |s| < LEN_FIELD_SIZE then Partial
    else
      var len := Uint32(s[..LEN_FIELD_SIZE]);
      if len < NONCE_SIZE + TAG_SIZE then TooShort
      else if len > MAX_FRAME_BYTES then TooLarge
      else if |s| < LEN_FIELD_SIZE + len then Partial
      else
        var frame := s[LEN_FIELD_SIZE..LEN_FIELD_SIZE + len];
        match a.open(key, frame[..NONCE_SIZE], frame[NONCE_SIZE..])
        case None => Forged
        case Some(plain) => Frame(plain, LEN_FIELD_SIZE + len)
  }

  /** The messages repeated reads return before the first one that fails or is still incomplete. */
  function Decode(a: Aead, key: bytes, s: bytes): seq<bytes>
    decreases |s|
  {
    match Head(a, key, s)
    case Frame(plain, size) => [plain] + Decode(a, key, s[size..])
    case _ => []
  }

  datatype Sealed = Sealed(nonce: Nonce, plain: bytes)

  /** The bytes of a sequence of frames written by one writer. */
  function Stream(a: Aead, key: bytes, frames: seq<Sealed>): bytes
  {
    if frames == [] then []
    else FrameOf(a, key, frames[0].nonce, frames[0].plain) + Stream(a, key, frames[1..])
  }

  function Plains(frames: seq<Sealed>): (ps: seq<bytes>)
    ensures |ps| == |frames|
    ensures forall i :: 0 <= i < |frames| ==> ps[i] == frames[i].plain
  {
    seq(|frames|, i requires 0 <= i < |frames| => frames[i].plain)
  }

  predicate Fits(frames: seq<Sealed>)
  {
    forall i :: 0 <= i < |frames| ==> |frames[i].plain| <= MAX_PLAIN
  }

  lemma FrameSize(a: Aead, key: bytes, n: Nonce, plain: bytes)
    requires Lawful(a)
    ensures |FrameOf(a, key, n, plain)| == LEN_FIELD_SIZE + NONCE_SIZE + TAG_SIZE + |plain|
    ensures FrameOf(a, key, n, plain)[..LEN_FIELD_SIZE] == PutUint32((NONCE_SIZE + TAG_SIZE + |plain|) % UINT32)
  {
    var _ := |a.seal(key, n, plain)|;
  }

  lemma FrameParts(a: Aead, key: bytes, n: Nonce, plain: bytes, rest: bytes)
    requires Lawful(a)
    ensures var s := FrameOf(a, key, n, plain) + rest; var k := LEN_FIELD_SIZE + NONCE_SIZE;
            && s[..LEN_FIELD_SIZE] == PutUint32((NONCE_SIZE + TAG_SIZE + |plain|) % UINT32)
            && s[LEN_FIELD_SIZE..k] == n
            && s[k..k + TAG_SIZE + |plain|] == a.seal(key, n, plain)
  {
    FrameSize(a, key, n, plain);
  }

  /** WriteFrame has no cap but ReadFrame has: a frame is read back, whole and exactly, if and only
    * if its plaintext leaves room for nonce and tag under the cap. */
  lemma ReadableExactlyWhenCapped(a: Aead, key: bytes, n: Nonce, plain: bytes, rest: bytes)
    requires Lawful(a)
    ensures Head(a, key, FrameOf(a, key, n, plain) + rest) == Frame(plain, |FrameOf(a, key, n, plain)|)
      <==> |plain| <= 4_194_276
    ensures MAX_PLAIN < |plain| < UINT32 - NONCE_SIZE - TAG_SIZE ==>
      Head(a, key, FrameOf(a, key, n, plain) + rest) == TooLarge
  {
    var frame := FrameOf(a, key, n, plain);
    var s := frame + rest;
    var body := NONCE_SIZE + TAG_SIZE + |plain|;
    FrameSize(a, key, n, plain);
    FrameParts(a, key, n, plain, rest);
    Uint32RoundTrip(body % UINT32);
    if |plain| <= MAX_PLAIN {
      var inner := s[LEN_FIELD_SIZE..LEN_FIELD_SIZE + body];
      assert inner[..NONCE_SIZE] == s[LEN_FIELD_SIZE..LEN_FIELD_SIZE + NONCE_SIZE];
      assert inner[NONCE_SIZE..] == s[LEN_FIELD_SIZE + NONCE_SIZE..LEN_FIELD_SIZE + body];
    }
  }

  /** A frame cut short is never mistaken for a message. */
  lemma CutFrameIsPartial(a: Aead, key: bytes, n: Nonce, plain: bytes, k: nat)
    requires Lawful(a) && |plain| <= MAX_PLAIN && k < |FrameOf(a, key, n, plain)|
    ensures Head(a, key, FrameOf(a, key, n, plain)[..k]) == Partial
  {
    FrameSize(a, key, n, plain);
    if LEN_FIELD_SIZE <= k {
      HeaderOfPrefix(a, key, n, plain, FrameOf(a, key, n, plain), k);
    }
  }

  lemma HeaderOfPrefix(a: Aead, key: bytes, n: Nonce, plain: bytes, s: bytes, k: nat)
    requires Lawful(a) && |plain| < UINT32 - NONCE_SIZE - TAG_SIZE
    requires FrameOf(a, key, n, plain) <= s && LEN_FIELD_SIZE <= k <= |s|
    ensures Uint32(s[..k][..LEN_FIELD_SIZE]) == NONCE_SIZE + TAG_SIZE + |plain|
  {
    FrameSize(a, key, n, plain);
    assert s[..k][..LEN_FIELD_SIZE] == FrameOf(a, key, n, plain)[..LEN_FIELD_SIZE];
    Uint32RoundTrip(NONCE_SIZE + TAG_SIZE + |plain|);
  }

  /** How many of the frames lie whole within the first k bytes of their stream. */
  function Whole(a: Aead, key: bytes, frames: seq<Sealed>, k: nat): (j: nat)
    ensures j <= |frames|
    ensures |Stream(a, key, frames[..j])| <= k
    ensures j < |frames| ==> k < |Stream(a, key, frames[..j + 1])|
  {
    if frames == [] then 0
    else
      var size := |FrameOf(a, key, frames[0].nonce, frames[0].plain)|;
      StreamHead(a, key, frames);
      if k < size then 0
      else
        var j := Whole(a, key, frames[1..], k - size);
        StreamTake(a, key, frames, j);
        assert j < |frames| - 1 ==>
          |Stream(a, key, frames[..j + 2])| == size + |Stream(a, key, frames[1..][..j + 1])| by {
          if j < |frames| - 1 { StreamTake(a, key, frames, j + 1); }
        }
        1 + j
  }

  lemma StreamTake(a: Aead, key: bytes, frames: seq<Sealed>, j: nat)
    requires j < |frames|
    ensures Stream(a, key, frames[..j + 1])
         == FrameOf(a, key, frames[0].nonce, frames[0].plain) + Stream(a, key, frames[1..][..j])
  {
    assert frames[..j + 1][1..] == frames[1..][..j];
  }

  lemma StreamHead(a: Aead, key: bytes, frames: seq<Sealed>)
    requires frames != []
    ensures Stream(a, key, frames[..1]) == FrameOf(a, key, frames[0].nonce, frames[0].plain)
  {
    assert frames[..1] == [frames[0]];
    assert [frames[0]][1..] == [];
    assert Stream(a, key, [frames[0]]) == FrameOf(a, key, frames[0].nonce, frames[0].plain) + [];
  }

  lemma DecodeCons(a: Aead, key: bytes, n: Nonce, plain: bytes, rest: bytes)
    requires Lawful(a) && |plain| <= MAX_PLAIN
    ensures Decode(a, key, FrameOf(a, key, n, plain) + rest) == [plain] + Decode(a, key, rest)
  {
    var frame := FrameOf(a, key, n, plain);
    ReadableExactlyWhenCapped(a, key, n, plain, rest);
    assert (frame + rest)[|frame|..] == rest;
  }

  lemma OversizeStops(a: Aead, key: bytes, n: Nonce, plain: bytes, s: bytes, k: nat)
    requires Lawful(a) && MAX_PLAIN < |plain| < UINT32 - NONCE_SIZE - TAG_SIZE
    requires FrameOf(a, key, n, plain) <= s && k <= |s|
    ensures Decode(a, key, s[..k]) == []
  {
    if LEN_FIELD_SIZE <= k {
      HeaderOfPrefix(a, key, n, plain, s, k);
    }
  }

  /** What k bytes of a frame and what follows it decode to. */
  lemma FirstFrame(a: Aead, key: bytes, n: Nonce, plain: bytes, tail: bytes, k: nat)
    requires Lawful(a) && |plain| < UINT32 - NONCE_SIZE - TAG_SIZE
    requires k <= |FrameOf(a, key, n, plain)| + |tail|
    ensures var frame := FrameOf(a, key, n, plain); var got := Decode(a, key, (frame + tail)[..k]);
      if k < |frame| || |plain| > MAX_PLAIN then got == []
      else got == [plain] + Decode(a, key, tail[..k - |frame|])
  {
    var frame := FrameOf(a, key, n, plain);
    var s := frame + tail;
    if |plain| > MAX_PLAIN {
      OversizeStops(a, key, n, plain, s, k);
    } else if k < |frame| {
      assert s[..k] == frame[..k];
      CutFrameIsPartial(a, key, n, plain, k);
    } else {
      assert s[..k] == frame + tail[..k - |frame|];
      DecodeCons(a, key, n, plain, tail[..k - |frame|]);
    }
  }

  lemma PlainsCons(frames: seq<Sealed>, j: nat)
    requires j < |frames|
    ensures Plains(frames[..1 + j]) == [frames[0].plain] + Plains(frames[1..][..j])
  {
  }

  /** Framing over any chunking: the first k bytes of a stream of readable frames decode to the
    * plaintexts of exactly the frames that lie whole within them, in order and never in part. */
  lemma {:induction false} PrefixDecodes(a: Aead, key: bytes, frames: seq<Sealed>, k: nat)
    requires Lawful(a) && Fits(frames) && k <= |Stream(a, key, frames)|
    ensures Decode(a, key, Stream(a, key, frames)[..k]) == Plains(frames[..Whole(a, key, frames, k)])
    decreases |frames|
  {
    if frames == [] {
      assert Stream(a, key, frames)[..k] == [];
    } else {
      var size := |FrameOf(a, key, frames[0].nonce, frames[0].plain)|;
      FirstFrame(a, key, frames[0].nonce, frames[0].plain, Stream(a, key, frames[1..]), k);
      if k >= size {
        PrefixDecodes(a, key, frames[1..], k - size);
        PlainsCons(frames, Whole(a, key, frames[1..], k - size));
      }
    }
  }

  /** No length field wraps around. */
  predicate NoWrap(frames: seq<Sealed>)
  {
    forall i :: 0 <= i < |frames| ==> |frames[i].plain| < UINT32 - NONCE_SIZE - TAG_SIZE
  }

  lemma PrefixCons(plain: bytes, ps: seq<bytes>, frames: seq<Sealed>)
    requires frames != [] && frames[0].plain == plain && ps <= Plains(frames[1..])
    ensures [plain] + ps <= Plains(frames)
  {
    assert Plains(frames) == [plain] + Plains(frames[1..]);
  }

  /** Even with frames over the cap, what a reader returns is a prefix of what was written: the
    * first frame over the cap ends it. */
  lemma {:induction false} DecodesToPrefix(a: Aead, key: bytes, frames: seq<Sealed>, k: nat)
    requires Lawful(a) && NoWrap(frames) && k <= |Stream(a, key, frames)|
    ensures Decode(a, key, Stream(a, key, frames)[..k]) <= Plains(frames)
    decreases |frames|
  {
    if frames == [] {
      assert Stream(a, key, frames)[..k] == [];
    } else {
      var plain := frames[0].plain;
      var tail := Stream(a, key, frames[1..]);
      var size := |FrameOf(a, key, frames[0].nonce, plain)|;
      FirstFrame(a, key, frames[0].nonce, plain, tail, k);
      if k >= size {
        DecodesToPrefix(a, key, frames[1..], k - size);
        PrefixCons(plain, Decode(a, key, tail[..k - size]), frames);
      }
    }
  }

  lemma WholeAll(a: Aead, key: bytes, frames: seq<Sealed>)
    ensures Whole(a, key, frames, |Stream(a, key, frames)|) == |frames|
  {
  }

  /** The round trip: all bytes decode to all messages. */
  lemma StreamDecodes(a: Aead, key: bytes, frames: seq<Sealed>)
    requires Lawful(a) && Fits(frames)
    ensures Decode(a, key, Stream(a, key, frames)) == Plains(frames)
  {
    var s := Stream(a, key, frames);
    PrefixDecodes(a, key, frames, |s|);
    WholeAll(a, key, frames);
    assert s[..|s|] == s && frames[..|frames|] == frames;
  }

  lemma {:induction false} StreamSnoc(a: Aead, key: bytes, frames: seq<Sealed>, f: Sealed)
    ensures Stream(a, key, frames + [f]) == Stream(a, key, frames) + FrameOf(a, key, f.nonce, f.plain)
    decreases |frames|
  {
    if frames == [] {
      assert [] + [f] == [f];
      StreamHead(a, key, [f]);
      assert [f][..1] == [f];
    } else {
      assert (frames + [f])[1..] == frames[1..] + [f];
      StreamSnoc(a, key, frames[1..], f);
      var head := FrameOf(a, key, frames[0].nonce, frames[0].plain);
      var last := FrameOf(a, key, f.nonce, f.plain);
      assert head + (Stream(a, key, frames[1..]) + last) == (head + Stream(a, key, frames[1..])) + last;
    }
  }
}
