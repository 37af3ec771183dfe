/** The authentication handshake and the server's change of reader.
  *
  * The server reads HELLO through one buffered reader and serves through a fresh one on the same
  * connection; whatever the first has buffered beyond HELLO is gone. The client keeps one reader
  * throughout. TCP may deliver any number of the bytes in flight at any time.
  */
module Handover {
  import opened Prelude
  import opened Framing

  datatype ClientPc = Dialled | AwaitReady | Ready
  datatype ServerPc = Auth | Replying | Serving | Refused

  datatype State = State(
    client: ClientPc,
    server: ServerPc,
    up: bytes,           // client to server, in flight
    first: bytes,        // read by the authenticating reader, not yet consumed
    second: bytes,       // read by the serving reader, not yet consumed
    dropped: bytes,      // what the authenticating reader held when it was dropped
    down: bytes,         // server to client, in flight
    reader: bytes,       // read by the client's reader, not yet consumed
    cmds: seq<Sealed>,   // command frames the client has sent
    taken: seq<bytes>,   // commands the server has read
    pushes: seq<Sealed>, // frames the server has sent behind READY
    shown: seq<bytes>)   // plaintexts the client has read behind READY

  datatype Action =
    | Hello(n: Nonce)
    | FillFirst(k: nat)
    | Authenticate
    | Reply(n: Nonce)
    | FillSecond(k: nat)
    | TakeCmd
    | Push(f: Sealed)
    | FillClient(k: nat)
    | SeeReady
    | Show
    | Send(f: Sealed)
    | SendEarly(f: Sealed)  // a client that does not wait for READY; the repository's own never does

  function Init(): State
  {
    State(Dialled, Auth, [], [], [], [], [], [], [], [], [], [])
  }

  function Bytes(c: Suite, f: Sealed): bytes
  {
    FrameOf(c.aead, c.key, f.nonce, f.plain)
  }

  function HeadOf(c: Suite, s: bytes): Fetch
  {
    Head(c.aead, c.key, s)
  }

  predicate Enabled(c: Suite, s: State, a: Action)
  {
    match a
    case Hello(_) => s.client.Dialled?
    case FillFirst(k) => s.server.Auth? && HeadOf(c, s.first).Partial? && 0 < k <= |s.up| && k <= BUF_SIZE
    case Authenticate => s.server.Auth? && !HeadOf(c, s.first).Partial?
    case Reply(_) => s.server.Replying?
    case FillSecond(k) => s.server.Serving? && HeadOf(c, s.second).Partial? && 0 < k <= |s.up| && k <= BUF_SIZE
    case TakeCmd => s.server.Serving? && HeadOf(c, s.second).Frame?
    case Push(f) => s.server.Serving? && |f.plain| <= MAX_PLAIN
    case FillClient(k) => !s.client.Dialled? && HeadOf(c, s.reader).Partial? && 0 < k <= |s.down| && k <= BUF_SIZE
    case SeeReady => s.client.AwaitReady? && HeadOf(c, s.reader).Frame? && HeadOf(c, s.reader).plain == READY
    case Show => s.client.Ready? && HeadOf(c, s.reader).Frame?
    case Send(f) => s.client.Ready? && |f.plain| <= MAX_PLAIN
    case SendEarly(f) => s.client.AwaitReady? && |f.plain| <= MAX_PLAIN
  }

  function Do(c: Suite, s: State, a: Action): State
    requires Enabled(c, s, a)
  {
    match a
    case Hello(n) => s.(client := AwaitReady, up := s.up + Bytes(c, Sealed(n, HELLO)))
    case FillFirst(k) => s.(first := s.first + s.up[..k], up := s.up[k..])
    case Authenticate =>
      var f := HeadOf(c, s.first);
      if f.Frame? && f.plain == HELLO then s.(server := Replying, first := s.first[f.size..])
      else s.(server := Refused)
    case Reply(n) =>
      s.(server := Serving, down := s.down + Bytes(c, Sealed(n, READY)), dropped := s.first, first := [])
    case FillSecond(k) => s.(second := s.second + s.up[..k], up := s.up[k..])
    case TakeCmd =>
      var f := HeadOf(c, s.second);
      s.(second := s.second[f.size..], taken := s.taken + [f.plain])
    case Push(f) => s.(down := s.down + Bytes(c, f), pushes := s.pushes + [f])
    case FillClient(k) => s.(reader := s.reader + s.down[..k], down := s.down[k..])
    case SeeReady => s.(client := Ready, reader := s.reader[HeadOf(c, s.reader).size..])
    case Show =>
      var f := HeadOf(c, s.reader);
      s.(reader := s.reader[f.size..], shown := s.shown + [f.plain])
    case Send(f) => s.(up := s.up + Bytes(c, f), cmds := s.cmds + [f])
    case SendEarly(f) => s.(up := s.up + Bytes(c, f), cmds := s.cmds + [f])
  }

  function Exec(c: Suite, run: Log<Action>): Option<State>
  {
    match run
    case Start => Some(Init())
    case Then(before, a) =>
      match Exec(c, before)
      case None => None
      case Some(m) => if Enabled(c, m, a) then Some(Do(c, m, a)) else None
  }

  predicate Reaches(c: Suite, run: Log<Action>, s: State)
  {
    Exec(c, run) == Some(s)
  }

  predicate Waits(run: Log<Action>)
  {
    match run
    case Start => true
    case Then(before, a) => Waits(before) && !a.SendEarly?
  }

  // ----- what the bytes of a direction amount to ---------------------------------------------

  /** `got` has been returned, and `held` then `flying` are the frames behind it, byte for byte. */
  predicate Carries(c: Suite, frames: seq<Sealed>, got: seq<bytes>, held: bytes, flying: bytes)
  {
    && Fits(frames)
    && |got| <= |frames|
    && got == Plains(frames[..|got|])
    && held + flying == Stream(c.aead, c.key, frames[|got|..])
  }

  lemma HeadOfStream(c: Suite, frames: seq<Sealed>, held: bytes, flying: bytes)
    requires Lawful(c.aead) && Fits(frames)
    requires held + flying == Stream(c.aead, c.key, frames)
    ensures HeadOf(c, held).Partial? || HeadOf(c, held).Frame?
    ensures HeadOf(c, held).Frame? ==>
      && frames != []
      && HeadOf(c, held) == Frame(frames[0].plain, |Bytes(c, frames[0])|)
      && held[|Bytes(c, frames[0])|..] + flying == Stream(c.aead, c.key, frames[1..])
    ensures HeadOf(c, held).Partial? && frames != [] ==> flying != []
  {
    if frames != [] {
      var frame := Bytes(c, frames[0]);
      var all := held + flying;
      assert held == all[..|held|];
      if |held| < |frame| {
        assert held == frame[..|held|];
        CutFrameIsPartial(c.aead, c.key, frames[0].nonce, frames[0].plain, |held|);
      } else {
        var rest := held[|frame|..];
        assert held == frame + rest;
        ReadableExactlyWhenCapped(c.aead, c.key, frames[0].nonce, frames[0].plain, rest);
        assert rest + flying == all[|frame|..];
      }
    }
  }

  lemma CarriesFill(c: Suite, frames: seq<Sealed>, got: seq<bytes>, held: bytes, flying: bytes, k: nat)
    requires Carries(c, frames, got, held, flying) && k <= |flying|
    ensures Carries(c, frames, got, held + flying[..k], flying[k..])
  {
    assert (held + flying[..k]) + flying[k..] == held + flying;
  }

  lemma CarriesTake(c: Suite, frames: seq<Sealed>, got: seq<bytes>, held: bytes, flying: bytes)
    requires Lawful(c.aead) && Carries(c, frames, got, held, flying) && HeadOf(c, held).Frame?
    ensures var f := HeadOf(c, held);
      Carries(c, frames, got + [f.plain], held[f.size..], flying)
  {
    var rest := frames[|got|..];
    HeadOfStream(c, rest, held, flying);
    assert rest[1..] == frames[|got| + 1..];
    assert Plains(frames[..|got| + 1]) == Plains(frames[..|got|]) + [frames[|got|].plain];
  }

  lemma CarriesSend(c: Suite, frames: seq<Sealed>, got: seq<bytes>, held: bytes, flying: bytes, f: Sealed)
    requires Carries(c, frames, got, held, flying) && |f.plain| <= MAX_PLAIN
    ensures Carries(c, frames + [f], got, held, flying + Bytes(c, f))
  {
    assert (frames + [f])[|got|..] == frames[|got|..] + [f];
    assert (frames + [f])[..|got|] == frames[..|got|];
    StreamSnoc(c.aead, c.key, frames[|got|..], f);
    assert held + (flying + Bytes(c, f)) == (held + flying) + Bytes(c, f);
  }

  // ----- the invariant -----------------------------------------------------------------------

  ghost predicate AwaitingHello(c: Suite, s: State)
  {
    && s.server.Auth? && s.second == [] && s.dropped == [] && s.down == [] && s.reader == []
    && s.cmds == [] && s.taken == [] && s.pushes == [] && s.shown == []
    && (s.client.Dialled? ==> s.up == [] && s.first == [])
    && (s.client.AwaitReady? ==> exists n :: s.first + s.up == Stream(c.aead, c.key, [Sealed(n, HELLO)]))
    && !s.client.Ready?
  }

  predicate Answering(c: Suite, s: State)
  {
    && s.server.Replying? && s.client.AwaitReady?
    && s.up == [] && s.first == [] && s.second == [] && s.dropped == [] && s.down == [] && s.reader == []
    && s.cmds == [] && s.taken == [] && s.pushes == [] && s.shown == []
  }

  ghost predicate Attached(c: Suite, s: State)
  {
    && s.server.Serving? && !s.client.Dialled?
    && s.first == [] && s.dropped == []
    && Carries(c, s.cmds, s.taken, s.second, s.up)
    && (s.client.AwaitReady? ==>
          s.cmds == [] && s.shown == [] && exists n :: Carries(c, [Sealed(n, READY)] + s.pushes, [], s.reader, s.down))
    && (s.client.Ready? ==> Carries(c, s.pushes, s.shown, s.reader, s.down))
  }

  ghost predicate Inv(c: Suite, s: State)
  {
    AwaitingHello(c, s) || Answering(c, s) || Attached(c, s)
  }

  lemma HelloKeeps(c: Suite, s: State, a: Action)
    requires Lawful(c.aead) && AwaitingHello(c, s) && Enabled(c, s, a) && !a.SendEarly?
    ensures Inv(c, Do(c, s, a))
  {
    match a
    case Hello(n) =>
      StreamHead(c.aead, c.key, [Sealed(n, HELLO)]);
      assert [Sealed(n, HELLO)][..1] == [Sealed(n, HELLO)];
      assert Do(c, s, a).first + Do(c, s, a).up == Bytes(c, Sealed(n, HELLO));
    case FillFirst(k) =>
      assert (s.first + s.up[..k]) + s.up[k..] == s.first + s.up;
    case Authenticate =>
      var n :| s.first + s.up == Stream(c.aead, c.key, [Sealed(n, HELLO)]);
      HeadOfStream(c, [Sealed(n, HELLO)], s.first, s.up);
      assert [Sealed(n, HELLO)][1..] == [];
    case _ =>
  }

  lemma ReplyKeeps(c: Suite, s: State, n: Nonce)
    requires Answering(c, s)
    ensures Attached(c, Do(c, s, Reply(n)))
  {
    var hello := [Sealed(n, READY)];
    StreamHead(c.aead, c.key, hello);
    assert hello[..1] == hello && hello + [] == hello && hello[0..] == hello;
    assert Carries(c, hello + [], [], [], [] + Bytes(c, Sealed(n, READY)));
  }

  lemma ReadyKeeps(c: Suite, s: State)
    requires Lawful(c.aead) && Attached(c, s) && Enabled(c, s, SeeReady)
    ensures Attached(c, Do(c, s, SeeReady))
  {
    var n :| Carries(c, [Sealed(n, READY)] + s.pushes, [], s.reader, s.down);
    var frames := [Sealed(n, READY)] + s.pushes;
    assert frames[0..] == frames;
    HeadOfStream(c, frames, s.reader, s.down);
    assert frames[1..] == s.pushes == s.pushes[0..];
  }

  /** While READY is on its way, the client's side of the connection changes like this. */
  lemma BeforeReadyKeeps(c: Suite, s: State, a: Action)
    requires Lawful(c.aead) && Attached(c, s) && s.client.AwaitReady?
    requires a.Push? || a.FillClient?
    requires Enabled(c, s, a)
    ensures Attached(c, Do(c, s, a))
  {
    var n :| Carries(c, [Sealed(n, READY)] + s.pushes, [], s.reader, s.down);
    var frames := [Sealed(n, READY)] + s.pushes;
    if a.Push? {
      CarriesSend(c, frames, [], s.reader, s.down, a.f);
      assert frames + [a.f] == [Sealed(n, READY)] + (s.pushes + [a.f]);
    } else {
      CarriesFill(c, frames, [], s.reader, s.down, a.k);
    }
  }

  lemma AttachedKeeps(c: Suite, s: State, a: Action)
    requires Lawful(c.aead) && Attached(c, s) && Enabled(c, s, a) && !a.SendEarly?
    ensures Attached(c, Do(c, s, a))
  {
    match a
    case FillSecond(k) => CarriesFill(c, s.cmds, s.taken, s.second, s.up, k);
    case TakeCmd => CarriesTake(c, s.cmds, s.taken, s.second, s.up);
    case Send(f) => CarriesSend(c, s.cmds, s.taken, s.second, s.up, f);
    case SeeReady => ReadyKeeps(c, s);
    case Show => CarriesTake(c, s.pushes, s.shown, s.reader, s.down);
    case Push(f) =>
      if s.client.AwaitReady? { BeforeReadyKeeps(c, s, a); }
      else { CarriesSend(c, s.pushes, s.shown, s.reader, s.down, f); }
    case FillClient(k) =>
      if s.client.AwaitReady? { BeforeReadyKeeps(c, s, a); }
      else { CarriesFill(c, s.pushes, s.shown, s.reader, s.down, k); }
    case _ =>
  }

  lemma {:induction false} RunKeeps(c: Suite, run: Log<Action>, s: State)
    requires Lawful(c.aead) && Waits(run) && Reaches(c, run, s)
    ensures Inv(c, s)
    decreases run
  {
    if run.Then? {
      var m := Exec(c, run.before).value;
      RunKeeps(c, run.before, m);
      if AwaitingHello(c, m) {
        HelloKeeps(c, m, run.last);
      } else if Answering(c, m) {
        if run.last.Reply? { ReplyKeeps(c, m, run.last.n); }
      } else {
        AttachedKeeps(c, m, run.last);
      }
    }
  }

  /** The handover loses nothing: with a client that waits for READY, the authenticating reader is
    * empty when it is dropped and the server never refuses; the commands read are those sent, in
    * order, and the bytes of all the others are, whole, in the serving reader or in flight. */
  lemma HandoverLossless(c: Suite, run: Log<Action>, s: State)
    requires Lawful(c.aead) && Waits(run) && Reaches(c, run, s)
    ensures s.dropped == [] && !s.server.Refused?
    ensures s.taken <= Plains(s.cmds)
    ensures s.server.Serving? ==> s.second + s.up == Stream(c.aead, c.key, s.cmds[|s.taken|..])
  {
    RunKeeps(c, run, s);
    assert s.server.Serving? ==> Plains(s.cmds)[..|s.taken|] == Plains(s.cmds[..|s.taken|]);
  }

  /** Frames pushed right behind READY survive too, because the client keeps its reader. */
  lemma PushesSurvive(c: Suite, run: Log<Action>, s: State)
    requires Lawful(c.aead) && Waits(run) && Reaches(c, run, s)
    ensures s.shown <= Plains(s.pushes)
    ensures s.client.Ready? ==> s.reader + s.down == Stream(c.aead, c.key, s.pushes[|s.shown|..])
  {
    RunKeeps(c, run, s);
    assert s.client.Ready? ==> Plains(s.pushes)[..|s.shown|] == Plains(s.pushes[..|s.shown|]);
  }

  /** And the server never gets stuck on a command that has been sent: it has it whole, or bytes of
    * it are still in flight for its reader to take. */
  lemma CommandsGetThrough(c: Suite, run: Log<Action>, s: State)
    requires Lawful(c.aead) && Waits(run) && Reaches(c, run, s)
    requires s.server.Serving? && |s.taken| < |s.cmds|
    ensures Enabled(c, s, TakeCmd) || Enabled(c, s, FillSecond(1))
  {
    RunKeeps(c, run, s);
    HeadOfStream(c, s.cmds[|s.taken|..], s.second, s.up);
  }

  // ----- a client that does not wait ---------------------------------------------------------

  lemma Play(c: Suite, run: Log<Action>, s: State, a: Action) returns (run': Log<Action>, s': State)
    requires Reaches(c, run, s) && Enabled(c, s, a)
    ensures run' == Then(run, a) && s' == Do(c, s, a) && Reaches(c, run', s')
  {
    run', s' := Then(run, a), Do(c, s, a);
  }

  /** Up to the reply, whatever the client does: nothing came back yet, and all it sent behind HELLO
    * is in the first reader or in flight. */
  ghost predicate Untouched(c: Suite, s: State)
  {
    s.server.Auth? || s.server.Replying? ==>
      && !s.client.Ready? && s.second == [] && s.down == [] && s.reader == [] && s.taken == []
      && (s.client.Dialled? ==> s.server.Auth? && s.up == [] && s.first == [] && s.cmds == [])
      && (s.client.AwaitReady? && s.server.Auth? ==>
            exists n :: Carries(c, [Sealed(n, HELLO)] + s.cmds, [], s.first, s.up))
      && (s.client.AwaitReady? && s.server.Replying? ==> Carries(c, s.cmds, [], s.first, s.up))
  }

  lemma UntouchedHello(c: Suite, s: State, n: Nonce)
    requires Untouched(c, s) && s.client.Dialled?
    ensures Untouched(c, Do(c, s, Hello(n)))
  {
    if s.server.Auth? {
      var hello := [Sealed(n, HELLO)];
      StreamHead(c.aead, c.key, hello);
      assert hello[..1] == hello && hello + [] == hello && hello[0..] == hello;
      assert Carries(c, hello + [], [], [], [] + Bytes(c, hello[0]));
    }
  }

  lemma UntouchedAuth(c: Suite, s: State, a: Action)
    requires Lawful(c.aead) && Untouched(c, s) && Enabled(c, s, a)
    requires s.server.Auth? && s.client.AwaitReady?
    ensures Untouched(c, Do(c, s, a))
  {
    var n :| Carries(c, [Sealed(n, HELLO)] + s.cmds, [], s.first, s.up);
    var frames := [Sealed(n, HELLO)] + s.cmds;
    assert frames[0..] == frames;
    if a.SendEarly? {
      CarriesSend(c, frames, [], s.first, s.up, a.f);
      assert frames + [a.f] == [Sealed(n, HELLO)] + (s.cmds + [a.f]);
    } else if a.FillFirst? {
      CarriesFill(c, frames, [], s.first, s.up, a.k);
    } else if a.Authenticate? {
      HeadOfStream(c, frames, s.first, s.up);
      assert frames[1..] == s.cmds == s.cmds[0..];
    }
  }

  lemma UntouchedStep(c: Suite, s: State, a: Action)
    requires Lawful(c.aead) && Untouched(c, s) && Enabled(c, s, a)
    ensures Untouched(c, Do(c, s, a))
  {
    if a.Hello? {
      UntouchedHello(c, s, a.n);
    } else if s.server.Auth? && s.client.AwaitReady? {
      UntouchedAuth(c, s, a);
    } else if s.server.Replying? && s.client.AwaitReady? && a.SendEarly? {
      CarriesSend(c, s.cmds, [], s.first, s.up, a.f);
    }
  }

  lemma {:induction false} UntouchedRun(c: Suite, run: Log<Action>, s: State)
    requires Lawful(c.aead) && Reaches(c, run, s)
    ensures Untouched(c, s)
    decreases run
  {
    if run.Then? {
      var m := Exec(c, run.before).value;
      UntouchedRun(c, run.before, m);
      UntouchedStep(c, m, run.last);
    }
  }

  /** Exactly when the change of reader is lossless, for any client: the frames sent so far reach
    * the serving reader byte for byte if and only if the first reader has nothing buffered. */
  lemma LosslessExactlyWhenDrained(c: Suite, run: Log<Action>, s: State, n: Nonce)
    requires Lawful(c.aead) && Reaches(c, run, s) && s.server.Replying?
    ensures var s' := Do(c, s, Reply(n));
      s'.second + s'.up == Stream(c.aead, c.key, s'.cmds) <==> s.first == []
  {
    UntouchedRun(c, run, s);
    assert s.cmds[0..] == s.cmds;
    assert |s.first + s.up| == |s.first| + |s.up|;
  }

  /** The wait is needed: a command sent in the wake of HELLO can be read along with it and is then
    * dropped with the first reader; no byte of it is left for the second. */
  lemma EarlyCommandCanBeLost(c: Suite, n: Nonce, f: Sealed) returns (run: Log<Action>, s: State)
    requires Lawful(c.aead) && |f.plain| <= 1024
    ensures Reaches(c, run, s)
    ensures s.server.Serving? && s.cmds == [f] && s.taken == []
    ensures s.dropped == Bytes(c, f) && s.second == [] && s.up == []
  {
    var hello := Sealed(n, HELLO);
    FrameSize(c.aead, c.key, n, HELLO);
    FrameSize(c.aead, c.key, f.nonce, f.plain);
    run, s := Start, Init();
    run, s := Play(c, run, s, Hello(n));
    run, s := Play(c, run, s, SendEarly(f));
    run, s := Play(c, run, s, FillFirst(|s.up|));
    assert s.first == Bytes(c, hello) + Bytes(c, f);
    ReadableExactlyWhenCapped(c.aead, c.key, n, HELLO, Bytes(c, f));
    run, s := Play(c, run, s, Authenticate);
    run, s := Play(c, run, s, Reply(n));
  }
}
