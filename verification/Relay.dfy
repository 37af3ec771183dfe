/** From a session's connection to the client's decoder: the receive monitor, and the server's side of
  * the client's connection with outCh, on which RX goroutines, the dispatcher and the event forwarder
  * all send.
  */
module Relay {
  import opened Prelude
  import opened Framing
  import Rx = RxMonitor
  import RxT = RxTheorems
  import W = Wire

  datatype Config = Config(suite: Suite, notice: bytes, menu: bytes)

  /** `began`: for each attach, the position of its session-start frame among the messages pushed. */
  datatype State = State(mon: Rx.State, pipe: W.State, began: map<nat, nat>)

  datatype Action =
    | Mon(a: Rx.Action)                 // a step of the monitor that sends nothing
    | SendRx(t: nat)                    // an RX goroutine's send on outCh
    | SendStart(t: nat, info: bytes)    // serveSession sends the session-start frame
    | SendOther(typ: byte, text: bytes)
    | Pipe(b: W.Action)                 // a step of either writer

  function Init(life: Life): State
  {
    State(Rx.Init(life), W.Init(), map[])
  }

  predicate HasSomethingToSend(th: Rx.Thread)
  {
    th.role.Attach? && Rx.Emits(th.pc) && (th.pc.Deliver? ==> th.pc.data != [])
  }

  function RxMsg(c: Config, t: nat, pc: Rx.Pc): W.Msg
    requires Rx.Emits(pc)
  {
    match pc
    case Deliver(data, _, _) => W.Msg(W.Payload(t), FRAME_EVENT, data)
    case Announce => W.Msg(W.Farewell(t), FRAME_EVENT, c.notice)
    case Return => W.Msg(W.Farewell(t), FRAME_RESPONSE, c.menu)
  }

  predicate MonAllowed(s: State, a: Rx.Action)
  {
    && Rx.Enabled(s.mon, a)
    && (a.Step? ==> !HasSomethingToSend(s.mon.threads[a.t]))
    && (a.Spawn? && a.role.Attach? ==> a.t in s.began)
  }

  predicate Enabled(s: State, a: Action)
  {
    match a
    case Mon(b) => MonAllowed(s, b)
    case SendRx(t) => t in s.mon.threads && HasSomethingToSend(s.mon.threads[t]) && |s.pipe.out| < OUT_CAP
    case SendStart(t, _) => |s.pipe.out| < OUT_CAP && t !in s.began && t !in s.mon.threads
    case SendOther(_, _) => |s.pipe.out| < OUT_CAP
    case Pipe(b) => !b.Push? && W.Enabled(s.pipe, b)
  }

  /** What an action does to the pipe. */
  function PipeAction(c: Config, s: State, a: Action): Option<W.Action>
    requires Enabled(s, a)
  {
    match a
    case Mon(_) => None
    case SendRx(t) => Some(W.Push(RxMsg(c, t, s.mon.threads[t].pc)))
    case SendStart(t, info) => Some(W.Push(W.Msg(W.Begin(t), FRAME_SESSION_START, info)))
    case SendOther(typ, text) => Some(W.Push(W.Msg(W.Other, typ, text)))
    case Pipe(b) => Some(b)
  }

  function Do(c: Config, s: State, a: Action): State
    requires Enabled(s, a)
  {
    State(match a
          case Mon(b) => Rx.Do(s.mon, b)
          case SendRx(t) => Rx.Do(s.mon, Rx.Step(t))
          case _ => s.mon,
          match PipeAction(c, s, a)
          case None => s.pipe
          case Some(b) => W.Do(c.suite, s.pipe, b),
          if a.SendStart? then s.began[a.t := |s.pipe.pushed|] else s.began)
  }

  function Exec(c: Config, life: Life, run: Log<Action>): Option<State>
  {
    match run
    case Start => Some(Init(life))
    case Then(before, a) =>
      match Exec(c, life, before)
      case None => None
      case Some(m) => if Enabled(m, a) then Some(Do(c, m, a)) else None
  }

  predicate Reaches(c: Config, life: Life, run: Log<Action>, s: State)
  {
    Exec(c, life, run) == Some(s)
  }

  // ----- what one goroutine contributed ------------------------------------------------------

  /** The session data among some messages that the RX goroutine of attach t sent. */
  function DataFrom(msgs: seq<W.Msg>, t: nat): bytes
    decreases |msgs|
  {
    if msgs == [] then []
    else
      var last := msgs[|msgs| - 1];
      DataFrom(msgs[..|msgs| - 1], t) + if last.origin == W.Payload(t) then last.text else []
  }

  lemma {:induction false} DataSnoc(msgs: seq<W.Msg>, m: W.Msg, t: nat)
    ensures DataFrom(msgs + [m], t) == DataFrom(msgs, t) + if m.origin == W.Payload(t) then m.text else []
  {
    assert (msgs + [m])[..|msgs|] == msgs;
  }

  /** The data of an outbox that did go out. */
  function SentData(outbox: Log<Rx.Out>): bytes
  {
    match outbox
    case Start => []
    case Then(before, out) => if out.Data? && out.sent then SentData(before) + out.payload else SentData(before)
  }

  /** No data was given up to a cancelled context. */
  predicate NothingDropped(outbox: Log<Rx.Out>)
  {
    match outbox
    case Start => true
    case Then(before, out) => NothingDropped(before) && (out.Data? ==> out.sent)
  }

  lemma {:induction false} SentIsHanded(outbox: Log<Rx.Out>)
    requires NothingDropped(outbox)
    ensures SentData(outbox) == Rx.Handed(outbox)
    decreases outbox
  {
    if outbox.Then? {
      SentIsHanded(outbox.before);
    }
  }

  // ----- the invariant -----------------------------------------------------------------------

  predicate IsAttach(threads: map<nat, Rx.Thread>, t: nat)
  {
    t in threads && threads[t].role.Attach?
  }

  /** What an attach's goroutine has sent is what it handed on, and nothing else carries its mark. */
  ghost predicate Attributed(threads: map<nat, Rx.Thread>, pushed: seq<W.Msg>)
  {
    && (forall t :: IsAttach(threads, t) ==> DataFrom(pushed, t) == SentData(threads[t].outbox))
    && (forall t :: !IsAttach(threads, t) ==> DataFrom(pushed, t) == [])
  }

  /** The session-start frames are where `began` says. */
  predicate Announced(pushed: seq<W.Msg>, began: map<nat, nat>)
  {
    forall t :: t in began ==>
      began[t] < |pushed| && pushed[began[t]].origin == W.Begin(t) && pushed[began[t]].typ == FRAME_SESSION_START
  }

  predicate Leaving(pc: Rx.Pc)
  {
    pc.Return? || pc.Gone?
  }

  /** A message of an attach's goroutine comes after the session-start frame, and its farewell only
    * once it is leaving. */
  predicate Placed(m: W.Msg, i: nat, threads: map<nat, Rx.Thread>, began: map<nat, nat>)
  {
    m.origin.Payload? || m.origin.Farewell? ==>
      var t := m.origin.t;
      && IsAttach(threads, t) && t in began && began[t] < i
      && (m.origin.Farewell? ==> Leaving(threads[t].pc))
  }

  predicate FarewellLast(pushed: seq<W.Msg>)
  {
    forall i, j :: 0 <= i < j < |pushed| && pushed[i].origin.Farewell? ==>
      pushed[j].origin != W.Payload(pushed[i].origin.t)
  }

  ghost predicate Ordered(s: State)
  {
    && Announced(s.pipe.pushed, s.began)
    && (forall t :: IsAttach(s.mon.threads, t) ==> t in s.began)
    && (forall i :: 0 <= i < |s.pipe.pushed| ==> Placed(s.pipe.pushed[i], i, s.mon.threads, s.began))
    && FarewellLast(s.pipe.pushed)
  }

  ghost predicate Inv(s: State)
  {
    Rx.Inv(s.mon) && Attributed(s.mon.threads, s.pipe.pushed) && Ordered(s)
  }

  // ----- one step ----------------------------------------------------------------------------

  /** One more send that lost to the cancelled context. */
  predicate GaveUp(outbox: Log<Rx.Out>, outbox': Log<Rx.Out>)
  {
    outbox'.Then? && outbox'.before == outbox && !outbox'.last.sent
  }

  /** What the pipeline sees of a goroutine: its role, its sent data and whether it is leaving. */
  predicate Tame(th: Rx.Thread, th': Rx.Thread)
  {
    && th'.role == th.role
    && (th.role.Attach? ==> th'.outbox == th.outbox || GaveUp(th.outbox, th'.outbox))
    && (Leaving(th.pc) ==> Leaving(th'.pc))
  }

  predicate TameAll(threads: map<nat, Rx.Thread>, threads': map<nat, Rx.Thread>)
  {
    forall t :: t in threads ==> t in threads' && Tame(threads[t], threads'[t])
  }

  lemma TameMove(th: Rx.Thread, life: Life, over: bool, buf: bytes)
    requires !th.pc.Parked? && !th.pc.Gone? && !HasSomethingToSend(th)
    ensures Tame(th, Rx.Move(th, life, over, buf))
  {
  }

  lemma TameWoken(threads: map<nat, Rx.Thread>)
    ensures TameAll(threads, Rx.WakeAll(threads))
  {
  }

  lemma TameRx(m: Rx.State)
    requires Rx.RxEnabled(m)
    ensures TameAll(m.threads, Rx.RxNext(m).threads)
  {
    TameWoken(m.threads);
  }

  /** A monitor step that sends nothing is tame. */
  lemma QuietStep(s: State, a: Rx.Action)
    requires MonAllowed(s, a)
    ensures TameAll(s.mon.threads, Rx.Do(s.mon, a).threads)
  {
    match a
    case Step(t) => TameMove(s.mon.threads[t], s.mon.life, Rx.Over(s.mon.rx, s.mon.shut), s.mon.buf);
    case RxStep => TameRx(s.mon);
    case Broadcast => TameWoken(s.mon.threads);
    case _ =>
  }

  lemma NewThreads(s: State, a: Rx.Action, t: nat)
    requires MonAllowed(s, a) && t in Rx.Do(s.mon, a).threads && t !in s.mon.threads
    ensures a.Spawn? && a.t == t
    ensures Rx.Do(s.mon, a).threads[t].outbox == Start
    ensures IsAttach(Rx.Do(s.mon, a).threads, t) ==> t in s.began
  {
  }

  lemma MonAttributed(s: State, a: Rx.Action)
    requires Attributed(s.mon.threads, s.pipe.pushed) && MonAllowed(s, a)
    ensures Attributed(Rx.Do(s.mon, a).threads, s.pipe.pushed)
  {
    QuietStep(s, a);
    var threads' := Rx.Do(s.mon, a).threads;
    forall t
      ensures IsAttach(threads', t) ==> DataFrom(s.pipe.pushed, t) == SentData(threads'[t].outbox)
      ensures !IsAttach(threads', t) ==> DataFrom(s.pipe.pushed, t) == []
    {
      if t in s.mon.threads {
        assert Tame(s.mon.threads[t], threads'[t]);
      } else if t in threads' {
        NewThreads(s, a, t);
      }
    }
  }

  lemma MonOrdered(c: Config, s: State, a: Rx.Action)
    requires Ordered(s) && MonAllowed(s, a)
    ensures Ordered(Do(c, s, Mon(a)))
  {
    QuietStep(s, a);
    var threads' := Rx.Do(s.mon, a).threads;
    forall i | 0 <= i < |s.pipe.pushed|
      ensures Placed(s.pipe.pushed[i], i, threads', s.began)
    {
      assert Placed(s.pipe.pushed[i], i, s.mon.threads, s.began);
    }
    forall t | IsAttach(threads', t)
      ensures t in s.began
    {
      if t in s.mon.threads {
        assert Tame(s.mon.threads[t], threads'[t]);
      } else {
        NewThreads(s, a, t);
      }
    }
  }

  lemma PushAttributed(threads: map<nat, Rx.Thread>, pushed: seq<W.Msg>, m: W.Msg)
    requires Attributed(threads, pushed) && !m.origin.Payload?
    ensures Attributed(threads, pushed + [m])
  {
    forall t
      ensures DataFrom(pushed + [m], t) == DataFrom(pushed, t)
    {
      DataSnoc(pushed, m, t);
    }
  }

  /** The monitor and the pipe after a send. */
  lemma PushOrdered(s: State, s': State, m: W.Msg)
    requires Ordered(s) && s'.pipe.pushed == s.pipe.pushed + [m]
    requires TameAll(s.mon.threads, s'.mon.threads) && s'.mon.threads.Keys == s.mon.threads.Keys
    requires s'.began == s.began || (m.origin.Begin? && m.origin.t !in s.began && m.typ == FRAME_SESSION_START
      && s'.began == s.began[m.origin.t := |s.pipe.pushed|])
    requires Placed(m, |s.pipe.pushed|, s'.mon.threads, s'.began)
    requires m.origin.Payload? ==>
      forall i :: 0 <= i < |s.pipe.pushed| ==> s.pipe.pushed[i].origin != W.Farewell(m.origin.t)
    ensures Ordered(s')
  {
    forall i | 0 <= i < |s'.pipe.pushed|
      ensures Placed(s'.pipe.pushed[i], i, s'.mon.threads, s'.began)
    {
      if i < |s.pipe.pushed| {
        assert Placed(s.pipe.pushed[i], i, s.mon.threads, s.began);
      }
    }
    forall t | IsAttach(s'.mon.threads, t)
      ensures t in s'.began
    {
      assert Tame(s.mon.threads[t], s'.mon.threads[t]);
      assert IsAttach(s.mon.threads, t);
    }
  }

  /** What a send adds to the data of an attach: its payload, if it has one. */
  function PayloadOf(pc: Rx.Pc): bytes
  {
    if pc.Deliver? then pc.data else []
  }

  lemma EmitSends(th: Rx.Thread)
    requires Rx.Emits(th.pc)
    ensures SentData(Rx.Emit(th, true).outbox) == SentData(th.outbox) + PayloadOf(th.pc)
  {
  }

  lemma RxMsgData(c: Config, pushed: seq<W.Msg>, t: nat, pc: Rx.Pc, u: nat)
    requires Rx.Emits(pc)
    ensures DataFrom(pushed + [RxMsg(c, t, pc)], u) == DataFrom(pushed, u) + if u == t then PayloadOf(pc) else []
  {
    DataSnoc(pushed, RxMsg(c, t, pc), u);
  }

  /** The goroutine's own send: its outbox and the channel grow by the same message. */
  lemma SendRxAttributed(c: Config, s: State, t: nat)
    requires Attributed(s.mon.threads, s.pipe.pushed) && Enabled(s, SendRx(t))
    ensures Attributed(Rx.Do(s.mon, Rx.Step(t)).threads, s.pipe.pushed + [RxMsg(c, t, s.mon.threads[t].pc)])
  {
    var th := s.mon.threads[t];
    var threads' := Rx.Do(s.mon, Rx.Step(t)).threads;
    assert threads' == s.mon.threads[t := Rx.Emit(th, true)];
    EmitSends(th);
    forall u
      ensures IsAttach(threads', u) == IsAttach(s.mon.threads, u)
      ensures DataFrom(s.pipe.pushed + [RxMsg(c, t, th.pc)], u)
           == DataFrom(s.pipe.pushed, u) + if u == t then PayloadOf(th.pc) else []
    {
      RxMsgData(c, s.pipe.pushed, t, th.pc, u);
    }
  }

  lemma SendRxOrdered(c: Config, s: State, t: nat)
    requires Ordered(s) && Enabled(s, SendRx(t))
    ensures Ordered(Do(c, s, SendRx(t)))
  {
    var th := s.mon.threads[t];
    var m := RxMsg(c, t, th.pc);
    var s' := Do(c, s, SendRx(t));
    assert s'.mon.threads == s.mon.threads[t := Rx.Emit(th, true)];
    assert IsAttach(s.mon.threads, t);
    forall i | 0 <= i < |s.pipe.pushed|
      ensures m.origin.Payload? ==> s.pipe.pushed[i].origin != W.Farewell(t)
      ensures Placed(s.pipe.pushed[i], i, s'.mon.threads, s.began)
    {
      assert Placed(s.pipe.pushed[i], i, s.mon.threads, s.began);
    }
    assert s'.pipe.pushed == s.pipe.pushed + [m] && s'.began == s.began;
    assert Placed(m, |s.pipe.pushed|, s'.mon.threads, s.began);
    forall u | IsAttach(s'.mon.threads, u)
      ensures u in s.began
    {
      assert IsAttach(s.mon.threads, u);
    }
  }

  lemma SendKeeps(c: Config, s: State, a: Action)
    requires Inv(s) && Enabled(s, a) && (a.SendStart? || a.SendOther?)
    ensures Inv(Do(c, s, a))
  {
    var m := PipeAction(c, s, a).value.m;
    PushAttributed(s.mon.threads, s.pipe.pushed, m);
    PushOrdered(s, Do(c, s, a), m);
  }

  lemma DoKeeps(c: Config, s: State, a: Action)
    requires Inv(s) && Enabled(s, a)
    ensures Inv(Do(c, s, a))
  {
    match a
    case Mon(b) =>
      RxT.DoKeeps(s.mon, b);
      MonAttributed(s, b);
      MonOrdered(c, s, b);
    case SendRx(t) =>
      RxT.DoKeeps(s.mon, Rx.Step(t));
      SendRxAttributed(c, s, t);
      SendRxOrdered(c, s, t);
    case SendStart(_, _) => SendKeeps(c, s, a);
    case SendOther(_, _) => SendKeeps(c, s, a);
    case Pipe(_) => assert Do(c, s, a).pipe.pushed == s.pipe.pushed;
  }

  lemma {:induction false} RunKeeps(c: Config, life: Life, run: Log<Action>, s: State)
    requires Reaches(c, life, run, s)
    ensures Inv(s)
    decreases run
  {
    if run.Then? {
      var m := Exec(c, life, run.before).value;
      RunKeeps(c, life, run.before, m);
      DoKeeps(c, m, run.last);
    }
  }

  // ----- the two parts of a run --------------------------------------------------------------

  /** The monitor's part of a run. */
  function MonRun(run: Log<Action>): Log<Rx.Action>
  {
    match run
    case Start => Start
    case Then(before, Mon(a)) => Then(MonRun(before), a)
    case Then(before, SendRx(t)) => Then(MonRun(before), Rx.Step(t))
    case Then(before, _) => MonRun(before)
  }

  /** The pipe's part of a run. */
  function PipeRun(c: Config, life: Life, run: Log<Action>): Log<W.Action>
  {
    match run
    case Start => Start
    case Then(before, a) =>
      var r := PipeRun(c, life, before);
      match Exec(c, life, before)
      case None => r
      case Some(m) =>
        if Enabled(m, a) && PipeAction(c, m, a).Some? then Then(r, PipeAction(c, m, a).value) else r
  }

  /** The relay's runs are runs of the monitor and of the pipe. */
  lemma {:induction false} RefinesBoth(c: Config, life: Life, run: Log<Action>, s: State)
    requires Reaches(c, life, run, s)
    ensures Rx.Reaches(Rx.Init(life), MonRun(run), s.mon)
    ensures W.Reaches(c.suite, PipeRun(c, life, run), s.pipe)
    decreases run
  {
    if run.Then? {
      RefinesBoth(c, life, run.before, Exec(c, life, run.before).value);
    }
  }

  /** The goodbye is kept apart: no write of either writer falls inside a frame of the other. */
  predicate Apart(c: Config, life: Life, run: Log<Action>)
  {
    W.Apart(c.suite, PipeRun(c, life, run))
  }

  // ----- what is sent ------------------------------------------------------------------------

  /** The plaintext that the RX goroutine of an attach sends: its data and the closed notice as events
    * (type byte 'E'), the back-to-menu text as a response ('R'). */
  function RxPlain(c: Config, pc: Rx.Pc): seq<bytes>
  {
    match pc
    case Deliver(data, _, _) => [[69] + data]
    case Announce => [[69] + c.notice]
    case Return => [[82] + c.menu]
    case _ => []
  }

  /** The plaintexts that the actions of a run send on outCh, in order; a session start has 'S'. */
  function Sendings(c: Config, life: Life, run: Log<Action>): seq<bytes>
  {
    match run
    case Start => []
    case Then(before, a) =>
      match Exec(c, life, before)
      case None => Sendings(c, life, before)
      case Some(m) => Sendings(c, life, before) + SentBy(c, m, a)
  }

  /** What one action sends on outCh. */
  function SentBy(c: Config, m: State, a: Action): seq<bytes>
  {
    match a
    case SendStart(_, info) => [[83] + info]
    case SendOther(typ, text) => [[typ] + text]
    case SendRx(t) => if t in m.mon.threads then RxPlain(c, m.mon.threads[t].pc) else []
    case _ => []
  }

  /** The message that carries session data, or a farewell, is typed accordingly. */
  predicate Typed(c: Config, m: W.Msg)
  {
    && (m.origin.Payload? ==> m.typ == 69)
    && (m.origin.Farewell? ==> W.PlainOf(m) in {[69] + c.notice, [82] + c.menu})
  }

  predicate Matches(c: Config, pushed: seq<W.Msg>, sent: seq<bytes>)
  {
    |pushed| == |sent| && forall i :: 0 <= i < |pushed| ==> W.PlainOf(pushed[i]) == sent[i] && Typed(c, pushed[i])
  }

  lemma MatchesStep(c: Config, m: State, a: Action, sent: seq<bytes>)
    requires Matches(c, m.pipe.pushed, sent) && Enabled(m, a)
    ensures Matches(c, Do(c, m, a).pipe.pushed, sent + SentBy(c, m, a))
  {
    var p, p' := m.pipe.pushed, Do(c, m, a).pipe.pushed;
    if a.Mon? || a.Pipe? {
      assert p' == p && sent + [] == sent;
    } else {
      assert |p'| == |p| + 1 && p'[..|p|] == p;
      assert [W.PlainOf(p'[|p|])] == SentBy(c, m, a) && Typed(c, p'[|p|]);
    }
  }

  /** Message by message, what was pushed is what the actions sent. */
  lemma {:induction false} PushedAreSendings(c: Config, life: Life, run: Log<Action>, s: State)
    requires Reaches(c, life, run, s)
    ensures Matches(c, s.pipe.pushed, Sendings(c, life, run))
    decreases run
  {
    if run.Then? {
      var m := Exec(c, life, run.before).value;
      PushedAreSendings(c, life, run.before, m);
      MatchesStep(c, m, run.last, Sendings(c, life, run.before));
    }
  }

  // ----- from the messages written to those pushed -------------------------------------------

  lemma {:induction false} DataInsert(xs: seq<W.Msg>, m: W.Msg, ys: seq<W.Msg>, t: nat)
    requires m.origin != W.Payload(t)
    ensures DataFrom(xs + [m] + ys, t) == DataFrom(xs + ys, t)
    decreases |ys|
  {
    if ys == [] {
      assert xs + [m] + ys == xs + [m] && xs + ys == xs;
      DataSnoc(xs, m, t);
    } else {
      var front, last := ys[..|ys| - 1], ys[|ys| - 1];
      assert xs + [m] + ys == (xs + [m] + front) + [last] && xs + ys == (xs + front) + [last];
      DataInsert(xs, m, front, t);
      DataSnoc(xs + [m] + front, last, t);
      DataSnoc(xs + front, last, t);
    }
  }

  lemma WrittenData(p: W.State, k: nat, t: nat)
    requires W.Fifo(p) && k <= |p.written|
    ensures W.Slot(p.bye, k) <= |p.pushed|
    ensures DataFrom(p.written[..k], t) == DataFrom(p.pushed[..W.Slot(p.bye, k)], t)
  {
    W.WrittenFront(p, k);
    if p.bye.Said? && p.bye.frame < k {
      W.FrontWithout(p.written, p.bye.frame, k);
      DataInsert(p.written[..p.bye.frame], W.GOODBYE, p.written[p.bye.frame + 1..k], t);
    }
  }

  /** One pushed before a message written, among those written. */
  lemma WrittenBefore(p: W.State, i: nat, b: nat) returns (j: nat)
    requires W.Fifo(p) && i < |p.written| && !p.written[i].origin.Goodbye? && b < W.Slot(p.bye, i)
    ensures j < i && b < |p.pushed| && p.written[j] == p.pushed[b]
  {
    j := if p.bye.Said? && p.bye.frame <= b then b + 1 else b;
    W.WrittenAt(p, j);
  }

  // ----- end to end --------------------------------------------------------------------------

  /** What the client decodes of the part of the wire that has arrived. */
  function Decoded(c: Config, s: State, arrived: nat): seq<bytes>
    requires arrived <= |W.Bytes(s.pipe.pieces)|
  {
    Decode(c.suite.aead, c.suite.key, W.Bytes(s.pipe.pieces)[..arrived])
  }

  /** The payloads, among some decoded frames, of those that the RX goroutine of attach t sent. */
  function DecodedData(written: seq<W.Msg>, got: seq<bytes>, t: nat): bytes
    requires |got| <= |written|
    decreases |got|
  {
    if got == [] then []
    else
      var i := |got| - 1;
      DecodedData(written, got[..i], t) + if written[i].origin == W.Payload(t) && got[i] != [] then got[i][1..] else []
  }

  lemma {:induction false} DecodedIsWrittenData(written: seq<W.Msg>, got: seq<bytes>, t: nat)
    requires |got| <= |written| && forall i :: 0 <= i < |got| ==> got[i] == W.PlainOf(written[i])
    ensures DecodedData(written, got, t) == DataFrom(written[..|got|], t)
    decreases |got|
  {
    if got != [] {
      var i := |got| - 1;
      DecodedIsWrittenData(written, got[..i], t);
      assert written[..|got|] == written[..i] + [written[i]];
      DataSnoc(written[..i], written[i], t);
    }
  }

  /** What the i-th frame written is: the goodbye, or the message sent on outCh at that place. */
  predicate IsSending(p: W.State, sent: seq<bytes>, i: nat, plain: bytes)
  {
    if p.bye.Said? && i == p.bye.frame then plain == [82, 66, 121, 101, 46]
    else W.Slot(p.bye, i) < |sent| && plain == sent[W.Slot(p.bye, i)]
  }

  lemma WrittenIsSending(c: Config, life: Life, run: Log<Action>, s: State, i: nat)
    requires Reaches(c, life, run, s) && W.Fifo(s.pipe) && i < |s.pipe.written|
    ensures IsSending(s.pipe, Sendings(c, life, run), i, W.PlainOf(s.pipe.written[i]))
  {
    PushedAreSendings(c, life, run, s);
    if !(s.pipe.bye.Said? && i == s.pipe.bye.frame) {
      W.WrittenAt(s.pipe, i);
    }
  }

  /** What the client decodes, at any time and however the bytes arrive, is what the actions of the run
    * sent on outCh, in order, with the goodbye in between where it was written, as long as it is kept
    * apart. */
  lemma DecodedIsPushed(c: Config, life: Life, run: Log<Action>, s: State, arrived: nat)
    requires Lawful(c.suite.aead) && Reaches(c, life, run, s) && Apart(c, life, run) && NoWrap(s.pipe.frames)
    requires arrived <= |W.Bytes(s.pipe.pieces)|
    ensures W.Fifo(s.pipe) && |s.pipe.pushed| == |Sendings(c, life, run)|
    ensures var got := Decoded(c, s, arrived);
      && |got| <= |s.pipe.written|
      && (forall i :: 0 <= i < |got| ==> got[i] == W.PlainOf(s.pipe.written[i]))
      && (forall i :: 0 <= i < |got| ==> IsSending(s.pipe, Sendings(c, life, run), i, got[i]))
  {
    RefinesBoth(c, life, run, s);
    PushedAreSendings(c, life, run, s);
    W.DecodedInOrder(c.suite, PipeRun(c, life, run), s.pipe, arrived);
    var got := Decoded(c, s, arrived);
    forall i | 0 <= i < |got|
      ensures IsSending(s.pipe, Sendings(c, life, run), i, got[i])
    {
      WrittenIsSending(c, life, run, s, i);
    }
  }

  lemma {:induction false} DataPrefix(msgs: seq<W.Msg>, k: nat, t: nat)
    requires k <= |msgs|
    ensures DataFrom(msgs[..k], t) <= DataFrom(msgs, t)
    decreases |msgs|
  {
    if k == |msgs| {
      assert msgs[..k] == msgs;
    } else {
      DataPrefix(msgs[..|msgs| - 1], k, t);
      assert msgs[..|msgs| - 1][..k] == msgs[..k];
    }
  }

  lemma Front(a: bytes, b: bytes, c: bytes, d: bytes)
    ensures a + b <= a + (b + c) + d
  {
    assert a + (b + c) + d == (a + b) + (c + d);
  }

  /** What the RX goroutine of an attach has sent is what a sole drainer drained, so it extends the
    * bytes drained before the attach to a prefix of all bytes appended. */
  lemma SentSlice(c: Config, life: Life, run: Log<Action>, s: State, t: nat)
    requires Reaches(c, life, run, s) && IsAttach(s.mon.threads, t)
    requires Rx.OnlyBy(s.mon.drained, s.mon.threads[t].since, t) && NothingDropped(s.mon.threads[t].outbox)
    ensures Rx.Bytes(s.mon.threads[t].since) + DataFrom(s.pipe.pushed, t) <= s.mon.appended
  {
    RunKeeps(c, life, run, s);
    RefinesBoth(c, life, run, s);
    var th := s.mon.threads[t];
    RxT.SoleDrainerSlice(life, MonRun(run), s.mon, t);
    SentIsHanded(th.outbox);
    Front(Rx.Bytes(th.since), Rx.Handed(th.outbox), Rx.InHand(th.pc), s.mon.buf);
  }

  /** The same for the data among the frames decoded so far. */
  lemma DecodedSlice(c: Config, life: Life, run: Log<Action>, s: State, t: nat, got: seq<bytes>)
    requires Reaches(c, life, run, s) && W.Fifo(s.pipe)
    requires |got| <= |s.pipe.written| && forall i :: 0 <= i < |got| ==> got[i] == W.PlainOf(s.pipe.written[i])
    requires IsAttach(s.mon.threads, t)
    requires Rx.OnlyBy(s.mon.drained, s.mon.threads[t].since, t) && NothingDropped(s.mon.threads[t].outbox)
    ensures Rx.Bytes(s.mon.threads[t].since) + DecodedData(s.pipe.written, got, t) <= s.mon.appended
  {
    DecodedIsWrittenData(s.pipe.written, got, t);
    WrittenData(s.pipe, |got|, t);
    SentSlice(c, life, run, s, t);
    DataPrefix(s.pipe.pushed, W.Slot(s.pipe.bye, |got|), t);
  }

  /** End-to-end receive order. When the RX goroutine of an attach is the only drainer since it
    * started, no send was given up and the goodbye is kept apart, its data among the frames the client
    * has decoded is one contiguous slice of the session's bytes, starting right behind those drained
    * before the attach, and every such frame is an event ('E') and comes after a session-start frame
    * ('S') of that attach. */
  lemma EndToEndOrder(c: Config, life: Life, run: Log<Action>, s: State, t: nat, arrived: nat)
    requires Lawful(c.suite.aead) && Reaches(c, life, run, s) && Apart(c, life, run) && NoWrap(s.pipe.frames)
    requires IsAttach(s.mon.threads, t) && arrived <= |W.Bytes(s.pipe.pieces)|
    requires Rx.OnlyBy(s.mon.drained, s.mon.threads[t].since, t) && NothingDropped(s.mon.threads[t].outbox)
    ensures var got, written := Decoded(c, s, arrived), s.pipe.written;
      && |got| <= |written| && (forall i :: 0 <= i < |got| ==> got[i] == W.PlainOf(written[i]))
      && Rx.Bytes(s.mon.threads[t].since) + DecodedData(written, got, t) <= s.mon.appended
      && (forall i :: 0 <= i < |got| && written[i].origin == W.Payload(t) ==>
            && got[i][0] == 69
            && exists j :: 0 <= j < i && written[j].origin == W.Begin(t) && got[j][0] == 83)
  {
    var got, written := Decoded(c, s, arrived), s.pipe.written;
    DecodedIsPushed(c, life, run, s, arrived);
    DecodedSlice(c, life, run, s, t, got);
    forall i | 0 <= i < |got| && written[i].origin == W.Payload(t)
      ensures got[i][0] == 69
      ensures exists j :: 0 <= j < i && written[j].origin == W.Begin(t) && got[j][0] == 83
    {
      PayloadTyped(c, life, run, s, i);
      var j := StartBefore(c, life, run, s, t, i);
    }
  }

  /** Session data and farewells are written as what they are. */
  lemma PayloadTyped(c: Config, life: Life, run: Log<Action>, s: State, i: nat)
    requires Reaches(c, life, run, s) && W.Fifo(s.pipe)
    requires i < |s.pipe.written| && (s.pipe.written[i].origin.Payload? || s.pipe.written[i].origin.Farewell?)
    ensures Typed(c, s.pipe.written[i])
  {
    PushedAreSendings(c, life, run, s);
    W.WrittenAt(s.pipe, i);
  }

  /** The session-start frame of an attach is written before its data. */
  lemma StartBefore(c: Config, life: Life, run: Log<Action>, s: State, t: nat, i: nat) returns (j: nat)
    requires Reaches(c, life, run, s) && W.Fifo(s.pipe)
    requires i < |s.pipe.written| && s.pipe.written[i].origin == W.Payload(t)
    ensures j < i && s.pipe.written[j].origin == W.Begin(t) && s.pipe.written[j].typ == FRAME_SESSION_START
  {
    RunKeeps(c, life, run, s);
    W.WrittenAt(s.pipe, i);
    assert Placed(s.pipe.pushed[W.Slot(s.pipe.bye, i)], W.Slot(s.pipe.bye, i), s.mon.threads, s.began);
    j := WrittenBefore(s.pipe, i, s.began[t]);
  }

  /** And nothing stays behind: frames within the cap are all decoded, one for each message sent and
    * one for the goodbye if it was said, once outCh is empty and both writers are between frames. */
  lemma EndToEndComplete(c: Config, life: Life, run: Log<Action>, s: State)
    requires Lawful(c.suite.aead) && Reaches(c, life, run, s) && Apart(c, life, run) && Fits(s.pipe.frames)
    requires s.pipe.out == [] && s.pipe.pen.Idle? && !W.InsideBye(s.pipe.bye)
    ensures |Decoded(c, s, |W.Bytes(s.pipe.pieces)|)| == |s.pipe.pushed| + if s.pipe.bye.Said? then 1 else 0
  {
    RefinesBoth(c, life, run, s);
    W.DecodedInFull(c.suite, PipeRun(c, life, run), s.pipe);
    assert W.Bytes(s.pipe.pieces)[..|W.Bytes(s.pipe.pieces)|] == W.Bytes(s.pipe.pieces);
  }

  lemma {:induction false} NoDataAfter(msgs: seq<W.Msg>, k: nat, t: nat)
    requires k <= |msgs| && forall i :: k <= i < |msgs| ==> msgs[i].origin != W.Payload(t)
    ensures DataFrom(msgs, t) == DataFrom(msgs[..k], t)
    decreases |msgs|
  {
    if k == |msgs| {
      assert msgs[..k] == msgs;
    } else {
      NoDataAfter(msgs[..|msgs| - 1], k, t);
      assert msgs[..|msgs| - 1][..k] == msgs[..k];
    }
  }

  /** Once its farewell is sent, an attach's goroutine is leaving and sends no more data. */
  lemma AfterFarewell(s: State, t: nat, i: nat)
    requires Ordered(s) && i < |s.pipe.pushed| && s.pipe.pushed[i].origin == W.Farewell(t)
    ensures t in s.mon.threads && Leaving(s.mon.threads[t].pc)
    ensures DataFrom(s.pipe.pushed, t) == DataFrom(s.pipe.pushed[..i], t)
  {
    assert Placed(s.pipe.pushed[i], i, s.mon.threads, s.began);
    NoDataAfter(s.pipe.pushed, i, t);
  }

  /** A sole drainer that leaves because it observed Dead when all was over has handed on all. */
  lemma LeavingHandedAll(life: Life, run: Log<Rx.Action>, m: Rx.State, t: nat, more: Log<Rx.Action>, later: Rx.State)
    requires Rx.Reaches(Rx.Init(life), run, m) && Rx.Reaches(m, more, later)
    requires t in m.threads && m.threads[t].sealed && Leaving(m.threads[t].pc)
    requires Rx.OnlyBy(m.drained, m.threads[t].since, t)
    ensures later.appended == Rx.Bytes(m.threads[t].since) + Rx.Handed(m.threads[t].outbox)
  {
    RxT.NoBytesAfterDeath(life, run, m, t, more, later);
    RxT.SoleDrainerSlice(life, run, m, t);
    assert Rx.InHand(m.threads[t].pc) == [];
  }

  /** By the time it is written, everything has been. */
  lemma WrittenLast(c: Config, life: Life, run: Log<Action>, s: State, t: nat, i: nat,
                    more: Log<Rx.Action>, later: Rx.State)
    requires Reaches(c, life, run, s) && W.Fifo(s.pipe)
    requires IsAttach(s.mon.threads, t) && s.mon.threads[t].sealed
    requires Rx.OnlyBy(s.mon.drained, s.mon.threads[t].since, t) && NothingDropped(s.mon.threads[t].outbox)
    requires i < |s.pipe.written| && s.pipe.written[i].origin == W.Farewell(t)
    requires Rx.Reaches(s.mon, more, later)
    ensures later.appended == Rx.Bytes(s.mon.threads[t].since) + DataFrom(s.pipe.written[..i], t)
  {
    RunKeeps(c, life, run, s);
    RefinesBoth(c, life, run, s);
    WrittenData(s.pipe, i, t);
    W.WrittenAt(s.pipe, i);
    AfterFarewell(s, t, W.Slot(s.pipe.bye, i));
    LeavingHandedAll(life, MonRun(run), s.mon, t, more, later);
    SentIsHanded(s.mon.threads[t].outbox);
  }

  /** Last bytes before the death notice, on the wire: once the client has decoded the notice of a sole
    * drainer that observed Dead when all was over, the session data among the frames decoded before it
    * is every byte of the session behind the drains that preceded the attach, now and in every
    * continuation. */
  lemma LastBytesOnTheWire(c: Config, life: Life, run: Log<Action>, s: State, t: nat, arrived: nat, i: nat,
                           more: Log<Rx.Action>, later: Rx.State)
    requires Lawful(c.suite.aead) && Reaches(c, life, run, s) && Apart(c, life, run) && NoWrap(s.pipe.frames)
    requires IsAttach(s.mon.threads, t) && s.mon.threads[t].sealed && arrived <= |W.Bytes(s.pipe.pieces)|
    requires Rx.OnlyBy(s.mon.drained, s.mon.threads[t].since, t) && NothingDropped(s.mon.threads[t].outbox)
    requires i < |Decoded(c, s, arrived)| && i < |s.pipe.written| && s.pipe.written[i].origin == W.Farewell(t)
    requires Rx.Reaches(s.mon, more, later)
    ensures forall j :: 0 <= j < i ==> Decoded(c, s, arrived)[j] == W.PlainOf(s.pipe.written[j])
    ensures Decoded(c, s, arrived)[i] in {[69] + c.notice, [82] + c.menu}
    ensures later.appended ==
      Rx.Bytes(s.mon.threads[t].since) + DecodedData(s.pipe.written, Decoded(c, s, arrived)[..i], t)
  {
    DecodedIsPushed(c, life, run, s, arrived);
    DecodedIsWrittenData(s.pipe.written, Decoded(c, s, arrived)[..i], t);
    PayloadTyped(c, life, run, s, i);
    WrittenLast(c, life, run, s, t, i, more, later);
  }
}
