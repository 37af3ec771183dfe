/** Client and server stay in step, exactly as long as no hazard occurs. */
module LockStepProof {
  import opened Prelude
  import opened Text
  import opened Parser
  import opened Protocol

  // ----- queues ------------------------------------------------------------------------------

  lemma {:induction false} AwaitedAppend(a: seq<Frame>, b: seq<Frame>)
    ensures Awaited(a + b) == Awaited(a) + Awaited(b)
    decreases |a|
  {
    if a == [] {
      assert a + b == b;
    } else {
      assert (a + b)[1..] == a[1..] + b;
      AwaitedAppend(a[1..], b);
    }
  }

  lemma AwaitedOne(f: Frame)
    ensures Awaited([f]) == if f.Event? then [] else [f]
  {
    assert [f][1..] == [];
  }

  lemma AwaitedHead(a: seq<Frame>)
    requires a != []
    ensures Awaited(a) == Awaited([a[0]]) + Awaited(a[1..])
  {
    AwaitedAppend([a[0]], a[1..]);
    assert [a[0]] + a[1..] == a;
  }

  /** Down, by its six stages. */
  function Stages(response: seq<Frame>, start: seq<Frame>, router: seq<Frame>, wire: seq<Frame>,
                  writer: seq<Frame>, out: seq<Frame>): seq<Frame>
  {
    response + start + Awaited(router) + Awaited(wire) + Awaited(writer) + Awaited(out)
  }

  lemma RouterReadMoves(response: seq<Frame>, start: seq<Frame>, wire: seq<Frame>, writer: seq<Frame>, out: seq<Frame>)
    requires wire != []
    ensures Stages(response, start, [wire[0]], wire[1..], writer, out) == Stages(response, start, [], wire, writer, out)
  {
    AwaitedHead(wire);
    var x, y := Awaited([wire[0]]), Awaited(wire[1..]);
    assert response + start + [] + (x + y) == response + start + x + y;
  }

  lemma WriterTakeMoves(response: seq<Frame>, start: seq<Frame>, router: seq<Frame>, wire: seq<Frame>, out: seq<Frame>)
    requires out != []
    ensures Stages(response, start, router, wire, [out[0]], out[1..]) == Stages(response, start, router, wire, [], out)
  {
    AwaitedHead(out);
    var x, y := Awaited([out[0]]), Awaited(out[1..]);
    var front := response + start + Awaited(router) + Awaited(wire);
    assert front + [] + (x + y) == front + x + y;
  }

  lemma WriterPutMoves(response: seq<Frame>, start: seq<Frame>, router: seq<Frame>, wire: seq<Frame>,
                       writer: seq<Frame>, out: seq<Frame>)
    ensures Stages(response, start, router, wire + writer, [], out)
         == Stages(response, start, router, wire, writer, out)
  {
    AwaitedAppend(wire, writer);
    var front := response + start + Awaited(router);
    assert front + (Awaited(wire) + Awaited(writer)) + [] == front + Awaited(wire) + Awaited(writer);
  }

  /** If the router holds a reply, it holds the only one. */
  lemma RouterHoldsAll(d: Downward)
    requires |d.router| == 1 && !d.router[0].Event? && |Down(d)| <= 1
    ensures d.responseCh == d.startCh == [] && Awaited(d.wire) == Awaited(d.writer) == Awaited(d.outCh) == []
    ensures Down(d) == d.router
  {
    assert d.router == [d.router[0]];
    AwaitedOne(d.router[0]);
    assert |Down(d)| == |d.responseCh| + |d.startCh| + 1 + |Awaited(d.wire)| + |Awaited(d.writer)| + |Awaited(d.outCh)|;
  }

  lemma RouteEvent(d: Downward)
    requires |d.router| == 1 && d.router[0].Event?
    ensures Down(Route(d)) == Down(d)
  {
    AwaitedOne(d.router[0]);
    assert Awaited(d.router) == Awaited(d.router[1..]) == [];
  }

  lemma RouteReply(d: Downward)
    requires |d.router| == 1 && !d.router[0].Event?
    requires d.responseCh == d.startCh == [] && Awaited(d.wire) == Awaited(d.writer) == Awaited(d.outCh) == []
    ensures Down(Route(d)) == d.router
  {
    assert Awaited(d.router[1..]) == [];
  }

  lemma RouteMoves(d: Downward)
    requires |d.router| == 1 && |Down(d)| <= 1
    ensures Down(Route(d)) == Down(d)
  {
    assert d.router == [d.router[0]] && d.router[1..] == [];
    if d.router[0].Event? {
      RouteEvent(d);
    } else {
      RouterHoldsAll(d);
      RouteReply(d);
    }
  }

  lemma ReaderReadMoves(cmds: seq<string>, wire: seq<string>)
    requires wire != []
    ensures cmds + [TrimRight(wire[0], IsBreak)] + Breakless(wire[1..]) == cmds + [] + Breakless(wire)
  {
    assert Breakless(wire) == [TrimRight(wire[0], IsBreak)] + Breakless(wire[1..]);
    assert cmds + ([TrimRight(wire[0], IsBreak)] + Breakless(wire[1..]))
        == cmds + [TrimRight(wire[0], IsBreak)] + Breakless(wire[1..]);
  }

  /** Passing things on changes neither what is in flight nor what either side is at. */
  lemma PipeKeeps(s: State, a: PipeAction)
    requires Sized(s.up, s.down) && |Down(s.down)| <= 1 && PipeEnabled(s, a) && !Collision(s, Pipe(a))
    ensures Sized(DoPipe(s, a).up, DoPipe(s, a).down) && DoPipe(s, a).core == s.core
    ensures Up(DoPipe(s, a).up) == Up(s.up) && Down(DoPipe(s, a).down) == Down(s.down)
  {
    match a
    case RouterRead => RouterReadMoves(s.down.responseCh, s.down.startCh, s.down.wire, s.down.writer, s.down.outCh);
    case RouterPut => RouteMoves(s.down);
    case WriterTake => WriterTakeMoves(s.down.responseCh, s.down.startCh, s.down.router, s.down.wire, s.down.outCh);
    case WriterPut =>
      WriterPutMoves(s.down.responseCh, s.down.startCh, s.down.router, s.down.wire, s.down.writer, s.down.outCh);
    case ReaderRead => ReaderReadMoves(s.up.cmdCh, s.up.wire);
    case ReaderPut =>
      assert (s.up.cmdCh + s.up.hold) + [] + Breakless(s.up.wire) == s.up.cmdCh + s.up.hold + Breakless(s.up.wire);
    case _ =>
  }

  lemma OutPush(d: Downward, f: Frame)
    ensures Down(Enqueue(d, f)) == Down(d) + if f.Event? then [] else [f]
  {
    AwaitedAppend(d.outCh, [f]);
    AwaitedOne(f);
  }

  lemma WirePush(d: Downward, f: Frame)
    requires Awaited(d.writer) == Awaited(d.outCh) == [] && !f.Event?
    ensures Down(d.(wire := d.wire + [f])) == Down(d) + [f]
  {
    AwaitedAppend(d.wire, [f]);
    AwaitedOne(f);
  }

  /** Lines move towards the dispatcher in order. */
  lemma TakeUp(u: Upward)
    requires u.cmdCh != []
    ensures Up(u) != [] && u.cmdCh[0] == Up(u)[0]
    ensures Up(u.(cmdCh := u.cmdCh[1..])) == Up(u)[1..]
  {
  }

  lemma SendUp(u: Upward, line: string)
    ensures Up(u.(wire := u.wire + [line])) == Up(u) + [TrimRight(line, IsBreak)]
  {
    assert Breakless(u.wire + [line]) == Breakless(u.wire) + [TrimRight(line, IsBreak)];
  }

  // ----- lines -------------------------------------------------------------------------------

  lemma LineTyped(core: Core, up: seq<string>, mode: Mode, line: string)
    requires SameLines(core, up, mode)
    ensures SameLines(core.(typed := core.typed + [Entry(mode, line)]), up + [line], mode)
  {
    var more := up + [line];
    assert seq(|more|, i requires 0 <= i < |more| => Entry(mode, more[i]))
        == seq(|up|, i requires 0 <= i < |up| => Entry(mode, up[i])) + [Entry(mode, line)];
  }

  lemma LineHandled(core: Core, up: seq<string>, mode: Mode)
    requires SameLines(core, up, mode) && up != []
    ensures SameLines(core.(handled := core.handled + [Entry(mode, up[0])]), up[1..], mode)
  {
    var rest := up[1..];
    assert seq(|up|, i requires 0 <= i < |up| => Entry(mode, up[i]))
        == [Entry(mode, up[0])] + seq(|rest|, i requires 0 <= i < |rest| => Entry(mode, rest[i]));
  }

  // ----- one step ----------------------------------------------------------------------------

  lemma OneInFlight(lower: char -> char, core: Core, up: seq<string>, down: seq<Frame>)
    requires InStep(lower, core, up, down)
    ensures |down| <= 1
  {
  }

  lemma TypeMenuKeeps(lower: char -> char, s: State, raw: string)
    requires LockStep(lower, s) && ClientEnabled(s, TypeMenu(raw))
    ensures LockStep(lower, DoClient(lower, s, TypeMenu(raw)))
  {
    var line := TrimSpace(raw);
    TrimSpaceTrims(raw);
    TrimmedStays(line);
    SendUp(s.up, line);
    LineTyped(s.core, Up(s.up), Menu, line);
    assert Up(s.up) + [line] == [line];
  }

  lemma SessionLineTyped(lower: char -> char, core: Core, up: seq<string>, down: seq<Frame>, line: string)
    requires InStep(lower, core, up, down) && core.client.SessionInput? && Trimmed(line)
    ensures InStep(lower, core.(client := if IsDetach(line) then AwaitDetach(line) else SessionInput,
                                typed := core.typed + [Entry(Session, line)]), up + [line], down)
  {
    LineTyped(core, up, Session, line);
    TrimmedStays(line);
    assert (up + [line])[..|up|] == up;
  }

  lemma TypeSessionKeeps(lower: char -> char, s: State, raw: string)
    requires LockStep(lower, s) && ClientEnabled(s, TypeSession(raw))
    ensures LockStep(lower, DoClient(lower, s, TypeSession(raw)))
  {
    DetachTestsAgree(raw);
    TrimSpaceTrims(raw);
    SendUp(s.up, SessionLine(raw));
    SessionLineTyped(lower, s.core, Up(s.up), Down(s.down), TrimSpace(raw));
  }

  /** The reply in a channel of the client's is the one in flight. */
  lemma ResponseTaken(d: Downward)
    requires |Down(d)| <= 1 && d.responseCh != []
    ensures Down(d) == [d.responseCh[0]] && Down(d.(responseCh := d.responseCh[1..])) == []
  {
    var rest := d.startCh + Awaited(d.router) + Awaited(d.wire) + Awaited(d.writer) + Awaited(d.outCh);
    assert Down(d) == d.responseCh + rest;
    assert rest == [] && d.responseCh[1..] == [];
  }

  lemma StartTaken(d: Downward)
    requires |Down(d)| <= 1 && d.startCh != []
    ensures Down(d) == [d.startCh[0]] && Down(d.(startCh := d.startCh[1..])) == []
  {
    var rest := Awaited(d.router) + Awaited(d.wire) + Awaited(d.writer) + Awaited(d.outCh);
    assert Down(d) == d.responseCh + d.startCh + rest;
    assert d.responseCh == [] && rest == [] && d.startCh[1..] == [];
  }

  /** The client takes the one reply in flight, and it is the one it waits for. */
  lemma ReplyTaken(lower: char -> char, core: Core, up: seq<string>, f: Frame)
    requires InStep(lower, core, up, [f]) && Waiting(core.client) != []
    requires f.SessionStart? ==> core.client.AwaitUse?
    ensures !f.Event?
    ensures var client := if f.SessionStart? then SessionInput else MenuInput;
      InStep(lower, Receive(core, client, core.client.line, f), up, [])
  {
  }

  lemma ReceiveKeeps(lower: char -> char, s: State, a: ClientAction)
    requires LockStep(lower, s) && ClientEnabled(s, a)
    requires a.GetReply? || a.GetUseReply? || a.GetStart? || a.GetDetach?
    ensures LockStep(lower, DoClient(lower, s, a))
  {
    OneInFlight(lower, s.core, Up(s.up), Down(s.down));
    if a.GetStart? {
      StartTaken(s.down);
      ReplyTaken(lower, s.core, Up(s.up), s.down.startCh[0]);
    } else {
      ResponseTaken(s.down);
      ReplyTaken(lower, s.core, Up(s.up), s.down.responseCh[0]);
    }
    assert Up(DoClient(lower, s, a).up) == Up(s.up);
  }

  lemma ClientKeeps(lower: char -> char, s: State, a: ClientAction)
    requires LockStep(lower, s) && ClientEnabled(s, a)
    ensures LockStep(lower, DoClient(lower, s, a)) <==> !a.SessionEof?
  {
    match a
    case TypeMenu(raw) => TypeMenuKeeps(lower, s, raw);
    case TypeSession(raw) => TypeSessionKeeps(lower, s, raw);
    case SessionEof =>
      var s' := DoClient(lower, s, a);
      assert Up(s'.up) == Up(s.up) && Down(s'.down) == Down(s.down);
    case StopClient =>
      var s' := DoClient(lower, s, a);
      assert Up(s'.up) == Up(s.up) && Down(s'.down) == Down(s.down);
    case _ => ReceiveKeeps(lower, s, a);
  }

  lemma MenuLineTaken(lower: char -> char, core: Core, up: seq<string>, down: seq<Frame>, o: Outcome)
    requires LowerLaw(lower) && InStep(lower, core, up, down)
    requires core.server.MenuLoop? && up != [] && Possible(lower, up[0], o)
    ensures var server := AfterMenuLine(lower, up[0], o);
      o != Text("") <==>
      InStep(lower, core.(server := server, handled := core.handled + [Entry(Menu, up[0])]), up[1..], down)
  {
    LineHandled(core, up, Menu);
    TrimmedStays(up[0]);
    TypingRefines(lower, up[0]);
  }

  lemma SessionLineTaken(lower: char -> char, core: Core, up: seq<string>, down: seq<Frame>, dead: bool, text: string)
    requires InStep(lower, core, up, down)
    requires core.server.Passthrough? && up != []
    ensures var server := AfterSessionLine(up[0], dead, text);
      InStep(lower, core.(server := server, handled := core.handled + [Entry(Session, up[0])]), up[1..], down)
  {
    LineHandled(core, up, Session);
    if core.client.AwaitDetach? {
      TrimmedStays(core.client.line);
      if |up| > 1 {
        assert up[1..][..|up| - 2] == up[..|up| - 1][1..];
      }
    }
  }

  /** A reply leaves for the command it answers. */
  lemma ReplySent(lower: char -> char, core: Core, up: seq<string>, down: seq<Frame>)
    requires InStep(lower, core, up, down) && Replying(core.server)
    ensures InStep(lower, Answer(core), up, down + [Sent(core.server)])
  {
  }

  lemma GoodbyeDown(s: State)
    requires Sized(s.up, s.down) && s.core.server.Parting? && Down(s.down) == []
    ensures Down(DoSend(s).down) == Down(s.down) + [Response("Bye.")]
  {
    assert |Awaited(s.down.writer)| + |Awaited(s.down.outCh)| <= |Down(s.down)|;
    WirePush(s.down, Response("Bye."));
  }

  lemma SendDown(s: State)
    requires Sized(s.up, s.down) && CanSend(s) && Replying(s.core.server)
    requires s.core.server.Parting? ==> Down(s.down) == []
    ensures Down(DoSend(s).down) == Down(s.down) + [Sent(s.core.server)]
    ensures Up(DoSend(s).up) == Up(s.up) && Sized(DoSend(s).up, DoSend(s).down)
  {
    if s.core.server.Parting? {
      GoodbyeDown(s);
    } else {
      OutPush(s.down, Sent(s.core.server));
    }
  }

  lemma EchoKeeps(lower: char -> char, s: State)
    requires LockStep(lower, s) && CanSend(s) && s.core.server.Echoing?
    ensures LockStep(lower, DoSend(s))
  {
    OutPush(s.down, Event(s.core.server.text));
    assert Down(DoSend(s).down) == Down(s.down) && Up(DoSend(s).up) == Up(s.up);
  }

  lemma PartingInStep(lower: char -> char, core: Core, up: seq<string>, down: seq<Frame>)
    requires InStep(lower, core, up, down) && core.server.Goodbye?
    ensures InStep(lower, core.(server := Parting(core.server.line)), up, down)
  {
  }

  /** The goodbye is begun, inside a frame or not. */
  lemma GoodbyeBegun(lower: char -> char, s: State)
    requires LockStep(lower, s) && s.core.server.Goodbye?
    ensures LockStep(lower, DoSend(s)) <==> !s.down.writing
  {
    PartingInStep(lower, s.core, Up(s.up), Down(s.down));
    assert Up(DoSend(s).up) == Up(s.up) && Down(DoSend(s).down) == Down(s.down);
  }

  lemma SendKeeps(lower: char -> char, s: State)
    requires LockStep(lower, s) && CanSend(s)
    ensures LockStep(lower, DoSend(s)) <==> !Collision(s, Server(Send))
  {
    if s.core.server.Echoing? {
      EchoKeeps(lower, s);
    } else if s.core.server.Goodbye? {
      GoodbyeBegun(lower, s);
    } else {
      SendDown(s);
      ReplySent(lower, s.core, Up(s.up), Down(s.down));
    }
  }

  lemma MenuTakeKeeps(lower: char -> char, s: State, o: Outcome)
    requires LowerLaw(lower) && LockStep(lower, s) && ServerEnabled(lower, s, MenuTake(o))
    ensures LockStep(lower, DoServer(lower, s, MenuTake(o))) <==> o != Text("")
  {
    TakeUp(s.up);
    MenuLineTaken(lower, s.core, Up(s.up), Down(s.down), o);
    assert Down(DoServer(lower, s, MenuTake(o)).down) == Down(s.down);
  }

  lemma SessionTakeKeeps(lower: char -> char, s: State, dead: bool, text: string)
    requires LockStep(lower, s) && ServerEnabled(lower, s, SessionTake(dead, text))
    ensures LockStep(lower, DoServer(lower, s, SessionTake(dead, text)))
  {
    TakeUp(s.up);
    SessionLineTaken(lower, s.core, Up(s.up), Down(s.down), dead, text);
    assert Down(DoServer(lower, s, SessionTake(dead, text)).down) == Down(s.down);
  }

  lemma ServerKeeps(lower: char -> char, s: State, a: ServerAction)
    requires LowerLaw(lower) && LockStep(lower, s) && ServerEnabled(lower, s, a)
    ensures LockStep(lower, DoServer(lower, s, a)) <==> !Hazard(s, Server(a))
  {
    match a
    case MenuTake(o) => MenuTakeKeeps(lower, s, o);
    case SessionTake(dead, text) => SessionTakeKeeps(lower, s, dead, text);
    case Send => SendKeeps(lower, s);
    case StopServer =>
      assert Up(DoServer(lower, s, a).up) == Up(s.up) && Down(DoServer(lower, s, a).down) == Down(s.down);
    case ReturnOnRxDone =>
  }

  /** A response nobody asked for always breaks step. */
  lemma NoticeBreaks(lower: char -> char, core: Core, up: seq<string>, down: seq<Frame>, rxDone: bool, text: string)
    requires InStep(lower, core, up, down)
    ensures !InStep(lower, core.(rxDone := rxDone), up, down + [Response(text)])
  {
  }

  lemma FeedKeeps(lower: char -> char, s: State, a: FeedAction)
    requires LockStep(lower, s) && FeedEnabled(s, a)
    ensures LockStep(lower, DoFeed(s, a)) <==> !a.RxNotice?
  {
    var s' := DoFeed(s, a);
    assert Up(s'.up) == Up(s.up);
    match a
    case PushEvent(text) => OutPush(s.down, Event(text)); assert Down(s'.down) == Down(s.down);
    case RxNotice(_, text) =>
      OutPush(s.down, Response(text));
      assert Down(s'.down) == Down(s.down) + [Response(text)];
      NoticeBreaks(lower, s.core, Up(s.up), Down(s.down), s'.core.rxDone, text);
    case RxReturn => assert Down(s'.down) == Down(s.down);
  }

  /** Exactly the hazards take client and server out of step: from a state in step, any action of
    * any actor leads to one in step if and only if it is not a hazard. */
  lemma InStepExactlyWithoutHazard(lower: char -> char, s: State, a: Action)
    requires LowerLaw(lower) && LockStep(lower, s) && Enabled(lower, s, a)
    ensures LockStep(lower, Do(lower, s, a)) <==> !Hazard(s, a)
  {
    match a
    case Client(c) => ClientKeeps(lower, s, c);
    case Pipe(p) =>
      OneInFlight(lower, s.core, Up(s.up), Down(s.down));
      if !Collision(s, a) {
        PipeKeeps(s, p);
      }
    case Server(d) => ServerKeeps(lower, s, d);
    case Feed(f) => FeedKeeps(lower, s, f);
  }

  lemma InitInStep(lower: char -> char)
    ensures LockStep(lower, Init())
  {
  }

  lemma {:induction false} RunKeeps(lower: char -> char, from: State, run: Log<Action>, s: State)
    requires LowerLaw(lower) && LockStep(lower, from)
    requires Clean(lower, from, run) && Reaches(lower, from, run, s)
    ensures LockStep(lower, s)
    decreases run
  {
    if run.Then? {
      var m := Exec(lower, from, run.before).value;
      RunKeeps(lower, from, run.before, m);
      InStepExactlyWithoutHazard(lower, m, run.last);
    }
  }

  /** In step in every state of the run. */
  predicate AlwaysInStep(lower: char -> char, from: State, run: Log<Action>)
  {
    match run
    case Start => LockStep(lower, from)
    case Then(before, _) =>
      AlwaysInStep(lower, from, before) &&
      (match Exec(lower, from, run)
       case None => true
       case Some(s) => LockStep(lower, s))
  }

  /** Exactly the runs without a hazard are in step throughout: client and server fall out of step,
    * for whatever run, at its first hazard and not before. */
  lemma {:induction false} RunInStepExactlyWithoutHazard(lower: char -> char, from: State, run: Log<Action>, s: State)
    requires LowerLaw(lower) && LockStep(lower, from) && Reaches(lower, from, run, s)
    ensures AlwaysInStep(lower, from, run) <==> Clean(lower, from, run)
    decreases run
  {
    if run.Then? {
      var m := Exec(lower, from, run.before).value;
      RunInStepExactlyWithoutHazard(lower, from, run.before, m);
      if Clean(lower, from, run.before) {
        RunKeeps(lower, from, run.before, m);
        InStepExactlyWithoutHazard(lower, m, run.last);
      }
    }
  }

  // ----- what being in step means ------------------------------------------------------------

  lemma InStepMeans(lower: char -> char, core: Core, up: seq<string>, down: seq<Frame>)
    requires InStep(lower, core, up, down)
    ensures core.handled <= core.typed
    ensures core.received <= core.answered && |core.answered| <= |core.received| + 1 && |down| <= 1
    ensures core.client.MenuInput? ==>
      core.server.MenuLoop? && core.handled == core.typed && core.answered == core.received && down == []
    ensures core.client.SessionInput? ==>
      InSession(core.server) && core.answered == core.received && down == []
  {
  }

  /** Client and server in lock-step, over every run without a hazard. The server has handled the
    * lines the client typed, in order and each in the mode in which it was typed; the client's
    * replies are the server's, in order, for the same commands; at most one reply is outstanding;
    * and at either prompt of the client the server is in the same mode with none outstanding. */
  lemma ClientServerLockStep(lower: char -> char, run: Log<Action>, s: State)
    requires LowerLaw(lower) && Clean(lower, Init(), run) && Reaches(lower, Init(), run, s)
    ensures s.core.handled <= s.core.typed
    ensures s.core.received <= s.core.answered && |s.core.answered| <= |s.core.received| + 1
    ensures |Down(s.down)| <= 1
    ensures s.core.client.MenuInput? ==>
      && s.core.server.MenuLoop? && s.core.handled == s.core.typed
      && s.core.answered == s.core.received && Down(s.down) == []
    ensures s.core.client.SessionInput? ==>
      InSession(s.core.server) && s.core.answered == s.core.received && Down(s.down) == []
  {
    InitInStep(lower);
    RunKeeps(lower, Init(), run, s);
    InStepMeans(lower, s.core, Up(s.up), Down(s.down));
  }

  /** The typed lines that await a reply. */
  function Commands(typed: seq<Entry>): seq<string>
  {
    if typed == [] then []
    else
      var last := typed[|typed| - 1];
      Commands(typed[..|typed| - 1]) + if last.mode.Menu? || IsDetach(last.line) then [last.line] else []
  }

  function LinesOf(replies: seq<Reply>): (lines: seq<string>)
    ensures |lines| == |replies|
    ensures forall i :: 0 <= i < |replies| ==> lines[i] == replies[i].line
  {
    seq(|replies|, i requires 0 <= i < |replies| => replies[i].line)
  }

  function Waiting(client: ClientPc): seq<string>
  {
    match client
    case AwaitReply(line) => [line]
    case AwaitUse(line) => [line]
    case AwaitDetach(line) => [line]
    case _ => []
  }

  predicate Asked(core: Core)
  {
    Commands(core.typed) == LinesOf(core.received) + Waiting(core.client)
  }

  lemma {:induction false} CommandsSnoc(typed: seq<Entry>, e: Entry)
    ensures Commands(typed + [e]) == Commands(typed) + if e.mode.Menu? || IsDetach(e.line) then [e.line] else []
  {
    assert (typed + [e])[..|typed|] == typed;
  }

  /** A reply was taken for the line the client waited with. */
  lemma AskedReply(core: Core, client: ClientPc, line: string, f: Frame)
    requires Asked(core) && Waiting(core.client) == [line] && Waiting(client) == []
    ensures Asked(Receive(core, client, line, f))
  {
    ReplyLine(core.received, line, f);
  }

  lemma AskedClient(lower: char -> char, s: State, a: ClientAction)
    requires Asked(s.core) && ClientEnabled(s, a)
    ensures Asked(DoClient(lower, s, a).core)
  {
    match a
    case TypeMenu(raw) => CommandsSnoc(s.core.typed, Entry(Menu, TrimSpace(raw)));
    case TypeSession(raw) =>
      DetachTestsAgree(raw);
      CommandsSnoc(s.core.typed, Entry(Session, TrimSpace(raw)));
    case GetReply => AskedReply(s.core, MenuInput, s.core.client.line, s.down.responseCh[0]);
    case GetUseReply => AskedReply(s.core, MenuInput, s.core.client.line, s.down.responseCh[0]);
    case GetStart => AskedReply(s.core, SessionInput, s.core.client.line, s.down.startCh[0]);
    case GetDetach => AskedReply(s.core, MenuInput, s.core.client.line, s.down.responseCh[0]);
    case _ =>
  }

  predicate SameAsked(core: Core, core': Core)
  {
    core'.typed == core.typed && core'.received == core.received && core'.client == core.client
  }

  lemma PipeAsksNothing(s: State, a: PipeAction)
    requires PipeEnabled(s, a)
    ensures SameAsked(s.core, DoPipe(s, a).core)
  {
  }

  lemma SendAsksNothing(s: State)
    requires CanSend(s)
    ensures SameAsked(s.core, DoSend(s).core)
  {
  }

  lemma ServerAsksNothing(lower: char -> char, s: State, a: ServerAction)
    requires ServerEnabled(lower, s, a)
    ensures SameAsked(s.core, DoServer(lower, s, a).core)
  {
    match a
    case Send => SendAsksNothing(s);
    case _ =>
  }

  lemma FeedAsksNothing(s: State, a: FeedAction)
    requires FeedEnabled(s, a)
    ensures SameAsked(s.core, DoFeed(s, a).core)
  {
  }

  lemma AskedStep(lower: char -> char, s: State, a: Action)
    requires Asked(s.core) && Enabled(lower, s, a)
    ensures Asked(Do(lower, s, a).core)
  {
    match a
    case Client(c) => AskedClient(lower, s, c);
    case Pipe(p) => PipeAsksNothing(s, p);
    case Server(d) => ServerAsksNothing(lower, s, d);
    case Feed(f) => FeedAsksNothing(s, f);
  }

  lemma ReplyLine(replies: seq<Reply>, line: string, f: Frame)
    ensures LinesOf(replies + [Reply(line, f)]) == LinesOf(replies) + [line]
  {
  }

  lemma {:induction false} AskedRun(lower: char -> char, run: Log<Action>, s: State)
    requires Reaches(lower, Init(), run, s)
    ensures Asked(s.core)
    decreases run
  {
    if run.Then? {
      var m := Exec(lower, Init(), run.before).value;
      AskedRun(lower, run.before, m);
      AskedStep(lower, m, run.last);
    }
  }

  /** The k-th awaited reply answers the k-th awaiting command: the reply the client got for the
    * k-th line that awaits one is the reply the server sent for that very line. */
  lemma KthReplyAnswersKthCommand(lower: char -> char, run: Log<Action>, s: State, k: nat)
    requires LowerLaw(lower) && Clean(lower, Init(), run) && Reaches(lower, Init(), run, s)
    requires k < |s.core.received|
    ensures k < |Commands(s.core.typed)| && k < |s.core.answered|
    ensures s.core.received[k].line == Commands(s.core.typed)[k] == s.core.answered[k].line
    ensures s.core.received[k].frame == s.core.answered[k].frame
  {
    ClientServerLockStep(lower, run, s);
    AskedRun(lower, run, s);
    assert (LinesOf(s.core.received) + Waiting(s.core.client))[k] == LinesOf(s.core.received)[k];
  }

  // ----- what each hazard does ---------------------------------------------------------------

  /** The client waits and nothing is on its way in either direction. */
  predicate Stuck(s: State)
  {
    && Sized(s.up, s.down) && Waiting(s.core.client) != []
    && s.core.server.MenuLoop? && Up(s.up) == [] && Down(s.down) == []
  }

  lemma StuckStep(lower: char -> char, s: State, a: Action)
    requires Stuck(s) && Enabled(lower, s, a) && !Hazard(s, a)
    ensures Stuck(Do(lower, s, a)) && Do(lower, s, a).core.client == s.core.client
  {
    var s' := Do(lower, s, a);
    assert |s.up.cmdCh| <= |Up(s.up)| && |s.down.responseCh| + |s.down.startCh| <= |Down(s.down)|;
    match a
    case Pipe(p) => PipeKeeps(s, p);
    case Feed(f) =>
      if f.PushEvent? { OutPush(s.down, Event(f.text)); }
      assert Up(s'.up) == Up(s.up) && Down(s'.down) == Down(s.down);
    case _ =>
      assert Up(s'.up) == Up(s.up) && Down(s'.down) == Down(s.down);
  }

  lemma {:induction false} StuckStays(lower: char -> char, s: State, run: Log<Action>, s': State)
    requires Stuck(s) && Clean(lower, s, run) && Reaches(lower, s, run, s')
    ensures Stuck(s') && s'.core.client == s.core.client
    decreases run
  {
    if run.Then? {
      var m := Exec(lower, s, run.before).value;
      StuckStays(lower, s, run.before, m);
      StuckStep(lower, m, run.last);
    }
  }

  /** A system command that prints nothing hangs the client: it waits for a reply in every
    * continuation in which no stray response turns up. */
  lemma SilentCommandHangs(lower: char -> char, s: State, run: Log<Action>, s': State)
    requires LowerLaw(lower) && LockStep(lower, s) && Enabled(lower, s, Server(MenuTake(Text(""))))
    requires var m := Do(lower, s, Server(MenuTake(Text(""))));
      Clean(lower, m, run) && Reaches(lower, m, run, s')
    ensures s'.core.client == s.core.client && Waiting(s'.core.client) != []
  {
    var m := Do(lower, s, Server(MenuTake(Text(""))));
    TakeUp(s.up);
    assert Up(m.up) == Up(s.up)[1..] && Down(m.down) == Down(s.down);
    TrimmedStays(Up(s.up)[0]);
    TypingRefines(lower, Up(s.up)[0]);
    StuckStays(lower, m, run, s');
  }

  /** Everything is up and every queue is empty. */
  function Quiet(core: Core, rxLive: nat): State
  {
    State(core, Alive(true, true, true, true, true), rxLive, Upward([], [], []), EMPTY)
  }

  /** Quiet but for one line at the dispatcher's door. */
  function AtServer(core: Core, rxLive: nat, line: string): State
  {
    Quiet(core, rxLive).(up := Upward([], [], [line]))
  }

  /** Quiet but for one line on the wire. */
  function OnWire(core: Core, rxLive: nat, line: string): State
  {
    Quiet(core, rxLive).(up := Upward([line], [], []))
  }

  /** Quiet but for one reply on outCh. */
  function Queued(core: Core, rxLive: nat, f: Frame): State
  {
    Quiet(core, rxLive).(down := EMPTY.(outCh := [f]))
  }

  /** Quiet but for one reply in the client's channel. */
  function AtClient(core: Core, rxLive: nat, f: Frame): State
  {
    Quiet(core, rxLive).(down := if f.Response? then EMPTY.(responseCh := [f]) else EMPTY.(startCh := [f]))
  }

  lemma Play(lower: char -> char, from: State, run: Log<Action>, s: State, a: Action)
    returns (run': Log<Action>, s': State)
    requires Reaches(lower, from, run, s) && Enabled(lower, s, a)
    ensures run' == Then(run, a) && s' == Do(lower, s, a) && Reaches(lower, from, run', s')
  {
    run', s' := Then(run, a), Do(lower, s, a);
  }

  /** A line goes up to the dispatcher. */
  lemma Submit(lower: char -> char, from: State, run: Log<Action>, core: Core, n: nat, line: string)
    returns (run': Log<Action>)
    requires Reaches(lower, from, run, OnWire(core, n, line))
    ensures Reaches(lower, from, run', AtServer(core, n, TrimRight(line, IsBreak)))
  {
    var s := OnWire(core, n, line);
    run', s := Play(lower, from, run, s, Pipe(ReaderRead));
    assert s.up.wire == [];
    run', s := Play(lower, from, run', s, Pipe(ReaderPut));
    assert s.up.cmdCh == [TrimRight(line, IsBreak)];
  }

  /** A reply comes down to the client. */
  lemma Deliver(lower: char -> char, from: State, run: Log<Action>, core: Core, n: nat, f: Frame)
    returns (run': Log<Action>)
    requires Reaches(lower, from, run, Queued(core, n, f)) && !f.Event? && !core.server.Parting?
    ensures Reaches(lower, from, run', AtClient(core, n, f))
  {
    var s := Queued(core, n, f);
    run', s := Play(lower, from, run, s, Pipe(WriterTake));
    assert s.down.outCh == [];
    run', s := Play(lower, from, run', s, Pipe(WriterStart));
    run', s := Play(lower, from, run', s, Pipe(WriterPut));
    assert s.down.wire == [f];
    run', s := Play(lower, from, run', s, Pipe(RouterRead));
    assert s.down.wire == [];
    run', s := Play(lower, from, run', s, Pipe(RouterPut));
    assert s.down.router == [];
    assert if f.Response? then s.down.responseCh == [f] else s.down.startCh == [f];
  }

  lemma TypeAndSubmit(lower: char -> char, from: State, run: Log<Action>, core: Core, n: nat,
                      a: ClientAction, line: string)
    returns (run': Log<Action>, core': Core)
    requires Reaches(lower, from, run, Quiet(core, n)) && ClientEnabled(Quiet(core, n), a)
    requires (a == TypeMenu(line) || a == TypeSession(line)) && line != "" && TrimSpace(line) == line
    ensures core' == DoClient(lower, Quiet(core, n), a).core
    ensures Reaches(lower, from, run', AtServer(core', n, TrimRight(line, IsBreak)))
  {
    var s;
    run', s := Play(lower, from, run, Quiet(core, n), Client(a));
    core' := s.core;
    assert s.up.wire == [line];
    run' := Submit(lower, from, run', core', n, line);
  }

  lemma AttachTo(lower: char -> char, use: string, info: string) returns (run: Log<Action>, core: Core)
    requires LowerLaw(lower) && use != "" && Trimmed(use)
    requires IsUse(Parse(lower, use, false)) && Parse(lower, use, false).args != []
    ensures Reaches(lower, Init(), run, Quiet(core, 1))
    ensures core.client.SessionInput? && core.server.Passthrough? && !core.rxDone
    ensures core.answered == core.received && core.handled == core.typed && |core.typed| == 1
  {
    TrimmedStays(use);
    TypingRefines(lower, use);
    var s;
    run, core := TypeAndSubmit(lower, Init(), Start, Init().core, 0, TypeMenu(use), use);
    run, s := Play(lower, Init(), run, AtServer(core, 0, use), Server(MenuTake(Attach(info))));
    run, s := Play(lower, Init(), run, s, Server(Send));
    core := s.core;
    assert s == Queued(core, 1, SessionStart(info));
    run := Deliver(lower, Init(), run, core, 1, SessionStart(info));
    run, s := Play(lower, Init(), run, AtClient(core, 1, SessionStart(info)), Client(GetStart));
    core := s.core;
    assert s == Quiet(core, 1);
  }

  lemma Leave(lower: char -> char, run: Log<Action>, core: Core) returns (run': Log<Action>, core': Core)
    requires Reaches(lower, Init(), run, Quiet(core, 1))
    requires core.client.SessionInput? && core.server.Passthrough?
    requires core.answered == core.received && core.handled == core.typed
    ensures Reaches(lower, Init(), run', Quiet(core', 1))
    ensures core'.client.MenuInput? && core'.server.MenuLoop?
    ensures core'.answered == core'.received && core'.handled == core'.typed
  {
    TrimmedStays("+back");
    var s;
    run', core' := TypeAndSubmit(lower, Init(), run, core, 1, TypeSession("+back"), "+back");
    run', s := Play(lower, Init(), run', AtServer(core', 1, "+back"), Server(SessionTake(false, "")));
    run', s := Play(lower, Init(), run', s, Server(Send));
    core' := s.core;
    var bye := Response("  Returning to menu. Session is still open.");
    assert s == Queued(core', 1, bye);
    run' := Deliver(lower, Init(), run', core', 1, bye);
    run', s := Play(lower, Init(), run', AtClient(core', 1, bye), Client(GetDetach));
    core' := s.core;
    assert s == Quiet(core', 1);
  }

  /** Attach and +back: the RX goroutine of the attach is still there when both sides are back in
    * the menu, for instance because it was about to wait when exitFlag was broadcast. */
  lemma AttachAndLeave(lower: char -> char, use: string, info: string) returns (run: Log<Action>, core: Core)
    requires LowerLaw(lower) && use != "" && Trimmed(use)
    requires IsUse(Parse(lower, use, false)) && Parse(lower, use, false).args != []
    ensures Reaches(lower, Init(), run, Quiet(core, 1))
    ensures core.client.MenuInput? && core.server.MenuLoop?
    ensures core.answered == core.received && core.handled == core.typed
  {
    run, core := AttachTo(lower, use, info);
    run, core := Leave(lower, run, core);
  }

  /** A death after +back misanswers the next command: the RX goroutine left over from the attach
    * sends a response nobody asked for, and the client takes it for the reply to whatever it
    * types next, before the server has even seen that line. */
  lemma DetachedDeathMisanswers(lower: char -> char, use: string, info: string, notice: string, raw: string)
    returns (run: Log<Action>, s: State)
    requires LowerLaw(lower) && use != "" && Trimmed(use)
    requires IsUse(Parse(lower, use, false)) && Parse(lower, use, false).args != []
    requires TrimSpace(raw) != "" && !ClientSeesUse(lower, TrimSpace(raw))
    ensures Reaches(lower, Init(), run, s)
    ensures s.core.received != [] && s.core.received[|s.core.received| - 1] == Reply(TrimSpace(raw), Response(notice))
    ensures !(s.core.received <= s.core.answered)
    ensures |s.core.handled| < |s.core.typed|
  {
    var core;
    run, core := AttachAndLeave(lower, use, info);
    s := Quiet(core, 1);
    run, s := Play(lower, Init(), run, s, Feed(RxNotice(false, notice)));
    assert s == Queued(core, 0, Response(notice));
    run := Deliver(lower, Init(), run, core, 0, Response(notice));
    s := AtClient(core, 0, Response(notice));
    run, s := Play(lower, Init(), run, s, Client(TypeMenu(raw)));
    run, s := Play(lower, Init(), run, s, Client(GetReply));
  }

  /** The client waits in every hazard-free continuation. */
  ghost predicate HangsForGood(lower: char -> char, s: State)
  {
    && Waiting(s.core.client) != []
    && forall more, s' :: Clean(lower, s, more) && Reaches(lower, s, more, s') ==> s'.core.client == s.core.client
  }

  /** Such a run from the start, for any system command typed first that prints nothing. */
  lemma FirstSilentCommandHangs(lower: char -> char, line: string) returns (run: Log<Action>, s: State)
    requires LowerLaw(lower) && Trimmed(line) && Parse(lower, line, false).kind.CmdSystem?
    ensures Reaches(lower, Init(), run, s) && s.core.client == AwaitReply(line)
    ensures HangsForGood(lower, s)
  {
    TrimmedStays(line);
    TypingRefines(lower, line);
    var core;
    run, core := TypeAndSubmit(lower, Init(), Start, Init().core, 0, TypeMenu(line), line);
    run, s := Play(lower, Init(), run, AtServer(core, 0, line), Server(MenuTake(Text(""))));
    assert Stuck(s);
    forall more, s' | Clean(lower, s, more) && Reaches(lower, s, more, s')
      ensures s'.core.client == s.core.client
    {
      StuckStays(lower, s, more, s');
    }
  }

  /** The attached session's own death: the server goes back to its menu, the client stays at its
    * session prompt, and the next session line is dispatched as a menu command. */
  lemma OwnDeathMisroutes(lower: char -> char, from: State, before: Log<Action>, core: Core, n: nat,
                          notice: string, raw: string, output: string) returns (run: Log<Action>, s: State)
    requires Reaches(lower, from, before, Quiet(core, n)) && LockStep(lower, Quiet(core, n))
    requires core.client.SessionInput? && core.server.Passthrough? && n > 0
    requires TrimSpace(raw) != "" && !IsDetach(TrimSpace(raw)) && output != ""
    ensures Reaches(lower, from, run, s)
    ensures var line := TrimSpace(raw);
      && s.core.client.SessionInput?
      && s.core.typed == core.typed + [Entry(Session, line)]
      && s.core.handled == core.handled + [Entry(Menu, line)]
      && !(s.core.handled <= s.core.typed)
      && s.core.server == AfterMenuLine(lower, line, Text(output))
  {
    var line := TrimSpace(raw);
    TrimSpaceTrims(raw);
    TrimmedStays(line);
    run, s := before, Quiet(core, n);
    assert Up(s.up) == [];
    run, s := Play(lower, from, run, s, Feed(RxNotice(true, notice)));
    run, s := Play(lower, from, run, s, Server(ReturnOnRxDone));
    run, s := Play(lower, from, run, s, Client(TypeSession(raw)));
    assert s.up == Upward([line], [], []);
    run, s := Play(lower, from, run, s, Pipe(ReaderRead));
    run, s := Play(lower, from, run, s, Pipe(ReaderPut));
    assert s.up.cmdCh == [line] && s.core.server.MenuLoop?;
    run, s := Play(lower, from, run, s, Server(MenuTake(Text(output))));
    assert s.core.handled[|core.handled|] != s.core.typed[|core.typed|];
  }

  /** End of input in session mode: the client is back at its menu prompt and the server is not, so
    * the server passes the next menu command to the session. */
  lemma SessionEofMisroutes(lower: char -> char, from: State, before: Log<Action>, core: Core, n: nat, raw: string)
    returns (run: Log<Action>, s: State)
    requires Reaches(lower, from, before, Quiet(core, n)) && LockStep(lower, Quiet(core, n))
    requires core.client.SessionInput? && core.server.Passthrough?
    requires TrimSpace(raw) != "" && !IsDetach(TrimSpace(raw))
    ensures Reaches(lower, from, run, s)
    ensures var line := TrimSpace(raw);
      && s.core.typed == core.typed + [Entry(Menu, line)]
      && s.core.handled == core.handled + [Entry(Session, line)]
      && !(s.core.handled <= s.core.typed)
  {
    var line := TrimSpace(raw);
    TrimSpaceTrims(raw);
    TrimmedStays(line);
    run, s := before, Quiet(core, n);
    assert Up(s.up) == [];
    run, s := Play(lower, from, run, s, Client(SessionEof));
    run, s := Play(lower, from, run, s, Client(TypeMenu(raw)));
    assert s == OnWire(s.core, n, line);
    run := Submit(lower, from, run, s.core, n, line);
    run, s := Play(lower, from, run, AtServer(s.core, n, line), Server(SessionTake(false, "")));
    assert s.core.handled[|core.handled|] != s.core.typed[|core.typed|];
  }

  /** A first session attached to, in step. */
  lemma AttachedInStep(lower: char -> char, use: string, info: string) returns (run: Log<Action>, core: Core)
    requires LowerLaw(lower) && use != "" && Trimmed(use)
    requires IsUse(Parse(lower, use, false)) && Parse(lower, use, false).args != []
    ensures Reaches(lower, Init(), run, Quiet(core, 1)) && LockStep(lower, Quiet(core, 1))
    ensures core.client.SessionInput? && core.server.Passthrough? && |core.typed| == |core.handled| == 1
  {
    run, core := AttachTo(lower, use, info);
    assert SameLines(core, [], Session);
  }

  /** Its death, from the start. */
  lemma FirstDeathMisroutes(lower: char -> char, use: string, info: string, notice: string, raw: string, output: string)
    returns (run: Log<Action>, s: State)
    requires LowerLaw(lower) && use != "" && Trimmed(use)
    requires IsUse(Parse(lower, use, false)) && Parse(lower, use, false).args != []
    requires TrimSpace(raw) != "" && !IsDetach(TrimSpace(raw)) && output != ""
    ensures Reaches(lower, Init(), run, s) && |s.core.typed| == |s.core.handled| == 2
    ensures s.core.typed[1] == Entry(Session, TrimSpace(raw)) && s.core.handled[1] == Entry(Menu, TrimSpace(raw))
  {
    var before, core := AttachedInStep(lower, use, info);
    run, s := OwnDeathMisroutes(lower, Init(), before, core, 1, notice, raw, output);
  }

  /** End of input in it, from the start. */
  lemma FirstEofMisroutes(lower: char -> char, use: string, info: string, raw: string)
    returns (run: Log<Action>, s: State)
    requires LowerLaw(lower) && use != "" && Trimmed(use)
    requires IsUse(Parse(lower, use, false)) && Parse(lower, use, false).args != []
    requires TrimSpace(raw) != "" && !IsDetach(TrimSpace(raw))
    ensures Reaches(lower, Init(), run, s) && |s.core.typed| == |s.core.handled| == 2
    ensures s.core.typed[1] == Entry(Menu, TrimSpace(raw)) && s.core.handled[1] == Entry(Session, TrimSpace(raw))
  {
    var before, core := AttachedInStep(lower, use, info);
    run, s := SessionEofMisroutes(lower, Init(), before, core, 1, raw);
  }

  /** The client waits and no reply can reach it any more: the wire is broken behind the events on it. */
  predicate CutOff(s: State)
  {
    && Waiting(s.core.client) != [] && s.down.broken
    && s.down.responseCh == s.down.startCh == [] && Awaited(s.down.router) == Awaited(s.down.wire) == []
  }

  lemma CutOffPipe(s: State, a: PipeAction)
    requires CutOff(s) && PipeEnabled(s, a)
    ensures CutOff(DoPipe(s, a)) && DoPipe(s, a).core == s.core
  {
    match a
    case RouterRead => AwaitedHead(s.down.wire);
    case RouterPut =>
      AwaitedHead(s.down.router);
      AwaitedOne(s.down.router[0]);
    case _ =>
  }

  lemma CutOffStep(lower: char -> char, s: State, a: Action)
    requires CutOff(s) && Enabled(lower, s, a)
    ensures CutOff(Do(lower, s, a)) && Do(lower, s, a).core.client == s.core.client
  {
    match a
    case Pipe(p) => CutOffPipe(s, p);
    case Server(d) => ServerAsksNothing(lower, s, d);
    case _ =>
  }

  lemma {:induction false} CutOffStays(lower: char -> char, s: State, more: Log<Action>, s': State)
    requires CutOff(s) && Reaches(lower, s, more, s')
    ensures CutOff(s') && s'.core.client == s.core.client
    decreases more
  {
    if more.Then? {
      var m := Exec(lower, s, more.before).value;
      CutOffStays(lower, s, more.before, m);
      CutOffStep(lower, m, more.last);
    }
  }

  lemma EventBegun(lower: char -> char, event: string) returns (run: Log<Action>, s: State)
    ensures Reaches(lower, Init(), run, s)
    ensures s == Quiet(Init().core, 0).(down := EMPTY.(writer := [Event(event)], writing := true))
  {
    run, s := Start, Init();
    run, s := Play(lower, Init(), run, s, Feed(PushEvent(event)));
    assert s.down == EMPTY.(outCh := [Event(event)]);
    run, s := Play(lower, Init(), run, s, Pipe(WriterTake));
    run, s := Play(lower, Init(), run, s, Pipe(WriterStart));
  }

  /** `exit` typed first, while the writer is inside the frame of an event: the goodbye falls into it,
    * and the client gets no reply in any continuation at all. */
  lemma FirstGoodbyeIsLost(lower: char -> char, line: string, event: string) returns (run: Log<Action>, s: State)
    requires LowerLaw(lower) && line != "" && Trimmed(line) && IsExit(Parse(lower, line, false))
    ensures Reaches(lower, Init(), run, s) && s.core.client == AwaitReply(line) && s.core.server == Parting(line)
    ensures forall more, s' :: Reaches(lower, s, more, s') ==> s'.core.client == s.core.client
  {
    TrimmedStays(line);
    TypingRefines(lower, line);
    run, s := EventBegun(lower, event);
    run, s := Play(lower, Init(), run, s, Client(TypeMenu(line)));
    assert s.up == Upward([line], [], []);
    run, s := Play(lower, Init(), run, s, Pipe(ReaderRead));
    run, s := Play(lower, Init(), run, s, Pipe(ReaderPut));
    assert s.up.cmdCh == [line];
    run, s := Play(lower, Init(), run, s, Server(MenuTake(Text("-"))));
    run, s := Play(lower, Init(), run, s, Server(Send));
    forall more, s' | Reaches(lower, s, more, s')
      ensures s'.core.client == s.core.client
    {
      CutOffStays(lower, s, more, s');
    }
  }
}
