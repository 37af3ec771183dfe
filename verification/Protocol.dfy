/** The client, the server that serves it, and everything between them.
  *
  * Client: the main loop (menu and session), the frame router with its three channels and the event
  * printer. Server: the reader goroutine with cmdCh, the dispatcher (menu loop and passthrough
  * loop), the writer with outCh, and whoever else sends on outCh: the event forwarder and the RX
  * goroutines of all attaches so far. Every blocking point is a state; an actor that fails or is
  * cancelled simply takes no further step.
  */
module Protocol {
  import opened Prelude
  import opened Text
  import opened Parser

  const CMD_CAP := 8
  const EVENT_CAP := 32

  datatype Frame = Event(text: string) | Response(text: string) | SessionStart(text: string)

  datatype Mode = Menu | Session

  /** A line and the mode of the side that sent or took it. */
  datatype Entry = Entry(mode: Mode, line: string)

  /** A command that awaits a reply, and the reply. */
  datatype Reply = Reply(line: string, frame: Frame)

  datatype ClientPc =
    | MenuInput
    | AwaitReply(line: string)   // after any menu command but `use`
    | AwaitUse(line: string)     // after `use`: a session start or a response
    | SessionInput
    | AwaitDetach(line: string)  // after a word that ends session mode

  datatype ServerPc =
    | MenuLoop
    | Responding(line: string, text: string)  // about to send a response on outCh
    | Starting(line: string, info: string)    // about to send the session-start frame
    | Goodbye(line: string)                   // about to begin the frame "Bye.", past the writer
    | Parting(line: string)                   // inside that frame
    | Passthrough
    | Echoing(text: string)                   // about to send the output of a local command
    | Detaching(line: string, text: string)   // about to send the response that ends session mode

  /** `typed` and `handled`: the lines the client sent and the server took. `answered` and
    * `received`: the replies the server sent and the client got. */
  datatype Core = Core(
    client: ClientPc,
    server: ServerPc,
    rxDone: bool,   // the current attach's RX goroutine has closed rxDone
    typed: seq<Entry>,
    handled: seq<Entry>,
    answered: seq<Reply>,
    received: seq<Reply>)

  datatype Alive = Alive(client: bool, server: bool, reader: bool, writer: bool, router: bool)

  /** To the server: the wire, the reader's hands (at most one line) and cmdCh. */
  datatype Upward = Upward(wire: seq<string>, hold: seq<string>, cmdCh: seq<string>)

  /** To the client: outCh, the writer's hands (at most one frame), the wire, the router's hands (at
    * most one frame) and the router's channels. `writing`: the writer is inside its frame. `broken`: one
    * frame was begun inside another, and the client can read nothing behind what is on `wire`. */
  datatype Downward = Downward(
    outCh: seq<Frame>, writer: seq<Frame>, wire: seq<Frame>, router: seq<Frame>,
    responseCh: seq<Frame>, startCh: seq<Frame>, eventCh: seq<Frame>, writing: bool, broken: bool)

  const EMPTY := Downward([], [], [], [], [], [], [], false, false)

  /** `rxLive`: RX goroutines that have not returned. */
  datatype State = State(core: Core, alive: Alive, rxLive: nat, up: Upward, down: Downward)

  /** What the managers, the shell or the session make of a command. */
  datatype Outcome = Text(text: string) | Attach(info: string)

  datatype ClientAction =
    | TypeMenu(raw: string)
    | TypeSession(raw: string)
    | GetReply
    | GetUseReply
    | GetStart
    | GetDetach
    | SessionEof          // end of input in session mode: back to the menu without telling the server
    | StopClient

  /** The goroutines that only pass things on. */
  datatype PipeAction =
    | RouterRead | RouterPut | PrintEvent | StopRouter
    | ReaderRead | ReaderPut | StopReader
    | WriterTake | WriterStart | WriterPut | StopWriter

  datatype ServerAction =
    | MenuTake(o: Outcome)
    | SessionTake(dead: bool, text: string)  // `dead`: what State() says; `text`: the output or notice
    | Send                // the dispatcher's pending send or write
    | ReturnOnRxDone
    | StopServer

  /** The other senders on outCh. */
  datatype FeedAction =
    | PushEvent(text: string)
    | RxReturn                               // an RX goroutine sees exitFlag and returns
    | RxNotice(current: bool, text: string)  // an RX goroutine saw Dead: its back-to-menu response

  datatype Action = Client(c: ClientAction) | Pipe(p: PipeAction) | Server(d: ServerAction) | Feed(f: FeedAction)

  function Init(): State
  {
    State(Core(MenuInput, MenuLoop, false, [], [], [], []),
          Alive(true, true, true, true, true), 0, Upward([], [], []), EMPTY)
  }

  /** The reply to a menu line once its outcome is known; a silent one gets none. */
  function AfterMenuLine(lower: char -> char, line: string, o: Outcome): ServerPc
  {
    var cmd := Parse(lower, line, false);
    if cmd.kind.CmdEmpty? then MenuLoop
    else if IsExit(cmd) then Goodbye(line)
    else if cmd.kind.CmdSpecial? then Responding(line, "[server] special commands are not supported in server mode")
    else if o.Attach? then Starting(line, o.info)
    else if o.text == "" then MenuLoop
    else Responding(line, o.text)
  }

  /** Only a system command can print nothing, and only `use` with an argument can attach. */
  predicate Possible(lower: char -> char, line: string, o: Outcome)
  {
    var cmd := Parse(lower, line, false);
    && (o.Attach? ==> IsUse(cmd) && cmd.args != [])
    && (o.Text? && o.text == "" ==> cmd.kind.CmdSystem?)
  }

  predicate ToExit(word: string)
  {
    word == "+exit" || word == "exit"
  }

  function AfterSessionLine(line: string, dead: bool, text: string): ServerPc
  {
    var word := TrimSpace(line);
    if word == "+back" then Detaching(line, "  Returning to menu. Session is still open.")
    else if word == "+bg" || word == "+background" then Detaching(line, text)
    else if ToExit(word) then Detaching(line, "Bye.")
    else if !dead && |line| > 1 && line[0] == '!' then Echoing(text)
    else Passthrough
  }

  predicate InSession(server: ServerPc)
  {
    server.Passthrough? || server.Echoing?
  }

  predicate CanSend(s: State)
  {
    match s.core.server
    case Responding(_, _) => |s.down.outCh| < OUT_CAP
    case Starting(_, _) => |s.down.outCh| < OUT_CAP
    case Goodbye(_) => true
    case Parting(_) => true
    case Echoing(_) => |s.down.outCh| < OUT_CAP
    case Detaching(_, _) => |s.down.outCh| < OUT_CAP
    case _ => false
  }

  predicate ClientEnabled(s: State, a: ClientAction)
  {
    match a
    case TypeMenu(raw) => s.alive.client && s.core.client.MenuInput? && TrimSpace(raw) != ""
    case TypeSession(_) => s.alive.client && s.core.client.SessionInput?
    case GetReply => s.alive.client && s.core.client.AwaitReply? && s.down.responseCh != []
    case GetUseReply => s.alive.client && s.core.client.AwaitUse? && s.down.responseCh != []
    case GetStart => s.alive.client && s.core.client.AwaitUse? && s.down.startCh != []
    case GetDetach => s.alive.client && s.core.client.AwaitDetach? && s.down.responseCh != []
    case SessionEof => s.alive.client && s.core.client.SessionInput?
    case StopClient => true
  }

  predicate PipeEnabled(s: State, a: PipeAction)
  {
    match a
    case RouterRead => s.alive.router && s.down.router == [] && s.down.wire != []
    case RouterPut =>
      s.alive.router && s.down.router != [] &&
      (match s.down.router[0]
       case Event(_) => |s.down.eventCh| < EVENT_CAP
       case Response(_) => s.down.responseCh == []
       case SessionStart(_) => s.down.startCh == [])
    case PrintEvent => s.down.eventCh != []
    case StopRouter => true
    case ReaderRead => s.alive.reader && s.up.hold == [] && s.up.wire != []
    case ReaderPut => s.alive.reader && s.up.hold != [] && |s.up.cmdCh| < CMD_CAP
    case StopReader => true
    case WriterTake => s.alive.writer && s.down.writer == [] && s.down.outCh != []
    case WriterStart => s.alive.writer && s.down.writer != [] && !s.down.writing
    case WriterPut => s.alive.writer && s.down.writer != [] && s.down.writing
    case StopWriter => true
  }

  predicate ServerEnabled(lower: char -> char, s: State, a: ServerAction)
  {
    match a
    case MenuTake(o) =>
      s.alive.server && s.core.server.MenuLoop? && s.up.cmdCh != [] && Possible(lower, s.up.cmdCh[0], o)
    case SessionTake(_, _) => s.alive.server && s.core.server.Passthrough? && s.up.cmdCh != []
    case Send => s.alive.server && CanSend(s)
    case ReturnOnRxDone => s.alive.server && s.core.server.Passthrough? && s.core.rxDone
    case StopServer => true
  }

  predicate FeedEnabled(s: State, a: FeedAction)
  {
    match a
    case PushEvent(_) => |s.down.outCh| < OUT_CAP
    case RxReturn => s.rxLive > 0
    case RxNotice(current, _) =>
      s.rxLive > 0 && |s.down.outCh| < OUT_CAP && (current ==> InSession(s.core.server) && !s.core.rxDone)
  }

  predicate Enabled(lower: char -> char, s: State, a: Action)
  {
    match a
    case Client(c) => ClientEnabled(s, c)
    case Pipe(p) => PipeEnabled(s, p)
    case Server(d) => ServerEnabled(lower, s, d)
    case Feed(f) => FeedEnabled(s, f)
  }

  /** The client takes a reply. */
  function Receive(core: Core, client: ClientPc, line: string, f: Frame): Core
  {
    core.(client := client, received := core.received + [Reply(line, f)])
  }

  predicate Replying(server: ServerPc)
  {
    server.Responding? || server.Starting? || server.Parting? || server.Detaching?
  }

  /** The frame of the dispatcher's pending send. */
  function Sent(server: ServerPc): Frame
    requires Replying(server)
  {
    match server
    case Responding(_, text) => Response(text)
    case Starting(_, info) => SessionStart(info)
    case Parting(_) => Response("Bye.")
    case Detaching(_, text) => Response(text)
  }

  /** The dispatcher sends a reply to a command line and goes on: into the passthrough loop after a
    * session start, else to the menu loop. */
  function Answer(core: Core): Core
    requires Replying(core.server)
  {
    core.(server := if core.server.Starting? then Passthrough else MenuLoop,
          rxDone := core.rxDone && !core.server.Starting?,
          answered := core.answered + [Reply(core.server.line, Sent(core.server))])
  }

  function Enqueue(d: Downward, f: Frame): Downward
  {
    d.(outCh := d.outCh + [f])
  }

  /** A frame is complete; it can be read unless it is mixed with another or comes behind such. */
  function PutOnWire(d: Downward, frames: seq<Frame>): Downward
  {
    if d.broken then d else d.(wire := d.wire + frames)
  }

  function DoSend(s: State): State
    requires CanSend(s)
  {
    if s.core.server.Echoing? then
      s.(core := s.core.(server := Passthrough), down := Enqueue(s.down, Event(s.core.server.text)))
    else if s.core.server.Goodbye? then
      s.(core := s.core.(server := Parting(s.core.server.line)),
         down := s.down.(broken := s.down.broken || s.down.writing))
    else if s.core.server.Parting? then
      s.(core := Answer(s.core), down := PutOnWire(s.down, [Sent(s.core.server)]), alive := s.alive.(server := false))
    else
      s.(core := Answer(s.core), down := Enqueue(s.down, Sent(s.core.server)),
         rxLive := if s.core.server.Starting? then s.rxLive + 1 else s.rxLive)
  }

  /** The router hands its frame to the channel of its kind. */
  function Route(d: Downward): Downward
    requires d.router != []
  {
    var f := d.router[0];
    match f
    case Event(_) => d.(router := d.router[1..], eventCh := d.eventCh + [f])
    case Response(_) => d.(router := d.router[1..], responseCh := d.responseCh + [f])
    case SessionStart(_) => d.(router := d.router[1..], startCh := d.startCh + [f])
  }

  function DoClient(lower: char -> char, s: State, a: ClientAction): State
    requires ClientEnabled(s, a)
  {
    match a
    case TypeMenu(raw) =>
      var line := TrimSpace(raw);
      s.(core := s.core.(client := if ClientSeesUse(lower, line) then AwaitUse(line) else AwaitReply(line),
                         typed := s.core.typed + [Entry(Menu, TrimSpace(raw))]),
         up := s.up.(wire := s.up.wire + [line]))
    case TypeSession(raw) =>
      var line := SessionLine(raw);
      s.(core := s.core.(client := if IsDetach(TrimSpace(line)) then AwaitDetach(TrimSpace(line)) else SessionInput,
                         typed := s.core.typed + [Entry(Session, TrimSpace(raw))]),
         up := s.up.(wire := s.up.wire + [line]))
    case GetReply =>
      var line := s.core.client.line;
      s.(core := Receive(s.core, MenuInput, line, s.down.responseCh[0]),
         down := s.down.(responseCh := s.down.responseCh[1..]),
         alive := s.alive.(client := !ClientSeesExit(lower, line)))
    case GetUseReply =>
      s.(core := Receive(s.core, MenuInput, s.core.client.line, s.down.responseCh[0]),
         down := s.down.(responseCh := s.down.responseCh[1..]))
    case GetStart =>
      s.(core := Receive(s.core, SessionInput, s.core.client.line, s.down.startCh[0]),
         down := s.down.(startCh := s.down.startCh[1..]))
    case GetDetach =>
      var line := s.core.client.line;
      s.(core := Receive(s.core, MenuInput, line, s.down.responseCh[0]),
         down := s.down.(responseCh := s.down.responseCh[1..]),
         alive := s.alive.(client := !ToExit(line)))
    case SessionEof => s.(core := s.core.(client := MenuInput))
    case StopClient => s.(alive := s.alive.(client := false))
  }

  function DoPipe(s: State, a: PipeAction): State
    requires PipeEnabled(s, a)
  {
    match a
    case RouterRead => s.(down := s.down.(router := [s.down.wire[0]], wire := s.down.wire[1..]))
    case RouterPut => s.(down := Route(s.down))
    case PrintEvent => s.(down := s.down.(eventCh := s.down.eventCh[1..]))
    case StopRouter => s.(alive := s.alive.(router := false))
    case ReaderRead => s.(up := s.up.(hold := [TrimRight(s.up.wire[0], IsBreak)], wire := s.up.wire[1..]))
    case ReaderPut => s.(up := s.up.(cmdCh := s.up.cmdCh + s.up.hold, hold := []))
    case StopReader => s.(alive := s.alive.(reader := false))
    case WriterTake => s.(down := s.down.(writer := [s.down.outCh[0]], outCh := s.down.outCh[1..]))
    case WriterStart =>
      s.(down := s.down.(writing := true, broken := s.down.broken || s.core.server.Parting?))
    case WriterPut => s.(down := PutOnWire(s.down, s.down.writer).(writer := [], writing := false))
    case StopWriter => s.(alive := s.alive.(writer := false))
  }

  function DoServer(lower: char -> char, s: State, a: ServerAction): State
    requires ServerEnabled(lower, s, a)
  {
    match a
    case MenuTake(o) =>
      var line := s.up.cmdCh[0];
      s.(core := s.core.(server := AfterMenuLine(lower, line, o), handled := s.core.handled + [Entry(Menu, line)]),
         up := s.up.(cmdCh := s.up.cmdCh[1..]))
    case SessionTake(dead, text) =>
      var line := s.up.cmdCh[0];
      s.(core := s.core.(server := AfterSessionLine(line, dead, text),
                         handled := s.core.handled + [Entry(Session, line)]),
         up := s.up.(cmdCh := s.up.cmdCh[1..]))
    case Send => DoSend(s)
    case ReturnOnRxDone => s.(core := s.core.(server := MenuLoop))
    case StopServer => s.(alive := s.alive.(server := false))
  }

  function DoFeed(s: State, a: FeedAction): State
    requires FeedEnabled(s, a)
  {
    match a
    case PushEvent(text) => s.(down := Enqueue(s.down, Event(text)))
    case RxReturn => s.(rxLive := s.rxLive - 1)
    case RxNotice(current, text) =>
      s.(core := s.core.(rxDone := s.core.rxDone || current), down := Enqueue(s.down, Response(text)),
         rxLive := s.rxLive - 1)
  }

  function Do(lower: char -> char, s: State, a: Action): State
    requires Enabled(lower, s, a)
  {
    match a
    case Client(c) => DoClient(lower, s, c)
    case Pipe(p) => DoPipe(s, p)
    case Server(d) => DoServer(lower, s, d)
    case Feed(f) => DoFeed(s, f)
  }

  /** The goodbye and the writer's frame fall into each other. */
  predicate Collision(s: State, a: Action)
  {
    || (a.Pipe? && a.p.WriterStart? && s.core.server.Parting?)
    || (a.Server? && a.d.Send? && s.core.server.Goodbye? && s.down.writing)
  }

  /** What takes client and server out of step: a death seen by any RX goroutine, also one left over
    * from an earlier attach; end of input in session mode; a system command that prints nothing; a
    * goodbye begun inside a frame, or a frame inside the goodbye. */
  predicate Hazard(s: State, a: Action)
  {
    || (a.Feed? && a.f.RxNotice?)
    || (a.Client? && a.c.SessionEof?)
    || (a.Server? && a.d.MenuTake? && a.d.o == Text(""))
    || Collision(s, a)
  }

  /** The state after a run. */
  function Exec(lower: char -> char, from: State, run: Log<Action>): Option<State>
  {
    match run
    case Start => Some(from)
    case Then(before, a) =>
      match Exec(lower, from, before)
      case None => None
      case Some(m) => if Enabled(lower, m, a) then Some(Do(lower, m, a)) else None
  }

  predicate Reaches(lower: char -> char, from: State, run: Log<Action>, s: State)
  {
    Exec(lower, from, run) == Some(s)
  }

  predicate Clean(lower: char -> char, from: State, run: Log<Action>)
  {
    match run
    case Start => true
    case Then(before, a) =>
      Clean(lower, from, before) &&
      (match Exec(lower, from, before)
       case None => true
       case Some(m) => !Hazard(m, a))
  }

  // ----- what is in flight -------------------------------------------------------------------

  /** The frames that somebody waits for. */
  function Awaited(frames: seq<Frame>): seq<Frame>
  {
    if frames == [] then []
    else if frames[0].Event? then Awaited(frames[1..])
    else [frames[0]] + Awaited(frames[1..])
  }

  function Breakless(lines: seq<string>): (r: seq<string>)
    ensures |r| == |lines|
    ensures forall i :: 0 <= i < |lines| ==> r[i] == TrimRight(lines[i], IsBreak)
  {
    seq(|lines|, i requires 0 <= i < |lines| => TrimRight(lines[i], IsBreak))
  }

  /** Lines on their way to the dispatcher. */
  function Up(u: Upward): seq<string>
  {
    u.cmdCh + u.hold + Breakless(u.wire)
  }

  /** Replies on their way to the client. */
  function Down(d: Downward): seq<Frame>
  {
    d.responseCh + d.startCh + Awaited(d.router) + Awaited(d.wire) + Awaited(d.writer) + Awaited(d.outCh)
  }

  /** Every channel keeps its capacity, the router sorts frames by kind, and the wire is whole. */
  predicate Sized(u: Upward, d: Downward)
  {
    && |u.hold| <= 1 && |u.cmdCh| <= CMD_CAP
    && |d.writer| <= 1 && |d.router| <= 1 && (d.writing ==> d.writer != []) && !d.broken
    && |d.outCh| <= OUT_CAP && |d.eventCh| <= EVENT_CAP
    && |d.responseCh| <= 1 && (d.responseCh != [] ==> d.responseCh[0].Response?)
    && |d.startCh| <= 1 && (d.startCh != [] ==> d.startCh[0].SessionStart?)
  }

  // ----- being in step -----------------------------------------------------------------------

  /** Everything typed has been handled or is in flight, mode and all. */
  predicate SameLines(core: Core, up: seq<string>, mode: Mode)
  {
    core.typed == core.handled + seq(|up|, i requires 0 <= i < |up| => Entry(mode, up[i]))
  }

  predicate NoDetach(up: seq<string>)
  {
    forall i :: 0 <= i < |up| ==> !IsDetach(TrimSpace(up[i]))
  }

  predicate Settled(core: Core, down: seq<Frame>)
  {
    down == [] && core.answered == core.received
  }

  predicate Outstanding(core: Core, down: seq<Frame>, line: string)
  {
    |down| == 1 && core.answered == core.received + [Reply(line, down[0])]
  }

  /** The client prompts for a menu command. */
  predicate InMenu(core: Core, up: seq<string>, down: seq<Frame>)
  {
    core.server.MenuLoop? && up == [] && SameLines(core, up, Menu) && Settled(core, down)
  }

  /** The client waits for the reply to a menu command. */
  predicate InWait(lower: char -> char, core: Core, up: seq<string>, down: seq<Frame>, line: string, use: bool)
  {
    && use == ClientSeesUse(lower, line) && line != "" && Trimmed(line)
    && SameLines(core, up, Menu)
    && match core.server
       case MenuLoop =>
         || (up == [line] && Settled(core, down))
         || (up == [] && Outstanding(core, down, line) && down[0].Response?)
       case Responding(about, _) => about == line && up == [] && Settled(core, down)
       case Goodbye(about) => about == line && up == [] && Settled(core, down)
       case Parting(about) => about == line && up == [] && Settled(core, down)
       case Starting(about, _) => about == line && use && up == [] && Settled(core, down)
       case Passthrough => use && up == [] && Outstanding(core, down, line) && down[0].SessionStart?
       case _ => false
  }

  /** The client prompts for a session line. */
  predicate InPassthrough(core: Core, up: seq<string>, down: seq<Frame>)
  {
    InSession(core.server) && NoDetach(up) && SameLines(core, up, Session) && Settled(core, down)
  }

  /** The client waits for the response that ends session mode. */
  predicate InDetach(core: Core, up: seq<string>, down: seq<Frame>, line: string)
  {
    && IsDetach(line) && Trimmed(line)
    && SameLines(core, up, Session)
    && match core.server
       case Passthrough => up != [] && NoDetach(up[..|up| - 1]) && up[|up| - 1] == line && Settled(core, down)
       case Echoing(_) => up != [] && NoDetach(up[..|up| - 1]) && up[|up| - 1] == line && Settled(core, down)
       case Detaching(about, _) => about == line && up == [] && Settled(core, down)
       case MenuLoop => up == [] && Outstanding(core, down, line) && down[0].Response?
       case _ => false
  }

  predicate InStep(lower: char -> char, core: Core, up: seq<string>, down: seq<Frame>)
  {
    && !core.rxDone
    && match core.client
       case MenuInput => InMenu(core, up, down)
       case AwaitReply(line) => InWait(lower, core, up, down, line, false)
       case AwaitUse(line) => InWait(lower, core, up, down, line, true)
       case SessionInput => InPassthrough(core, up, down)
       case AwaitDetach(line) => InDetach(core, up, down, line)
  }

  predicate LockStep(lower: char -> char, s: State)
  {
    Sized(s.up, s.down) && InStep(lower, s.core, Up(s.up), Down(s.down))
  }
}
