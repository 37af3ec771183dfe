/** What the replies and events say: each is tied to what the manager, the shell or the session made of
  * the command, by the actions of the run.
  */
module Replies {
  import opened Prelude
  import opened Text
  import opened Parser
  import opened Protocol
  import L = LockStepProof

  // ----- replies -----------------------------------------------------------------------------

  /** The reply due to a menu line with an outcome. */
  function MenuDue(lower: char -> char, line: string, o: Outcome): seq<Frame>
  {
    var cmd := Parse(lower, line, false);
    if cmd.kind.CmdEmpty? || o == Text("") then []
    else if (cmd.kind.CmdTool? && cmd.verb == "exit") || (cmd.kind.CmdSpecial? && cmd.verb == "+exit") then
      [Response("Bye.")]
    else if cmd.kind.CmdSpecial? then [Response("[server] special commands are not supported in server mode")]
    else
      match o
      case Text(text) => [Response(text)]
      case Attach(info) => [SessionStart(info)]
  }

  /** The reply due to a session line; `text` is the notice that names the session. */
  function SessionDue(line: string, text: string): seq<Frame>
  {
    match TrimSpace(line)
    case "+back" => [Response("  Returning to menu. Session is still open.")]
    case "+bg" => [Response(text)]
    case "+background" => [Response(text)]
    case "+exit" => [Response("Bye.")]
    case "exit" => [Response("Bye.")]
    case _ => []
  }

  function ForLine(line: string, frames: seq<Frame>): seq<Reply>
  {
    if frames == [] then [] else [Reply(line, frames[0])]
  }

  /** What an action of the dispatcher makes due. */
  function DueOf(lower: char -> char, s: State, a: Action): seq<Reply>
  {
    if a.Server? && s.up.cmdCh != [] then
      var line := s.up.cmdCh[0];
      match a.d
      case MenuTake(o) => ForLine(line, MenuDue(lower, line, o))
      case SessionTake(_, text) => ForLine(line, SessionDue(line, text))
      case _ => []
    else []
  }

  function Dues(lower: char -> char, run: Log<Action>): seq<Reply>
  {
    match run
    case Start => []
    case Then(before, a) =>
      match Exec(lower, Init(), before)
      case None => Dues(lower, before)
      case Some(m) => Dues(lower, before) + DueOf(lower, m, a)
  }

  /** The reply that the dispatcher is about to make. */
  function Pending(server: ServerPc): seq<Reply>
  {
    match server
    case Responding(line, text) => [Reply(line, Response(text))]
    case Starting(line, info) => [Reply(line, SessionStart(info))]
    case Goodbye(line) => [Reply(line, Response("Bye."))]
    case Parting(line) => [Reply(line, Response("Bye."))]
    case Detaching(line, text) => [Reply(line, Response(text))]
    case _ => []
  }

  lemma MenuPends(lower: char -> char, line: string, o: Outcome)
    requires LowerLaw(lower) && Possible(lower, line, o)
    ensures Pending(AfterMenuLine(lower, line, o)) == ForLine(line, MenuDue(lower, line, o))
  {
    ExitVerbs(lower, line);
  }

  /** A special command's verb starts with `+`. */
  lemma ExitVerbs(lower: char -> char, line: string)
    requires LowerLaw(lower)
    ensures var cmd := Parse(lower, line, false);
      IsExit(cmd) <==> (cmd.kind.CmdTool? && cmd.verb == "exit") || (cmd.kind.CmdSpecial? && cmd.verb == "+exit")
  {
    if Parse(lower, line, false).kind.CmdSpecial? {
      TrimSpaceTrims(line);
      WordHead(lower, TrimSpace(line));
    }
  }

  lemma SessionPends(line: string, dead: bool, text: string)
    ensures Pending(AfterSessionLine(line, dead, text)) == ForLine(line, SessionDue(line, text))
  {
  }

  lemma SendAnswers(s: State)
    requires CanSend(s)
    ensures DoSend(s).core.answered + Pending(DoSend(s).core.server)
         == s.core.answered + Pending(s.core.server)
  {
  }

  lemma DueStep(lower: char -> char, s: State, a: Action)
    requires LowerLaw(lower) && Enabled(lower, s, a)
    ensures var s' := Do(lower, s, a);
      s'.core.answered + Pending(s'.core.server) == s.core.answered + Pending(s.core.server) + DueOf(lower, s, a)
  {
    match a
    case Server(d) =>
      match d {
        case MenuTake(o) => MenuPends(lower, s.up.cmdCh[0], o);
        case SessionTake(dead, text) => SessionPends(s.up.cmdCh[0], dead, text);
        case Send => SendAnswers(s);
        case _ =>
      }
    case _ =>
  }

  /** In every run, hazards included, the replies the dispatcher has sent, and the one it is about to
    * send, are those due by the outcomes its actions carried, in order. */
  lemma {:induction false} AnswersAreDue(lower: char -> char, run: Log<Action>, s: State)
    requires LowerLaw(lower) && Reaches(lower, Init(), run, s)
    ensures s.core.answered + Pending(s.core.server) == Dues(lower, run)
    decreases run
  {
    if run.Then? {
      var m := Exec(lower, Init(), run.before).value;
      AnswersAreDue(lower, run.before, m);
      DueStep(lower, m, run.last);
    }
  }

  /** The client gets what its commands came to: over every run without a hazard, the replies it has
    * received are the first of those due, line and frame, and at its menu prompt they are all of them. */
  lemma RepliesAreOutcomes(lower: char -> char, run: Log<Action>, s: State)
    requires LowerLaw(lower) && Clean(lower, Init(), run) && Reaches(lower, Init(), run, s)
    ensures s.core.received <= Dues(lower, run)
    ensures s.core.client.MenuInput? ==> s.core.received == Dues(lower, run)
  {
    AnswersAreDue(lower, run, s);
    L.ClientServerLockStep(lower, run, s);
    assert s.core.answered <= Dues(lower, run);
  }

  // ----- events ------------------------------------------------------------------------------

  function TextOf(f: Frame): seq<string>
  {
    if f.Event? then [f.text] else []
  }

  function Texts(frames: seq<Frame>): seq<string>
    decreases |frames|
  {
    if frames == [] then [] else Texts(frames[..|frames| - 1]) + TextOf(frames[|frames| - 1])
  }

  lemma {:induction false} TextsAppend(a: seq<Frame>, b: seq<Frame>)
    ensures Texts(a + b) == Texts(a) + Texts(b)
    decreases |b|
  {
    if b == [] {
      assert a + b == a;
    } else {
      assert (a + b)[..|a + b| - 1] == a + b[..|b| - 1];
      TextsAppend(a, b[..|b| - 1]);
    }
  }

  lemma TextsHead(a: seq<Frame>)
    requires a != []
    ensures Texts(a) == TextOf(a[0]) + Texts(a[1..]) && Texts([a[0]]) == TextOf(a[0])
  {
    TextsAppend([a[0]], a[1..]);
    assert [a[0]] + a[1..] == a;
    assert [a[0]][..0] == [];
  }

  /** The text of the last session line's outcome in a run. */
  function LastOutput(run: Log<Action>): string
  {
    match run
    case Start => ""
    case Then(before, a) => if a.Server? && a.d.SessionTake? then a.d.text else LastOutput(before)
  }

  /** What an action prints. */
  function PrintedBy(s: State, a: Action): seq<string>
  {
    if a == Pipe(PrintEvent) && s.down.eventCh != [] then TextOf(s.down.eventCh[0]) else []
  }

  /** What it sends as an event: what event forwarder and RX goroutines send, and the output of a local
    * command typed in session mode. */
  function SentBy(s: State, a: Action, output: string): seq<string>
  {
    if a.Feed? && a.f.PushEvent? then [a.f.text]
    else if a.Server? && a.d.Send? && s.core.server.Echoing? then [output]
    else []
  }

  function EventsSent(lower: char -> char, run: Log<Action>): seq<string>
  {
    match run
    case Start => []
    case Then(before, a) =>
      match Exec(lower, Init(), before)
      case None => EventsSent(lower, before)
      case Some(m) => EventsSent(lower, before) + SentBy(m, a, LastOutput(before))
  }

  function Printed(lower: char -> char, run: Log<Action>): seq<string>
  {
    match run
    case Start => []
    case Then(before, a) =>
      match Exec(lower, Init(), before)
      case None => Printed(lower, before)
      case Some(m) => Printed(lower, before) + PrintedBy(m, a)
  }

  /** Events on their way, nearest to the client first. */
  function EventsInFlight(d: Downward): seq<string>
  {
    Texts(d.eventCh) + (Texts(d.router) + (Texts(d.wire) + (Texts(d.writer) + Texts(d.outCh))))
  }

  lemma Join(a: seq<string>, b: seq<string>, c: seq<string>)
    ensures (a + b) + c == a + (b + c) && [] + a == a == a + []
  {
  }

  lemma ReadEvents(d: Downward)
    requires d.wire != [] && d.router == []
    ensures EventsInFlight(d.(router := [d.wire[0]], wire := d.wire[1..])) == EventsInFlight(d)
  {
    TextsHead(d.wire);
    var behind := Texts(d.writer) + Texts(d.outCh);
    Join(TextOf(d.wire[0]), Texts(d.wire[1..]), behind);
    Join(Texts(d.wire) + behind, [], []);
    assert Texts(d.router) == [];
  }

  lemma TakeEvents(d: Downward)
    requires d.outCh != [] && d.writer == []
    ensures EventsInFlight(d.(writer := [d.outCh[0]], outCh := d.outCh[1..])) == EventsInFlight(d)
  {
    TextsHead(d.outCh);
    Join(Texts(d.outCh), [], []);
    assert Texts(d.writer) == [];
  }

  lemma PutEvents(d: Downward)
    ensures EventsInFlight(d.(wire := d.wire + d.writer, writer := [])) == EventsInFlight(d)
  {
    TextsAppend(d.wire, d.writer);
    Join(Texts(d.wire), Texts(d.writer), Texts(d.outCh));
    Join(Texts(d.outCh), [], []);
    assert Texts([]) == [];
  }

  lemma PrintEvents(d: Downward)
    requires d.eventCh != []
    ensures EventsInFlight(d) == TextOf(d.eventCh[0]) + EventsInFlight(d.(eventCh := d.eventCh[1..]))
  {
    TextsHead(d.eventCh);
    Join(TextOf(d.eventCh[0]), Texts(d.eventCh[1..]),
         Texts(d.router) + (Texts(d.wire) + (Texts(d.writer) + Texts(d.outCh))));
  }

  /** Events lie in these five places only. */
  predicate SamePlaces(d: Downward, d': Downward)
  {
    && d'.eventCh == d.eventCh && d'.router == d.router && d'.wire == d.wire
    && d'.writer == d.writer && d'.outCh == d.outCh
  }

  /** Whatever passes frames on keeps the events in order. */
  lemma PipeEvents(s: State, a: PipeAction)
    requires PipeEnabled(s, a) && !DoPipe(s, a).down.broken
    ensures a.PrintEvent? ==>
      EventsInFlight(s.down) == TextOf(s.down.eventCh[0]) + EventsInFlight(DoPipe(s, a).down)
    ensures !a.PrintEvent? ==> EventsInFlight(s.down) == EventsInFlight(DoPipe(s, a).down)
  {
    match a
    case RouterRead => ReadEvents(s.down);
    case RouterPut => RouteEvents(s.down);
    case PrintEvent => PrintEvents(s.down);
    case WriterTake => TakeEvents(s.down);
    case WriterPut =>
      PutEvents(s.down);
      assert SamePlaces(s.down.(wire := s.down.wire + s.down.writer, writer := []), DoPipe(s, a).down);
    case _ => assert SamePlaces(s.down, DoPipe(s, a).down);
  }

  lemma RouteEvents(d: Downward)
    requires d.router != []
    ensures EventsInFlight(Route(d)) == EventsInFlight(d)
  {
    var f := d.router[0];
    var behind := Texts(d.wire) + (Texts(d.writer) + Texts(d.outCh));
    TextsHead(d.router);
    Join(TextOf(f), Texts(d.router[1..]), behind);
    if f.Event? {
      TextsAppend(d.eventCh, [f]);
      TextsHead([f]);
      Join(TextOf(f), [], []);
      Join(Texts(d.eventCh), TextOf(f), Texts(d.router[1..]) + behind);
    } else {
      Join(Texts(d.router[1..]) + behind, [], []);
    }
  }

  lemma EnqueueEvents(d: Downward, f: Frame)
    ensures EventsInFlight(Enqueue(d, f)) == EventsInFlight(d) + TextOf(f)
  {
    TextsAppend(d.outCh, [f]);
    TextsHead([f]);
    Join(Texts(d.writer), Texts(d.outCh), TextOf(f));
    Join(Texts(d.wire), Texts(d.writer) + Texts(d.outCh), TextOf(f));
    Join(Texts(d.router), Texts(d.wire) + (Texts(d.writer) + Texts(d.outCh)), TextOf(f));
    Join(Texts(d.eventCh), Texts(d.router) + (Texts(d.wire) + (Texts(d.writer) + Texts(d.outCh))), TextOf(f));
  }

  lemma SendEvents(s: State, output: string)
    requires CanSend(s) && !s.down.broken && (s.core.server.Echoing? ==> s.core.server.text == output)
    ensures EventsInFlight(DoSend(s).down)
         == EventsInFlight(s.down) + if s.core.server.Echoing? then [output] else []
  {
    if s.core.server.Echoing? {
      EnqueueEvents(s.down, Event(output));
    } else if s.core.server.Parting? {
      TextsAppend(s.down.wire, [Sent(s.core.server)]);
      TextsHead([Sent(s.core.server)]);
      assert Texts(s.down.wire) + [] == Texts(s.down.wire);
    } else if Replying(s.core.server) {
      EnqueueEvents(s.down, Sent(s.core.server));
    }
  }

  lemma BrokenStays(lower: char -> char, s: State, a: Action)
    requires Enabled(lower, s, a) && s.down.broken
    ensures Do(lower, s, a).down.broken
  {
  }

  lemma FeedEvents(s: State, a: FeedAction)
    requires FeedEnabled(s, a)
    ensures EventsInFlight(DoFeed(s, a).down) == EventsInFlight(s.down) + if a.PushEvent? then [a.text] else []
  {
    match a
    case PushEvent(text) => EnqueueEvents(s.down, Event(text));
    case RxNotice(_, text) => EnqueueEvents(s.down, Response(text));
    case RxReturn => Join(EventsInFlight(s.down), [], []);
  }

  lemma ClientPlaces(lower: char -> char, s: State, a: ClientAction)
    requires ClientEnabled(s, a)
    ensures SamePlaces(s.down, DoClient(lower, s, a).down)
  {
  }

  lemma ServerPlaces(lower: char -> char, s: State, a: ServerAction)
    requires ServerEnabled(lower, s, a) && !a.Send?
    ensures SamePlaces(s.down, DoServer(lower, s, a).down)
  {
  }

  /** Step by step, what is printed leaves in front and what is sent joins at the end. */
  lemma EventStep(lower: char -> char, s: State, a: Action, output: string)
    requires Enabled(lower, s, a) && !Do(lower, s, a).down.broken && !s.down.broken
    requires s.core.server.Echoing? ==> s.core.server.text == output
    ensures EventsInFlight(s.down) + SentBy(s, a, output)
         == PrintedBy(s, a) + EventsInFlight(Do(lower, s, a).down)
  {
    Join(EventsInFlight(s.down), [], []);
    Join(EventsInFlight(Do(lower, s, a).down), [], []);
    match a
    case Pipe(p) => PipeEvents(s, p);
    case Server(d) =>
      if d.Send? {
        SendEvents(s, output);
      } else {
        ServerPlaces(lower, s, d);
      }
    case Feed(f) => FeedEvents(s, f);
    case Client(c) => ClientPlaces(lower, s, c);
  }

  lemma EchoesLast(lower: char -> char, s: State, a: Action, output: string)
    requires Enabled(lower, s, a) && (s.core.server.Echoing? ==> s.core.server.text == output)
    ensures var output' := if a.Server? && a.d.SessionTake? then a.d.text else output;
      var server := Do(lower, s, a).core.server; server.Echoing? ==> server.text == output'
  {
  }

  /** Events reach the terminal in order: in every run, as long as the wire is whole, the texts printed,
    * followed by those on their way, are the events sent, and an echo is the output of its command. */
  lemma {:induction false} EventsInOrder(lower: char -> char, run: Log<Action>, s: State)
    requires Reaches(lower, Init(), run, s)
    ensures s.core.server.Echoing? ==> s.core.server.text == LastOutput(run)
    ensures !s.down.broken ==> Printed(lower, run) + EventsInFlight(s.down) == EventsSent(lower, run)
    decreases run
  {
    if run.Then? {
      var m, a := Exec(lower, Init(), run.before).value, run.last;
      EventsInOrder(lower, run.before, m);
      EchoesLast(lower, m, a, LastOutput(run.before));
      if !s.down.broken {
        if m.down.broken {
          BrokenStays(lower, m, a);
        } else {
          EventStep(lower, m, a, LastOutput(run.before));
          EventsJoin(lower, run, m, s);
        }
      }
    }
  }

  lemma EventsJoin(lower: char -> char, run: Log<Action>, m: State, s: State)
    requires run.Then? && Reaches(lower, Init(), run.before, m)
    requires Printed(lower, run.before) + EventsInFlight(m.down) == EventsSent(lower, run.before)
    requires EventsInFlight(m.down) + SentBy(m, run.last, LastOutput(run.before))
          == PrintedBy(m, run.last) + EventsInFlight(s.down)
    ensures Printed(lower, run) + EventsInFlight(s.down) == EventsSent(lower, run)
  {
    Join(Printed(lower, run.before), PrintedBy(m, run.last), EventsInFlight(s.down));
    Join(Printed(lower, run.before), EventsInFlight(m.down), SentBy(m, run.last, LastOutput(run.before)));
  }

  // ----- who leaves --------------------------------------------------------------------------

  /** The user ends the program, or the reply to an exit word has come. */
  predicate Leaving(lower: char -> char, s: State, a: Action)
  {
    a.Client? &&
    match a.c
    case StopClient => true
    case GetReply => s.core.client.AwaitReply? && ToLower(lower, s.core.client.line) in {"exit", "+exit"}
    case GetDetach => s.core.client.AwaitDetach? && s.core.client.line in {"exit", "+exit"}
    case _ => false
  }

  /** The dispatcher fails, or ends its goodbye. */
  predicate Stopping(s: State, a: Action)
  {
    a.Server? && (a.d.StopServer? || (a.d.Send? && s.core.server.Parting?))
  }

  predicate ClientLeft(lower: char -> char, run: Log<Action>)
  {
    match run
    case Start => false
    case Then(before, a) =>
      || ClientLeft(lower, before)
      || (Exec(lower, Init(), before).Some? && Leaving(lower, Exec(lower, Init(), before).value, a))
  }

  predicate ServerStopped(lower: char -> char, run: Log<Action>)
  {
    match run
    case Start => false
    case Then(before, a) =>
      || ServerStopped(lower, before)
      || (Exec(lower, Init(), before).Some? && Stopping(Exec(lower, Init(), before).value, a))
  }

  /** The client leaves exactly after the reply to an exit word, or when its user or terminal ends it; and
    * the dispatcher exactly after its goodbye, or when it fails. */
  lemma {:induction false} LeavesExactly(lower: char -> char, run: Log<Action>, s: State)
    requires Reaches(lower, Init(), run, s)
    ensures s.alive.client <==> !ClientLeft(lower, run)
    ensures s.alive.server <==> !ServerStopped(lower, run)
    decreases run
  {
    if run.Then? {
      var m := Exec(lower, Init(), run.before).value;
      LeavesExactly(lower, run.before, m);
      LeaveStep(lower, m, run.last);
    }
  }

  lemma ClientLeaveStep(lower: char -> char, s: State, a: ClientAction)
    requires ClientEnabled(s, a)
    ensures DoClient(lower, s, a).alive == s.alive.(client := s.alive.client && !Leaving(lower, s, Client(a)))
  {
  }

  lemma ServerStopStep(lower: char -> char, s: State, a: ServerAction)
    requires ServerEnabled(lower, s, a)
    ensures DoServer(lower, s, a).alive == s.alive.(server := s.alive.server && !Stopping(s, Server(a)))
  {
    if a.Send? {
      assert DoSend(s).alive == s.alive.(server := s.alive.server && !s.core.server.Parting?);
    }
  }

  lemma PipeLeavesBoth(s: State, a: PipeAction)
    requires PipeEnabled(s, a)
    ensures DoPipe(s, a).alive.client == s.alive.client && DoPipe(s, a).alive.server == s.alive.server
  {
  }

  lemma LeaveStep(lower: char -> char, s: State, a: Action)
    requires Enabled(lower, s, a)
    ensures Do(lower, s, a).alive.client <==> s.alive.client && !Leaving(lower, s, a)
    ensures Do(lower, s, a).alive.server <==> s.alive.server && !Stopping(s, a)
  {
    match a
    case Client(c) => ClientLeaveStep(lower, s, c);
    case Pipe(p) => PipeLeavesBoth(s, p);
    case Server(d) => ServerStopStep(lower, s, d);
    case Feed(_) =>
  }
}
