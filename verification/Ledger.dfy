/** Falling out of step is final: what client and server count, over all runs with any hazards. */
module Ledger {
  import opened Prelude
  import opened Text
  import opened Parser
  import opened Protocol
  import L = LockStepProof

  /** How often a run has met each hazard, and returned on a death. */
  datatype Tally = Tally(strays: nat, silents: nat, eofs: nat, collisions: nat, deaths: nat)

  function One(b: bool): nat
  {
    if b then 1 else 0
  }

  function Add(t: Tally, s: State, a: Action): Tally
  {
    Tally(t.strays + One(a.Feed? && a.f.RxNotice?),
          t.silents + One(a.Server? && a.d.MenuTake? && a.d.o == Text("")),
          t.eofs + One(a.Client? && a.c.SessionEof?),
          t.collisions + One(Collision(s, a)),
          t.deaths + One(a.Server? && a.d.ReturnOnRxDone?))
  }

  function TallyOf(lower: char -> char, run: Log<Action>): Tally
  {
    match run
    case Start => Tally(0, 0, 0, 0, 0)
    case Then(before, a) =>
      match Exec(lower, Init(), before)
      case None => TallyOf(lower, before)
      case Some(m) => Add(TallyOf(lower, before), m, a)
  }

  predicate NoHazards(t: Tally)
  {
    t.strays == 0 && t.silents == 0 && t.eofs == 0 && t.collisions == 0
  }

  lemma {:induction false} CleanCounts(lower: char -> char, run: Log<Action>, s: State)
    requires Reaches(lower, Init(), run, s)
    ensures Clean(lower, Init(), run) <==> NoHazards(TallyOf(lower, run))
    decreases run
  {
    if run.Then? {
      CleanCounts(lower, run.before, Exec(lower, Init(), run.before).value);
    }
  }

  // ----- what is counted ---------------------------------------------------------------------

  /** The lines that await a reply. */
  predicate Asks(e: Entry)
  {
    e.mode.Menu? || IsDetach(TrimSpace(e.line))
  }

  predicate Leaves(e: Entry)
  {
    e.mode.Session? && IsDetach(TrimSpace(e.line))
  }

  function Count<T>(xs: seq<T>, p: T -> bool): nat
    decreases |xs|
  {
    if xs == [] then 0 else Count(xs[..|xs| - 1], p) + One(p(xs[|xs| - 1]))
  }

  lemma {:induction false} CountAppend<T>(xs: seq<T>, ys: seq<T>, p: T -> bool)
    ensures Count(xs + ys, p) == Count(xs, p) + Count(ys, p)
    decreases |ys|
  {
    if ys == [] {
      assert xs + ys == xs;
    } else {
      assert (xs + ys)[..|xs + ys| - 1] == xs + ys[..|ys| - 1];
      CountAppend(xs, ys[..|ys| - 1], p);
    }
  }

  lemma CountSnoc<T>(xs: seq<T>, x: T, p: T -> bool)
    ensures Count(xs + [x], p) == Count(xs, p) + One(p(x))
  {
    assert (xs + [x])[..|xs|] == xs;
  }

  predicate IsStart(r: Reply)
  {
    r.frame.SessionStart?
  }

  /** The dispatcher owes a reply. */
  predicate Owes(server: ServerPc)
  {
    Replying(server) || server.Goodbye?
  }

  /** Lines and replies, on either side. */
  predicate Balanced(core: Core, t: Tally)
  {
    && Count(core.typed, Asks) == |core.received| + |L.Waiting(core.client)|
    && |core.answered| + One(Owes(core.server)) + t.silents <= Count(core.handled, Asks)
    && Count(core.received, IsStart) == Count(core.typed, Leaves) + One(core.client.SessionInput?) + t.eofs
    && Count(core.answered, IsStart) == Count(core.handled, Leaves) + One(InSession(core.server)) + t.deaths
  }

  /** Replies on their way to the client. */
  function InFlight(d: Downward): nat
  {
    |d.responseCh| + |d.startCh| + |Awaited(d.router)| + |Awaited(d.wire)| + |Awaited(d.writer)| + |Awaited(d.outCh)|
  }

  predicate Sorted(d: Downward)
  {
    && (forall i :: 0 <= i < |d.responseCh| ==> d.responseCh[i].Response?)
    && (forall i :: 0 <= i < |d.startCh| ==> d.startCh[i].SessionStart?)
  }

  /** Replies sent, and stray ones, are received or in flight. */
  predicate Delivered(s: State, t: Tally)
  {
    && Sorted(s.down)
    && (t.collisions > 0 ==> s.down.broken)
    && (s.core.rxDone || t.deaths > 0 ==> t.strays > 0)
    && (!s.down.broken ==> |s.core.received| + InFlight(s.down) == |s.core.answered| + t.strays)
  }

  // ----- one step: lines and replies ---------------------------------------------------------

  lemma MenuTyped(core: Core, client: ClientPc, line: string, t: Tally)
    requires Balanced(core, t) && core.client.MenuInput? && (client == AwaitReply(line) || client == AwaitUse(line))
    ensures Balanced(core.(client := client, typed := core.typed + [Entry(Menu, line)]), t)
  {
    CountSnoc(core.typed, Entry(Menu, line), Asks);
    CountSnoc(core.typed, Entry(Menu, line), Leaves);
  }

  lemma SessionTyped(core: Core, word: string, t: Tally)
    requires Balanced(core, t) && core.client.SessionInput? && TrimSpace(word) == word
    ensures Balanced(core.(client := if IsDetach(word) then AwaitDetach(word) else SessionInput,
                           typed := core.typed + [Entry(Session, word)]), t)
  {
    CountSnoc(core.typed, Entry(Session, word), Asks);
    CountSnoc(core.typed, Entry(Session, word), Leaves);
  }

  lemma TypeBalances(lower: char -> char, s: State, a: ClientAction, t: Tally)
    requires Balanced(s.core, t) && ClientEnabled(s, a) && (a.TypeMenu? || a.TypeSession?)
    ensures Balanced(DoClient(lower, s, a).core, t)
  {
    var word := TrimSpace(a.raw);
    if a.TypeMenu? {
      MenuTyped(s.core, DoClient(lower, s, a).core.client, word, t);
    } else {
      DetachTestsAgree(a.raw);
      TrimSpaceTrims(a.raw);
      TrimmedStays(word);
      SessionTyped(s.core, word, t);
    }
  }

  lemma TakeBalances(core: Core, client: ClientPc, f: Frame, t: Tally)
    requires Balanced(core, t) && L.Waiting(core.client) != [] && L.Waiting(client) == []
    requires client.SessionInput? <==> f.SessionStart?
    ensures Balanced(Receive(core, client, core.client.line, f), t)
  {
    CountSnoc(core.received, Reply(core.client.line, f), IsStart);
  }

  lemma GetBalances(lower: char -> char, s: State, a: ClientAction, t: Tally)
    requires Balanced(s.core, t) && Sorted(s.down) && ClientEnabled(s, a)
    requires a.GetReply? || a.GetUseReply? || a.GetStart? || a.GetDetach?
    ensures Balanced(DoClient(lower, s, a).core, t)
  {
    if a.GetStart? {
      TakeBalances(s.core, SessionInput, s.down.startCh[0], t);
    } else {
      TakeBalances(s.core, MenuInput, s.down.responseCh[0], t);
    }
  }

  lemma ClientBalances(lower: char -> char, s: State, a: ClientAction, t: Tally)
    requires Balanced(s.core, t) && Sorted(s.down) && ClientEnabled(s, a)
    ensures Balanced(DoClient(lower, s, a).core, Add(t, s, Client(a)))
  {
    match a
    case TypeMenu(_) => TypeBalances(lower, s, a, t);
    case TypeSession(_) => TypeBalances(lower, s, a, t);
    case GetReply => GetBalances(lower, s, a, t);
    case GetUseReply => GetBalances(lower, s, a, t);
    case GetStart => GetBalances(lower, s, a, t);
    case GetDetach => GetBalances(lower, s, a, t);
    case SessionEof =>
    case StopClient =>
  }

  /** The dispatcher takes a menu line: it owes a reply, or it keeps silent. */
  lemma MenuLineBalances(lower: char -> char, core: Core, line: string, o: Outcome, t: Tally)
    requires Balanced(core, t) && core.server.MenuLoop? && Possible(lower, line, o)
    ensures Balanced(core.(server := AfterMenuLine(lower, line, o), handled := core.handled + [Entry(Menu, line)]),
                     t.(silents := t.silents + One(o == Text(""))))
  {
    CountSnoc(core.handled, Entry(Menu, line), Asks);
    CountSnoc(core.handled, Entry(Menu, line), Leaves);
  }

  /** Or a session line: it owes a reply exactly if it leaves session mode. */
  lemma SessionLineBalances(core: Core, line: string, dead: bool, text: string, t: Tally)
    requires Balanced(core, t) && core.server.Passthrough?
    ensures Balanced(core.(server := AfterSessionLine(line, dead, text),
                           handled := core.handled + [Entry(Session, line)]), t)
  {
    CountSnoc(core.handled, Entry(Session, line), Asks);
    CountSnoc(core.handled, Entry(Session, line), Leaves);
    var server := AfterSessionLine(line, dead, text);
    assert Owes(server) <==> IsDetach(TrimSpace(line));
    assert InSession(server) <==> !IsDetach(TrimSpace(line));
  }

  lemma AnswerBalances(core: Core, t: Tally)
    requires Balanced(core, t) && Replying(core.server)
    ensures Balanced(Answer(core), t)
  {
    CountSnoc(core.answered, Reply(core.server.line, Sent(core.server)), IsStart);
    assert Sent(core.server).SessionStart? <==> core.server.Starting?;
  }

  lemma SendBalances(s: State, t: Tally)
    requires Balanced(s.core, t) && CanSend(s)
    ensures Balanced(DoSend(s).core, Add(t, s, Server(Send)))
  {
    var t' := Add(t, s, Server(Send));
    assert t' == t.(collisions := t'.collisions);
    if Replying(s.core.server) {
      AnswerBalances(s.core, t);
      assert DoSend(s).core == Answer(s.core);
    }
  }

  lemma MenuTakeBalances(lower: char -> char, s: State, o: Outcome, t: Tally)
    requires Balanced(s.core, t) && ServerEnabled(lower, s, MenuTake(o))
    ensures Balanced(DoServer(lower, s, MenuTake(o)).core, Add(t, s, Server(MenuTake(o))))
  {
    MenuLineBalances(lower, s.core, s.up.cmdCh[0], o, t);
    assert Add(t, s, Server(MenuTake(o))) == t.(silents := t.silents + One(o == Text("")));
  }

  lemma SessionTakeBalances(lower: char -> char, s: State, dead: bool, text: string, t: Tally)
    requires Balanced(s.core, t) && ServerEnabled(lower, s, SessionTake(dead, text))
    ensures Balanced(DoServer(lower, s, SessionTake(dead, text)).core, Add(t, s, Server(SessionTake(dead, text))))
  {
    SessionLineBalances(s.core, s.up.cmdCh[0], dead, text, t);
    assert Add(t, s, Server(SessionTake(dead, text))) == t;
  }

  lemma ReturnBalances(lower: char -> char, s: State, t: Tally)
    requires Balanced(s.core, t) && ServerEnabled(lower, s, ReturnOnRxDone)
    ensures Balanced(DoServer(lower, s, ReturnOnRxDone).core, Add(t, s, Server(ReturnOnRxDone)))
  {
    assert Add(t, s, Server(ReturnOnRxDone)) == t.(deaths := t.deaths + 1);
  }

  lemma ServerBalances(lower: char -> char, s: State, a: ServerAction, t: Tally)
    requires Balanced(s.core, t) && ServerEnabled(lower, s, a)
    ensures Balanced(DoServer(lower, s, a).core, Add(t, s, Server(a)))
  {
    match a
    case MenuTake(o) => MenuTakeBalances(lower, s, o, t);
    case SessionTake(dead, text) => SessionTakeBalances(lower, s, dead, text, t);
    case Send => SendBalances(s, t);
    case ReturnOnRxDone => ReturnBalances(lower, s, t);
    case StopServer => assert Add(t, s, Server(a)) == t && DoServer(lower, s, a).core == s.core;
  }

  lemma PipeCore(s: State, a: PipeAction)
    requires PipeEnabled(s, a)
    ensures DoPipe(s, a).core == s.core
  {
  }

  lemma PipeBalances(s: State, a: PipeAction, t: Tally)
    requires Balanced(s.core, t) && PipeEnabled(s, a)
    ensures Balanced(DoPipe(s, a).core, Add(t, s, Pipe(a)))
  {
    PipeCore(s, a);
    var t' := Add(t, s, Pipe(a));
    assert t' == t.(collisions := t'.collisions);
  }

  lemma FeedBalances(s: State, a: FeedAction, t: Tally)
    requires Balanced(s.core, t) && FeedEnabled(s, a)
    ensures Balanced(DoFeed(s, a).core, Add(t, s, Feed(a)))
  {
    var core := DoFeed(s, a).core;
    assert core == s.core.(rxDone := core.rxDone);
    var t' := Add(t, s, Feed(a));
    assert t' == t.(strays := t'.strays);
  }

  lemma BalancedStep(lower: char -> char, s: State, a: Action, t: Tally)
    requires Balanced(s.core, t) && Sorted(s.down) && Enabled(lower, s, a)
    ensures Balanced(Do(lower, s, a).core, Add(t, s, a))
  {
    match a
    case Client(c) => ClientBalances(lower, s, c, t);
    case Pipe(p) => PipeBalances(s, p, t);
    case Server(d) => ServerBalances(lower, s, d, t);
    case Feed(f) => FeedBalances(s, f, t);
  }

  // ----- one step: replies in flight ---------------------------------------------------------

  lemma AwaitedCount(xs: seq<Frame>, ys: seq<Frame>)
    ensures |Awaited(xs + ys)| == |Awaited(xs)| + |Awaited(ys)|
  {
    L.AwaitedAppend(xs, ys);
  }

  lemma PipeDelivers(s: State, a: PipeAction)
    requires PipeEnabled(s, a) && Sorted(s.down)
    ensures var s' := DoPipe(s, a);
      Sorted(s'.down) && (s.down.broken ==> s'.down.broken) && (Collision(s, Pipe(a)) ==> s'.down.broken)
    ensures !DoPipe(s, a).down.broken ==> InFlight(DoPipe(s, a).down) == InFlight(s.down)
  {
    match a
    case RouterRead => L.AwaitedHead(s.down.wire);
    case RouterPut =>
      L.AwaitedHead(s.down.router);
      L.AwaitedOne(s.down.router[0]);
    case WriterTake => L.AwaitedHead(s.down.outCh);
    case WriterPut => AwaitedCount(s.down.wire, s.down.writer);
    case _ =>
  }

  lemma EnqueueCounts(d: Downward, f: Frame)
    ensures InFlight(Enqueue(d, f)) == InFlight(d) + One(!f.Event?)
  {
    AwaitedCount(d.outCh, [f]);
    L.AwaitedOne(f);
  }

  lemma SendDelivers(s: State, t: Tally)
    requires Delivered(s, t) && CanSend(s)
    ensures Delivered(DoSend(s), Add(t, s, Server(Send)))
  {
    if s.core.server.Echoing? {
      EnqueueCounts(s.down, Event(s.core.server.text));
    } else if s.core.server.Parting? {
      AwaitedCount(s.down.wire, [Sent(s.core.server)]);
      L.AwaitedOne(Sent(s.core.server));
    } else if Replying(s.core.server) {
      EnqueueCounts(s.down, Sent(s.core.server));
    }
  }

  lemma FeedDelivers(s: State, a: FeedAction, t: Tally)
    requires Delivered(s, t) && FeedEnabled(s, a)
    ensures Delivered(DoFeed(s, a), Add(t, s, Feed(a)))
  {
    if a.PushEvent? {
      EnqueueCounts(s.down, Event(a.text));
    } else if a.RxNotice? {
      EnqueueCounts(s.down, Response(a.text));
    }
  }

  lemma ClientDelivers(lower: char -> char, s: State, a: ClientAction, t: Tally)
    requires Delivered(s, t) && ClientEnabled(s, a)
    ensures Delivered(DoClient(lower, s, a), Add(t, s, Client(a)))
  {
  }

  lemma DeliveredStep(lower: char -> char, s: State, a: Action, t: Tally)
    requires Delivered(s, t) && Enabled(lower, s, a)
    ensures Delivered(Do(lower, s, a), Add(t, s, a))
  {
    match a
    case Client(c) => ClientDelivers(lower, s, c, t);
    case Pipe(p) =>
      PipeCore(s, p);
      PipeDelivers(s, p);
    case Server(d) =>
      if d.Send? {
        SendDelivers(s, t);
      }
    case Feed(f) => FeedDelivers(s, f, t);
  }

  lemma {:induction false} RunKeeps(lower: char -> char, run: Log<Action>, s: State)
    requires Reaches(lower, Init(), run, s)
    ensures Balanced(s.core, TallyOf(lower, run)) && Delivered(s, TallyOf(lower, run))
    decreases run
  {
    if run.Then? {
      var m := Exec(lower, Init(), run.before).value;
      RunKeeps(lower, run.before, m);
      BalancedStep(lower, m, run.last, TallyOf(lower, run.before));
      DeliveredStep(lower, m, run.last, TallyOf(lower, run.before));
    }
  }

  // ----- being in step leaves no room for a hazard -------------------------------------------

  function Entries(up: seq<string>, mode: Mode): seq<Entry>
  {
    seq(|up|, i requires 0 <= i < |up| => Entry(mode, up[i]))
  }

  lemma EntriesSnoc(up: seq<string>, line: string, mode: Mode)
    ensures Entries(up + [line], mode) == Entries(up, mode) + [Entry(mode, line)]
  {
  }

  lemma {:induction false} NoDetachCounts(up: seq<string>)
    requires NoDetach(up)
    ensures Count(Entries(up, Session), Asks) == Count(Entries(up, Session), Leaves) == 0
    decreases |up|
  {
    if up != [] {
      var front, last := up[..|up| - 1], up[|up| - 1];
      assert up == front + [last];
      NoDetachCounts(front);
      EntriesSnoc(front, last, Session);
      CountSnoc(Entries(front, Session), Entry(Session, last), Asks);
      CountSnoc(Entries(front, Session), Entry(Session, last), Leaves);
    }
  }

  /** Lines on their way to the server, counted. */
  lemma UpAppends(core: Core, up: seq<string>, mode: Mode)
    requires SameLines(core, up, mode)
    ensures Count(core.typed, Asks) == Count(core.handled, Asks) + Count(Entries(up, mode), Asks)
    ensures Count(core.typed, Leaves) == Count(core.handled, Leaves) + Count(Entries(up, mode), Leaves)
  {
    CountAppend(core.handled, Entries(up, mode), Asks);
    CountAppend(core.handled, Entries(up, mode), Leaves);
  }

  lemma OneLineCounts(line: string, mode: Mode)
    ensures Count(Entries([line], mode), Asks) == One(Asks(Entry(mode, line)))
    ensures Count(Entries([line], mode), Leaves) == One(Leaves(Entry(mode, line)))
  {
    assert Entries([line], mode) == [] + [Entry(mode, line)];
    CountSnoc([], Entry(mode, line), Asks);
    CountSnoc([], Entry(mode, line), Leaves);
  }

  lemma MenuUpCounts(core: Core, up: seq<string>)
    requires SameLines(core, up, Menu) && |up| <= 1
    ensures Count(core.typed, Asks) == Count(core.handled, Asks) + |up|
    ensures Count(core.typed, Leaves) == Count(core.handled, Leaves)
  {
    UpAppends(core, up, Menu);
    if up != [] {
      assert up == [up[0]];
      OneLineCounts(up[0], Menu);
    }
  }

  /** Session lines none of which, or only the last, ends session mode. */
  lemma SessionUpCounts(core: Core, up: seq<string>, last: bool)
    requires SameLines(core, up, Session)
    requires if last then up != [] && NoDetach(up[..|up| - 1]) && IsDetach(TrimSpace(up[|up| - 1])) else NoDetach(up)
    ensures Count(core.typed, Asks) == Count(core.handled, Asks) + One(last)
    ensures Count(core.typed, Leaves) == Count(core.handled, Leaves) + One(last)
  {
    UpAppends(core, up, Session);
    if last {
      var front, line := up[..|up| - 1], up[|up| - 1];
      assert up == front + [line];
      NoDetachCounts(front);
      EntriesSnoc(front, line, Session);
      CountSnoc(Entries(front, Session), Entry(Session, line), Asks);
      CountSnoc(Entries(front, Session), Entry(Session, line), Leaves);
    } else {
      NoDetachCounts(up);
    }
  }

  lemma AnswerCounts(core: Core, line: string, down: seq<Frame>)
    requires Outstanding(core, down, line)
    ensures Count(core.answered, IsStart) == Count(core.received, IsStart) + One(down[0].SessionStart?)
  {
    CountSnoc(core.received, Reply(line, down[0]), IsStart);
  }

  /** In step, every reply is received or in flight, every line that asks is answered or owed an
    * answer, and both sides have entered session mode as often more than left it. */
  lemma InStepCounts(lower: char -> char, core: Core, up: seq<string>, down: seq<Frame>)
    requires InStep(lower, core, up, down)
    ensures |core.received| + |down| == |core.answered|
    ensures Count(core.typed, Asks) == |core.received| + |L.Waiting(core.client)| ==>
      Count(core.handled, Asks) == |core.answered| + One(Owes(core.server))
    ensures Count(core.received, IsStart) + Count(core.handled, Leaves) + One(InSession(core.server))
         == Count(core.answered, IsStart) + Count(core.typed, Leaves) + One(core.client.SessionInput?)
  {
    match core.client
    case MenuInput => MenuUpCounts(core, up);
    case AwaitReply(line) => WaitCounts(lower, core, up, down, line, false);
    case AwaitUse(line) => WaitCounts(lower, core, up, down, line, true);
    case SessionInput => SessionUpCounts(core, up, false);
    case AwaitDetach(line) => DetachCounts(core, up, down, line);
  }

  lemma WaitCounts(lower: char -> char, core: Core, up: seq<string>, down: seq<Frame>, line: string, use: bool)
    requires InWait(lower, core, up, down, line, use)
    ensures |core.received| + |down| == |core.answered|
    ensures Count(core.typed, Asks) == |core.received| + 1 ==>
      Count(core.handled, Asks) == |core.answered| + One(Owes(core.server))
    ensures Count(core.received, IsStart) + Count(core.handled, Leaves) + One(InSession(core.server))
         == Count(core.answered, IsStart) + Count(core.typed, Leaves)
  {
    MenuUpCounts(core, up);
    if down != [] {
      AnswerCounts(core, line, down);
    }
  }

  lemma DetachCounts(core: Core, up: seq<string>, down: seq<Frame>, line: string)
    requires InDetach(core, up, down, line)
    ensures |core.received| + |down| == |core.answered|
    ensures Count(core.typed, Asks) == |core.received| + 1 ==>
      Count(core.handled, Asks) == |core.answered| + One(Owes(core.server))
    ensures Count(core.received, IsStart) + Count(core.handled, Leaves) + One(InSession(core.server))
         == Count(core.answered, IsStart) + Count(core.typed, Leaves)
  {
    TrimmedStays(line);
    SessionUpCounts(core, up, up != []);
    if down != [] {
      AnswerCounts(core, line, down);
    }
  }

  /** Falling out of step is final: client and server are in step at the end of a run if and only if
    * no hazard has ever occurred in it. After a stray response, a silent command, an end of input in
    * session mode or a broken goodbye, no continuation brings them back into step. */
  lemma InStepExactlyWhenClean(lower: char -> char, run: Log<Action>, s: State)
    requires LowerLaw(lower) && Reaches(lower, Init(), run, s)
    ensures LockStep(lower, s) <==> Clean(lower, Init(), run)
  {
    if Clean(lower, Init(), run) {
      L.InitInStep(lower);
      L.RunKeeps(lower, Init(), run, s);
    }
    if LockStep(lower, s) {
      RunKeeps(lower, run, s);
      InStepCounts(lower, s.core, Up(s.up), Down(s.down));
      assert |Down(s.down)| == InFlight(s.down);
      CleanCounts(lower, run, s);
    }
  }

  /** What a stray response does for good: from then on, while the wire is whole, the client has been
    * given more replies, or has more to come, than the server has sent for its commands, and when it
    * prompts with nothing left to handle there is a reply too many on its way. */
  lemma OneReplyTooMany(lower: char -> char, run: Log<Action>, s: State)
    requires Reaches(lower, Init(), run, s) && TallyOf(lower, run).strays > 0 && !s.down.broken
    ensures |s.core.received| + |Down(s.down)| == |s.core.answered| + TallyOf(lower, run).strays
    ensures s.core.client.MenuInput? && |s.core.answered| >= |L.Commands(s.core.typed)| ==> Down(s.down) != []
  {
    RunKeeps(lower, run, s);
    assert |Down(s.down)| == InFlight(s.down);
    L.AskedRun(lower, run, s);
    assert |L.LinesOf(s.core.received)| == |s.core.received|;
  }
}
