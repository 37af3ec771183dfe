/** The connections of a forwarder or a proxy: two copying goroutines each, a handler that waits for
  * either of them or for cancellation, a once-only shutdown, counters and a shared log.
  *
  * A proxy is a forwarder whose reads are teed into the log (`logging`) and which keeps no
  * counters. Steps of any number of connections interleave.
  */
module Pumps {
  import opened Prelude

  datatype Dir = TX | RX  // local to remote, remote to local

  datatype PumpPc =
    | Reading
    | Logging(chunk: bytes, last: bool)  // proxy: the tee has read and is about to log
    | Writing(chunk: bytes, last: bool)
    | Copied                             // io.Copy has returned
    | Adding                             // forwarder: pipe counter added, total not yet
    | Closing                            // about to call, or inside, closeAll
    | Finished

  /** `n` is what io.Copy counts and returns, `count` the pipe's counter. */
  datatype Pump = Pump(pc: PumpPc, read: bytes, moved: bytes, n: nat, count: nat)

  datatype Who = Copier(dir: Dir) | Handler

  /** sync.Once: `stage` counts the statements of its body already executed. */
  datatype Once = Fresh | Running(who: Who, stage: nat) | Done

  datatype HandlerPc = Waiting | Cancelling | ClosingRemote | ClosingLocal | Returned

  datatype Conn = Conn(
    tx: Pump, rx: Pump, handler: HandlerPc, once: Once, localClosed: bool, remoteClosed: bool, doneCloses: nat)

  datatype Line = Line(conn: nat, dir: Dir, data: bytes)

  datatype World = World(conns: seq<Conn>, totalTX: nat, totalRX: nat, log: Log<Line>, cancelled: bool)

  datatype Step =
    | Read(chunk: bytes, last: bool)  // `last`: the same Read also returned EOF or an error
    | ReadEnd                         // EOF or an error and no data
    | WriteLog
    | Write(k: nat)                   // the destination took k bytes
    | Account

  datatype Action =
    | Accept                           // a connection is accepted and dialled on
    | Copy(i: nat, dir: Dir, step: Step)
    | Shut(i: nat, who: Who)           // the next statement of closeAll
    | Handle(i: nat, viaDone: bool)    // the handler's next statement outside closeAll; the select's branch
    | Cancel

  const NewPump := Pump(Reading, [], [], 0, 0)

  function Init(): World
  {
    World([], 0, 0, Start, false)
  }

  function PumpOf(c: Conn, d: Dir): Pump
  {
    if d.TX? then c.tx else c.rx
  }

  function WithPump(c: Conn, d: Dir, p: Pump): Conn
  {
    if d.TX? then c.(tx := p) else c.(rx := p)
  }

  function SourceClosed(c: Conn, d: Dir): bool
  {
    if d.TX? then c.localClosed else c.remoteClosed
  }

  function SinkClosed(c: Conn, d: Dir): bool
  {
    if d.TX? then c.remoteClosed else c.localClosed
  }

  predicate CanStep(logging: bool, c: Conn, d: Dir, step: Step)
  {
    var p := PumpOf(c, d);
    match step
    case Read(chunk, _) => p.pc.Reading? && chunk != [] && !SourceClosed(c, d)
    case ReadEnd => p.pc.Reading?
    case WriteLog => logging && p.pc.Logging?
    case Write(k) => p.pc.Writing? && k <= |p.pc.chunk| && (SinkClosed(c, d) ==> k == 0)
    case Account => p.pc.Copied? || (!logging && p.pc.Adding?)
  }

  function AfterStep(logging: bool, p: Pump, step: Step): Pump
    requires step.Write? ==> p.pc.Writing? && step.k <= |p.pc.chunk|
    requires step.WriteLog? ==> p.pc.Logging?
  {
    match step
    case Read(chunk, last) =>
      p.(pc := if logging then Logging(chunk, last) else Writing(chunk, last), read := p.read + chunk)
    case ReadEnd => p.(pc := Copied)
    case WriteLog => p.(pc := Writing(p.pc.chunk, p.pc.last))
    case Write(k) =>
      p.(pc := if k < |p.pc.chunk| || p.pc.last then Copied else Reading,
         moved := p.moved + p.pc.chunk[..k], n := p.n + k)
    case Account =>
      if logging then p.(pc := Closing)
      else if p.pc.Copied? then p.(pc := Adding, count := p.count + p.n)
      else p.(pc := Closing)
  }

  /** Who may be inside closeAll. */
  predicate WantsShut(c: Conn, who: Who)
  {
    match who
    case Copier(d) => PumpOf(c, d).pc.Closing?
    case Handler => c.handler.Cancelling?
  }

  predicate CanShut(c: Conn, who: Who)
  {
    WantsShut(c, who) && (c.once.Running? ==> c.once.who == who)
  }

  /** Returning from closeAll. */
  function LeaveShut(c: Conn, who: Who): Conn
  {
    match who
    case Copier(d) => WithPump(c, d, PumpOf(c, d).(pc := Finished))
    case Handler => c.(handler := ClosingRemote)
  }

  function ShutStep(c: Conn, who: Who): Conn
  {
    match c.once
    case Fresh => c.(once := Running(who, 0))
    case Running(_, stage) =>
      if stage == 0 then c.(localClosed := true, once := Running(who, 1))
      else if stage == 1 then c.(remoteClosed := true, once := Running(who, 2))
      else LeaveShut(c.(doneCloses := c.doneCloses + 1, once := Done), who)
    case Done => LeaveShut(c, who)
  }

  /** The select may take either branch that is ready. */
  predicate CanHandle(c: Conn, cancelled: bool, viaDone: bool)
  {
    match c.handler
    case Waiting => if viaDone then c.doneCloses > 0 else cancelled
    case ClosingRemote => true
    case ClosingLocal => true
    case _ => false
  }

  function HandleStep(c: Conn, viaDone: bool): Conn
  {
    match c.handler
    case Waiting => c.(handler := if viaDone then ClosingRemote else Cancelling)
    case ClosingRemote => c.(remoteClosed := true, handler := ClosingLocal)
    case ClosingLocal => c.(localClosed := true, handler := Returned)
    case _ => c
  }

  predicate Enabled(logging: bool, w: World, a: Action)
  {
    match a
    case Accept => true
    case Copy(i, d, step) => i < |w.conns| && CanStep(logging, w.conns[i], d, step)
    case Shut(i, who) => i < |w.conns| && CanShut(w.conns[i], who)
    case Handle(i, viaDone) => i < |w.conns| && CanHandle(w.conns[i], w.cancelled, viaDone)
    case Cancel => true
  }

  /** What a step adds to the total of its direction. */
  function TotalGain(logging: bool, p: Pump, step: Step): nat
  {
    if step.Account? && !logging && p.pc.Adding? then p.n else 0
  }

  function DoCopy(logging: bool, w: World, i: nat, d: Dir, step: Step): World
    requires i < |w.conns| && CanStep(logging, w.conns[i], d, step)
  {
    var c := w.conns[i];
    var p := PumpOf(c, d);
    var gain := TotalGain(logging, p, step);
    World(w.conns[i := WithPump(c, d, AfterStep(logging, p, step))],
          if d.TX? then w.totalTX + gain else w.totalTX,
          if d.RX? then w.totalRX + gain else w.totalRX,
          if step.WriteLog? then Then(w.log, Line(i, d, p.pc.chunk)) else w.log,
          w.cancelled)
  }

  function Do(logging: bool, w: World, a: Action): World
    requires Enabled(logging, w, a)
  {
    match a
    case Accept => w.(conns := w.conns + [Conn(NewPump, NewPump, Waiting, Fresh, false, false, 0)])
    case Copy(i, d, step) => DoCopy(logging, w, i, d, step)
    case Shut(i, who) => w.(conns := w.conns[i := ShutStep(w.conns[i], who)])
    case Handle(i, viaDone) => w.(conns := w.conns[i := HandleStep(w.conns[i], viaDone)])
    case Cancel => w.(cancelled := true)
  }

  function Exec(logging: bool, run: Log<Action>): Option<World>
  {
    match run
    case Start => Some(Init())
    case Then(before, a) =>
      match Exec(logging, before)
      case None => None
      case Some(m) => if Enabled(logging, m, a) then Some(Do(logging, m, a)) else None
  }

  predicate Reaches(logging: bool, run: Log<Action>, w: World)
  {
    Exec(logging, run) == Some(w)
  }

  // ----- one direction of one connection -----------------------------------------------------

  function Unwritten(pc: PumpPc): bytes
  {
    if pc.Logging? || pc.Writing? then pc.chunk else []
  }

  predicate StillCopying(pc: PumpPc)
  {
    pc.Reading? || pc.Logging? || pc.Writing?
  }

  predicate PastCopy(pc: PumpPc)
  {
    pc.Closing? || pc.Finished?
  }

  /** Bytes come out in the order they went in and none is invented; the counters count them. */
  predicate PumpOk(logging: bool, p: Pump)
  {
    && (StillCopying(p.pc) ==> p.read == p.moved + Unwritten(p.pc))
    && p.moved <= p.read
    && p.n == |p.moved|
    && (logging ==> !p.pc.Adding? && p.count == 0)
    && (!logging ==> !p.pc.Logging? && p.count == if p.pc.Adding? || PastCopy(p.pc) then p.n else 0)
  }

  /** The shutdown is once only and closes both sides. */
  predicate ShutOk(c: Conn)
  {
    && (c.once.Fresh? || c.once.Running? ==> c.doneCloses == 0)
    && (c.once.Done? ==> c.doneCloses == 1 && c.localClosed && c.remoteClosed)
    && (c.once.Running? ==>
          && c.once.stage <= 2 && WantsShut(c, c.once.who)
          && (c.once.stage >= 1 ==> c.localClosed)
          && (c.once.stage >= 2 ==> c.remoteClosed))
    && (c.handler.ClosingLocal? ==> c.remoteClosed)
    && (c.handler.ClosingRemote? || c.handler.ClosingLocal? || c.handler.Returned? ==> c.once.Done?)
    && (c.handler.Returned? ==> c.remoteClosed && c.localClosed)
    && (c.tx.pc.Finished? || c.rx.pc.Finished? ==> c.once.Done?)
  }

  /** Nothing is closed without a reason: a copier that has left its copy, or the cancelled context. */
  predicate Justified(c: Conn, cancelled: bool)
  {
    && (!c.once.Fresh? || c.localClosed || c.remoteClosed ==>
          !StillCopying(c.tx.pc) || !StillCopying(c.rx.pc) || cancelled)
    && (c.handler.Cancelling? ==> cancelled)
    && (!c.handler.Waiting? && !c.handler.Cancelling? ==> !c.once.Fresh?)
  }

  predicate ConnOk(logging: bool, c: Conn)
  {
    PumpOk(logging, c.tx) && PumpOk(logging, c.rx) && ShutOk(c)
  }

  predicate AllOk(logging: bool, w: World)
  {
    forall i :: 0 <= i < |w.conns| ==> ConnOk(logging, w.conns[i]) && Justified(w.conns[i], w.cancelled)
  }

  lemma StepOk(logging: bool, c: Conn, d: Dir, step: Step)
    requires ConnOk(logging, c) && CanStep(logging, c, d, step)
    ensures PumpOk(logging, AfterStep(logging, PumpOf(c, d), step))
  {
    var p := PumpOf(c, d);
    if step.Write? {
      assert p.read == (p.moved + p.pc.chunk[..step.k]) + p.pc.chunk[step.k..];
    }
  }

  lemma CopyOk(logging: bool, c: Conn, d: Dir, step: Step)
    requires ConnOk(logging, c) && CanStep(logging, c, d, step)
    ensures ConnOk(logging, WithPump(c, d, AfterStep(logging, PumpOf(c, d), step)))
  {
    StepOk(logging, c, d, step);
  }

  lemma ShutStepOk(logging: bool, c: Conn, who: Who)
    requires ConnOk(logging, c) && CanShut(c, who)
    ensures ConnOk(logging, ShutStep(c, who))
  {
  }

  lemma JustifiedKeeps(logging: bool, c: Conn, cancelled: bool, d: Dir, step: Step, who: Who, viaDone: bool)
    requires ConnOk(logging, c) && Justified(c, cancelled)
    ensures CanStep(logging, c, d, step) ==>
      Justified(WithPump(c, d, AfterStep(logging, PumpOf(c, d), step)), cancelled)
    ensures CanShut(c, who) ==> Justified(ShutStep(c, who), cancelled)
    ensures CanHandle(c, cancelled, viaDone) ==> Justified(HandleStep(c, viaDone), cancelled)
  {
  }

  lemma AllOkStep(logging: bool, w: World, a: Action)
    requires AllOk(logging, w) && Enabled(logging, w, a)
    ensures AllOk(logging, Do(logging, w, a))
  {
    match a
    case Copy(i, d, step) =>
      CopyOk(logging, w.conns[i], d, step);
      JustifiedKeeps(logging, w.conns[i], w.cancelled, d, step, Handler, true);
    case Shut(i, who) =>
      ShutStepOk(logging, w.conns[i], who);
      JustifiedKeeps(logging, w.conns[i], w.cancelled, TX, ReadEnd, who, true);
    case Handle(i, viaDone) => JustifiedKeeps(logging, w.conns[i], w.cancelled, TX, ReadEnd, Handler, viaDone);
    case _ =>
  }

  lemma {:induction false} AllOkRun(logging: bool, run: Log<Action>, w: World)
    requires Reaches(logging, run, w)
    ensures AllOk(logging, w)
    decreases run
  {
    if run.Then? {
      var m := Exec(logging, run.before).value;
      AllOkRun(logging, run.before, m);
      AllOkStep(logging, m, run.last);
    }
  }

  /** Once-only shutdown: whichever of the two copiers or the cancelled context fires, and in
    * whatever order, `done` is closed at most once; when it is closed both connections are; both are
    * closed by the time the handler or either copier has returned; and neither is closed, nor does the
    * handler go on, before a copier has left its copy or the context is cancelled. */
  lemma OnceOnlyShutdown(logging: bool, run: Log<Action>, w: World, i: nat)
    requires Reaches(logging, run, w) && i < |w.conns|
    ensures w.conns[i].doneCloses <= 1
    ensures w.conns[i].doneCloses == 1 || w.conns[i].handler.Returned? ==>
      w.conns[i].localClosed && w.conns[i].remoteClosed
    ensures w.conns[i].tx.pc.Finished? || w.conns[i].rx.pc.Finished? ==>
      w.conns[i].doneCloses == 1 && w.conns[i].localClosed && w.conns[i].remoteClosed
    ensures w.conns[i].localClosed || w.conns[i].remoteClosed || !w.conns[i].handler.Waiting? ==>
      !StillCopying(w.conns[i].tx.pc) || !StillCopying(w.conns[i].rx.pc) || w.cancelled
  {
    AllOkRun(logging, run, w);
    assert ConnOk(logging, w.conns[i]) && Justified(w.conns[i], w.cancelled);
  }

  /** Delivery: for every schedule, the bytes delivered on a side are a prefix of those read from
    * the other, and as long as the copier runs only the chunk in its hands is missing. */
  lemma DeliveredIsPrefix(logging: bool, run: Log<Action>, w: World, i: nat, d: Dir)
    requires Reaches(logging, run, w) && i < |w.conns|
    ensures var p := PumpOf(w.conns[i], d);
      && p.moved <= p.read
      && (StillCopying(p.pc) ==> p.read == p.moved + Unwritten(p.pc))
  {
    AllOkRun(logging, run, w);
    assert ConnOk(logging, w.conns[i]);
  }

  // ----- how far a copier goes ---------------------------------------------------------------

  /** What the source of a direction gave, by the reads of a run. */
  function GivenBy(run: Log<Action>, i: nat, d: Dir): bytes
  {
    match run
    case Start => []
    case Then(before, a) =>
      GivenBy(before, i, d) + if a.Copy? && a.i == i && a.dir == d && a.step.Read? then a.step.chunk else []
  }

  /** The source returned an end or an error, with data or without. */
  predicate SourceEnded(run: Log<Action>, i: nat, d: Dir)
  {
    match run
    case Start => false
    case Then(before, a) =>
      || SourceEnded(before, i, d)
      || (a.Copy? && a.i == i && a.dir == d && (a.step.ReadEnd? || (a.step.Read? && a.step.last)))
  }

  /** The destination took less than it was given. */
  predicate WriteWasShort(logging: bool, run: Log<Action>, i: nat, d: Dir)
  {
    match run
    case Start => false
    case Then(before, a) =>
      || WriteWasShort(logging, before, i, d)
      || (a.Copy? && a.i == i && a.dir == d && a.step.Write?
          && match Exec(logging, before)
             case None => false
             case Some(m) => i < |m.conns| && a.step.k < |Unwritten(PumpOf(m.conns[i], d).pc)|)
  }

  /** A pump, by what became of its source and its writes. */
  predicate Told(p: Pump, given: bytes, ended: bool, short: bool)
  {
    && p.read == given
    && (p.pc.Reading? ==> !ended && !short && p.read == p.moved)
    && (p.pc.Logging? || p.pc.Writing? ==>
          p.pc.chunk != [] && (p.pc.last <==> ended) && !short && p.read == p.moved + p.pc.chunk)
    && (!StillCopying(p.pc) ==> (ended || short) && (!short ==> p.moved == p.read))
  }

  lemma ToldStep(logging: bool, c: Conn, d: Dir, step: Step, given: bytes, ended: bool, short: bool)
    requires Told(PumpOf(c, d), given, ended, short) && CanStep(logging, c, d, step)
    ensures Told(AfterStep(logging, PumpOf(c, d), step), given + if step.Read? then step.chunk else [],
                 ended || step.ReadEnd? || (step.Read? && step.last),
                 short || (step.Write? && step.k < |Unwritten(PumpOf(c, d).pc)|))
  {
    var p := PumpOf(c, d);
    if step.Write? {
      if step.k == |p.pc.chunk| {
        assert p.pc.chunk[..step.k] == p.pc.chunk;
      }
    }
  }

  lemma ToldElsewhere(logging: bool, w: World, a: Action, i: nat, d: Dir, given: bytes, ended: bool, short: bool)
    requires Enabled(logging, w, a) && i < |w.conns| && Told(PumpOf(w.conns[i], d), given, ended, short)
    requires !(a.Copy? && a.i == i && a.dir == d)
    ensures i < |Do(logging, w, a).conns| && Told(PumpOf(Do(logging, w, a).conns[i], d), given, ended, short)
  {
  }

  /** An action that is not a step of this copier leaves its story as it is. */
  lemma ElsewhereTells(logging: bool, run: Log<Action>, i: nat, d: Dir)
    requires run.Then? && !(run.last.Copy? && run.last.i == i && run.last.dir == d)
    ensures GivenBy(run, i, d) == GivenBy(run.before, i, d)
    ensures SourceEnded(run, i, d) == SourceEnded(run.before, i, d)
    ensures WriteWasShort(logging, run, i, d) == WriteWasShort(logging, run.before, i, d)
  {
  }

  lemma ToldNew(logging: bool, w: World, a: Action, i: nat, d: Dir)
    requires Enabled(logging, w, a) && i >= |w.conns| && i < |Do(logging, w, a).conns|
    ensures Told(PumpOf(Do(logging, w, a).conns[i], d), [], false, false)
  {
  }

  lemma {:induction false} ToldRun(logging: bool, run: Log<Action>, w: World, i: nat, d: Dir)
    requires Reaches(logging, run, w)
    ensures var given, ended, short := GivenBy(run, i, d), SourceEnded(run, i, d), WriteWasShort(logging, run, i, d);
      if i < |w.conns| then Told(PumpOf(w.conns[i], d), given, ended, short)
      else given == [] && !ended && !short
    decreases run
  {
    if run.Then? {
      var m, a := Exec(logging, run.before).value, run.last;
      var given, ended, short :=
        GivenBy(run.before, i, d), SourceEnded(run.before, i, d), WriteWasShort(logging, run.before, i, d);
      ToldRun(logging, run.before, m, i, d);
      if a.Copy? && a.i == i && a.dir == d {
        ToldStep(logging, m.conns[i], d, a.step, given, ended, short);
      } else {
        ElsewhereTells(logging, run, i, d);
        if i < |m.conns| {
          ToldElsewhere(logging, m, a, i, d, given, ended, short);
        } else if i < |w.conns| {
          ToldNew(logging, m, a, i, d);
        }
      }
    }
  }

  /** A copier goes on to the end: over every run, it has read what its source gave; it is still copying
    * unless a write of its was short, or the source has ended and nothing is in its hands; it is back at
    * the source whenever it has nothing in its hands and neither has happened; and if it has left its
    * copy without a short write, everything was delivered. */
  lemma CopiesToTheEnd(logging: bool, run: Log<Action>, w: World, i: nat, d: Dir)
    requires Reaches(logging, run, w) && i < |w.conns|
    ensures var p := PumpOf(w.conns[i], d);
      var ended, short := SourceEnded(run, i, d), WriteWasShort(logging, run, i, d);
      && p.read == GivenBy(run, i, d)
      && (StillCopying(p.pc) <==> !short && !(ended && Unwritten(p.pc) == []))
      && (p.pc.Reading? <==> !short && !ended && Unwritten(p.pc) == [])
      && (!StillCopying(p.pc) && !short ==> p.moved == p.read)
  {
    ToldRun(logging, run, w, i, d);
  }

  // ----- how a connection ends ---------------------------------------------------------------

  /** Both copiers and the handler have returned. */
  predicate Ended(c: Conn)
  {
    c.tx.pc.Finished? && c.rx.pc.Finished? && c.handler.Returned?
  }

  /** `more` goes on where `run` ends. */
  predicate Extends(more: Log<Action>, run: Log<Action>)
  {
    more == run || (more.Then? && Extends(more.before, run))
  }

  lemma {:induction false} ExtendsOn(more: Log<Action>, run: Log<Action>, a: Action)
    requires Extends(more, Then(run, a))
    ensures Extends(more, run)
    decreases more
  {
    if more != Then(run, a) {
      ExtendsOn(more.before, run, a);
    }
  }

  function PumpRank(pc: PumpPc): nat
  {
    match pc
    case Logging(_, _) => 6
    case Writing(_, _) => 5
    case Reading => 4
    case Copied => 3
    case Adding => 2
    case Closing => 1
    case Finished => 0
  }

  function HandlerRank(pc: HandlerPc): nat
  {
    match pc
    case Waiting => 4
    case Cancelling => 3
    case ClosingRemote => 2
    case ClosingLocal => 1
    case Returned => 0
  }

  function Rank(c: Conn): int
  {
    PumpRank(c.tx.pc) + PumpRank(c.rx.pc) + HandlerRank(c.handler)
    + match c.once case Fresh => 4 case Running(_, stage) => 3 - stage case Done => 0
  }

  /** The step of a copier whose source ends and whose destination takes nothing more. */
  function PumpNext(pc: PumpPc): Step
  {
    match pc
    case Reading => ReadEnd
    case Logging(_, _) => WriteLog
    case Writing(_, _) => Write(0)
    case _ => Account
  }

  /** What brings a connection nearer to its end. */
  function ConnNext(c: Conn, i: nat): Action
  {
    if c.once.Running? then Shut(i, c.once.who)
    else if PumpRank(c.tx.pc) > 1 then Copy(i, TX, PumpNext(c.tx.pc))
    else if PumpRank(c.rx.pc) > 1 then Copy(i, RX, PumpNext(c.rx.pc))
    else if c.tx.pc.Closing? then Shut(i, Copier(TX))
    else if c.rx.pc.Closing? then Shut(i, Copier(RX))
    else if c.handler.Cancelling? then Shut(i, Handler)
    else Handle(i, true)
  }

  lemma PumpRankFalls(logging: bool, p: Pump)
    requires PumpRank(p.pc) > 1 && PumpOk(logging, p)
    ensures var step := PumpNext(p.pc);
      (step.WriteLog? ==> logging) && (p.pc.Adding? ==> !logging)
      && PumpRank(AfterStep(logging, p, step).pc) < PumpRank(p.pc)
  {
  }

  lemma ShutRankFalls(c: Conn, who: Who)
    requires ShutOk(c) && CanShut(c, who)
    ensures 0 <= Rank(ShutStep(c, who)) < Rank(c)
  {
  }

  lemma HandleRankFalls(c: Conn)
    requires c.once.Done? && (c.handler.Waiting? || c.handler.ClosingRemote? || c.handler.ClosingLocal?)
    ensures 0 <= Rank(HandleStep(c, true)) < Rank(c)
  {
  }

  lemma CopyRankFalls(logging: bool, c: Conn, d: Dir)
    requires ConnOk(logging, c) && PumpRank(PumpOf(c, d).pc) > 1 && !c.once.Running?
    ensures var step := PumpNext(PumpOf(c, d).pc);
      CanStep(logging, c, d, step)
      && 0 <= Rank(WithPump(c, d, AfterStep(logging, PumpOf(c, d), step))) < Rank(c)
  {
    PumpRankFalls(logging, PumpOf(c, d));
  }

  lemma RankFalls(logging: bool, w: World, i: nat)
    requires i < |w.conns| && ConnOk(logging, w.conns[i]) && !Ended(w.conns[i])
    ensures var a := ConnNext(w.conns[i], i);
      && Enabled(logging, w, a)
      && i < |Do(logging, w, a).conns|
      && 0 <= Rank(Do(logging, w, a).conns[i]) < Rank(w.conns[i])
  {
    var c := w.conns[i];
    match ConnNext(c, i)
    case Shut(_, who) => ShutRankFalls(c, who);
    case Copy(_, d, _) => CopyRankFalls(logging, c, d);
    case Handle(_, _) => HandleRankFalls(c);
    case _ =>
  }

  lemma {:induction false} Finish(logging: bool, run: Log<Action>, w: World, i: nat)
    returns (more: Log<Action>, w': World)
    requires Reaches(logging, run, w) && AllOk(logging, w) && i < |w.conns|
    ensures Reaches(logging, more, w') && Extends(more, run) && AllOk(logging, w')
    ensures i < |w'.conns| && Ended(w'.conns[i])
    decreases Rank(w.conns[i])
  {
    more, w' := run, w;
    if !Ended(w.conns[i]) {
      assert ConnOk(logging, w.conns[i]);
      RankFalls(logging, w, i);
      var a := ConnNext(w.conns[i], i);
      AllOkStep(logging, w, a);
      more, w' := Finish(logging, Then(run, a), Do(logging, w, a), i);
      ExtendsOn(more, run, a);
    }
  }

  /** No connection is ever stuck: from every reachable state, whoever is inside closeAll and whoever
    * waits for it, some continuation ends with both copiers and the handler returned. */
  lemma NeverStuck(logging: bool, run: Log<Action>, w: World, i: nat) returns (more: Log<Action>, w': World)
    requires Reaches(logging, run, w) && i < |w.conns|
    ensures Reaches(logging, more, w') && Extends(more, run)
    ensures i < |w'.conns| && Ended(w'.conns[i]) && w'.conns[i].doneCloses == 1
  {
    AllOkRun(logging, run, w);
    more, w' := Finish(logging, run, w, i);
    assert ConnOk(logging, w'.conns[i]);
  }

  lemma QuietStep(logging: bool, w: World, a: Action, i: nat, d: Dir)
    requires Enabled(logging, w, a) && i < |w.conns| && w.conns[i].localClosed && w.conns[i].remoteClosed
    ensures i < |Do(logging, w, a).conns|
    ensures var c, c' := w.conns[i], Do(logging, w, a).conns[i];
      && c'.localClosed && c'.remoteClosed
      && PumpOf(c', d).read == PumpOf(c, d).read && PumpOf(c', d).moved == PumpOf(c, d).moved
  {
  }

  /** Once both connections are closed, no continuation reads or delivers another byte on either side. */
  lemma {:induction false} ClosedIsQuiet(
      logging: bool, run: Log<Action>, w: World, more: Log<Action>, w': World, i: nat, d: Dir)
    requires Reaches(logging, run, w) && Reaches(logging, more, w') && Extends(more, run) && i < |w.conns|
    requires w.conns[i].localClosed && w.conns[i].remoteClosed
    ensures i < |w'.conns| && w'.conns[i].localClosed && w'.conns[i].remoteClosed
    ensures PumpOf(w'.conns[i], d).read == PumpOf(w.conns[i], d).read
    ensures PumpOf(w'.conns[i], d).moved == PumpOf(w.conns[i], d).moved
    decreases more
  {
    if more != run {
      var m := Exec(logging, more.before).value;
      ClosedIsQuiet(logging, run, w, more.before, m, i, d);
      QuietStep(logging, m, more.last, i, d);
    }
  }

  // ----- accounting --------------------------------------------------------------------------

  /** What a pump has counted, and what of it is not in the total yet. */
  function Counts(conns: seq<Conn>, d: Dir): nat
  {
    if conns == [] then 0 else PumpOf(conns[0], d).count + Counts(conns[1..], d)
  }

  function Due(p: Pump): nat
  {
    if p.pc.Adding? then p.n else 0
  }

  function Dues(conns: seq<Conn>, d: Dir): nat
  {
    if conns == [] then 0 else Due(PumpOf(conns[0], d)) + Dues(conns[1..], d)
  }

  lemma {:induction false} SumsUpdate(conns: seq<Conn>, i: nat, c: Conn, d: Dir)
    requires i < |conns|
    ensures Counts(conns[i := c], d) + PumpOf(conns[i], d).count == Counts(conns, d) + PumpOf(c, d).count
    ensures Dues(conns[i := c], d) + Due(PumpOf(conns[i], d)) == Dues(conns, d) + Due(PumpOf(c, d))
    decreases i
  {
    if i == 0 {
      assert conns[i := c][1..] == conns[1..];
    } else {
      assert conns[i := c][1..] == conns[1..][i - 1 := c];
      SumsUpdate(conns[1..], i - 1, c, d);
    }
  }

  lemma {:induction false} SumsAppend(conns: seq<Conn>, c: Conn, d: Dir)
    ensures Counts(conns + [c], d) == Counts(conns, d) + PumpOf(c, d).count
    ensures Dues(conns + [c], d) == Dues(conns, d) + Due(PumpOf(c, d))
    decreases |conns|
  {
    if conns == [] {
      assert [] + [c] == [c];
      assert [c][1..] == [];
    } else {
      assert (conns + [c])[1..] == conns[1..] + [c];
      SumsAppend(conns[1..], c, d);
    }
  }

  function Total(w: World, d: Dir): nat
  {
    if d.TX? then w.totalTX else w.totalRX
  }

  predicate Balanced(w: World, d: Dir)
  {
    Total(w, d) + Dues(w.conns, d) == Counts(w.conns, d)
  }

  /** A pump step moves the count, the due part and the total together. */
  lemma PumpAccounts(p: Pump, step: Step)
    requires PumpOk(false, p)
    requires step.Write? ==> p.pc.Writing? && step.k <= |p.pc.chunk|
    requires step.WriteLog? ==> p.pc.Logging?
    requires step.Read? || step.ReadEnd? ==> p.pc.Reading?
    requires step.Account? ==> p.pc.Copied? || p.pc.Adding?
    ensures var p' := AfterStep(false, p, step);
      p'.count + Due(p) == p.count + Due(p') + TotalGain(false, p, step)
  {
  }

  lemma BalancedCopy(w: World, i: nat, e: Dir, step: Step, d: Dir)
    requires i < |w.conns| && CanStep(false, w.conns[i], e, step)
    requires PumpOk(false, PumpOf(w.conns[i], e)) && Balanced(w, d)
    ensures Balanced(DoCopy(false, w, i, e, step), d)
  {
    var c := w.conns[i];
    SumsUpdate(w.conns, i, WithPump(c, e, AfterStep(false, PumpOf(c, e), step)), d);
    PumpAccounts(PumpOf(c, e), step);
  }

  /** A step of a connection that no counter notices. */
  lemma BalancedElsewhere(w: World, i: nat, c: Conn, d: Dir)
    requires Balanced(w, d) && i < |w.conns|
    requires PumpOf(c, d).count == PumpOf(w.conns[i], d).count && Due(PumpOf(c, d)) == Due(PumpOf(w.conns[i], d))
    ensures Balanced(w.(conns := w.conns[i := c]), d)
  {
    SumsUpdate(w.conns, i, c, d);
  }

  lemma ShutCountsNothing(c: Conn, who: Who, d: Dir)
    requires CanShut(c, who)
    ensures PumpOf(ShutStep(c, who), d).count == PumpOf(c, d).count
    ensures Due(PumpOf(ShutStep(c, who), d)) == Due(PumpOf(c, d))
  {
  }

  lemma BalancedStep(w: World, a: Action, d: Dir)
    requires AllOk(false, w) && Balanced(w, d) && Enabled(false, w, a)
    ensures Balanced(Do(false, w, a), d)
  {
    match a
    case Accept => SumsAppend(w.conns, Conn(NewPump, NewPump, Waiting, Fresh, false, false, 0), d);
    case Copy(i, e, step) =>
      assert ConnOk(false, w.conns[i]);
      BalancedCopy(w, i, e, step, d);
    case Shut(i, who) =>
      ShutCountsNothing(w.conns[i], who, d);
      BalancedElsewhere(w, i, ShutStep(w.conns[i], who), d);
    case Handle(i, viaDone) => BalancedElsewhere(w, i, HandleStep(w.conns[i], viaDone), d);
    case Cancel =>
  }

  lemma {:induction false} BalancedRun(run: Log<Action>, w: World, d: Dir)
    requires Reaches(false, run, w)
    ensures Balanced(w, d)
    decreases run
  {
    if run.Then? {
      var m := Exec(false, run.before).value;
      BalancedRun(run.before, m, d);
      AllOkRun(false, run.before, m);
      BalancedStep(m, run.last, d);
    }
  }

  /** Forwarder accounting, over all interleavings of any number of connections: the totals plus
    * what is already on a pipe's counter but not yet in them are the sum of the pipe counters, and
    * each counter is the number of bytes that its finished copy moved. */
  lemma Accounting(run: Log<Action>, w: World, d: Dir)
    requires Reaches(false, run, w)
    ensures Total(w, d) + Dues(w.conns, d) == Counts(w.conns, d)
    ensures forall i :: 0 <= i < |w.conns| ==>
      var p := PumpOf(w.conns[i], d);
      p.count == if p.pc.Adding? || PastCopy(p.pc) then |p.moved| else 0
  {
    BalancedRun(run, w, d);
    AllOkRun(false, run, w);
    forall i | 0 <= i < |w.conns|
      ensures var p := PumpOf(w.conns[i], d); p.count == if p.pc.Adding? || PastCopy(p.pc) then |p.moved| else 0
    {
      assert ConnOk(false, w.conns[i]);
    }
  }

  /** The totals never decrease, and no counter of a pipe ever changes once its copier is past it. */
  lemma TotalsGrow(logging: bool, w: World, a: Action, i: nat, d: Dir)
    requires Enabled(logging, w, a) && i < |w.conns|
    ensures Total(w, d) <= Total(Do(logging, w, a), d)
    ensures var p, p' := PumpOf(w.conns[i], d), PumpOf(Do(logging, w, a).conns[i], d);
      PastCopy(p.pc) ==> PastCopy(p'.pc) && p'.count == p.count && p'.moved == p.moved
  {
  }

  lemma KeepsConns(logging: bool, w: World, a: Action)
    requires Enabled(logging, w, a)
    ensures |w.conns| <= |Do(logging, w, a).conns|
  {
  }

  /** Over every run the totals never decrease, and what a pipe counted and moved is final once its
    * copier is past it. */
  lemma {:induction false} TotalsNeverDecrease(
      logging: bool, run: Log<Action>, w: World, more: Log<Action>, w': World, i: nat, d: Dir)
    requires Reaches(logging, run, w) && Reaches(logging, more, w') && Extends(more, run) && i < |w.conns|
    ensures |w.conns| <= |w'.conns| && Total(w, d) <= Total(w', d)
    ensures var p, p' := PumpOf(w.conns[i], d), PumpOf(w'.conns[i], d);
      PastCopy(p.pc) ==> PastCopy(p'.pc) && p'.count == p.count && p'.moved == p.moved
    decreases more
  {
    if more != run {
      var m := Exec(logging, more.before).value;
      TotalsNeverDecrease(logging, run, w, more.before, m, i, d);
      TotalsGrow(logging, m, more.last, i, d);
      KeepsConns(logging, m, more.last);
    }
  }

  // ----- the log -----------------------------------------------------------------------------

  /** The data of one direction's lines, whatever lines stand between them. */
  function Logged(log: Log<Line>, i: nat, d: Dir): bytes
  {
    match log
    case Start => []
    case Then(before, line) =>
      if line.conn == i && line.dir == d then Logged(before, i, d) + line.data else Logged(before, i, d)
  }

  function Unlogged(pc: PumpPc): bytes
  {
    if pc.Logging? then pc.chunk else []
  }

  predicate LogOk(w: World, i: nat, d: Dir)
  {
    if i < |w.conns| then PumpOf(w.conns[i], d).read == Logged(w.log, i, d) + Unlogged(PumpOf(w.conns[i], d).pc)
    else Logged(w.log, i, d) == []
  }

  lemma LogStep(w: World, a: Action, i: nat, d: Dir)
    requires LogOk(w, i, d) && Enabled(true, w, a)
    ensures LogOk(Do(true, w, a), i, d)
  {
  }

  lemma {:induction false} LogRun(run: Log<Action>, w: World, i: nat, d: Dir)
    requires Reaches(true, run, w)
    ensures LogOk(w, i, d)
    decreases run
  {
    if run.Then? {
      var m := Exec(true, run.before).value;
      LogRun(run.before, m, i, d);
      LogStep(m, run.last, i, d);
    }
  }

  /** The lines of one direction of one connection concatenate to exactly the bytes read from that
    * side, but for the chunk about to be logged, however the lines of others interleave; what was
    * delivered has been logged before. */
  lemma LogIsTraffic(run: Log<Action>, w: World, i: nat, d: Dir)
    requires Reaches(true, run, w) && i < |w.conns|
    ensures var p := PumpOf(w.conns[i], d);
      && p.read == Logged(w.log, i, d) + Unlogged(p.pc)
      && p.moved <= Logged(w.log, i, d)
  {
    LogRun(run, w, i, d);
    AllOkRun(true, run, w);
    assert ConnOk(true, w.conns[i]);
    var p := PumpOf(w.conns[i], d);
    if p.pc.Logging? {
      assert p.moved + p.pc.chunk == Logged(w.log, i, d) + p.pc.chunk;
      assert |p.moved| == |Logged(w.log, i, d)|;
      assert p.moved == (p.moved + p.pc.chunk)[..|p.moved|];
    }
  }

  // ----- the proxy refines the forwarder -----------------------------------------------------

  /** A proxy's pump without the log, and with the counters a forwarder would have by then. */
  function StripPump(p: Pump): Pump
  {
    Pump(if p.pc.Logging? then Writing(p.pc.chunk, p.pc.last) else p.pc,
         p.read, p.moved, p.n, if PastCopy(p.pc) then p.n else 0)
  }

  function StripConn(c: Conn): Conn
  {
    c.(tx := StripPump(c.tx), rx := StripPump(c.rx))
  }

  function StripAll(conns: seq<Conn>): (s: seq<Conn>)
    ensures |s| == |conns|
    ensures forall i :: 0 <= i < |conns| ==> s[i] == StripConn(conns[i])
  {
    seq(|conns|, i requires 0 <= i < |conns| => StripConn(conns[i]))
  }

  function Strip(w: World): World
  {
    var conns := StripAll(w.conns);
    World(conns, Counts(conns, TX), Counts(conns, RX), Start, w.cancelled)
  }

  /** The forwarder's counterpart of a proxy run: no logging steps, both accounting steps. */
  function PlainRun(run: Log<Action>): Log<Action>
  {
    match run
    case Start => Start
    case Then(before, a) =>
      if !a.Copy? then Then(PlainRun(before), a)
      else
        match a.step
        case WriteLog => PlainRun(before)
        case Account => Then(Then(PlainRun(before), a), a)
        case _ => Then(PlainRun(before), a)
  }

  lemma StripUpdate(conns: seq<Conn>, i: nat, c: Conn)
    requires i < |conns|
    ensures StripAll(conns[i := c]) == StripAll(conns)[i := StripConn(c)]
  {
  }

  /** Updating a connection without finishing a copy leaves the totals. */
  lemma StripSame(conns: seq<Conn>, i: nat, c: Conn, d: Dir)
    requires i < |conns|
    requires StripPump(PumpOf(c, d)).count == StripPump(PumpOf(conns[i], d)).count
    ensures Counts(StripAll(conns[i := c]), d) == Counts(StripAll(conns), d)
  {
    StripUpdate(conns, i, c);
    SumsUpdate(StripAll(conns), i, StripConn(c), d);
  }

  /** The shutdown and the handler do not look at what is stripped. */
  lemma ShutStrips(c: Conn, who: Who)
    requires CanShut(c, who)
    ensures CanShut(StripConn(c), who) && ShutStep(StripConn(c), who) == StripConn(ShutStep(c, who))
    ensures forall d :: StripPump(PumpOf(ShutStep(c, who), d)).count == StripPump(PumpOf(c, d)).count
  {
  }

  /** A connection's step that leaves the counters lifts to the stripped world. */
  lemma SimulateConn(w: World, i: nat, c: Conn)
    requires i < |w.conns|
    requires forall d :: StripPump(PumpOf(c, d)).count == StripPump(PumpOf(w.conns[i], d)).count
    ensures var s, s' := Strip(w), Strip(w.(conns := w.conns[i := c]));
      s' == s.(conns := s.conns[i := StripConn(c)])
  {
    StripUpdate(w.conns, i, c);
    StripSame(w.conns, i, c, TX);
    StripSame(w.conns, i, c, RX);
  }

  lemma SimulateAccept(w: World)
    ensures Do(false, Strip(w), Accept) == Strip(Do(true, w, Accept))
  {
    var c := Conn(NewPump, NewPump, Waiting, Fresh, false, false, 0);
    assert StripAll(w.conns + [c]) == StripAll(w.conns) + [c];
    SumsAppend(StripAll(w.conns), c, TX);
    SumsAppend(StripAll(w.conns), c, RX);
  }

  /** One step of a proxy other than a copier's. */
  lemma SimulateOther(w: World, a: Action)
    requires Enabled(true, w, a) && !a.Copy?
    ensures Enabled(false, Strip(w), a) && Do(false, Strip(w), a) == Strip(Do(true, w, a))
  {
    match a
    case Accept => SimulateAccept(w);
    case Shut(i, who) =>
      ShutStrips(w.conns[i], who);
      SimulateConn(w, i, ShutStep(w.conns[i], who));
    case Handle(i, viaDone) => SimulateConn(w, i, HandleStep(w.conns[i], viaDone));
    case Cancel =>
  }

  /** A pump's step that the forwarder makes too. */
  lemma StepStrips(c: Conn, d: Dir, step: Step)
    requires CanStep(true, c, d, step) && !step.WriteLog? && !step.Account?
    ensures CanStep(false, StripConn(c), d, step)
    ensures var p, p' := PumpOf(c, d), AfterStep(true, PumpOf(c, d), step);
      && AfterStep(false, StripPump(p), step) == StripPump(p')
      && StripPump(p').count == StripPump(p).count
  {
  }

  lemma SimulateCopy(w: World, i: nat, d: Dir, step: Step)
    requires Enabled(true, w, Copy(i, d, step)) && !step.WriteLog? && !step.Account?
    ensures Enabled(false, Strip(w), Copy(i, d, step))
    ensures DoCopy(false, Strip(w), i, d, step) == Strip(DoCopy(true, w, i, d, step))
  {
    var c := w.conns[i];
    var c' := WithPump(c, d, AfterStep(true, PumpOf(c, d), step));
    StepStrips(c, d, step);
    SimulateConn(w, i, c');
    assert StripConn(c') == WithPump(StripConn(c), d, StripPump(AfterStep(true, PumpOf(c, d), step)));
    assert Strip(DoCopy(true, w, i, d, step)) == Strip(w.(conns := w.conns[i := c']));
  }

  /** A logging step is invisible. */
  lemma SimulateLog(w: World, i: nat, d: Dir)
    requires Enabled(true, w, Copy(i, d, WriteLog))
    ensures Strip(Do(true, w, Copy(i, d, WriteLog))) == Strip(w)
  {
    var w' := Do(true, w, Copy(i, d, WriteLog));
    assert StripConn(w'.conns[i]) == StripConn(w.conns[i]);
    assert StripAll(w'.conns) == StripAll(w.conns);
  }

  /** Where the proxy goes straight to closeAll, the forwarder counts first. */
  lemma AccountStrips(c: Conn, d: Dir)
    requires ConnOk(true, c) && CanStep(true, c, d, Account)
    ensures var p := StripPump(PumpOf(c, d)); var q := AfterStep(false, p, Account);
      && p.pc.Copied? && p.count == 0 && q.pc.Adding? && q.n == p.n
      && AfterStep(false, q, Account) == StripPump(AfterStep(true, PumpOf(c, d), Account))
      && StripPump(AfterStep(true, PumpOf(c, d), Account)).count == p.n
  {
  }

  /** Both accounting steps of a forwarder at once. */
  lemma AccountTwice(s: World, i: nat, d: Dir)
    requires i < |s.conns| && CanStep(false, s.conns[i], d, Account) && PumpOf(s.conns[i], d).pc.Copied?
    ensures var m := DoCopy(false, s, i, d, Account);
      var c' := WithPump(s.conns[i], d, AfterStep(false, AfterStep(false, PumpOf(s.conns[i], d), Account), Account));
      && CanStep(false, m.conns[i], d, Account)
      && DoCopy(false, m, i, d, Account)
         == World(s.conns[i := c'],
                  if d.TX? then s.totalTX + PumpOf(s.conns[i], d).n else s.totalTX,
                  if d.RX? then s.totalRX + PumpOf(s.conns[i], d).n else s.totalRX,
                  s.log, s.cancelled)
  {
  }

  lemma AccountTotals(conns: seq<Conn>, i: nat, d: Dir, e: Dir)
    requires i < |conns| && ConnOk(true, conns[i]) && CanStep(true, conns[i], d, Account)
    ensures var c' := WithPump(conns[i], d, AfterStep(true, PumpOf(conns[i], d), Account));
      Counts(StripAll(conns[i := c']), e) == Counts(StripAll(conns), e) + if e == d then PumpOf(conns[i], d).n else 0
  {
    var c' := WithPump(conns[i], d, AfterStep(true, PumpOf(conns[i], d), Account));
    AccountStrips(conns[i], d);
    StripUpdate(conns, i, c');
    SumsUpdate(StripAll(conns), i, StripConn(c'), e);
  }

  lemma StripAccount(w: World, i: nat, d: Dir)
    requires i < |w.conns| && ConnOk(true, w.conns[i]) && Enabled(true, w, Copy(i, d, Account))
    ensures var c, s := w.conns[i], Strip(w);
      Strip(DoCopy(true, w, i, d, Account))
      == World(s.conns[i := StripConn(WithPump(c, d, AfterStep(true, PumpOf(c, d), Account)))],
               if d.TX? then s.totalTX + PumpOf(c, d).n else s.totalTX,
               if d.RX? then s.totalRX + PumpOf(c, d).n else s.totalRX,
               s.log, s.cancelled)
  {
    StripUpdate(w.conns, i, WithPump(w.conns[i], d, AfterStep(true, PumpOf(w.conns[i], d), Account)));
    AccountTotals(w.conns, i, d, TX);
    AccountTotals(w.conns, i, d, RX);
  }

  lemma SimulateAccount(w: World, i: nat, d: Dir)
    requires AllOk(true, w) && Enabled(true, w, Copy(i, d, Account))
    ensures CanStep(false, StripConn(w.conns[i]), d, Account)
    ensures var m := DoCopy(false, Strip(w), i, d, Account);
      CanStep(false, m.conns[i], d, Account) && DoCopy(false, m, i, d, Account) == Strip(DoCopy(true, w, i, d, Account))
  {
    var c := w.conns[i];
    assert ConnOk(true, c);
    AccountStrips(c, d);
    AccountTwice(Strip(w), i, d);
    StripAccount(w, i, d);
  }

  /** The same bytes are read and delivered on every side. */
  lemma StripKeepsBytes(w: World, i: nat, d: Dir)
    requires i < |w.conns|
    ensures i < |Strip(w).conns|
    ensures PumpOf(Strip(w).conns[i], d).read == PumpOf(w.conns[i], d).read
    ensures PumpOf(Strip(w).conns[i], d).moved == PumpOf(w.conns[i], d).moved
  {
  }

  lemma Follow(run: Log<Action>, s: World, a: Action)
    requires Reaches(false, run, s) && Enabled(false, s, a)
    ensures Reaches(false, Then(run, a), Do(false, s, a))
  {
  }

  /** One step of a proxy is none, one or two of the forwarder. */
  lemma SimulateStep(run: Log<Action>, m: World, a: Action)
    requires AllOk(true, m) && Enabled(true, m, a) && Reaches(false, PlainRun(run), Strip(m))
    ensures Reaches(false, PlainRun(Then(run, a)), Strip(Do(true, m, a)))
  {
    var r, s := PlainRun(run), Strip(m);
    if !a.Copy? {
      SimulateOther(m, a);
      Follow(r, s, a);
    } else if a.step.WriteLog? {
      SimulateLog(m, a.i, a.dir);
    } else if a.step.Account? {
      SimulateAccount(m, a.i, a.dir);
      Follow(r, s, a);
      Follow(Then(r, a), DoCopy(false, s, a.i, a.dir, Account), a);
    } else {
      SimulateCopy(m, a.i, a.dir, a.step);
      Follow(r, s, a);
    }
  }

  /** The logging proxy refines the plain forwarder: every run of a proxy, its log erased, is a run
    * of the forwarder that reads and delivers the same bytes on every side. */
  lemma {:induction false} ProxyRefinesForwarder(run: Log<Action>, w: World)
    requires Reaches(true, run, w)
    ensures Reaches(false, PlainRun(run), Strip(w)) && |Strip(w).conns| == |w.conns|
    ensures forall i, d :: 0 <= i < |w.conns| ==>
      && PumpOf(Strip(w).conns[i], d).read == PumpOf(w.conns[i], d).read
      && PumpOf(Strip(w).conns[i], d).moved == PumpOf(w.conns[i], d).moved
    decreases run
  {
    forall i, d | 0 <= i < |w.conns|
      ensures PumpOf(Strip(w).conns[i], d).read == PumpOf(w.conns[i], d).read
      ensures PumpOf(Strip(w).conns[i], d).moved == PumpOf(w.conns[i], d).moved
    {
      StripKeepsBytes(w, i, d);
    }
    if run.Then? {
      var m := Exec(true, run.before).value;
      ProxyRefinesForwarder(run.before, m);
      AllOkRun(true, run.before, m);
      SimulateStep(run.before, m, run.last);
    }
  }
}
