/** The receive buffer of one session as a monitor shared by goroutines.
  *
  * One receive loop appends what it reads; any number of drain goroutines (one per attach in
  * server mode, one per `use` in console mode), `read` commands and WaitDead callers share the
  * mutex rxMu and the condition variable rxCond. The session state sits behind its own mutex, so
  * each read or write of it is one atomic step that needs no rxMu. Every program point at which
  * another goroutine may run is a program counter value here.
  */
module RxMonitor {
  import opened Prelude

  /** Program points of the receive loop; `fin` says that Conn.Read also returned an error. */
  datatype RxPc =
    | Reading
    | Counting(chunk: bytes, fin: bool)    // about to add to BytesRX
    | Locking(chunk: bytes, fin: bool)     // about to lock rxMu
    | Appending(chunk: bytes, fin: bool)   // holds rxMu
    | Signalling(fin: bool)                // holds rxMu, chunk appended
    | Unlocking(fin: bool)                 // holds rxMu, waiters woken
    | Checking                             // about to test State() != Dead
    | Marking                              // about to SetState(Dead)
    | Waking                               // about to broadcast without rxMu
    | Finished

  datatype Role =
    | Attach      // server: RX goroutine of serveSession
    | Console     // console: drain goroutine of enterSession
    | ReadCmd     // ReadBuffered
    | DeathWatch  // WaitDead

  datatype Pc =
    | Enter                                      // about to lock rxMu
    | Guard                                      // holds rxMu, about to test len(rxBuf) == 0
    | GuardState                                 // holds rxMu, about to read State()
    | GuardExit                                  // holds rxMu, about to read exitFlag
    | Park                                       // holds rxMu, about to Wait
    | Parked                                     // queued on rxCond, rxMu released
    | Woken                                      // signalled, about to lock rxMu again
    | Drain                                      // holds rxMu, about to drain
    | AskDead(data: bytes)                       // holds rxMu
    | AskExit(data: bytes, dead: bool)           // holds rxMu
    | Leave(data: bytes, dead: bool, done: bool) // about to unlock rxMu
    | Deliver(data: bytes, dead: bool, done: bool)
    | Announce                                   // about to send the closed notice
    | Return                                     // about to send the back-to-menu response
    | Gone

  /** What a goroutine hands on; `sent` is false when the client's context was cancelled first. */
  datatype Out = Data(payload: bytes, sent: bool) | Closed(sent: bool) | Menu(sent: bool)

  /** `exit` is the attach's exitFlag. `since` is the drain log when the goroutine
    * started, and `sealed` records that it saw Dead when the receive loop had nothing left to append. */
  datatype Thread = Thread(role: Role, pc: Pc, exit: bool, since: Log<Take>, sealed: bool, outbox: Log<Out>)

  datatype Owner = Nobody | RxLoop | Held(holder: nat)

  datatype Take = Take(who: nat, chunk: bytes)

  /** `shut`: Conn has been closed on this side. `arrived`, `appended` and `drained` are histories: the
    * bytes Conn.Read returned, the bytes appended to rxBuf and the drains in the order in which they
    * held rxMu. */
  datatype State = State(
    life: Life,
    rx: RxPc,
    shut: bool,
    owner: Owner,
    buf: bytes,
    bytesRX: nat,
    threads: map<nat, Thread>,
    arrived: bytes,
    appended: bytes,
    drained: Log<Take>)

  datatype Action =
    | Read(chunk: bytes, fin: bool)  // Conn.Read returns
    | RxStep                         // the receive loop's next step
    | Spawn(t: nat, role: Role)
    | Step(t: nat)                   // goroutine t's next step
    | Drop(t: nat)                   // goroutine t's send loses to the cancelled context
    | SetExit(t: nat)                // the dispatcher stores exitFlag
    | Broadcast                      // rxCond.Broadcast by a goroutine that does not hold rxMu
    | Shut                           // Close and ForceClose close Conn, then SetState(Dead)
    | SetLife(life: Life)            // attach, +bg, Close, ForceClose, a failed write, the deferred reset

  predicate HoldsMu(pc: Pc)
  {
    pc.Guard? || pc.GuardState? || pc.GuardExit? || pc.Park? || pc.Drain? || pc.AskDead? || pc.AskExit? || pc.Leave?
  }

  predicate RxHoldsMu(rx: RxPc)
  {
    rx.Appending? || rx.Signalling? || rx.Unlocking?
  }

  /** The receive loop is past its last append. */
  predicate RxQuiet(rx: RxPc)
  {
    (rx.Unlocking? && rx.fin) || rx.Checking? || rx.Marking? || rx.Waking? || rx.Finished?
  }

  /** No byte will be appended any more: the receive loop is past its last append, or its next read
    * finds Conn closed. */
  predicate Over(rx: RxPc, shut: bool)
  {
    RxQuiet(rx) || (shut && rx.Reading?)
  }

  predicate IsDrainer(role: Role)
  {
    role.Attach? || role.Console?
  }

  function Init(life: Life): State
  {
    State(life, Reading, false, Nobody, [], 0, map[], [], [], Start)
  }

  function WakeAll(threads: map<nat, Thread>): (woken: map<nat, Thread>)
    ensures woken.Keys == threads.Keys
    ensures forall t :: t in threads ==>
      woken[t] == if threads[t].pc.Parked? then threads[t].(pc := Woken) else threads[t]
  {
    map t | t in threads :: if threads[t].pc.Parked? then threads[t].(pc := Woken) else threads[t]
  }

  predicate RxEnabled(s: State)
  {
    match s.rx
    case Reading => false
    case Finished => false
    case Locking(_, _) => s.owner == Nobody
    case _ => true
  }

  function RxNext(s: State): State
    requires RxEnabled(s)
  {
    match s.rx
    case Counting(chunk, fin) => s.(bytesRX := s.bytesRX + |chunk|, rx := Locking(chunk, fin))
    case Locking(chunk, fin) => s.(owner := RxLoop, rx := Appending(chunk, fin))
    case Appending(chunk, fin) => s.(buf := s.buf + chunk, appended := s.appended + chunk, rx := Signalling(fin))
    case Signalling(fin) => s.(threads := WakeAll(s.threads), rx := Unlocking(fin))
    case Unlocking(fin) => s.(owner := Nobody, rx := if fin then Checking else Reading)
    case Checking => s.(rx := if s.life != Dead then Marking else Waking)
    case Marking => s.(life := Dead, rx := Waking)
    case Waking => s.(threads := WakeAll(s.threads), rx := Finished)
  }

  predicate ThreadEnabled(s: State, t: nat)
  {
    t in s.threads &&
    match s.threads[t].pc
    case Enter => s.owner == Nobody
    case Woken => s.owner == Nobody
    case Parked => false
    case Gone => false
    case _ => true
  }

  function Put(s: State, t: nat, th: Thread): State
  {
    s.(threads := s.threads[t := th])
  }

  /** Where a goroutine goes after unlocking and handing on its data. */
  function AfterDelivery(dead: bool, done: bool): Pc
  {
    if dead then Announce else if done then Gone else Enter
  }

  /** A goroutine's next step, as far as the goroutine itself goes. */
  function Move(th: Thread, life: Life, over: bool, buf: bytes): Thread
    requires !th.pc.Parked? && !th.pc.Gone?
  {
    match th.pc
    case Enter => th.(pc := FirstTest(th.role))
    case Woken => th.(pc := FirstTest(th.role))
    case Guard => th.(pc := if |buf| == 0 then GuardState else Drain)
    case GuardState =>
      if life != Dead then th.(pc := if th.role.Attach? then GuardExit else Park)
      else th.(pc := if th.role.DeathWatch? then Leave([], false, true) else Drain)
    case GuardExit => th.(pc := if !th.exit then Park else Drain)
    case Park => th.(pc := Parked)
    case Drain => th.(pc := if th.role.ReadCmd? then Leave(buf, false, true) else AskDead(buf))
    case AskDead(data) =>
      var dead := life == Dead;
      th.(pc := if th.role.Attach? then AskExit(data, dead) else Leave(data, dead, false),
          sealed := th.sealed || (dead && over))
    case AskExit(data, dead) => th.(pc := Leave(data, dead, th.exit))
    case Leave(data, dead, done) => th.(pc := Deliver(data, dead, done))
    case Deliver(_, _, _) => Emit(th, true)
    case Announce =>
      // enterSession tests State() once more before it prints the notice
      if th.role.Console? && life != Dead then th.(pc := Gone) else Emit(th, true)
    case Return => Emit(th, true)
  }

  /** A goroutine's next step: it may take or release rxMu, and a drain empties rxBuf. */
  function ThreadNext(s: State, t: nat): State
    requires ThreadEnabled(s, t)
  {
    var th := s.threads[t];
    var s' := s.(threads := s.threads[t := Move(th, s.life, Over(s.rx, s.shut), s.buf)]);
    match th.pc
    case Enter => s'.(owner := Held(t))
    case Woken => s'.(owner := Held(t))
    case Park => s'.(owner := Nobody)
    case Leave(_, _, _) => s'.(owner := Nobody)
    case Drain => s'.(buf := [], drained := Then(s.drained, Take(t, s.buf)))
    case _ => s'
  }

  function FirstTest(role: Role): Pc
  {
    match role
    case Attach => Guard
    case Console => Guard
    case ReadCmd => Drain
    case DeathWatch => GuardState
  }

  predicate Emits(pc: Pc)
  {
    pc.Deliver? || pc.Announce? || pc.Return?
  }

  /** One send of a goroutine; an empty drain sends nothing. */
  function Emit(th: Thread, sent: bool): Thread
    requires Emits(th.pc)
  {
    match th.pc
    case Deliver(data, dead, done) =>
      th.(pc := AfterDelivery(dead, done),
          outbox := if |data| > 0 then Then(th.outbox, Data(data, sent)) else th.outbox)
    case Announce =>
      th.(pc := if th.role.Attach? then Return else Gone, outbox := Then(th.outbox, Closed(sent)))
    case Return => th.(pc := Gone, outbox := Then(th.outbox, Menu(sent)))
  }

  predicate Enabled(s: State, a: Action)
  {
    match a
    case Read(chunk, fin) => s.rx.Reading? && |chunk| <= RX_CHUNK && (s.shut ==> chunk == [] && fin)
    case RxStep => RxEnabled(s)
    case Spawn(t, _) => t !in s.threads
    case Step(t) => ThreadEnabled(s, t)
    case Drop(t) => t in s.threads && s.threads[t].role.Attach? && Emits(s.threads[t].pc)
    case SetExit(t) => t in s.threads
    case Broadcast => true
    case Shut => true
    case SetLife(_) => true
  }

  function Do(s: State, a: Action): State
    requires Enabled(s, a)
  {
    match a
    case Read(chunk, fin) =>
      s.(arrived := s.arrived + chunk,
         rx := if |chunk| > 0 then Counting(chunk, fin) else if fin then Checking else Reading)
    case RxStep => RxNext(s)
    case Spawn(t, role) => Put(s, t, Thread(role, Enter, false, s.drained, false, Start))
    case Step(t) => ThreadNext(s, t)
    case Drop(t) => Put(s, t, Emit(s.threads[t], false))
    case SetExit(t) => Put(s, t, s.threads[t].(exit := true))
    case Broadcast => s.(threads := WakeAll(s.threads))
    case Shut => s.(shut := true)
    case SetLife(life) => s.(life := life)
  }

  /** The state after a run, if every action was enabled in turn. */
  function Exec(s: State, run: Log<Action>): Option<State>
  {
    match run
    case Start => Some(s)
    case Then(before, a) =>
      match Exec(s, before)
      case None => None
      case Some(m) => if Enabled(m, a) then Some(Do(m, a)) else None
  }

  predicate Reaches(s: State, run: Log<Action>, s': State)
  {
    Exec(s, run) == Some(s')
  }

  // ----- histories ---------------------------------------------------------------------------

  function Bytes(drained: Log<Take>): bytes
  {
    match drained
    case Start => []
    case Then(before, take) => Bytes(before) + take.chunk
  }

  /** The bytes one goroutine drained, in order. */
  function BytesBy(drained: Log<Take>, t: nat): bytes
  {
    match drained
    case Start => []
    case Then(before, take) => if take.who == t then BytesBy(before, t) + take.chunk else BytesBy(before, t)
  }

  /** Since the point `since` of the log, only `t` drained. */
  predicate OnlyBy(drained: Log<Take>, since: Log<Take>, t: nat)
  {
    drained == since || (drained.Then? && drained.last.who == t && OnlyBy(drained.before, since, t))
  }

  /** The data a goroutine has handed on, sent or dropped, in order. */
  function Handed(outbox: Log<Out>): bytes
  {
    match outbox
    case Start => []
    case Then(before, out) => if out.Data? then Handed(before) + out.payload else Handed(before)
  }

  predicate AllData(outbox: Log<Out>)
  {
    match outbox
    case Start => true
    case Then(before, out) => out.Data? && AllData(before)
  }

  /** Data drained but not handed on yet. */
  function InHand(pc: Pc): bytes
  {
    match pc
    case AskDead(data) => data
    case AskExit(data, _) => data
    case Leave(data, _, _) => data
    case Deliver(data, _, _) => data
    case _ => []
  }

  /** The chunk the receive loop has read but not appended yet. */
  function InFlight(rx: RxPc): bytes
  {
    match rx
    case Counting(chunk, _) => chunk
    case Locking(chunk, _) => chunk
    case Appending(chunk, _) => chunk
    case _ => []
  }

  function Uncounted(rx: RxPc): nat
  {
    if rx.Counting? then |rx.chunk| else 0
  }

  // ----- the invariant -----------------------------------------------------------------------

  /** Nothing is lost between Conn.Read, rxBuf and the drains, and BytesRX counts it. */
  predicate Conserved(s: State)
  {
    && Bytes(s.drained) + s.buf == s.appended
    && s.arrived == s.appended + InFlight(s.rx)
    && s.bytesRX + Uncounted(s.rx) == |s.arrived|
  }

  /** What each role can be doing. */
  predicate RolePc(th: Thread)
  {
    match th.pc
    case Guard => IsDrainer(th.role)
    case GuardState => !th.role.ReadCmd?
    case GuardExit => th.role.Attach?
    case Park => !th.role.ReadCmd?
    case Parked => !th.role.ReadCmd?
    case Woken => !th.role.ReadCmd?
    case Drain => !th.role.DeathWatch?
    case AskDead(_) => IsDrainer(th.role)
    case AskExit(_, _) => th.role.Attach?
    case Leave(_, dead, done) => IsDrainer(th.role) || (!dead && done)
    case Deliver(_, dead, done) => IsDrainer(th.role) || (!dead && done)
    case Announce => IsDrainer(th.role)
    case Return => th.role.Attach?
    case _ => true
  }

  /** What a goroutine knows of rxBuf: a drainer that is about to wait saw it empty, and once it
    * waits only a chunk whose broadcast is still due can be there; right after a drain it is
    * empty; and it stays empty for one that saw Dead when all was over. */
  predicate KnowsBuffer(th: Thread, buf: bytes, rx: RxPc, over: bool)
  {
    && (IsDrainer(th.role) && th.pc.Parked? ==> buf == [] || rx.Signalling?)
    && (IsDrainer(th.role) && (th.pc.GuardState? || th.pc.GuardExit? || th.pc.Park?) ==> buf == [])
    && (th.pc.AskDead? || th.pc.AskExit? || (th.pc.Leave? && !th.role.DeathWatch?) ==> buf == [])
    && (th.sealed ==> over && buf == [])
  }

  predicate Sync(th: Thread, t: nat, owner: Owner, buf: bytes, rx: RxPc, over: bool)
  {
    && (HoldsMu(th.pc) <==> owner == Held(t))
    && RolePc(th)
    && KnowsBuffer(th, buf, rx, over)
  }

  /** rxMu has at most one holder, `owner` names it, and every goroutine is in step with rxBuf. */
  predicate Synced(s: State)
  {
    && (s.owner == RxLoop <==> RxHoldsMu(s.rx))
    && (s.owner.Held? ==> s.owner.holder in s.threads)
    && (forall t :: t in s.threads ==> Sync(s.threads[t], t, s.owner, s.buf, s.rx, Over(s.rx, s.shut)))
  }

  predicate EndsClosed(outbox: Log<Out>)
  {
    outbox.Then? && outbox.last.Closed? && AllData(outbox.before)
  }

  /** Nothing is handed on after the closed notice but the menu response. */
  predicate NoticeLast(th: Thread)
  {
    match th.pc
    case Return => EndsClosed(th.outbox)
    case Gone =>
      || AllData(th.outbox)
      || EndsClosed(th.outbox)
      || (th.outbox.Then? && th.outbox.last.Menu? && EndsClosed(th.outbox.before))
    case _ => AllData(th.outbox)
  }

  /** A goroutine hands on exactly what it drained, in order. */
  predicate Balanced(th: Thread, t: nat, drained: Log<Take>)
  {
    BytesBy(drained, t) == Handed(th.outbox) + InHand(th.pc) && BytesBy(th.since, t) == []
  }

  ghost predicate Ledger(s: State)
  {
    && (forall t :: t !in s.threads ==> BytesBy(s.drained, t) == [])
    && (forall t :: t in s.threads ==> Balanced(s.threads[t], t, s.drained) && NoticeLast(s.threads[t]))
  }

  ghost predicate Inv(s: State)
  {
    Conserved(s) && Synced(s) && Ledger(s)
  }
}
