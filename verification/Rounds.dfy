/** How long a goroutine of the receive monitor goes on: round after round until it has seen Dead or its
  * exitFlag, and never past what it is there for.
  */
module Rounds {
  import opened Prelude
  import opened RxMonitor
  import T = RxTheorems

  // ----- what a run has shown to a goroutine -------------------------------------------------

  /** It has read State() under rxMu and found Dead. */
  predicate SawDead(life: Life, run: Log<Action>, t: nat)
  {
    match run
    case Start => false
    case Then(before, a) =>
      || SawDead(life, before, t)
      || (a == Step(t) &&
          match Exec(Init(life), before)
          case None => false
          case Some(m) =>
            && t in m.threads && m.life.Dead?
            && (m.threads[t].pc.AskDead? || (m.threads[t].role.DeathWatch? && m.threads[t].pc.GuardState?)))
  }

  /** It has read its exitFlag behind a drain and found it set. */
  predicate SawExit(life: Life, run: Log<Action>, t: nat)
  {
    match run
    case Start => false
    case Then(before, a) =>
      || SawExit(life, before, t)
      || (a == Step(t) &&
          match Exec(Init(life), before)
          case None => false
          case Some(m) => t in m.threads && m.threads[t].pc.AskExit? && m.threads[t].exit)
  }

  /** Somewhere in its loop and bound to come round again. */
  predicate GoingRound(pc: Pc)
  {
    match pc
    case AskExit(_, dead) => !dead
    case Leave(_, dead, done) => !dead && !done
    case Deliver(_, dead, done) => !dead && !done
    case Announce => false
    case Return => false
    case Gone => false
    case _ => true
  }

  /** The data, then the closed notice, then the menu response. */
  predicate Farewell(outbox: Log<Out>)
  {
    outbox.Then? && outbox.last.Menu? && EndsClosed(outbox.before)
  }

  /** What a goroutine does, by what it has seen. */
  predicate Knows(th: Thread, dead: bool, done: bool)
  {
    match th.role
    case ReadCmd => true
    case DeathWatch => (th.pc.Leave? || th.pc.Deliver? || th.pc.Gone? <==> dead)
    case _ =>
      && (done ==> th.role.Attach? && th.exit)
      && match th.pc
         case AskExit(_, d) => d == dead && !done
         case Leave(_, d, e) => d == dead && e == done
         case Deliver(_, d, e) => d == dead && e == done
         case Announce => dead
         case Return => dead
         case Gone =>
           && (dead || done)
           && (th.role.Attach? ==> if dead then Farewell(th.outbox) else AllData(th.outbox))
         case _ => !dead && !done
  }

  lemma KnowsMove(th: Thread, life: Life, over: bool, buf: bytes, dead: bool, done: bool)
    requires Knows(th, dead, done) && RolePc(th) && NoticeLast(th) && !th.pc.Parked? && !th.pc.Gone?
    ensures Knows(Move(th, life, over, buf),
                  dead || (life.Dead? && (th.pc.AskDead? || (th.role.DeathWatch? && th.pc.GuardState?))),
                  done || (th.pc.AskExit? && th.exit))
  {
  }

  lemma KnowsElse(th: Thread, dead: bool, done: bool)
    requires Knows(th, dead, done) && NoticeLast(th)
    ensures Knows(th.(exit := true), dead, done)
    ensures th.pc.Parked? ==> Knows(th.(pc := Woken), dead, done)
    ensures th.role.Attach? && Emits(th.pc) ==> Knows(Emit(th, false), dead, done)
  {
  }

  /** What others' steps do to a goroutine. */
  lemma OthersSteps(m: State, a: Action, t: nat)
    requires t in m.threads && Enabled(m, a) && a != Step(t)
    ensures t in Do(m, a).threads
    ensures var th, th' := m.threads[t], Do(m, a).threads[t];
      || th' == th
      || th' == th.(exit := true)
      || (th.pc.Parked? && th' == th.(pc := Woken))
      || (th.role.Attach? && Emits(th.pc) && th' == Emit(th, false))
  {
  }

  lemma OwnStep(m: State, t: nat)
    requires t in m.threads && Enabled(m, Step(t))
    ensures Do(m, Step(t)).threads == m.threads[t := Move(m.threads[t], m.life, Over(m.rx, m.shut), m.buf)]
  {
  }

  lemma NewThread(m: State, a: Action, t: nat)
    requires t !in m.threads && Enabled(m, a) && t in Do(m, a).threads
    ensures Do(m, a).threads[t].pc.Enter? && Do(m, a).threads[t].outbox == Start
  {
  }

  lemma KnowsStep(m: State, a: Action, t: nat, dead: bool, done: bool)
    requires t in m.threads && Enabled(m, a)
    requires Knows(m.threads[t], dead, done) && RolePc(m.threads[t]) && NoticeLast(m.threads[t])
    ensures t in Do(m, a).threads
    ensures var th := m.threads[t];
      var sees := m.life.Dead? && (th.pc.AskDead? || (th.role.DeathWatch? && th.pc.GuardState?));
      Knows(Do(m, a).threads[t], dead || (a == Step(t) && sees), done || (a == Step(t) && th.pc.AskExit? && th.exit))
  {
    if a == Step(t) {
      KnowsMove(m.threads[t], m.life, Over(m.rx, m.shut), m.buf, dead, done);
      OwnStep(m, t);
    } else {
      KnowsElse(m.threads[t], dead, done);
      OthersSteps(m, a, t);
    }
  }

  lemma {:induction false} KnowsRun(life: Life, run: Log<Action>, s: State, t: nat)
    requires Reaches(Init(life), run, s)
    ensures if t in s.threads then Knows(s.threads[t], SawDead(life, run, t), SawExit(life, run, t))
            else !SawDead(life, run, t) && !SawExit(life, run, t)
    decreases run
  {
    if run.Then? {
      var m, a := Exec(Init(life), run.before).value, run.last;
      KnowsRun(life, run.before, m, t);
      T.RunKeeps(Init(life), run.before, m);
      if t in m.threads {
        assert Sync(m.threads[t], t, m.owner, m.buf, m.rx, Over(m.rx, m.shut)) && NoticeLast(m.threads[t]);
        KnowsStep(m, a, t, SawDead(life, run.before, t), SawExit(life, run.before, t));
      } else if t in s.threads {
        NewThread(m, a, t);
      }
    }
  }

  /** Round after round: over every run, a drain goroutine is going round if and only if it has seen
    * neither Dead nor its exitFlag. An attach's goroutine that is gone has seen Dead and sent the closed
    * notice and the menu response behind its data, or has seen its exitFlag set and sent data alone; the
    * console's has seen Dead; and WaitDead has returned only if it has. */
  lemma GoesRoundExactly(life: Life, run: Log<Action>, s: State, t: nat)
    requires Reaches(Init(life), run, s) && t in s.threads
    ensures var th, dead, done := s.threads[t], SawDead(life, run, t), SawExit(life, run, t);
      && (IsDrainer(th.role) ==> (GoingRound(th.pc) <==> !dead && !done))
      && (th.role.Attach? && th.pc.Gone? && dead ==> Farewell(th.outbox))
      && (th.role.Attach? && th.pc.Gone? && !dead ==> th.exit && AllData(th.outbox))
      && (th.role.Console? && th.pc.Gone? ==> dead)
      && (th.role.DeathWatch? && th.pc.Gone? ==> dead)
  {
    KnowsRun(life, run, s, t);
  }

  // ----- the console's second look -----------------------------------------------------------

  /** About to print the closed notice, it read State() again and still found Dead. */
  predicate SawDeadAgain(life: Life, run: Log<Action>, t: nat)
  {
    match run
    case Start => false
    case Then(before, a) =>
      || SawDeadAgain(life, before, t)
      || (a == Step(t) &&
          match Exec(Init(life), before)
          case None => false
          case Some(m) => t in m.threads && m.threads[t].pc.Announce? && m.life.Dead?)
  }

  /** What the console's goroutine has printed. */
  predicate Printed(th: Thread, again: bool)
  {
    th.role.Console? ==> if again then th.pc.Gone? && EndsClosed(th.outbox) else AllData(th.outbox)
  }

  lemma PrintedMove(th: Thread, life: Life, over: bool, buf: bytes, again: bool)
    requires Printed(th, again) && RolePc(th) && !th.pc.Parked? && !th.pc.Gone?
    ensures Printed(Move(th, life, over, buf), again || (th.pc.Announce? && life.Dead?))
  {
  }

  lemma PrintedStep(m: State, a: Action, t: nat, again: bool)
    requires t in m.threads && Enabled(m, a) && Printed(m.threads[t], again) && RolePc(m.threads[t])
    ensures t in Do(m, a).threads
    ensures Printed(Do(m, a).threads[t], again || (a == Step(t) && m.threads[t].pc.Announce? && m.life.Dead?))
  {
    if a == Step(t) {
      PrintedMove(m.threads[t], m.life, Over(m.rx, m.shut), m.buf, again);
      OwnStep(m, t);
    } else {
      OthersSteps(m, a, t);
    }
  }

  lemma {:induction false} PrintedRun(life: Life, run: Log<Action>, s: State, t: nat)
    requires Reaches(Init(life), run, s)
    ensures if t in s.threads then Printed(s.threads[t], SawDeadAgain(life, run, t)) else !SawDeadAgain(life, run, t)
    decreases run
  {
    if run.Then? {
      var m, a := Exec(Init(life), run.before).value, run.last;
      PrintedRun(life, run.before, m, t);
      T.RunKeeps(Init(life), run.before, m);
      if t in m.threads {
        assert Sync(m.threads[t], t, m.owner, m.buf, m.rx, Over(m.rx, m.shut));
        PrintedStep(m, a, t, SawDeadAgain(life, run.before, t));
      } else if t in s.threads {
        NewThread(m, a, t);
      }
    }
  }

  /** Over every run, the console prints the closed notice if and only if the session was still Dead at
    * its second look, and then the notice is the last it prints; otherwise it prints data alone. */
  lemma ConsoleNoticeExactly(life: Life, run: Log<Action>, s: State, t: nat)
    requires Reaches(Init(life), run, s) && t in s.threads && s.threads[t].role.Console?
    ensures EndsClosed(s.threads[t].outbox) <==> SawDeadAgain(life, run, t)
    ensures AllData(s.threads[t].outbox) <==> !SawDeadAgain(life, run, t)
    ensures SawDeadAgain(life, run, t) ==> SawDead(life, run, t) && s.threads[t].pc.Gone?
  {
    PrintedRun(life, run, s, t);
    GoesRoundExactly(life, run, s, t);
  }

  // ----- nothing is left lying ---------------------------------------------------------------

  /** How far a goroutine is from having handed on all. */
  function Rank(pc: Pc, buffered: bool): nat
  {
    if !buffered && InHand(pc) == [] then 0
    else match pc
    case Deliver(_, _, _) => if buffered then 9 else 1
    case Enter => 8
    case Woken => 8
    case Guard => 7
    case Drain => 6
    case AskDead(_) => 4
    case AskExit(_, _) => 3
    case Leave(_, _, _) => 2
    case _ => 5
  }

  /** Nothing left for t to hand on. */
  predicate Done(s: State, t: nat)
    requires t in s.threads
  {
    s.buf == [] && InHand(s.threads[t].pc) == []
  }

  /** Only t has moved, and only t has drained. */
  predicate OnlyMoved(s: State, s': State, t: nat)
  {
    && s'.threads.Keys == s.threads.Keys && s'.appended == s.appended
    && (forall u :: u in s.threads && u != t ==> s'.threads[u] == s.threads[u])
    && (t in s.threads ==> s'.threads[t].role == s.threads[t].role && s'.threads[t].since == s.threads[t].since)
    && OnlyBy(s'.drained, s.drained, t)
  }

  /** Where t may be while nobody else holds rxMu. */
  ghost predicate Driven(s: State, t: nat)
  {
    && Inv(s) && t in s.threads && IsDrainer(s.threads[t].role)
    && s.owner == (if HoldsMu(s.threads[t].pc) then Held(t) else Nobody)
    && (GoingRound(s.threads[t].pc) || s.buf == [])
  }

  lemma RankFalls(th: Thread, t: nat, life: Life, owner: Owner, buf: bytes, rx: RxPc, over: bool)
    requires Sync(th, t, owner, buf, rx, over) && IsDrainer(th.role) && !rx.Signalling?
    requires !(buf == [] && InHand(th.pc) == []) && (GoingRound(th.pc) || buf == [])
    ensures !th.pc.Parked? && !th.pc.Gone?
    ensures var th' := Move(th, life, over, buf);
      var buf' := if th.pc.Drain? then [] else buf;
      && Rank(th'.pc, buf' != []) < Rank(th.pc, buf != [])
      && (GoingRound(th'.pc) || buf' == [])
  {
  }

  lemma StepMoves(s: State, t: nat)
    requires t in s.threads && Enabled(s, Step(t))
    ensures var th, s' := s.threads[t], Do(s, Step(t));
      && OnlyMoved(s, s', t) && s'.rx == s.rx && s'.shut == s.shut
      && s'.buf == (if th.pc.Drain? then [] else s.buf)
      && s'.owner == T.OwnerAfter(th.pc, t, s.owner)
  {
    OwnStep(s, t);
    MoveKeeps(s.threads[t], s.life, Over(s.rx, s.shut), s.buf);
    var d := Do(s, Step(t)).drained;
    assert d == s.drained || d == Then(s.drained, Take(t, s.buf));
  }

  lemma MoveKeeps(th: Thread, life: Life, over: bool, buf: bytes)
    requires !th.pc.Parked? && !th.pc.Gone?
    ensures Move(th, life, over, buf).role == th.role && Move(th, life, over, buf).since == th.since
  {
  }

  lemma StepDrives(s: State, t: nat)
    requires Driven(s, t) && !Done(s, t)
    ensures Enabled(s, Step(t))
    ensures var s' := Do(s, Step(t));
      && Driven(s', t) && OnlyMoved(s, s', t)
      && Rank(s'.threads[t].pc, s'.buf != []) < Rank(s.threads[t].pc, s.buf != [])
  {
    assert Sync(s.threads[t], t, s.owner, s.buf, s.rx, Over(s.rx, s.shut));
    RankFalls(s.threads[t], t, s.life, s.owner, s.buf, s.rx, Over(s.rx, s.shut));
    StepMoves(s, t);
    OwnStep(s, t);
    T.DoKeeps(s, Step(t));
    var s' := Do(s, Step(t));
    assert Sync(s'.threads[t], t, s'.owner, s'.buf, s'.rx, Over(s'.rx, s'.shut));
  }

  lemma OnlyMovedOn(s: State, m: State, s': State, t: nat)
    requires OnlyMoved(s, m, t) && OnlyMoved(m, s', t) && t in s.threads
    ensures OnlyMoved(s, s', t)
  {
    OnlyByOn(s'.drained, m.drained, s.drained, t);
  }

  lemma {:induction false} OnlyByOn(c: Log<Take>, b: Log<Take>, a: Log<Take>, t: nat)
    requires OnlyBy(c, b, t) && OnlyBy(b, a, t)
    ensures OnlyBy(c, a, t)
    decreases c
  {
    if c != b {
      OnlyByOn(c.before, b, a, t);
    }
  }

  /** The goroutine alone empties the buffer and its hands. */
  lemma {:induction false} Drive(from: State, run: Log<Action>, s: State, t: nat)
    returns (run': Log<Action>, s': State)
    requires Reaches(from, run, s) && Driven(s, t)
    ensures Reaches(from, run', s') && Driven(s', t) && Done(s', t) && OnlyMoved(s, s', t)
    decreases Rank(s.threads[t].pc, s.buf != [])
  {
    if Done(s, t) {
      run', s' := run, s;
    } else {
      StepDrives(s, t);
      var m;
      run', m := T.Play(from, run, s, Step(t));
      run', s' := Drive(from, run', m, t);
      OnlyMovedOn(s, m, s', t);
    }
  }

  // ----- until rxMu is free ------------------------------------------------------------------

  /** The receive loop appends, wakes and unlocks. */
  lemma RxReleases(from: State, run: Log<Action>, s: State) returns (run': Log<Action>, s': State)
    requires Reaches(from, run, s) && Inv(s) && s.owner == RxLoop
    ensures Reaches(from, run', s') && Inv(s') && s'.owner == Nobody
    ensures s.appended <= s'.appended && s'.drained == s.drained
    ensures s'.threads == s.threads || s'.threads == WakeAll(s.threads)
  {
    run', s' := run, s;
    if s'.rx.Appending? {
      T.DoKeeps(s', RxStep);
      run', s' := T.Play(from, run', s', RxStep);
    }
    if s'.rx.Signalling? {
      T.DoKeeps(s', RxStep);
      run', s' := T.Play(from, run', s', RxStep);
    }
    T.DoKeeps(s', RxStep);
    run', s' := T.Play(from, run', s', RxStep);
  }

  function HoldRank(pc: Pc): nat
  {
    match pc
    case Guard => 9
    case GuardState => 8
    case GuardExit => 7
    case Park => 6
    case Drain => 5
    case AskDead(_) => 4
    case AskExit(_, _) => 3
    case Leave(_, _, _) => 2
    case Deliver(_, _, _) => 1
    case _ => 0
  }

  lemma HoldRankFalls(th: Thread, life: Life, over: bool, buf: bytes)
    requires HoldsMu(th.pc) || InHand(th.pc) != []
    ensures !th.pc.Parked? && !th.pc.Gone?
    ensures HoldRank(Move(th, life, over, buf).pc) < HoldRank(th.pc)
  {
  }

  /** Any other goroutine leaves rxMu, and hands on what it has drained. */
  lemma {:induction false} OtherReleases(from: State, run: Log<Action>, s: State, u: nat)
    returns (run': Log<Action>, s': State)
    requires Reaches(from, run, s) && Inv(s) && u in s.threads
    requires s.owner == if HoldsMu(s.threads[u].pc) then Held(u) else Nobody
    ensures Reaches(from, run', s') && Inv(s') && s'.owner == Nobody && OnlyMoved(s, s', u)
    ensures InHand(s'.threads[u].pc) == []
    decreases HoldRank(s.threads[u].pc)
  {
    if !HoldsMu(s.threads[u].pc) && InHand(s.threads[u].pc) == [] {
      run', s' := run, s;
    } else {
      HoldRankFalls(s.threads[u], s.life, Over(s.rx, s.shut), s.buf);
      StepMoves(s, u);
      OwnStep(s, u);
      T.DoKeeps(s, Step(u));
      var m;
      run', m := T.Play(from, run, s, Step(u));
      assert Sync(m.threads[u], u, m.owner, m.buf, m.rx, Over(m.rx, m.shut));
      run', s' := OtherReleases(from, run', m, u);
      OnlyMovedOn(s, m, s', u);
    }
  }

  // ----- everything is handed on -------------------------------------------------------------

  /** u has nothing in its hands that it had not already. */
  predicate HandsClear(s: State, s': State, u: nat)
    requires u in s'.threads
  {
    InHand(s'.threads[u].pc) == [] || (u in s.threads && s'.threads[u] == s.threads[u])
  }

  /** rxMu free for t, or with it. */
  lemma MuForDrainer(s: State, t: nat) returns (more: Log<Action>, m: State)
    requires Inv(s) && t in s.threads && IsDrainer(s.threads[t].role) && GoingRound(s.threads[t].pc)
    ensures Reaches(s, more, m) && Driven(m, t) && s.appended <= m.appended
    ensures m.threads.Keys == s.threads.Keys && forall u :: u in m.threads ==> HandsClear(s, m, u)
    ensures m.threads[t].since == s.threads[t].since && m.threads[t].role == s.threads[t].role
    ensures !(s.owner.Held? && s.owner.holder != t) ==> m.drained == s.drained
  {
    assert Exec(s, Start) == Some(s);
    assert Sync(s.threads[t], t, s.owner, s.buf, s.rx, Over(s.rx, s.shut));
    if s.owner == RxLoop {
      more, m := RxReleases(s, Start, s);
    } else if s.owner.Held? && s.owner.holder != t {
      var u := s.owner.holder;
      assert Sync(s.threads[u], u, s.owner, s.buf, s.rx, Over(s.rx, s.shut));
      more, m := OtherReleases(s, Start, s, u);
    } else {
      more, m := Start, s;
    }
    assert Sync(m.threads[t], t, m.owner, m.buf, m.rx, Over(m.rx, m.shut));
  }

  function Append(a: Log<Action>, b: Log<Action>): Log<Action>
  {
    match b
    case Start => a
    case Then(before, last) => Then(Append(a, before), last)
  }

  lemma {:induction false} ReachesAppend(x: State, a: Log<Action>, y: State, b: Log<Action>, z: State)
    requires Reaches(x, a, y) && Reaches(y, b, z)
    ensures Reaches(x, Append(a, b), z)
    decreases b
  {
    if b.Then? {
      ReachesAppend(x, a, y, b.before, Exec(y, b.before).value);
    }
  }

  /** Nothing is left lying: as long as a drain goroutine has seen neither Dead nor its exitFlag, some
    * continuation hands on every byte appended so far: the buffer is empty, and no goroutine that took
    * part has anything in its hands. And if it is the sole drainer, and no other goroutine holds rxMu,
    * then what it has handed on is everything behind the drains before it. */
  lemma EverythingIsHandedOn(life: Life, run: Log<Action>, s: State, t: nat)
    returns (more: Log<Action>, s': State)
    requires Reaches(Init(life), run, s) && t in s.threads && IsDrainer(s.threads[t].role)
    requires !SawDead(life, run, t) && !SawExit(life, run, t)
    ensures Reaches(s, more, s') && s.appended <= s'.appended && s'.buf == []
    ensures t in s'.threads && InHand(s'.threads[t].pc) == []
    ensures forall u :: u in s'.threads ==> HandsClear(s, s', u)
    ensures OnlyBy(s.drained, s.threads[t].since, t) && !(s.owner.Held? && s.owner.holder != t) ==>
      s'.appended == Bytes(s.threads[t].since) + Handed(s'.threads[t].outbox)
  {
    GoesRoundExactly(life, run, s, t);
    T.RunKeeps(Init(life), run, s);
    more, s' := HandOn(s, t);
    if OnlyBy(s.drained, s.threads[t].since, t) && !(s.owner.Held? && s.owner.holder != t) {
      OnlyByOn(s'.drained, s.drained, s.threads[t].since, t);
      SoleHandedAll(life, run, s, more, s', t);
    }
  }

  /** From a state in which the goroutine is going round. */
  lemma HandOn(s: State, t: nat) returns (more: Log<Action>, s': State)
    requires Inv(s) && t in s.threads && IsDrainer(s.threads[t].role) && GoingRound(s.threads[t].pc)
    ensures Reaches(s, more, s') && s.appended <= s'.appended && s'.threads.Keys == s.threads.Keys && Done(s', t)
    ensures forall u :: u in s'.threads ==> HandsClear(s, s', u)
    ensures s'.threads[t].since == s.threads[t].since
    ensures !(s.owner.Held? && s.owner.holder != t) ==> OnlyBy(s'.drained, s.drained, t)
  {
    var m;
    more, m := MuForDrainer(s, t);
    more, s' := Drive(s, more, m, t);
    forall u | u in s'.threads
      ensures HandsClear(s, s', u)
    {
      assert HandsClear(s, m, u);
    }
  }

  lemma SoleHandedAll(life: Life, run: Log<Action>, s: State, more: Log<Action>, s': State, t: nat)
    requires Reaches(Init(life), run, s) && Reaches(s, more, s') && t in s'.threads && Done(s', t)
    requires OnlyBy(s'.drained, s'.threads[t].since, t)
    ensures s'.appended == Bytes(s'.threads[t].since) + Handed(s'.threads[t].outbox)
  {
    ReachesAppend(Init(life), run, s, more, s');
    T.SoleDrainerSlice(life, Append(run, more), s', t);
    var th := s'.threads[t];
    assert Bytes(th.since) + (Handed(th.outbox) + []) + [] == Bytes(th.since) + Handed(th.outbox);
  }
}
