/** What every run of the receive monitor keeps, and what follows for drains and death notices. */
module RxTheorems {
  import opened Prelude
  import opened RxMonitor

  // ----- one step: bytes are conserved -------------------------------------------------------

  lemma {:induction false} ConservedKeeps(s: State, a: Action)
    requires Conserved(s) && Enabled(s, a)
    ensures Conserved(Do(s, a))
  {
    if a.RxStep? && s.rx.Appending? {
      assert Bytes(s.drained) + (s.buf + s.rx.chunk) == (Bytes(s.drained) + s.buf) + s.rx.chunk;
    }
  }

  // ----- one step: the lock and the condition variable ---------------------------------------

  lemma {:induction false} RxStepSyncs(s: State)
    requires Synced(s) && Enabled(s, RxStep)
    ensures Synced(Do(s, RxStep))
  {
    var s' := Do(s, RxStep);
    forall t | t in s'.threads
      ensures Sync(s'.threads[t], t, s'.owner, s'.buf, s'.rx, Over(s'.rx, s'.shut))
    {
      assert Sync(s.threads[t], t, s.owner, s.buf, s.rx, Over(s.rx, s.shut));
    }
  }

  function OwnerAfter(pc: Pc, t: nat, owner: Owner): Owner
  {
    match pc
    case Enter => Held(t)
    case Woken => Held(t)
    case Park => Nobody
    case Leave(_, _, _) => Nobody
    case _ => owner
  }

  lemma {:induction false} MoveSyncs(th: Thread, t: nat, life: Life, owner: Owner, buf: bytes, rx: RxPc, over: bool)
    requires Sync(th, t, owner, buf, rx, over)
    requires !th.pc.Parked? && !th.pc.Gone?
    ensures Sync(Move(th, life, over, buf), t, OwnerAfter(th.pc, t, owner), if th.pc.Drain? then [] else buf, rx, over)
  {
  }

  lemma {:induction false} StepSyncs(s: State, t: nat)
    requires Synced(s) && Enabled(s, Step(t))
    ensures Synced(Do(s, Step(t)))
  {
    var s' := Do(s, Step(t));
    MoveSyncs(s.threads[t], t, s.life, s.owner, s.buf, s.rx, Over(s.rx, s.shut));
    forall u | u in s'.threads && u != t
      ensures Sync(s'.threads[u], u, s'.owner, s'.buf, s'.rx, Over(s'.rx, s'.shut))
    {
      assert Sync(s.threads[u], u, s.owner, s.buf, s.rx, Over(s.rx, s.shut));
    }
  }

  lemma {:induction false} WakeSyncs(s: State)
    requires Synced(s)
    ensures Synced(Do(s, Broadcast))
  {
    var s' := Do(s, Broadcast);
    forall t | t in s'.threads
      ensures Sync(s'.threads[t], t, s'.owner, s'.buf, s'.rx, Over(s'.rx, s'.shut))
    {
      assert Sync(s.threads[t], t, s.owner, s.buf, s.rx, Over(s.rx, s.shut));
    }
  }

  /** A change of one goroutine alone, a new one included. */
  lemma {:induction false} PutSyncs(s: State, t: nat, th: Thread)
    requires Synced(s) && Sync(th, t, s.owner, s.buf, s.rx, Over(s.rx, s.shut))
    ensures Synced(Put(s, t, th))
  {
    var s' := Put(s, t, th);
    forall u | u in s'.threads && u != t
      ensures Sync(s'.threads[u], u, s'.owner, s'.buf, s'.rx, Over(s'.rx, s'.shut))
    {
      assert Sync(s.threads[u], u, s.owner, s.buf, s.rx, Over(s.rx, s.shut));
    }
  }

  /** What happens to the connection. */
  lemma {:induction false} ConnSyncs(s: State, a: Action)
    requires Synced(s) && Enabled(s, a) && (a.Read? || a.Shut?)
    ensures Synced(Do(s, a))
  {
    var s' := Do(s, a);
    forall t | t in s'.threads
      ensures Sync(s'.threads[t], t, s'.owner, s'.buf, s'.rx, Over(s'.rx, s'.shut))
    {
      assert Sync(s.threads[t], t, s.owner, s.buf, s.rx, Over(s.rx, s.shut));
    }
  }

  lemma {:induction false} SyncedKeeps(s: State, a: Action)
    requires Synced(s) && Enabled(s, a)
    ensures Synced(Do(s, a))
  {
    match a
    case Read(_, _) => ConnSyncs(s, a);
    case Shut => ConnSyncs(s, a);
    case RxStep => RxStepSyncs(s);
    case Step(t) => StepSyncs(s, t);
    case Broadcast => WakeSyncs(s);
    case Spawn(t, role) => PutSyncs(s, t, Thread(role, Enter, false, s.drained, false, Start));
    case Drop(t) =>
      assert Sync(s.threads[t], t, s.owner, s.buf, s.rx, Over(s.rx, s.shut));
      PutSyncs(s, t, Emit(s.threads[t], false));
    case SetExit(t) =>
      assert Sync(s.threads[t], t, s.owner, s.buf, s.rx, Over(s.rx, s.shut));
      PutSyncs(s, t, s.threads[t].(exit := true));
    case SetLife(_) =>
  }

  // ----- one step: the books of each goroutine -----------------------------------------------

  lemma {:induction false} EmitBalances(th: Thread, t: nat, drained: Log<Take>, sent: bool)
    requires Balanced(th, t, drained) && NoticeLast(th) && Emits(th.pc)
    ensures Balanced(Emit(th, sent), t, drained) && NoticeLast(Emit(th, sent))
  {
  }

  lemma {:induction false} MoveBalances(th: Thread, t: nat, life: Life, over: bool, buf: bytes, drained: Log<Take>)
    requires Balanced(th, t, drained) && NoticeLast(th) && !th.pc.Parked? && !th.pc.Gone?
    ensures NoticeLast(Move(th, life, over, buf))
    ensures Balanced(Move(th, life, over, buf), t, if th.pc.Drain? then Then(drained, Take(t, buf)) else drained)
  {
    if Emits(th.pc) {
      EmitBalances(th, t, drained, true);
    }
  }

  lemma {:induction false} StepLedger(s: State, t: nat)
    requires Ledger(s) && Enabled(s, Step(t))
    ensures Ledger(Do(s, Step(t)))
  {
    var th, s' := s.threads[t], Do(s, Step(t));
    MoveBalances(th, t, s.life, Over(s.rx, s.shut), s.buf, s.drained);
    assert s'.drained == if th.pc.Drain? then Then(s.drained, Take(t, s.buf)) else s.drained;
    assert s'.threads == s.threads[t := Move(th, s.life, Over(s.rx, s.shut), s.buf)];
  }

  lemma {:induction false} LedgerKeeps(s: State, a: Action)
    requires Ledger(s) && Enabled(s, a)
    ensures Ledger(Do(s, a))
  {
    if a.Step? {
      StepLedger(s, a.t);
    } else if a.Drop? {
      EmitBalances(s.threads[a.t], a.t, s.drained, false);
    }
  }

  lemma {:induction false} DoKeeps(s: State, a: Action)
    requires Inv(s) && Enabled(s, a)
    ensures Inv(Do(s, a))
  {
    ConservedKeeps(s, a);
    SyncedKeeps(s, a);
    LedgerKeeps(s, a);
  }

  /** Every state of every run satisfies the invariant. */
  lemma {:induction false} RunKeeps(s: State, run: Log<Action>, s': State)
    requires Inv(s) && Reaches(s, run, s')
    ensures Inv(s')
    decreases run
  {
    if run.Then? {
      var m := Exec(s, run.before).value;
      RunKeeps(s, run.before, m);
      DoKeeps(m, run.last);
    }
  }

  // ----- what every run keeps ----------------------------------------------------------------

  /** Conservation: in every reachable state the drained chunks, in the order in which they held
    * rxMu, followed by rxBuf are the bytes appended so far, whoever drained. BytesRX runs ahead by
    * the chunk in flight at most. */
  lemma Conservation(life: Life, run: Log<Action>, s: State)
    requires Reaches(Init(life), run, s)
    ensures Bytes(s.drained) + s.buf == s.appended
    ensures s.arrived == s.appended + InFlight(s.rx)
    ensures s.bytesRX == |s.appended| + |InFlight(s.rx)| - Uncounted(s.rx)
  {
    RunKeeps(Init(life), run, s);
  }

  /** No lost data wakeup: whenever rxMu is free and rxBuf holds data, no drainer is parked. */
  lemma NoLostDataWakeup(life: Life, run: Log<Action>, s: State, t: nat)
    requires Reaches(Init(life), run, s)
    requires s.owner == Nobody && s.buf != []
    requires t in s.threads && IsDrainer(s.threads[t].role)
    ensures !s.threads[t].pc.Parked?
  {
    RunKeeps(Init(life), run, s);
    assert Sync(s.threads[t], t, s.owner, s.buf, s.rx, Over(s.rx, s.shut));
  }

  /** At most one goroutine is between Lock and Unlock of rxMu, the receive loop included. */
  lemma MutualExclusion(life: Life, run: Log<Action>, s: State, t: nat, u: nat)
    requires Reaches(Init(life), run, s)
    requires t in s.threads && HoldsMu(s.threads[t].pc)
    ensures !RxHoldsMu(s.rx)
    ensures u in s.threads && HoldsMu(s.threads[u].pc) ==> u == t
  {
    RunKeeps(Init(life), run, s);
    assert Sync(s.threads[t], t, s.owner, s.buf, s.rx, Over(s.rx, s.shut));
    assert u in s.threads ==> Sync(s.threads[u], u, s.owner, s.buf, s.rx, Over(s.rx, s.shut));
  }

  lemma {:induction false} OnlyByBytes(drained: Log<Take>, since: Log<Take>, t: nat)
    requires OnlyBy(drained, since, t) && BytesBy(since, t) == []
    ensures Bytes(drained) == Bytes(since) + BytesBy(drained, t)
    decreases drained
  {
    if drained == since {
      assert Bytes(since) + [] == Bytes(since);
    } else {
      OnlyByBytes(drained.before, since, t);
      assert (Bytes(since) + BytesBy(drained.before, t)) + drained.last.chunk
          == Bytes(since) + (BytesBy(drained.before, t) + drained.last.chunk);
    }
  }

  /** A goroutine that alone drained since it started has handed on, or holds, one contiguous slice
    * of the bytes appended: what lies between the drains before it and what is still in rxBuf. */
  lemma SoleDrainerSlice(life: Life, run: Log<Action>, s: State, t: nat)
    requires Reaches(Init(life), run, s)
    requires t in s.threads && OnlyBy(s.drained, s.threads[t].since, t)
    ensures var th := s.threads[t];
            s.appended == Bytes(th.since) + (Handed(th.outbox) + InHand(th.pc)) + s.buf
  {
    RunKeeps(Init(life), run, s);
    OnlyByBytes(s.drained, s.threads[t].since, t);
  }

  // ----- the death notice --------------------------------------------------------------------

  lemma SealedStep(s: State, a: Action, t: nat)
    requires t in s.threads && s.threads[t].sealed && Over(s.rx, s.shut) && Enabled(s, a)
    ensures var s' := Do(s, a); t in s'.threads && s'.threads[t].sealed && s'.appended == s.appended
  {
  }

  lemma {:induction false} SealedStays(s: State, run: Log<Action>, s': State, t: nat)
    requires Inv(s) && t in s.threads && s.threads[t].sealed && Reaches(s, run, s')
    ensures Inv(s') && t in s'.threads && s'.threads[t].sealed
    ensures s'.appended == s.appended
    decreases run
  {
    if run.Then? {
      var m := Exec(s, run.before).value;
      SealedStays(s, run.before, m, t);
      assert Sync(m.threads[t], t, m.owner, m.buf, m.rx, Over(m.rx, m.shut));
      SealedStep(m, run.last, t);
      DoKeeps(m, run.last);
    }
  }

  /** No bytes behind the death notice: once a drainer has observed Dead when all was over, as it is
    * after the receive loop itself has set Dead, rxBuf is empty, everything read was drained, and no
    * continuation of the run ever appends another byte or finds one in rxBuf. */
  lemma NoBytesAfterDeath(life: Life, run: Log<Action>, s: State, t: nat, more: Log<Action>, s': State)
    requires Reaches(Init(life), run, s) && t in s.threads && s.threads[t].sealed
    requires Reaches(s, more, s')
    ensures s.buf == [] && s'.buf == [] && s'.appended == s.appended == s.arrived == Bytes(s.drained)
  {
    RunKeeps(Init(life), run, s);
    SealedStays(s, more, s', t);
    assert Sync(s.threads[t], t, s.owner, s.buf, s.rx, Over(s.rx, s.shut));
    assert Sync(s'.threads[t], t, s'.owner, s'.buf, s'.rx, Over(s'.rx, s'.shut));
  }

  predicate Notified(outbox: Log<Out>)
  {
    EndsClosed(outbox) || (outbox.Then? && outbox.last.Menu? && EndsClosed(outbox.before))
  }

  /** A goroutine that has sent its notice is leaving. */
  lemma NotifiedLeaves(th: Thread)
    requires NoticeLast(th) && Notified(th.outbox)
    ensures th.pc.Return? || th.pc.Gone?
  {
    assert !AllData(th.outbox);
  }

  /** A sole drainer that leaves with all over has handed on all. */
  lemma LeavingHasAll(life: Life, run: Log<Action>, s: State, t: nat)
    requires Reaches(Init(life), run, s) && t in s.threads && s.threads[t].sealed
    requires s.threads[t].pc.Return? || s.threads[t].pc.Gone?
    requires OnlyBy(s.drained, s.threads[t].since, t)
    ensures s.appended == Bytes(s.threads[t].since) + Handed(s.threads[t].outbox)
  {
    var th := s.threads[t];
    assert Exec(s, Start) == Some(s);
    NoBytesAfterDeath(life, run, s, t, Start, s);
    SoleDrainerSlice(life, run, s, t);
    assert InHand(th.pc) == [] && s.buf == [];
    assert Bytes(th.since) + (Handed(th.outbox) + []) + [] == Bytes(th.since) + Handed(th.outbox);
  }

  /** Last bytes first: when the sole drainer of an attach has sent "closed by remote" for a death
    * that it observed when all was over, the data it handed on before the notice is every byte that
    * arrived, or ever will, behind the drains that preceded the attach. */
  lemma LastBytesBeforeNotice(life: Life, run: Log<Action>, s: State, t: nat, more: Log<Action>, s': State)
    requires Reaches(Init(life), run, s) && t in s.threads
    requires s.threads[t].sealed && Notified(s.threads[t].outbox)
    requires OnlyBy(s.drained, s.threads[t].since, t)
    requires Reaches(s, more, s')
    ensures s'.appended == Bytes(s.threads[t].since) + Handed(s.threads[t].outbox)
    ensures s.threads[t].pc.Return? || s.threads[t].pc.Gone?
  {
    RunKeeps(Init(life), run, s);
    NotifiedLeaves(s.threads[t]);
    LeavingHasAll(life, run, s, t);
    NoBytesAfterDeath(life, run, s, t, more, s');
  }

  /** No continuation appends. */
  ghost predicate NoMoreBytes(s: State)
  {
    forall run, s' :: Reaches(s, run, s') ==> s'.appended == s.appended
  }

  lemma {:induction false} OverStays(s: State, run: Log<Action>, s': State)
    requires Over(s.rx, s.shut) && Reaches(s, run, s')
    ensures Over(s'.rx, s'.shut) && s'.appended == s.appended
    decreases run
  {
    if run.Then? {
      OverStays(s, run.before, Exec(s, run.before).value);
    }
  }

  /** From a free lock, the receive loop can still append unless all is over. */
  lemma {:induction false} CanAppend(s: State, run: Log<Action>, m: State)
    requires Reaches(s, run, m) && m.appended == s.appended && m.owner == Nobody
    requires (m.rx.Reading? && !m.shut) || (m.rx.Counting? && m.rx.chunk != []) || (m.rx.Locking? && m.rx.chunk != [])
    ensures !NoMoreBytes(s)
    decreases if m.rx.Reading? then 2 else if m.rx.Counting? then 1 else 0
  {
    if m.rx.Reading? {
      var m1 := Do(m, Read([0], false));
      assert Reaches(s, Then(run, Read([0], false)), m1);
      CanAppend(s, Then(run, Read([0], false)), m1);
    } else {
      var run1, m1 := Then(run, RxStep), Do(m, RxStep);
      assert Reaches(s, run1, m1);
      if m.rx.Counting? {
        CanAppend(s, run1, m1);
      } else {
        var run2, m2 := Then(run1, RxStep), Do(m1, RxStep);
        assert Reaches(s, run2, m2);
        assert |m2.appended| == |s.appended| + |m.rx.chunk|;
      }
    }
  }

  predicate NonEmptyFlight(rx: RxPc)
  {
    rx.Counting? || rx.Locking? || rx.Appending? ==> rx.chunk != []
  }

  lemma {:induction false} FlightNonEmpty(s: State, run: Log<Action>, s': State)
    requires NonEmptyFlight(s.rx) && Reaches(s, run, s')
    ensures NonEmptyFlight(s'.rx)
    decreases run
  {
    if run.Then? {
      FlightNonEmpty(s, run.before, Exec(s, run.before).value);
    }
  }

  /** Exactly when a death notice is final. A drainer about to unlock after it observed Dead knows
    * that no byte will follow if and only if the receive loop is past its last append, or about to
    * read from a connection closed on this side. */
  lemma DeathFinalExactlyWhenQuiet(life: Life, run: Log<Action>, s: State, t: nat)
    requires Reaches(Init(life), run, s)
    requires t in s.threads && s.threads[t].pc.Leave? && s.threads[t].pc.dead
    ensures NoMoreBytes(s) <==> Over(s.rx, s.shut)
  {
    if Over(s.rx, s.shut) {
      forall more, s' | Reaches(s, more, s')
        ensures s'.appended == s.appended
      {
        OverStays(s, more, s');
      }
    } else {
      RunKeeps(Init(life), run, s);
      FlightNonEmpty(Init(life), run, s);
      assert Sync(s.threads[t], t, s.owner, s.buf, s.rx, Over(s.rx, s.shut));
      var m := Do(s, Step(t));
      assert Exec(s, Start) == Some(s);
      assert Reaches(s, Then(Start, Step(t)), m);
      CanAppend(s, Then(Start, Step(t)), m);
    }
  }

  // ----- the unlocked death broadcast --------------------------------------------------------

  /** Past the test of State() or exitFlag and bound to wait. */
  predicate AtRisk(th: Thread)
  {
    th.pc.Park? || (th.pc.GuardExit? && !th.exit)
  }

  /** A continuation that leaves the session Dead and in which nobody else broadcasts. */
  predicate Undisturbed(run: Log<Action>)
  {
    match run
    case Start => true
    case Then(before, a) => Undisturbed(before) && !a.Broadcast? && (a.SetLife? ==> a.life.Dead?)
  }

  predicate SomeAtRisk(s: State)
  {
    exists t :: t in s.threads && AtRisk(s.threads[t])
  }

  predicate SomeParked(s: State)
  {
    exists t :: t in s.threads && s.threads[t].pc.Parked?
  }

  /** The death broadcast has been made and a goroutine sleeps through it. */
  ghost predicate MayOversleep(s: State)
  {
    exists run, s' :: Undisturbed(run) && Reaches(s, run, s') && s'.rx.Finished? && SomeParked(s')
  }

  /** The session is Dead for good as far as waiters go. */
  predicate Settled(s: State)
  {
    && s.life.Dead? && (s.rx.Waking? || s.rx.Finished?)
    && (forall t :: t in s.threads ==> !AtRisk(s.threads[t]) && (s.rx.Finished? ==> !s.threads[t].pc.Parked?))
  }

  /** A step of a goroutine that is not bound to wait, in a dead session. */
  lemma SettledMove(th: Thread, over: bool, buf: bytes)
    requires !AtRisk(th) && !th.pc.Parked? && !th.pc.Gone?
    ensures var th' := Move(th, Dead, over, buf); !AtRisk(th') && !th'.pc.Parked?
  {
  }

  lemma SettledRx(s: State)
    requires Settled(s) && Enabled(s, RxStep)
    ensures Settled(Do(s, RxStep))
  {
  }

  lemma {:induction false} SettledStep(s: State, a: Action)
    requires Settled(s) && Enabled(s, a) && !a.Broadcast? && (a.SetLife? ==> a.life.Dead?)
    ensures Settled(Do(s, a))
  {
    match a
    case RxStep => SettledRx(s);
    case Step(t) =>
      SettledMove(s.threads[t], Over(s.rx, s.shut), s.buf);
      assert Do(s, a).threads == s.threads[t := Move(s.threads[t], s.life, Over(s.rx, s.shut), s.buf)];
    case _ =>
  }

  lemma {:induction false} SettledStays(s: State, run: Log<Action>, s': State)
    requires Settled(s) && Undisturbed(run) && Reaches(s, run, s')
    ensures Settled(s')
    decreases run
  {
    if run.Then? {
      var m := Exec(s, run.before).value;
      SettledStays(s, run.before, m);
      SettledStep(m, run.last);
    }
  }

  /** Exactly when the death broadcast can be missed: it is made without rxMu, so a goroutine can
    * sleep through it if and only if one stands between its last test and Wait. */
  lemma OversleepExactlyWhenAtRisk(s: State)
    requires s.life.Dead? && s.rx.Waking?
    ensures MayOversleep(s) <==> SomeAtRisk(s)
  {
    if SomeAtRisk(s) {
      var t :| t in s.threads && AtRisk(s.threads[t]);
      assert Exec(s, Start) == Some(s);
      var run := Then(Then(Start, RxStep), Step(t));
      var m := Do(s, RxStep);
      assert Reaches(s, Then(Start, RxStep), m);
      var m1 := Do(m, Step(t));
      assert Undisturbed(run) && Reaches(s, run, m1);
      if s.threads[t].pc.Park? {
        assert m1.threads[t].pc.Parked? && SomeParked(m1);
      } else {
        var run2, m2 := Then(run, Step(t)), Do(m1, Step(t));
        assert Undisturbed(run2) && Reaches(s, run2, m2);
        assert m2.threads[t].pc.Parked? && SomeParked(m2);
      }
    } else {
      assert Settled(s);
      forall run, s' | Undisturbed(run) && Reaches(s, run, s')
        ensures !(s'.rx.Finished? && SomeParked(s'))
      {
        SettledStays(s, run, s');
      }
    }
  }

  /** One more action of a concrete run. */
  lemma Play(from: State, run: Log<Action>, s: State, a: Action) returns (run': Log<Action>, s': State)
    requires Reaches(from, run, s) && Enabled(s, a)
    ensures run' == Then(run, a) && s' == Do(s, a) && Reaches(from, run', s')
  {
    run', s' := Then(run, a), Do(s, a);
  }

  /** The race is real: WaitDead tests State(), the peer hangs up, and the broadcast comes before
    * the wait. */
  lemma DeathBroadcastCanBeMissed() returns (run: Log<Action>, s: State)
    ensures Reaches(Init(Active), run, s)
    ensures s.life.Dead? && s.rx.Waking? && SomeAtRisk(s) && MayOversleep(s)
  {
    var from := Init(Active);
    run, s := Start, from;
    run, s := Play(from, run, s, Spawn(0, DeathWatch));
    run, s := Play(from, run, s, Step(0));
    run, s := Play(from, run, s, Step(0));
    run, s := Play(from, run, s, Read([], true));
    run, s := Play(from, run, s, RxStep);
    run, s := Play(from, run, s, RxStep);
    assert s.threads[0].pc.Park? && AtRisk(s.threads[0]);
    OversleepExactlyWhenAtRisk(s);
  }

  // ----- the unlocked exit broadcast ---------------------------------------------------------

  /** An attach's goroutine that is bound to see exitFlag. */
  predicate WillSeeExit(th: Thread)
  {
    th.role.Attach? && th.exit && !th.pc.Park? && !th.pc.Parked?
  }

  lemma ExitSeenMove(th: Thread, life: Life, over: bool, buf: bytes)
    requires WillSeeExit(th) && !th.pc.Gone?
    ensures WillSeeExit(Move(th, life, over, buf))
  {
  }

  lemma ExitSeenStep(s: State, a: Action, t: nat)
    requires t in s.threads && WillSeeExit(s.threads[t]) && Enabled(s, a)
    ensures t in Do(s, a).threads && WillSeeExit(Do(s, a).threads[t])
  {
    if a == Step(t) {
      ExitSeenMove(s.threads[t], s.life, Over(s.rx, s.shut), s.buf);
    }
  }

  lemma {:induction false} ExitSeenStays(s: State, run: Log<Action>, s': State, t: nat)
    requires t in s.threads && WillSeeExit(s.threads[t]) && Reaches(s, run, s')
    ensures t in s'.threads && WillSeeExit(s'.threads[t])
    decreases run
  {
    if run.Then? {
      var m := Exec(s, run.before).value;
      ExitSeenStays(s, run.before, m, t);
      ExitSeenStep(m, run.last, t);
    }
  }

  /** Goroutine t may yet wait. */
  ghost predicate MayPark(s: State, t: nat)
  {
    exists run, s' :: Reaches(s, run, s') && t in s'.threads && s'.threads[t].pc.Parked?
  }

  /** Exactly when an attach's goroutine can sleep through its own exit: the dispatcher stores exitFlag
    * and then broadcasts without rxMu, and the goroutine can be parked at any time after that if and
    * only if it stood right before Wait at the broadcast. */
  lemma ExitMissedExactlyBeforeWait(s: State, t: nat)
    requires t in s.threads && s.threads[t].role.Attach? && s.threads[t].exit
    ensures MayPark(Do(s, Broadcast), t) <==> s.threads[t].pc.Park?
  {
    var m := Do(s, Broadcast);
    if s.threads[t].pc.Park? {
      assert Exec(m, Start) == Some(m);
      var m' := Do(m, Step(t));
      assert Reaches(m, Then(Start, Step(t)), m') && m'.threads[t].pc.Parked?;
    } else {
      forall run, s' | Reaches(m, run, s')
        ensures t in s'.threads && !s'.threads[t].pc.Parked?
      {
        ExitSeenStays(m, run, s', t);
      }
    }
  }

  /** The race is real: `+back` comes when the goroutine has just read exitFlag and is about to wait, and
    * leaves it parked on a live session. */
  lemma ExitBroadcastCanBeMissed() returns (run: Log<Action>, s: State)
    ensures Reaches(Init(Active), run, s) && s.life.Foreground?
    ensures 0 in s.threads && s.threads[0].role.Attach? && s.threads[0].exit && s.threads[0].pc.Parked?
  {
    var from := Init(Active);
    run, s := AttachFirst(Attach, Foreground);
    run, s := Play(from, run, s, Step(0));
    run, s := Play(from, run, s, Step(0));
    run, s := Play(from, run, s, Step(0));
    run, s := Play(from, run, s, Step(0));
    assert s.threads[0].pc.Park?;
    run, s := Play(from, run, s, SetExit(0));
    run, s := Play(from, run, s, Broadcast);
    run, s := Play(from, run, s, Step(0));
  }

  // ----- deaths that are not final -----------------------------------------------------------

  /** A goroutine attached to a session that is then sent to the background or not. */
  lemma AttachFirst(role: Role, life: Life) returns (run: Log<Action>, s: State)
    requires IsDrainer(role)
    ensures Reaches(Init(Active), run, s)
    ensures s == Init(life).(threads := map[0 := Thread(role, Enter, false, Start, false, Start)])
  {
    var from := Init(Active);
    run, s := Start, from;
    run, s := Play(from, run, s, SetLife(Foreground));
    run, s := Play(from, run, s, Spawn(0, role));
    run, s := Play(from, run, s, SetLife(life));
  }

  /** A drainer that finds the buffer empty and the session Dead gets past its waiting loop. */
  lemma GuardDead(from: State, run: Log<Action>, s: State) returns (run': Log<Action>, s': State)
    requires Reaches(from, run, s) && s.life.Dead? && s.buf == [] && s.owner == Nobody
    requires 0 in s.threads && IsDrainer(s.threads[0].role) && s.threads[0].pc.Enter?
    ensures Reaches(from, run', s') && s'.life.Dead? && s'.rx == s.rx && s'.shut == s.shut
    ensures 0 in s'.threads && s'.threads[0] == s.threads[0].(pc := Drain)
  {
    run', s' := Play(from, run, s, Step(0));
    run', s' := Play(from, run', s', Step(0));
    run', s' := Play(from, run', s', Step(0));
  }

  /** And comes to observe it. */
  lemma ObserveDead(from: State, run: Log<Action>, s: State) returns (run': Log<Action>, s': State)
    requires Reaches(from, run, s) && s.life.Dead? && s.buf == [] && s.owner == Nobody
    requires 0 in s.threads && IsDrainer(s.threads[0].role) && s.threads[0].pc.Enter?
    ensures Reaches(from, run', s')
    ensures 0 in s'.threads && s'.threads[0].pc.Leave? && s'.threads[0].pc.dead
    ensures s'.rx == s.rx && s'.shut == s.shut
  {
    run', s' := GuardDead(from, run, s);
    run', s' := Play(from, run', s', Step(0));
    run', s' := Play(from, run', s', Step(0));
    if s'.threads[0].role.Attach? {
      run', s' := Play(from, run', s', Step(0));
    }
  }

  /** A kill does not make the notice final: the chunk that the receive loop has read and not yet
    * appended when Conn is closed follows the notice of the drainer left over from an attach. */
  lemma KillDoesNotMakeNoticeFinal(b: byte) returns (run: Log<Action>, s: State)
    ensures Reaches(Init(Active), run, s)
    ensures 0 in s.threads && s.threads[0].pc.Leave? && s.threads[0].pc.dead
    ensures s.shut && s.rx == Locking([b], false) && !NoMoreBytes(s)
  {
    var from := Init(Active);
    run, s := AttachFirst(Console, Background);
    run, s := Play(from, run, s, Read([b], false));
    run, s := Play(from, run, s, RxStep);
    run, s := Play(from, run, s, Shut);
    run, s := Play(from, run, s, SetLife(Dead));
    run, s := ObserveDead(from, run, s);
    DeathFinalExactlyWhenQuiet(Active, run, s, 0);
  }

  /** Nor does a failed write: it sets Dead and leaves Conn open, so the receive loop reads on. */
  lemma FailedWriteDoesNotMakeNoticeFinal(role: Role) returns (run: Log<Action>, s: State)
    requires IsDrainer(role)
    ensures Reaches(Init(Active), run, s)
    ensures 0 in s.threads && s.threads[0].pc.Leave? && s.threads[0].pc.dead
    ensures !s.shut && s.rx.Reading? && !NoMoreBytes(s)
  {
    var from := Init(Active);
    run, s := AttachFirst(role, Foreground);
    run, s := Play(from, run, s, SetLife(Dead));
    run, s := ObserveDead(from, run, s);
    DeathFinalExactlyWhenQuiet(Active, run, s, 0);
  }
}
