/** All sessions ever accepted, the manager's index of them, and the one that is attached.
  *
  * Accept loops of several ports, receive loops, the event forwarder and the dispatcher interleave.
  * State() and SetState() are atomic, but a test followed by a set is not.
  */
module SessionTable {
  import opened Prelude

  /** The receive loop at its end: the connection is up; State() read and not Dead; returned. */
  datatype RxEnd = Open | Doomed | Closed

  datatype Rec = Rec(port: int, life: Life, rx: RxEnd)

  datatype Dispatcher =
    | Menu
    | Chosen(k: nat)     // `use` has picked a session, about to SetState(Foreground)
    | Attached(k: nat)
    | Leaving(k: nat)    // the deferred function is about to read State()
    | Resetting(k: nat)  // it read Foreground and is about to SetState(Background)
    | Exited             // the console's +exit ends the process inside the session

  /** `recs`: the sessions in the order of counter.Add; `index`: the manager's map by ID. */
  datatype State = State(recs: seq<Rec>, index: map<int, nat>, d: Dispatcher)

  datatype Action =
    | Accept(port: int)   // counter.Add and newSession
    | Register(k: nat)    // the insertion under the lock
    | Remove(id: int)     // by the event forwarder, or after a kill
    | Close(k: nat)       // kill, or closing the port, from the menu
    | RxFails(k: nat)     // Conn.Read failed: State() is read
    | RxMarks(k: nat)     // SetState(Dead)
    | Choose(k: nat)
    | Enter
    | WriteFails          // a failed write sets Dead
    | ToBackground        // +bg
    | Leave               // every other way out of the passthrough loop
    | Deferred
    | Reset
    | ExitProcess

  /** The ID after the n-th counter.Add(1): a 32-bit counter. */
  function IdOf(n: nat): int
  {
    (n + INT32 / 2) % INT32 - INT32 / 2
  }

  function Init(): State
  {
    State([], map[], Menu)
  }

  predicate Enabled(s: State, a: Action)
  {
    match a
    case Accept(_) => true
    case Register(k) => k < |s.recs|
    case Remove(_) => true
    case Close(k) => k < |s.recs| && s.d.Menu?
    case RxFails(k) => k < |s.recs| && s.recs[k].rx.Open?
    case RxMarks(k) => k < |s.recs| && s.recs[k].rx.Doomed?
    case Choose(k) => s.d.Menu? && k < |s.recs| && k in s.index.Values && !s.recs[k].life.Dead?
    case Enter => s.d.Chosen? && s.d.k < |s.recs|
    case WriteFails => s.d.Attached? && s.d.k < |s.recs|
    case ToBackground => s.d.Attached? && s.d.k < |s.recs|
    case Leave => s.d.Attached? && s.d.k < |s.recs|
    case Deferred => s.d.Leaving? && s.d.k < |s.recs|
    case Reset => s.d.Resetting? && s.d.k < |s.recs|
    case ExitProcess => s.d.Attached?
  }

  function SetAt(s: State, k: nat, life: Life, d: Dispatcher): State
    requires k < |s.recs|
  {
    State(s.recs[k := s.recs[k].(life := life)], s.index, d)
  }

  function Do(s: State, a: Action): State
    requires Enabled(s, a)
  {
    match a
    case Accept(port) => s.(recs := s.recs + [Rec(port, Active, Open)])
    case Register(k) => s.(index := s.index[IdOf(k + 1) := k])
    case Remove(id) => s.(index := s.index - {id})
    case Close(k) => SetAt(s, k, Dead, Menu)
    case RxFails(k) => s.(recs := s.recs[k := s.recs[k].(rx := if s.recs[k].life.Dead? then Closed else Doomed)])
    case RxMarks(k) => s.(recs := s.recs[k := s.recs[k].(life := Dead, rx := Closed)])
    case Choose(k) => s.(d := Chosen(k))
    case Enter => SetAt(s, s.d.k, Foreground, Attached(s.d.k))
    case WriteFails => SetAt(s, s.d.k, Dead, s.d)
    case ToBackground => SetAt(s, s.d.k, Background, Leaving(s.d.k))
    case Leave => s.(d := Leaving(s.d.k))
    case Deferred =>
      s.(d := if s.recs[s.d.k].life.Foreground? then Resetting(s.d.k) else Menu)
    case Reset => SetAt(s, s.d.k, Background, Menu)
    case ExitProcess => s.(d := Exited)
  }

  function Exec(run: Log<Action>): Option<State>
  {
    match run
    case Start => Some(Init())
    case Then(before, a) =>
      match Exec(before)
      case None => None
      case Some(m) => if Enabled(m, a) then Some(Do(m, a)) else None
  }

  predicate Reaches(run: Log<Action>, s: State)
  {
    Exec(run) == Some(s)
  }

  // ----- identifiers -------------------------------------------------------------------------

  /** IDs are the accept's number as long as the counter has not wrapped around. */
  lemma IdIsNumber(n: nat)
    requires n < INT32 / 2
    ensures IdOf(n) == n
  {
  }

  lemma Remainder(x: int, q: int, r: int)
    requires x == INT32 * q + r && -INT32 < r < INT32
    ensures x % INT32 == 0 <==> r == 0
  {
    var t := x / INT32;
    assert x == INT32 * t + x % INT32;
    assert r == INT32 * (t - q) + x % INT32;
  }

  /** Exactly when two accepts get the same ID: a whole turn of the counter apart. */
  lemma IdsCollideExactly(m: nat, n: nat)
    requires m <= n
    ensures IdOf(m) == IdOf(n) <==> (n - m) % INT32 == 0
  {
    var a, b := m + INT32 / 2, n + INT32 / 2;
    Remainder(n - m, b / INT32 - a / INT32, b % INT32 - a % INT32);
  }

  /** Every key is the ID of the session it names. */
  predicate Keyed(s: State)
  {
    forall id :: id in s.index ==> s.index[id] < |s.recs| && id == IdOf(s.index[id] + 1)
  }

  // ----- foreground --------------------------------------------------------------------------

  /** A session can be Foreground only while the dispatcher is attached to it or about to reset it. */
  predicate InFront(s: State, k: nat)
  {
    s.d.Exited? || ((s.d.Attached? || s.d.Leaving? || s.d.Resetting?) && s.d.k == k)
  }

  predicate OneFront(s: State)
  {
    forall k :: 0 <= k < |s.recs| && s.recs[k].life.Foreground? ==> InFront(s, k)
  }

  predicate AtMostOne(s: State)
  {
    forall j, k :: 0 <= j < k < |s.recs| ==> !(s.recs[j].life.Foreground? && s.recs[k].life.Foreground?)
  }

  predicate Inv(s: State)
  {
    && Keyed(s) && OneFront(s) && AtMostOne(s)
    && (!s.d.Menu? && !s.d.Exited? ==> s.d.k < |s.recs|)
  }

  lemma DoKeeps(s: State, a: Action)
    requires Inv(s) && Enabled(s, a)
    ensures Inv(Do(s, a))
  {
  }

  lemma {:induction false} RunKeeps(run: Log<Action>, s: State)
    requires Reaches(run, s)
    ensures Inv(s)
    decreases run
  {
    if run.Then? {
      var m := Exec(run.before).value;
      RunKeeps(run.before, m);
      DoKeeps(m, run.last);
    }
  }

  lemma IdsDistinct(i: nat, j: nat)
    requires i < INT32 && j < INT32
    ensures IdOf(i + 1) == IdOf(j + 1) <==> i == j
  {
    if i <= j {
      IdsCollideExactly(i + 1, j + 1);
    } else {
      IdsCollideExactly(j + 1, i + 1);
    }
  }

  /** Session index: over every interleaving of accepts, removals, kills and deaths, and for as many
    * accepts as the counter has values, the IDs of any two sessions ever created differ, and a key
    * finds a session if and only if it is that session's ID. */
  lemma IndexIsFaithful(run: Log<Action>, s: State, id: int, i: nat, j: nat)
    requires Reaches(run, s)
    requires i < |s.recs| <= INT32 && j < |s.recs|
    ensures i != j ==> IdOf(i + 1) != IdOf(j + 1)
    ensures id in s.index ==> s.index[id] < |s.recs| && (s.index[id] == j <==> id == IdOf(j + 1))
  {
    RunKeeps(run, s);
    IdsDistinct(i, j);
    if id in s.index {
      IdsDistinct(s.index[id], j);
    }
  }

  /** Foreground uniqueness: at most one session is Foreground; it is the one the dispatcher is
    * attached to, or is just leaving; and back in the menu none is, although the deferred test and
    * set are two steps. */
  lemma ForegroundUnique(run: Log<Action>, s: State)
    requires Reaches(run, s)
    ensures forall j, k :: 0 <= j < k < |s.recs| ==> !(s.recs[j].life.Foreground? && s.recs[k].life.Foreground?)
    ensures forall k :: 0 <= k < |s.recs| && s.recs[k].life.Foreground? && !s.d.Exited? ==>
      (s.d.Attached? || s.d.Leaving? || s.d.Resetting?) && s.d.k == k
    ensures s.d.Menu? ==> forall k :: 0 <= k < |s.recs| ==> !s.recs[k].life.Foreground?
  {
    RunKeeps(run, s);
    forall k | 0 <= k < |s.recs| && s.recs[k].life.Foreground?
      ensures InFront(s, k)
    {
    }
  }

  // ----- finished sessions -------------------------------------------------------------------

  /** A session whose receive loop has returned is Dead. */
  predicate Buried(s: State, k: nat)
  {
    k < |s.recs| && s.recs[k].rx.Closed? ==> s.recs[k].life.Dead?
  }

  /** The attach, +bg or deferred reset of a session whose receive loop has returned. */
  predicate Revives(s: State, a: Action, k: nat)
  {
    (a.Enter? || a.ToBackground? || a.Reset?) && !s.d.Menu? && !s.d.Exited? && s.d.k == k
    && k < |s.recs| && s.recs[k].rx.Closed?
  }

  /** Exactly when a step breaks it. */
  lemma RevivedExactlyBy(s: State, a: Action, k: nat)
    requires Inv(s) && Buried(s, k) && Enabled(s, a)
    ensures Buried(Do(s, a), k) <==> !Revives(s, a, k)
  {
  }

  /** Buried in every state of the run. */
  predicate AlwaysBuried(run: Log<Action>, k: nat)
  {
    match run
    case Start => true
    case Then(before, _) =>
      AlwaysBuried(before, k) && (Exec(run).Some? ==> Buried(Exec(run).value, k))
  }

  predicate NeverRevived(run: Log<Action>, k: nat)
  {
    match run
    case Start => true
    case Then(before, a) =>
      NeverRevived(before, k) && (Exec(before).Some? ==> !Revives(Exec(before).value, a, k))
  }

  /** Over every run: a session is Dead whenever its receive loop has returned, if and only if no
    * attach, +bg or deferred reset of it comes after the loop has. */
  lemma {:induction false} FinishedMeansDead(run: Log<Action>, s: State, k: nat)
    requires Reaches(run, s)
    ensures AlwaysBuried(run, k) <==> NeverRevived(run, k)
    ensures NeverRevived(run, k) ==> Buried(s, k)
    decreases run
  {
    if run.Then? {
      var m := Exec(run.before).value;
      FinishedMeansDead(run.before, m, k);
      RunKeeps(run.before, m);
      if NeverRevived(run.before, k) {
        RevivedExactlyBy(m, run.last, k);
      }
    }
  }

  // ----- attached once -----------------------------------------------------------------------

  /** Session k has been attached to. */
  predicate WasAttached(run: Log<Action>, k: nat)
  {
    match run
    case Start => false
    case Then(before, a) =>
      || WasAttached(before, k)
      || (a.Enter? && match Exec(before)
                      case None => false
                      case Some(m) => m.d == Chosen(k))
  }

  /** Over every run, a session is Active only as long as nobody has attached to it; attached to, it is
    * Foreground or Dead; and when it was left through the menu and is not Dead, it is Background. */
  lemma {:induction false} AttachedIsNeverActive(run: Log<Action>, s: State, k: nat)
    requires Reaches(run, s) && k < |s.recs|
    ensures WasAttached(run, k) ==> !s.recs[k].life.Active?
    ensures !WasAttached(run, k) ==> s.recs[k].life.Active? || s.recs[k].life.Dead?
    ensures s.d == Attached(k) ==> s.recs[k].life.Foreground? || s.recs[k].life.Dead?
    ensures s.d in {Attached(k), Leaving(k), Resetting(k)} ==> WasAttached(run, k)
    ensures WasAttached(run, k) && s.d.Menu? && !s.recs[k].life.Dead? ==> s.recs[k].life.Background?
    decreases run
  {
    RunKeeps(run, s);
    if run.Then? {
      var m := Exec(run.before).value;
      RunKeeps(run.before, m);
      if k < |m.recs| {
        AttachedIsNeverActive(run.before, m, k);
      } else {
        UnknownUnattached(run.before, m, k);
      }
    }
    assert s.recs[k].life.Foreground? ==> InFront(s, k);
  }

  lemma {:induction false} UnknownUnattached(run: Log<Action>, s: State, k: nat)
    requires Reaches(run, s) && |s.recs| <= k
    ensures !WasAttached(run, k)
    decreases run
  {
    if run.Then? {
      UnknownUnattached(run.before, Exec(run.before).value, k);
    }
  }

  // ----- the deferred reset ------------------------------------------------------------------

  /** The steps left to session k when it has just been detached from. */
  predicate LeavingStep(a: Action, k: nat)
  {
    a == RxFails(k) || a == RxMarks(k) || a.Deferred? || a.Reset?
  }

  predicate Schedule(more: Log<Action>, k: nat)
  {
    match more
    case Start => true
    case Then(before, a) => Schedule(before, k) && LeavingStep(a, k)
  }

  function ExecFrom(s: State, run: Log<Action>): Option<State>
  {
    match run
    case Start => Some(s)
    case Then(before, a) =>
      match ExecFrom(s, before)
      case None => None
      case Some(m) => if Enabled(m, a) then Some(Do(m, a)) else None
  }

  /** Back in the menu with session k finished and not Dead. */
  predicate Undead(s: State, k: nat)
  {
    s.d.Menu? && k < |s.recs| && s.recs[k].rx.Closed? && !s.recs[k].life.Dead?
  }

  ghost predicate MayEndUndead(s: State, k: nat)
  {
    exists more, s' :: Schedule(more, k) && ExecFrom(s, more) == Some(s') && Undead(s', k)
  }

  /** Left, and neither Foreground nor ever to be set again but by the receive loop. */
  predicate Settled(s: State, k: nat)
  {
    && (s.d.Menu? || s.d == Leaving(k)) && k < |s.recs|
    && !s.recs[k].life.Foreground? && Buried(s, k)
  }

  lemma {:induction false} SettledStays(s: State, more: Log<Action>, s': State, k: nat)
    requires Settled(s, k) && Schedule(more, k) && ExecFrom(s, more) == Some(s')
    ensures Settled(s', k)
    decreases more
  {
    if more.Then? {
      SettledStays(s, more.before, ExecFrom(s, more.before).value, k);
    }
  }

  lemma PlayOn(from: State, run: Log<Action>, s: State, a: Action, k: nat) returns (run': Log<Action>, s': State)
    requires Schedule(run, k) && ExecFrom(from, run) == Some(s) && Enabled(s, a) && LeavingStep(a, k)
    ensures s' == Do(s, a) && Schedule(run', k) && ExecFrom(from, run') == Some(s')
  {
    run', s' := Then(run, a), Do(s, a);
  }

  /** The receive loop ends between the test and the set of the deferred function. */
  lemma EndInBetween(s: State, k: nat) returns (more: Log<Action>, s': State)
    requires s.d == Leaving(k) && k < |s.recs| && Buried(s, k) && s.recs[k].life.Foreground?
    ensures Schedule(more, k) && ExecFrom(s, more) == Some(s') && Undead(s', k)
  {
    more, s' := Start, s;
    more, s' := PlayOn(s, more, s', Deferred, k);
    if s.recs[k].rx.Open? {
      more, s' := PlayOn(s, more, s', RxFails(k), k);
    }
    more, s' := PlayOn(s, more, s', RxMarks(k), k);
    more, s' := PlayOn(s, more, s', Reset, k);
  }

  /** Exactly when leaving a session can end with it listed as live and finished: its state is
    * Foreground when the deferred function comes to test it. */
  lemma ResetRevivesExactlyFromForeground(s: State, k: nat)
    requires s.d == Leaving(k) && k < |s.recs| && Buried(s, k)
    ensures MayEndUndead(s, k) <==> s.recs[k].life.Foreground?
  {
    if s.recs[k].life.Foreground? {
      var more, s' := EndInBetween(s, k);
    } else {
      forall more, s' | Schedule(more, k) && ExecFrom(s, more) == Some(s')
        ensures !Undead(s', k)
      {
        SettledStays(s, more, s', k);
      }
    }
  }

  lemma Play(run: Log<Action>, s: State, a: Action) returns (run': Log<Action>, s': State)
    requires Reaches(run, s) && Enabled(s, a)
    ensures run' == Then(run, a) && s' == Do(s, a) && Reaches(run', s')
  {
    run', s' := Then(run, a), Do(s, a);
  }

  /** The first session ever accepted, attached to. */
  lemma AttachFirst(port: int) returns (run: Log<Action>, s: State)
    ensures Reaches(run, s) && s == State([Rec(port, Foreground, Open)], map[1 := 0], Attached(0))
  {
    run, s := Start, Init();
    run, s := Play(run, s, Accept(port));
    IdIsNumber(1);
    run, s := Play(run, s, Register(0));
    assert s.index[1] == 0;
    run, s := Play(run, s, Choose(0));
    run, s := Play(run, s, Enter);
  }

  /** The price of the non-atomic reset: a peer that hangs up between the test and the set leaves a
    * session that is listed as live although nothing reads its connection any more. */
  lemma ResetCanReviveTheDead(port: int) returns (run: Log<Action>, s: State)
    ensures Reaches(run, s) && s.d.Menu? && |s.recs| == 1
    ensures s.recs[0] == Rec(port, Background, Closed) && s.index == map[1 := 0]
  {
    run, s := AttachFirst(port);
    run, s := Play(run, s, Leave);
    run, s := Play(run, s, Deferred);
    run, s := Play(run, s, RxFails(0));
    run, s := Play(run, s, RxMarks(0));
    run, s := Play(run, s, Reset);
  }
}
