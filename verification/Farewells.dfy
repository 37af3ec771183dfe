/** How an attach ends on the wire: the closed notice as an event, then one back-to-menu response, and
  * neither without a death.
  */
module Farewells {
  import opened Prelude
  import opened Framing
  import opened Relay
  import Rx = RxMonitor
  import RxT = RxTheorems
  import Rounds
  import W = Wire

  /** The plaintexts, among some messages, of the farewells of attach t. */
  function FarewellsFrom(msgs: seq<W.Msg>, t: nat): seq<bytes>
    decreases |msgs|
  {
    if msgs == [] then []
    else
      var last := msgs[|msgs| - 1];
      FarewellsFrom(msgs[..|msgs| - 1], t) + if last.origin == W.Farewell(t) then [W.PlainOf(last)] else []
  }

  lemma FarewellsSnoc(msgs: seq<W.Msg>, m: W.Msg, t: nat)
    ensures FarewellsFrom(msgs + [m], t)
         == FarewellsFrom(msgs, t) + if m.origin == W.Farewell(t) then [W.PlainOf(m)] else []
  {
    assert (msgs + [m])[..|msgs|] == msgs;
  }

  /** The farewells of an outbox that did go out. */
  function SentFarewells(c: Config, outbox: Log<Rx.Out>): seq<bytes>
  {
    match outbox
    case Start => []
    case Then(before, Closed(sent)) => SentFarewells(c, before) + if sent then [[69] + c.notice] else []
    case Then(before, Menu(sent)) => SentFarewells(c, before) + if sent then [[82] + c.menu] else []
    case Then(before, Data(_, _)) => SentFarewells(c, before)
  }

  ghost predicate Bidden(c: Config, threads: map<nat, Rx.Thread>, pushed: seq<W.Msg>)
  {
    forall t :: FarewellsFrom(pushed, t) == if IsAttach(threads, t) then SentFarewells(c, threads[t].outbox) else []
  }

  lemma TameFarewells(c: Config, th: Rx.Thread, th': Rx.Thread)
    requires Tame(th, th') && th.role.Attach?
    ensures SentFarewells(c, th'.outbox) == SentFarewells(c, th.outbox)
  {
  }

  lemma MonBidden(c: Config, s: State, a: Rx.Action)
    requires Bidden(c, s.mon.threads, s.pipe.pushed) && MonAllowed(s, a)
    ensures Bidden(c, Rx.Do(s.mon, a).threads, s.pipe.pushed)
  {
    QuietStep(s, a);
    var threads' := Rx.Do(s.mon, a).threads;
    forall t
      ensures FarewellsFrom(s.pipe.pushed, t)
           == if IsAttach(threads', t) then SentFarewells(c, threads'[t].outbox) else []
    {
      if t in s.mon.threads {
        assert Tame(s.mon.threads[t], threads'[t]);
        if IsAttach(threads', t) {
          TameFarewells(c, s.mon.threads[t], threads'[t]);
        }
      } else if t in threads' {
        NewThreads(s, a, t);
      }
    }
  }

  lemma SendRxBidden(c: Config, s: State, t: nat)
    requires Bidden(c, s.mon.threads, s.pipe.pushed) && Enabled(s, SendRx(t))
    ensures Bidden(c, Do(c, s, SendRx(t)).mon.threads, Do(c, s, SendRx(t)).pipe.pushed)
  {
    var th := s.mon.threads[t];
    var threads' := Rx.Do(s.mon, Rx.Step(t)).threads;
    assert threads' == s.mon.threads[t := Rx.Emit(th, true)];
    var m := RxMsg(c, t, th.pc);
    forall u
      ensures FarewellsFrom(s.pipe.pushed + [m], u)
           == if IsAttach(threads', u) then SentFarewells(c, threads'[u].outbox) else []
    {
      FarewellsSnoc(s.pipe.pushed, m, u);
      assert IsAttach(threads', u) == IsAttach(s.mon.threads, u);
    }
  }

  lemma PushBidden(c: Config, threads: map<nat, Rx.Thread>, pushed: seq<W.Msg>, m: W.Msg)
    requires Bidden(c, threads, pushed) && !m.origin.Farewell?
    ensures Bidden(c, threads, pushed + [m])
  {
    forall t
      ensures FarewellsFrom(pushed + [m], t) == FarewellsFrom(pushed, t)
    {
      FarewellsSnoc(pushed, m, t);
    }
  }

  lemma BiddenStep(c: Config, s: State, a: Action)
    requires Bidden(c, s.mon.threads, s.pipe.pushed) && Enabled(s, a)
    ensures Bidden(c, Do(c, s, a).mon.threads, Do(c, s, a).pipe.pushed)
  {
    match a
    case Mon(b) => MonBidden(c, s, b);
    case SendRx(t) => SendRxBidden(c, s, t);
    case SendStart(_, _) => PushBidden(c, s.mon.threads, s.pipe.pushed, PipeAction(c, s, a).value.m);
    case SendOther(_, _) => PushBidden(c, s.mon.threads, s.pipe.pushed, PipeAction(c, s, a).value.m);
    case Pipe(_) => assert Do(c, s, a).pipe.pushed == s.pipe.pushed;
  }

  lemma {:induction false} BiddenRun(c: Config, life: Life, run: Log<Action>, s: State)
    requires Reaches(c, life, run, s)
    ensures Bidden(c, s.mon.threads, s.pipe.pushed)
    decreases run
  {
    if run.Then? {
      var m := Exec(c, life, run.before).value;
      BiddenRun(c, life, run.before, m);
      BiddenStep(c, m, run.last);
    }
  }

  // ----- from the frames decoded to the messages pushed --------------------------------------

  lemma {:induction false} FarewellsInsert(xs: seq<W.Msg>, m: W.Msg, ys: seq<W.Msg>, t: nat)
    requires m.origin != W.Farewell(t)
    ensures FarewellsFrom(xs + [m] + ys, t) == FarewellsFrom(xs + ys, t)
    decreases |ys|
  {
    if ys == [] {
      assert xs + [m] + ys == xs + [m] && xs + ys == xs;
      FarewellsSnoc(xs, m, t);
    } else {
      var front, last := ys[..|ys| - 1], ys[|ys| - 1];
      assert xs + [m] + ys == (xs + [m] + front) + [last] && xs + ys == (xs + front) + [last];
      FarewellsInsert(xs, m, front, t);
      FarewellsSnoc(xs + [m] + front, last, t);
      FarewellsSnoc(xs + front, last, t);
    }
  }

  lemma {:induction false} FarewellsPrefix(msgs: seq<W.Msg>, k: nat, t: nat)
    requires k <= |msgs|
    ensures FarewellsFrom(msgs[..k], t) <= FarewellsFrom(msgs, t)
    decreases |msgs|
  {
    if k == |msgs| {
      assert msgs[..k] == msgs;
    } else {
      FarewellsPrefix(msgs[..|msgs| - 1], k, t);
      assert msgs[..|msgs| - 1][..k] == msgs[..k];
    }
  }

  lemma WrittenFarewells(p: W.State, k: nat, t: nat)
    requires W.Fifo(p) && k <= |p.written|
    ensures FarewellsFrom(p.written[..k], t) <= FarewellsFrom(p.pushed, t)
  {
    W.WrittenFront(p, k);
    FarewellsPrefix(p.pushed, W.Slot(p.bye, k), t);
    if p.bye.Said? && p.bye.frame < k {
      W.FrontWithout(p.written, p.bye.frame, k);
      FarewellsInsert(p.written[..p.bye.frame], W.GOODBYE, p.written[p.bye.frame + 1..k], t);
    }
  }

  /** Those frames, among some decoded, that are farewells of attach t. */
  function DecodedFarewells(written: seq<W.Msg>, got: seq<bytes>, t: nat): seq<bytes>
    requires |got| <= |written|
    decreases |got|
  {
    if got == [] then []
    else
      var i := |got| - 1;
      DecodedFarewells(written, got[..i], t) + if written[i].origin == W.Farewell(t) then [got[i]] else []
  }

  lemma {:induction false} DecodedAreFarewells(written: seq<W.Msg>, got: seq<bytes>, t: nat)
    requires |got| <= |written| && forall i :: 0 <= i < |got| ==> got[i] == W.PlainOf(written[i])
    ensures DecodedFarewells(written, got, t) == FarewellsFrom(written[..|got|], t)
    decreases |got|
  {
    if got != [] {
      var i := |got| - 1;
      DecodedAreFarewells(written, got[..i], t);
      assert written[..|got|] == written[..i] + [written[i]];
      FarewellsSnoc(written[..i], written[i], t);
    }
  }

  // ----- the farewell ------------------------------------------------------------------------

  /** No farewell was given up to a cancelled context. */
  predicate NoFarewellDropped(outbox: Log<Rx.Out>)
  {
    match outbox
    case Start => true
    case Then(before, out) => NoFarewellDropped(before) && (out.Data? || out.sent)
  }

  lemma {:induction false} DataSendsNone(c: Config, outbox: Log<Rx.Out>)
    requires Rx.AllData(outbox)
    ensures SentFarewells(c, outbox) == []
    decreases outbox
  {
    if outbox.Then? {
      DataSendsNone(c, outbox.before);
    }
  }

  lemma FarewellsOf(c: Config, th: Rx.Thread)
    requires Rx.NoticeLast(th) && NoFarewellDropped(th.outbox)
    ensures SentFarewells(c, th.outbox) <= [[69] + c.notice, [82] + c.menu]
    ensures Rounds.Farewell(th.outbox) ==> SentFarewells(c, th.outbox) == [[69] + c.notice, [82] + c.menu]
    ensures Rx.AllData(th.outbox) ==> SentFarewells(c, th.outbox) == []
  {
    if Rx.AllData(th.outbox) {
      DataSendsNone(c, th.outbox);
    } else if Rx.EndsClosed(th.outbox) {
      DataSendsNone(c, th.outbox.before);
    } else {
      DataSendsNone(c, th.outbox.before.before);
    }
  }

  /** How an attach ends: among the frames that the client has decoded, the farewells of its RX goroutine
    * are none, the notice event, or the notice event and then one response with the menu text; once the
    * goroutine is gone because of a death it has sent just these two, and gone for any other reason it
    * has sent neither. */
  lemma NoticeThenMenu(c: Config, life: Life, run: Log<Action>, s: State, t: nat, arrived: nat)
    requires Lawful(c.suite.aead) && Reaches(c, life, run, s) && Apart(c, life, run) && NoWrap(s.pipe.frames)
    requires IsAttach(s.mon.threads, t) && NoFarewellDropped(s.mon.threads[t].outbox)
    requires arrived <= |W.Bytes(s.pipe.pieces)|
    ensures |Decoded(c, s, arrived)| <= |s.pipe.written|
    ensures DecodedFarewells(s.pipe.written, Decoded(c, s, arrived), t) <= [[69] + c.notice, [82] + c.menu]
    ensures s.mon.threads[t].pc.Gone? && Rounds.SawDead(life, MonRun(run), t) ==>
      FarewellsFrom(s.pipe.pushed, t) == [[69] + c.notice, [82] + c.menu]
    ensures s.mon.threads[t].pc.Gone? && !Rounds.SawDead(life, MonRun(run), t) ==>
      FarewellsFrom(s.pipe.pushed, t) == []
  {
    var th, got := s.mon.threads[t], Decoded(c, s, arrived);
    DecodedIsPushed(c, life, run, s, arrived);
    DecodedAreFarewells(s.pipe.written, got, t);
    WrittenFarewells(s.pipe, |got|, t);
    BiddenRun(c, life, run, s);
    RunKeeps(c, life, run, s);
    RefinesBoth(c, life, run, s);
    assert Rx.NoticeLast(th);
    FarewellsOf(c, th);
    Rounds.GoesRoundExactly(life, MonRun(run), s.mon, t);
  }
}
