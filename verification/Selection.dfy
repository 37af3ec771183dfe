/** The commands that name sessions by port and index: `use`, which attaches to one, and `kill`, with
  * the filter that drops "-f" inside the argument slice itself and the loop that terminates and
  * removes what was selected.
  */
module Selection {
  import opened Prelude
  import opened Text
  import opened Parser
  import opened SessionObject
  import opened Managers

  datatype Outcome =
    | Usage
    | BadArgument(why: PortIdx)
    | NoConnections(port: int)
    | OutOfRange(idx: int, port: int, count: nat)
    | IndexPanic(idx: int)  // a negative index reaches sessions[idx-1]
    | Terminated(count: nat, port: int, force: bool)

  /** The arguments without "-f", in order. */
  function Kept(args: seq<string>): seq<string>
  {
    if args == [] then []
    else if args[0] == "-f" then Kept(args[1..])
    else [args[0]] + Kept(args[1..])
  }

  lemma {:induction false} KeptAppend(s: seq<string>, t: seq<string>)
    ensures Kept(s + t) == Kept(s) + Kept(t)
  {
    if s == [] {
      assert s + t == t;
    } else {
      KeptAppend(s[1..], t);
      assert (s + t)[0] == s[0] && (s + t)[1..] == s[1..] + t;
      var head := if s[0] == "-f" then [] else [s[0]];
      assert Kept(s) == head + Kept(s[1..]) && Kept(s + t) == head + Kept(s[1..] + t);
    }
  }

  /** Nothing is lost but the flag, and nothing is added. */
  lemma {:induction false} KeptDropsOnlyTheFlag(args: seq<string>)
    ensures multiset(Kept(args)) == multiset(args)["-f" := 0]
    ensures |Kept(args)| == |args| - multiset(args)["-f"]
  {
    if args != [] {
      KeptDropsOnlyTheFlag(args[1..]);
      assert args == [args[0]] + args[1..];
    }
  }

  lemma KeptStep(args: seq<string>, i: nat)
    requires i < |args|
    ensures Kept(args[..i + 1]) == Kept(args[..i]) + if args[i] == "-f" then [] else [args[i]]
    ensures |Kept(args[..i])| <= i
  {
    assert args[..i + 1] == args[..i] + [args[i]];
    KeptAppend(args[..i], [args[i]]);
    KeptDropsOnlyTheFlag(args[..i]);
  }

  /** `filtered := args[:0]` and the appends to it: they overwrite arguments that the loop has
    * already read, and the caller's slice keeps its old tail. */
  method Filter(args: array<string>) returns (kept: nat, force: bool)
    modifies args
    ensures kept == |Kept(old(args[..]))| <= args.Length
    ensures args[..kept] == Kept(old(args[..]))
    ensures args[kept..] == old(args[..])[kept..]
    ensures force <==> "-f" in old(args[..])
  {
    ghost var was := args[..];
    kept, force := 0, false;
    for i := 0 to args.Length
      invariant kept == |Kept(was[..i])| <= i
      invariant args[..kept] == Kept(was[..i])
      invariant forall j :: kept <= j < args.Length ==> args[j] == was[j]
      invariant force <==> "-f" in was[..i]
    {
      KeptStep(was, i);
      assert was[..i + 1] == was[..i] + [was[i]];
      var a := args[i];
      if a == "-f" {
        force := true;
      } else {
        args[kept] := a;
        kept := kept + 1;
        assert args[..kept] == args[..kept - 1] + [a];
      }
    }
    assert was[..args.Length] == was;
  }

  /** What the command answers: `kept` are the arguments without the flag and `count` the number of
    * live sessions on the port they name. */
  function Verdict(kept: seq<string>, force: bool, count: nat): Outcome
  {
    if kept == [] then Usage
    else
      match ParsePortIdx(kept[0])
      case PortIdx(port, idx) =>
        if count == 0 then NoConnections(port)
        else if idx == 0 then Terminated(count, port, force)
        else if idx > count then OutOfRange(idx, port, count)
        else if idx < 0 then IndexPanic(idx)
        else Terminated(1, port, force)
      case why => BadArgument(why)
  }

  /** What a printed "port:idx" does, whatever the two numbers: a negative index panics exactly when
    * the port has a live session, since only the upper bound is checked. */
  lemma PrintedTarget(port: int, idx: int, force: bool, count: nat)
    requires IsInt(port) && IsInt(idx)
    ensures var v := Verdict([Itoa(port) + ":" + Itoa(idx)], force, count);
      && (v.IndexPanic? <==> idx < 0 && count > 0)
      && (v.Terminated? <==> 0 <= idx <= count && count > 0)
      && (v.NoConnections? <==> count == 0)
      && (v.Terminated? ==> v == Terminated(if idx == 0 then count else 1, port, force))
      && (v.IndexPanic? ==> v == IndexPanic(idx)) && (v.NoConnections? ==> v == NoConnections(port))
      && (idx > count > 0 ==> v == OutOfRange(idx, port, count))
    ensures Verdict([Itoa(port)], force, count) == Verdict([Itoa(port) + ":" + Itoa(0)], force, count)
  {
    PortIdxRoundTrip(port, idx);
    PortIdxRoundTrip(port, 0);
  }

  /** And what is no target is refused, whatever sessions there are. */
  lemma NoTarget(kept: seq<string>, force: bool, count: nat)
    ensures Verdict(kept, force, count) == Usage <==> kept == []
    ensures Verdict(kept, force, count).BadArgument? <==> kept != [] && !ParsePortIdx(kept[0]).PortIdx?
    ensures Verdict(kept, force, count).BadArgument? ==>
      Verdict(kept, force, count) == BadArgument(ParsePortIdx(kept[0]))
  {
  }

  /** The sessions that an index selects from a listing. */
  function Selected(listed: seq<Session>, idx: int): seq<Session>
    requires 0 <= idx <= |listed|
  {
    if idx == 0 then listed else [listed[idx - 1]]
  }

  lemma MinusOne(m: map<int, Session>, id: int)
    requires id in m
    ensures |m - {id}| == |m| - 1
  {
    assert m.Keys == (m - {id}).Keys + {id};
  }

  /** Terminate and forget: exactly the targets leave the map, Dead; everything else is untouched. */
  method Terminate(m: SessionManager, targets: seq<Session>)
    requires m.Valid() && NoDuplicates(targets)
    requires forall s :: s in targets ==> s.id in m.sessions && m.sessions[s.id] == s
    modifies m`sessions, (set s | s in targets)`state
    ensures m.Valid()
    ensures forall s :: s in targets ==> s.state == Dead
    ensures forall id :: id in m.sessions <==> id in old(m.sessions) && old(m.sessions)[id] !in targets
    ensures forall id :: id in m.sessions ==> m.sessions[id] == old(m.sessions)[id]
    ensures |m.sessions| == |old(m.sessions)| - |targets|
  {
    ghost var all := m.sessions;
    for i := 0 to |targets|
      invariant m.Valid()
      invariant forall id :: id in m.sessions <==> id in all && all[id] !in targets[..i]
      invariant forall id :: id in m.sessions ==> m.sessions[id] == all[id]
      invariant forall s :: s in targets[..i] ==> s.state == Dead
      invariant |m.sessions| == |all| - i
    {
      var s := targets[i];
      assert s in targets && s !in targets[..i] && targets[..i + 1] == targets[..i] + [s];
      MinusOne(m.sessions, s.id);
      s.Close();
      m.Remove(s.id);
    }
    assert targets[..|targets|] == targets;
  }

  /** kill. The listing is in the manager's iteration order, whatever that is at the time. */
  method DoKill(m: SessionManager, args: array<string>) returns (outcome: Outcome, listed: seq<Session>)
    requires m.Valid()
    modifies args, m`sessions, m.sessions.Values`state
    ensures m.Valid()
    ensures outcome == Verdict(Kept(old(args[..])), "-f" in old(args[..]), |listed|)
    ensures NoDuplicates(listed)
    ensures Kept(old(args[..])) != [] && ParsePortIdx(Kept(old(args[..]))[0]).PortIdx? ==>
      var port := ParsePortIdx(Kept(old(args[..]))[0]).port;
      forall id :: id in old(m.sessions) ==>
        (old(m.sessions)[id] in listed <==> old(m.sessions[id].port) == port && old(m.sessions[id].state) != Dead)
    ensures forall s :: s in listed ==> s.id in old(m.sessions) && old(m.sessions)[s.id] == s
    ensures !outcome.Terminated? ==> m.sessions == old(m.sessions)
    ensures outcome.Terminated? ==>
      forall id :: id in old(m.sessions) ==>
        (id !in m.sessions <==> old(m.sessions)[id] in Selected(listed, ParsePortIdx(Kept(old(args[..]))[0]).idx))
    ensures forall id :: id in m.sessions ==> id in old(m.sessions) && m.sessions[id] == old(m.sessions)[id]
    ensures forall id :: id in old(m.sessions) ==>
      old(m.sessions)[id].state == if id in m.sessions then old(m.sessions[id].state) else Dead
    ensures outcome.Terminated? ==> outcome.count == |old(m.sessions)| - |m.sessions|
  {
    var n, force := Filter(args);
    listed := [];
    if n == 0 {
      return Usage, listed;
    }
    assert args[0] == args[..n][0];
    var parsed := ParsePortIdx(args[0]);
    if !parsed.PortIdx? {
      return BadArgument(parsed), listed;
    }
    var port, idx := parsed.port, parsed.idx;
    listed := m.ByPort(port);
    if |listed| == 0 {
      return NoConnections(port), listed;
    }
    if idx > |listed| {
      return OutOfRange(idx, port, |listed|), listed;
    }
    if idx < 0 {
      return IndexPanic(idx), listed;
    }
    var targets := Selected(listed, idx);
    forall s | s in targets
      ensures s in listed
    {
    }
    Terminate(m, targets);
    outcome := Terminated(|targets|, port, force);
  }

  // ----- use ---------------------------------------------------------------------------------

  datatype Choice =
    | NoArgument
    | Malformed(why: PortIdx)
    | NothingThere(port: int)
    | Several(port: int, count: nat)
    | TooHigh(idx: int)
    | Negative(idx: int)  // the same panic
    | Picked(port: int, pos: nat)

  /** What the server's `use` picks from a listing of `count` sessions. */
  function Choose(args: seq<string>, count: nat): Choice
  {
    if args == [] then NoArgument
    else
      match ParsePortIdx(args[0])
      case PortIdx(port, idx) =>
        if count == 0 then NothingThere(port)
        else if idx == 0 then (if count > 1 then Several(port, count) else Picked(port, 1))
        else if idx > count then TooHigh(idx)
        else if idx < 0 then Negative(idx)
        else Picked(port, idx)
      case why => Malformed(why)
  }

  /** What a printed target picks: a bare port, or index 0, the only session there is, and several are
    * listed instead; an index, the session at that position. */
  lemma ChosenTarget(port: int, idx: int, count: nat)
    requires IsInt(port) && IsInt(idx)
    ensures Choose([Itoa(port)], count) == Choose([Itoa(port) + ":" + Itoa(0)], count) ==
      if count == 0 then NothingThere(port) else if count == 1 then Picked(port, 1) else Several(port, count)
    ensures Choose([Itoa(port) + ":" + Itoa(idx)], count) ==
      if count == 0 then NothingThere(port)
      else if idx == 0 then Choose([Itoa(port)], count)
      else if idx < 0 then Negative(idx)
      else if idx <= count then Picked(port, idx)
      else TooHigh(idx)
    ensures Choose([], count) == NoArgument
  {
    PortIdxRoundTrip(port, idx);
    PortIdxRoundTrip(port, 0);
  }

  /** The prompt names the session: the port and index that the client reads off the session-start
    * payload, typed back over the same listing, make `use` pick the same session and `kill`
    * terminate that one and no other. */
  lemma PromptNamesTheSession(args: seq<string>, listed: seq<Session>, remote: string, force: bool)
    requires |listed| <= MAX_INT && Choose(args, |listed|).Picked?
    ensures var picked := Choose(args, |listed|);
      var parts := SplitN(StartInfo(picked.port, picked.pos, remote), ':', 3);
      && |parts| == 3 && parts[2] == remote
      && Choose([parts[0] + ":" + parts[1]], |listed|) == picked
      && Verdict([parts[0] + ":" + parts[1]], force, |listed|) == Terminated(1, picked.port, force)
      && 1 <= picked.pos <= |listed| && Selected(listed, picked.pos) == [listed[picked.pos - 1]]
  {
    var picked := Choose(args, |listed|);
    StartInfoSplits(picked.port, picked.pos, remote);
    PortIdxRoundTrip(picked.port, picked.pos);
  }
}
