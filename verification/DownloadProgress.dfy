/** No state of a download is a dead end: from every reachable state some continuation reaches a verdict. */
module DownloadProgress {
  import opened Common
  import opened Segments
  import opened DownloadSystem
  import opened DownloadInvariant
  import opened DownloadTheorems
  import opened DownloadWitness

  // ---- every worker can leave -------------------------------------------------------------------

  /** A move that brings worker `w` nearer to its end, whatever the others and the server do. */
  function MoveOn(s: State, w: nat): Action
    requires w < |s.workers| && !s.workers[w].Exited?
  {
    match s.workers[w]
    case Idle(_) => if s.buf.next < s.buf.total then Claim(w) else Exhaust(w)
    case Claimed(_, _) => Push(w)
    case Fetching(_) => SendFails(w, false)
    case Streaming(_, _, _, _) => StreamFails(w, false)
    case Writing(_, _, _, _, _, _) => WriteFails(w)
    case Received(_, _) => PublishReady(w)
    case Marked(_) => Notify(w, INITIAL_SEGMENT_SIZE)
    case Returned(_, _) => Exit(w)
  }

  function Distance(wk: Worker): nat {
    match wk
    case Received(_, _) => 6
    case Marked(_) => 5
    case Idle(_) => 4
    case Claimed(_, _) => 3
    case Returned(_, _) => 1
    case Exited(_, _) => 0
    case _ => 2
  }

  ghost predicate OthersStay(s: State, s': State, w: nat) {
    && |s'.workers| == |s.workers| && (forall v :: 0 <= v < |s.workers| && v != w ==> s'.workers[v] == s.workers[v])
    && s'.main == s.main && s'.joined == s.joined
  }

  lemma MovesOn(cfg: Config, s: State, w: nat)
    requires w < |s.workers| && !s.workers[w].Exited?
    ensures Enabled(cfg, s, MoveOn(s, w))
    ensures var s' := Do(cfg, s, MoveOn(s, w));
      OthersStay(s, s', w) && Distance(s'.workers[w]) < Distance(s.workers[w])
  {
  }

  lemma {:induction false} CanLeave(cfg: Config, s: State, w: nat) returns (acts: seq<Action>)
    requires w < |s.workers|
    ensures CanRun(cfg, s, acts) && OthersStay(s, Run(cfg, s, acts), w) && Run(cfg, s, acts).workers[w].Exited?
    decreases Distance(s.workers[w])
  {
    if s.workers[w].Exited? {
      acts := [];
    } else {
      MovesOn(cfg, s, w);
      var rest := CanLeave(cfg, Do(cfg, s, MoveOn(s, w)), w);
      OneMore(cfg, s, MoveOn(s, w), rest);
      acts := [MoveOn(s, w)] + rest;
    }
  }

  lemma {:induction false} AllCanLeave(cfg: Config, s: State, n: nat) returns (acts: seq<Action>)
    requires n <= |s.workers|
    ensures CanRun(cfg, s, acts)
    ensures var s' := Run(cfg, s, acts);
      && |s'.workers| == |s.workers| && s'.main == s.main && (forall w :: 0 <= w < n ==> s'.workers[w].Exited?)
    decreases n
  {
    if n == 0 {
      acts := [];
    } else {
      var before := AllCanLeave(cfg, s, n - 1);
      var s1 := Run(cfg, s, before);
      var last := CanLeave(cfg, s1, n - 1);
      RunAppend(cfg, s, before, last);
      acts := before + last;
    }
  }

  // ---- then the supervisor can finish -----------------------------------------------------------

  ghost predicate NobodyLeft(s: State) {
    s.active == 0 && forall w :: 0 <= w < |s.workers| ==> s.workers[w].Exited?
  }

  lemma {:induction false} CanDrain(cfg: Config, s: State, n: nat) returns (acts: seq<Action>)
    requires NobodyLeft(s) && s.main == Draining && n <= |s.workers|
    requires forall w :: n <= w < |s.workers| ==> w in s.joined
    ensures CanRun(cfg, s, acts) && Run(cfg, s, acts).main.Finished?
    decreases n
  {
    if n == 0 {
      OneMore(cfg, s, Verdict, []);
      acts := [Verdict] + [];
    } else if n - 1 in s.joined {
      acts := CanDrain(cfg, s, n - 1);
    } else {
      var s1 := Do(cfg, s, Join(n - 1));
      var rest := CanDrain(cfg, s1, n - 1);
      OneMore(cfg, s, Join(n - 1), rest);
      acts := [Join(n - 1)] + rest;
    }
  }

  lemma LeaveJoining(cfg: Config, s: State) returns (acts: seq<Action>)
    requires NobodyLeft(s) && s.main == Joining
    ensures CanRun(cfg, s, acts) && Run(cfg, s, acts).main.Finished?
  {
    var rest := CanDrain(cfg, Do(cfg, s, ReadActive), |s.workers|);
    OneMore(cfg, s, ReadActive, rest);
    acts := [ReadActive] + rest;
  }

  lemma LeaveSupervising(cfg: Config, s: State) returns (acts: seq<Action>)
    requires NobodyLeft(s) && s.main == Supervising
    ensures CanRun(cfg, s, acts) && Run(cfg, s, acts).main.Finished?
  {
    if w: nat :| w < |s.workers| && w !in s.joined {
      var s1 := Do(cfg, s, Join(w));
      var rest := [];
      if s1.main.Joining? {
        rest := LeaveJoining(cfg, s1);
      }
      OneMore(cfg, s, Join(w), rest);
      acts := [Join(w)] + rest;
    } else {
      var rest := CanDrain(cfg, Do(cfg, s, NothingToJoin), |s.workers|);
      OneMore(cfg, s, NothingToJoin, rest);
      acts := [NothingToJoin] + rest;
    }
  }

  lemma CanConclude(cfg: Config, s: State) returns (acts: seq<Action>)
    requires NobodyLeft(s)
    ensures CanRun(cfg, s, acts) && Run(cfg, s, acts).main.Finished?
  {
    match s.main
    case Supervising => acts := LeaveSupervising(cfg, s);
    case Joining => acts := LeaveJoining(cfg, s);
    case Draining => acts := CanDrain(cfg, s, |s.workers|);
    case Finished(_) => acts := [];
  }

  /** From every reachable state some continuation reaches a verdict, without any help from the server. */
  lemma VerdictIsAlwaysInReach(cfg: Config, s0: State, before: seq<Action>) returns (after: seq<Action>)
    requires Reachable(cfg, s0, before)
    ensures Reachable(cfg, s0, before + after) && Run(cfg, s0, before + after).main.Finished?
  {
    var s := Run(cfg, s0, before);
    var first := AllCanLeave(cfg, s, |s.workers|);
    var s1 := Run(cfg, s, first);
    RunAppend(cfg, s0, before, first);
    ReachableInv(cfg, s0, before + first);
    assert Running(s1) == {};
    var last := CanConclude(cfg, s1);
    RunAppend(cfg, s, first, last);
    after := first + last;
    RunAppend(cfg, s0, before, after);
  }
}
