/**
 Where the promises of the coalescer end: a full table, a leader that returns early, and a follower that looks
 for a reason before it is recorded.
 */
module CoalescingLimits {
  import opened Common
  import opened Coalescing

  // ---- at capacity ------------------------------------------------------------------------------

  /** A registration leaves one leader per URL exactly if the table is not full or the URL has no live leader. */
  lemma SecondLeaderExactlyWhenFull(d: Desk, url: string)
    requires Inv(d)
    ensures OneLeaderPerUrl(OnRegister(d, url).0)
      <==> |d.inflight| < 1024 || forall l: nat :: IsLive(d, l) ==> d.leaders[l].url != url
  {
    var d1 := OnRegister(d, url).0;
    if |d.inflight| < MAX_INFLIGHT {
      RegisterKeeps(d, url);
    } else {
      var n := |d.leaders|;
      assert d1.leaders[n].url == url && IsLive(d1, n);
      assert forall l: nat :: l < n ==> d1.leaders[l] == d.leaders[l];
      if l: nat :| IsLive(d, l) && d.leaders[l].url == url {
        assert IsLive(d1, l);
      }
    }
  }

  lemma UnlistedLeader(d: Desk, url: string)
    requires Entries(d)
    ensures !Inv(NewLeader(d, url))
  {
    assert NewLeader(d, url).leaders[|d.leaders|].phase.Live?;
    assert url in d.owner ==> EntryOk(d, url);
  }

  function Name(n: nat): (s: string)
    ensures |s| == n
  {
    seq(n, i => 'a')
  }

  lemma RegisterNew(d: Desk, url: string)
    requires |d.inflight| < MAX_INFLIGHT && url !in d.inflight
    ensures var d1 := After(d, Register(url));
      && |d1.inflight| == |d.inflight| + 1 && d1.inflight.Keys == d.inflight.Keys + {url}
      && d1.leaders == d.leaders + [Leader(url, Live, None)]
  {
  }

  /** The table can fill up with live leaders. */
  lemma {:induction false} Fill(n: nat) returns (run: seq<Event>)
    requires n <= MAX_INFLIGHT
    ensures Reachable(run)
    ensures var d := Run(EMPTY, run);
      && |d.inflight| == n
      && (forall url :: url in d.inflight ==> |url| < n)
      && |d.leaders| == n && (n > 0 ==> d.leaders[0] == Leader(Name(0), Live, None))
  {
    if n == 0 {
      run := [];
    } else {
      var before := Fill(n - 1);
      var e := Register(Name(n - 1));
      var d := Run(EMPTY, before);
      assert Name(n - 1) !in d.inflight;
      RegisterNew(d, Name(n - 1));
      RunAppend(EMPTY, before, e);
      run := before + [e];
    }
  }

  lemma {:induction false} RunAppend(d: Desk, run: seq<Event>, e: Event)
    requires CanRun(d, run) && Possible(Run(d, run), e)
    ensures CanRun(d, run + [e]) && Run(d, run + [e]) == After(Run(d, run), e)
    ensures BelowCapacity(d, run + [e]) <==> BelowCapacity(d, run) && HasRoom(Run(d, run), e)
    decreases |run|
  {
    if run == [] {
      assert run + [e] == [e] && [e][1..] == [];
      assert CanRun(After(d, e), []) && BelowCapacity(After(d, e), []);
    } else {
      RunAppend(After(d, run[0]), run[1..], e);
      assert (run + [e])[1..] == run[1..] + [e];
    }
  }

  /** The source's capacity branch does break the promise: a reachable table and a URL with two live leaders. */
  lemma TwoLeadersAtCapacity() returns (run: seq<Event>, url: string)
    ensures Reachable(run) && |Run(EMPTY, run).inflight| == 1024
    ensures OneLeaderPerUrl(Run(EMPTY, run)) && !OneLeaderPerUrl(OnRegister(Run(EMPTY, run), url).0)
  {
    run := Fill(MAX_INFLIGHT);
    url := Name(0);
    InvRun(EMPTY, run);
    OneLiveLeader(run);
    SecondLeaderExactlyWhenFull(Run(EMPTY, run), url);
  }

  // ---- attaching twice --------------------------------------------------------------------------

  lemma AttachToDownload(d: Desk, l: nat, buffer: nat)
    requires Inv(d) && IsLive(d, l) && d.leaders[l].buffer.Some?
    ensures var d1 := OnAttach(d, l, buffer); var url := d.leaders[l].url;
      && url !in d1.inflight && |d1.inflight| < |d.inflight| && d1.channels == d.channels
      && |d1.leaders| == |d.leaders| && IsLive(d1, l) && d1.leaders[l].url == url
  {
    assert EntryOk(d, d.leaders[l].url);
  }

  lemma SecondLeader(d: Desk, url: string, l: nat)
    requires |d.inflight| < 1024 && url !in d.inflight && IsLive(d, l) && d.leaders[l].url == url
    ensures OnRegister(d, url).1.Lead? && !OneLeaderPerUrl(OnRegister(d, url).0)
  {
    RegisterNew(d, url);
    var d1 := OnRegister(d, url).0;
    assert IsLive(d1, l) && IsLive(d1, |d.leaders|);
    assert d1.leaders[l].url == url && d1.leaders[|d.leaders|].url == url;
  }

  /** The proxy attaches once. A second buffer would free the URL while its leader lives: the next request for
      it leads as well. */
  lemma SecondAttachFreesUrl(run: seq<Event>, l: nat, buffer: nat)
    requires Reachable(run) && IsLive(Run(EMPTY, run), l) && Run(EMPTY, run).leaders[l].buffer.Some?
    requires |Run(EMPTY, run).inflight| < 1024
    ensures var d := Run(EMPTY, run);
      var d1 := OnAttach(d, l, buffer);
      var url := d.leaders[l].url;
      && url !in d1.inflight && d1.channels == d.channels
      && OnRegister(d1, url).1.Lead? && !OneLeaderPerUrl(OnRegister(d1, url).0)
  {
    InvRun(EMPTY, run);
    var d := Run(EMPTY, run);
    AttachToDownload(d, l, buffer);
    SecondLeader(OnAttach(d, l, buffer), d.leaders[l].url, l);
  }

  // ---- abandoned entries ------------------------------------------------------------------------

  /** Leader `l` returned early and still holds the entry of `url`; nobody else leads that URL, and whoever
      follows `l` waits. */
  ghost predicate Stuck(d: Desk, url: string, l: nat) {
    && l < |d.leaders| && d.leaders[l] == Leader(url, Abandoned, None)
    && (forall m :: 0 <= m < |d.leaders| && m != l && d.leaders[m].url == url ==> !IsHolding(d.leaders[m]))
    && d.inflight.Keys == d.owner.Keys && |d.follows| == |d.channels|
    && url in d.inflight && d.inflight[url].Pending? && d.owner[url] == l
    && (forall c :: 0 <= c < |d.follows| && d.follows[c] == l ==> d.channels[c].Waiting?)
    && (forall u :: u in d.inflight && u != url ==> d.owner[u] != l)
    && (forall u :: u in d.inflight && u != url && d.inflight[u].Pending? ==> ApartFrom(d, d.inflight[u].senders, l))
  }

  ghost predicate ApartFrom(d: Desk, senders: seq<nat>, l: nat) {
    forall c :: c in senders ==> c < |d.follows| && d.follows[c] != l
  }

  /** If it registers `url`, the table is not full. */
  predicate HasRoomFor(d: Desk, e: Event, url: string) {
    e == Register(url) ==> |d.inflight| < MAX_INFLIGHT
  }

  lemma StuckFollow(d: Desk, u: string, url: string, l: nat)
    requires Stuck(d, url, l) && u in d.inflight && d.inflight[u].Pending?
    ensures Stuck(NewFollower(d, u, d.inflight[u].senders), url, l)
  {
    assert u != url ==> ApartFrom(d, d.inflight[u].senders, l);
  }

  lemma StuckRegister(d: Desk, u: string, url: string, l: nat)
    requires Stuck(d, url, l) && HasRoomFor(d, Register(u), url)
    ensures Stuck(OnRegister(d, u).0, url, l)
    ensures u == url ==> OnRegister(d, u).1.Follow?
  {
    if u in d.inflight && d.inflight[u].Pending? {
      StuckFollow(d, u, url, l);
    }
  }

  lemma StuckStep(d: Desk, e: Event, url: string, l: nat)
    requires Stuck(d, url, l) && Possible(d, e) && HasRoomFor(d, e, url)
    ensures Stuck(After(d, e), url, l)
  {
    if e.Register? {
      StuckRegister(d, e.url, url, l);
    } else {
      var u := d.leaders[e.leader].url;
      assert u in d.inflight && d.inflight[u].Pending? && u != url ==> ApartFrom(d, d.inflight[u].senders, l);
    }
  }

  ghost predicate Extends(d: Desk, d': Desk) {
    |d.leaders| <= |d'.leaders| && forall m :: 0 <= m < |d.leaders| ==> d'.leaders[m].url == d.leaders[m].url
  }

  lemma RegisteredLeaders(d: Desk, url: string)
    ensures OnRegister(d, url).0.leaders in {d.leaders, d.leaders + [Leader(url, Live, None)]}
  {
  }

  lemma OtherLeaders(d: Desk, e: Event)
    requires Possible(d, e) && !e.Register?
    ensures e.leader < |d.leaders|
    ensures var leaders := After(d, e).leaders;
      && |leaders| == |d.leaders| && leaders == d.leaders[e.leader := leaders[e.leader]]
      && leaders[e.leader].url == d.leaders[e.leader].url
  {
  }

  lemma StepExtends(d: Desk, e: Event)
    requires Possible(d, e)
    ensures Extends(d, After(d, e))
  {
    if e.Register? {
      RegisteredLeaders(d, e.url);
    } else {
      OtherLeaders(d, e);
    }
  }

  lemma {:induction false} RunExtends(d: Desk, run: seq<Event>)
    requires CanRun(d, run)
    ensures Extends(d, Run(d, run))
    decreases |run|
  {
    if run != [] {
      StepExtends(d, run[0]);
      RunExtends(After(d, run[0]), run[1..]);
    }
  }

  /** Whenever `url` is registered in `run`, the table is not full. */
  predicate RoomFor(d: Desk, run: seq<Event>, url: string)
    requires CanRun(d, run)
    decreases |run|
  {
    run == [] || (HasRoomFor(d, run[0], url) && RoomFor(After(d, run[0]), run[1..], url))
  }

  ghost predicate NoNewLeader(d: Desk, d': Desk, url: string) {
    forall m :: |d.leaders| <= m < |d'.leaders| ==> d'.leaders[m].url != url
  }

  lemma StepLeaders(d: Desk, e: Event, url: string, l: nat)
    requires Stuck(d, url, l) && Possible(d, e)
    ensures NoNewLeader(d, After(d, e), url) <==> HasRoomFor(d, e, url)
  {
    if e.Register? {
      var d1 := After(d, e);
      assert |d1.leaders| > |d.leaders| ==> d1.leaders[|d.leaders|].url == e.url;
    }
  }

  /** A leader that returns early blocks its URL: in any run, whatever the other URLs do, the URL gets a new
      leader exactly if it is registered while the table is full. Otherwise every registration follows, and
      whoever follows waits. */
  lemma {:induction false} AbandonedUrlIsStuck(d: Desk, run: seq<Event>, url: string, l: nat)
    requires Stuck(d, url, l) && CanRun(d, run)
    ensures |d.leaders| <= |Run(d, run).leaders|
    ensures NoNewLeader(d, Run(d, run), url) <==> RoomFor(d, run, url)
    ensures RoomFor(d, run, url) ==> Stuck(Run(d, run), url, l)
    decreases |run|
  {
    if run != [] {
      var d1 := After(d, run[0]);
      StepLeaders(d, run[0], url, l);
      if HasRoomFor(d, run[0], url) {
        StuckStep(d, run[0], url, l);
        AbandonedUrlIsStuck(d1, run[1..], url, l);
      }
      StepExtends(d, run[0]);
      RunExtends(d1, run[1..]);
      NoNewLeaderLater(d, d1, Run(d, run), url);
    }
  }

  lemma NoNewLeaderLater(d: Desk, d1: Desk, d2: Desk, url: string)
    requires Extends(d, d1) && Extends(d1, d2)
    ensures NoNewLeader(d, d2, url) <==> NoNewLeader(d, d1, url) && NoNewLeader(d1, d2, url)
  {
    if NoNewLeader(d, d2, url) {
      forall m | |d.leaders| <= m < |d1.leaders|
        ensures d1.leaders[m].url != url
      {
        assert d2.leaders[m].url == d1.leaders[m].url;
      }
    }
  }

  /** Two events suffice for it. */
  lemma UrlCanGetStuck(url: string) returns (run: seq<Event>)
    ensures Reachable(run) && Stuck(Run(EMPTY, run), url, 0)
  {
    RunAppend(EMPTY, [], Register(url));
    assert [] + [Register(url)] == [Register(url)];
    RunAppend(EMPTY, [Register(url)], Abandon(0));
    run := [Register(url)] + [Abandon(0)];
  }

  // ---- the reason a woken follower reads --------------------------------------------------------

  /** Whether the leader failed because upstream changed. */
  predicate Reason(leader: Leader) {
    (leader.phase.Leaving? || leader.phase.Done?) && leader.phase.outcome == Some(true)
  }

  /** The reason recorded last for `url`. */
  ghost predicate LastReason(d: Desk, url: string)
    requires Reasons(d)
  {
    url in d.recorded && Reason(d.leaders[d.recorded[url]])
  }

  /**
   A follower whose sender was dropped reads the reason of its own leader's failure if and only if the last
   leader of that URL to record one had the same reason. So it does once its own leader has recorded, as long
   as no other leader of the URL records after that.
   */
  lemma WokenFollowerReadsRightIff(run: seq<Event>, c: nat)
    requires Reachable(run) && c < |Run(EMPTY, run).channels| && Run(EMPTY, run).channels[c].Dropped?
    ensures var d := Run(EMPTY, run);
      && Reasons(d) && c < |d.follows| && d.follows[c] < |d.leaders|
      && var l := d.follows[c]; var url := d.leaders[l].url;
         && (EtagFailedFor(d, url) == Reason(d.leaders[l]) <==> LastReason(d, url) == Reason(d.leaders[l]))
         && (url in d.recorded && d.recorded[url] == l ==> EtagFailedFor(d, url) == Reason(d.leaders[l]))
  {
    InvRun(EMPTY, run);
  }

  /** The first follower of a leader that has just released its entry. */
  lemma FirstFailure(url: string, outcome: bool) returns (run: seq<Event>)
    ensures Reachable(run)
    ensures var d := Run(EMPTY, run);
      && d.channels == [Dropped] && d.follows == [0] && d.inflight == map[] && d.owner == map[] && d.recorded == map[]
      && d.leaders == [Leader(url, Leaving(Some(outcome)), None)] && d.etagFailed == map[]
  {
    var first, second := [] + [Register(url)], [] + [Register(url)] + [Register(url)];
    RunAppend(EMPTY, [], Register(url));
    RunAppend(EMPTY, first, Register(url));
    RunAppend(EMPTY, second, Release(0, Some(outcome)));
    run := second + [Release(0, Some(outcome))];
    assert Run(EMPTY, second).inflight[url] == Pending([0]);
    assert Run(EMPTY, second).channels == [Waiting];
  }

  /** A follower can be woken before the reason is recorded, and then reads that nothing was wrong. */
  lemma StaleReason(url: string) returns (run: seq<Event>)
    ensures Reachable(run)
    ensures var d := Run(EMPTY, run);
      && d.channels == [Dropped] && d.follows == [0] && |d.leaders| == 1 && d.leaders[0].url == url
      && Reason(d.leaders[0]) && !EtagFailedFor(d, url)
  {
    run := FirstFailure(url, true);
  }
}
