/**
 Deduplication of concurrent requests for one URL: the first request leads the download, later ones follow it.

 The tables are a value, `Desk`, whose last four fields are history: one record per leader, the leader each
 receiver follows, the leader that owns each entry, and the last leader to record a reason for each URL. Every
 access under one lock is one step; completing and failing take two, `Release` and `Record`. Buffers are named
 by numbers, and a receiver is the number of its one-shot channel.
 */
module Coalescing {
  import opened Common

  const MAX_INFLIGHT: nat := 1024

  datatype Inflight = Pending(senders: seq<nat>) | Downloading(buffer: nat)

  datatype Channel = Waiting | Sent(buffer: nat) | Dropped

  /**
   An abandoned leader returned early and never touches its entry again. A leaving one has removed its entry
   and not yet recorded why. The outcome is None for complete, and for fail whether upstream changed.
   */
  datatype Phase = Live | Abandoned | Leaving(outcome: Option<bool>) | Done(outcome: Option<bool>)

  datatype Leader = Leader(url: string, phase: Phase, buffer: Option<nat>)

  datatype Desk = Desk(
    inflight: map<string, Inflight>,
    etagFailed: map<string, bool>,
    channels: seq<Channel>,
    leaders: seq<Leader>,
    follows: seq<nat>,
    owner: map<string, nat>,
    recorded: map<string, nat>)

  datatype Role = Lead | Follow(channel: nat) | Join(buffer: nat)

  // ---- the calls --------------------------------------------------------------------------------

  function SetAll(channels: seq<Channel>, which: seq<nat>, status: Channel): (r: seq<Channel>)
    ensures |r| == |channels|
  {
    seq(|channels|, i requires 0 <= i < |channels| => if i in which then status else channels[i])
  }

  function OwnerOf(d: Desk, url: string): nat {
    if url in d.owner then d.owner[url] else 0
  }

  function NewLeader(d: Desk, url: string): Desk {
    d.(leaders := d.leaders + [Leader(url, Live, None)])
  }

  function NewFollower(d: Desk, url: string, senders: seq<nat>): Desk {
    d.(inflight := d.inflight[url := Pending(senders + [|d.channels|])],
       channels := d.channels + [Waiting],
       follows := d.follows + [OwnerOf(d, url)])
  }

  function OnRegister(d: Desk, url: string): (Desk, Role) {
    if |d.inflight| >= MAX_INFLIGHT then (NewLeader(d, url), Lead)
    else if url in d.inflight then
      match d.inflight[url]
      case Downloading(b) => (d, Join(b))
      case Pending(senders) => (NewFollower(d, url, senders), Follow(|d.channels|))
    else
      (NewLeader(d, url).(inflight := d.inflight[url := Pending([])], owner := d.owner[url := |d.leaders|]), Lead)
  }

  function OnAttach(d: Desk, l: nat, buffer: nat): Desk
    requires l < |d.leaders|
  {
    var url := d.leaders[l].url;
    var d1 := d.(leaders := d.leaders[l := d.leaders[l].(buffer := Some(buffer))]);
    if url !in d.inflight then d1
    else match d.inflight[url]
      case Pending(senders) =>
        d1.(inflight := d.inflight[url := Downloading(buffer)],
            channels := SetAll(d.channels, senders, Sent(buffer)))
      case Downloading(_) => d1.(inflight := d.inflight - {url}, owner := d.owner - {url})
  }

  /** Removing an entry drops the senders it still holds. */
  function Released(d: Desk, url: string): Desk {
    var channels := if url in d.inflight && d.inflight[url].Pending?
                    then SetAll(d.channels, d.inflight[url].senders, Dropped) else d.channels;
    d.(inflight := d.inflight - {url}, owner := d.owner - {url}, channels := channels)
  }

  function OnRelease(d: Desk, l: nat, outcome: Option<bool>): Desk
    requires l < |d.leaders|
  {
    Released(d, d.leaders[l].url).(leaders := d.leaders[l := d.leaders[l].(phase := Leaving(outcome))])
  }

  function OnRecord(d: Desk, l: nat): Desk
    requires l < |d.leaders| && d.leaders[l].phase.Leaving?
  {
    var url, outcome := d.leaders[l].url, d.leaders[l].phase.outcome;
    d.(etagFailed := if outcome.None? then d.etagFailed - {url} else d.etagFailed[url := outcome.value],
       recorded := d.recorded[url := l],
       leaders := d.leaders[l := d.leaders[l].(phase := Done(outcome))])
  }

  function EtagFailedFor(d: Desk, url: string): bool {
    url in d.etagFailed && d.etagFailed[url]
  }

  // ---- runs -------------------------------------------------------------------------------------

  datatype Event =
    | Register(url: string)
    | Attach(leader: nat, buffer: nat)
    | Release(leader: nat, outcome: Option<bool>)
    | Record(leader: nat)
    | Abandon(leader: nat)

  predicate IsLive(d: Desk, l: nat) {
    l < |d.leaders| && d.leaders[l].phase.Live?
  }

  predicate IsHolding(leader: Leader) {
    leader.phase.Live? || leader.phase.Abandoned?
  }

  /** The proxy's order: register, attach at most once, then complete or fail at most once. */
  predicate Possible(d: Desk, e: Event) {
    match e
    case Register(_) => true
    case Attach(l, _) => IsLive(d, l) && d.leaders[l].buffer.None?
    case Release(l, _) => IsLive(d, l)
    case Record(l) => l < |d.leaders| && d.leaders[l].phase.Leaving?
    case Abandon(l) => IsLive(d, l) && d.leaders[l].buffer.None?
  }

  /** If it is a registration, the table is not full. */
  predicate HasRoom(d: Desk, e: Event) {
    e.Register? ==> |d.inflight| < MAX_INFLIGHT
  }

  function After(d: Desk, e: Event): Desk
    requires Possible(d, e)
  {
    match e
    case Register(url) => OnRegister(d, url).0
    case Attach(l, b) => OnAttach(d, l, b)
    case Release(l, outcome) => OnRelease(d, l, outcome)
    case Record(l) => OnRecord(d, l)
    case Abandon(l) => d.(leaders := d.leaders[l := d.leaders[l].(phase := Abandoned)])
  }

  predicate CanRun(d: Desk, run: seq<Event>)
    decreases |run|
  {
    run == [] || (Possible(d, run[0]) && CanRun(After(d, run[0]), run[1..]))
  }

  function Run(d: Desk, run: seq<Event>): Desk
    requires CanRun(d, run)
    decreases |run|
  {
    if run == [] then d else Run(After(d, run[0]), run[1..])
  }

  /** The table is never full when somebody registers. */
  predicate BelowCapacity(d: Desk, run: seq<Event>)
    requires CanRun(d, run)
    decreases |run|
  {
    run == [] || (HasRoom(d, run[0]) && BelowCapacity(After(d, run[0]), run[1..]))
  }

  const EMPTY: Desk := Desk(map[], map[], [], [], [], map[], map[])

  // ---- the invariant ----------------------------------------------------------------------------

  /** What a receiver sees follows from its leader's record alone. */
  function Expected(leader: Leader): Channel {
    if leader.buffer.Some? then Sent(leader.buffer.value)
    else if IsHolding(leader) then Waiting
    else Dropped
  }

  ghost predicate Distinct(s: seq<nat>) {
    forall i, j :: 0 <= i < j < |s| ==> s[i] != s[j]
  }

  ghost predicate EntryOk(d: Desk, url: string)
    requires url in d.inflight && url in d.owner
  {
    var l := d.owner[url];
    && l < |d.leaders| && d.leaders[l].url == url && IsHolding(d.leaders[l])
    && match d.inflight[url]
       case Downloading(b) => d.leaders[l].phase.Live? && d.leaders[l].buffer == Some(b)
       case Pending(senders) =>
         && d.leaders[l].buffer.None?
         && Distinct(senders)
         && forall c: nat :: c in senders <==> c < |d.follows| && d.follows[c] == l
  }

  ghost predicate Entries(d: Desk) {
    && d.inflight.Keys == d.owner.Keys
    && forall url :: url in d.inflight ==> EntryOk(d, url)
  }

  /** Whoever has not left owns the entry of its URL. */
  ghost predicate Owners(d: Desk) {
    forall l :: 0 <= l < |d.leaders| && IsHolding(d.leaders[l]) ==>
      d.leaders[l].url in d.owner && d.owner[d.leaders[l].url] == l
  }

  ghost predicate Receivers(d: Desk) {
    && |d.follows| == |d.channels|
    && (forall c :: 0 <= c < |d.follows| ==> d.follows[c] < |d.leaders|)
    && (forall c :: 0 <= c < |d.follows| ==> d.channels[c] == Expected(d.leaders[d.follows[c]]))
  }

  /** The reason kept for a URL is that of the last leader to record one. */
  ghost predicate Reasons(d: Desk) {
    && (forall url :: url in d.recorded ==>
          && d.recorded[url] < |d.leaders| && d.leaders[d.recorded[url]].url == url
          && d.leaders[d.recorded[url]].phase.Done?)
    && (forall url :: url in d.etagFailed ==> url in d.recorded)
    && (forall url :: url in d.recorded ==>
          var outcome := d.leaders[d.recorded[url]].phase.outcome;
          if outcome.None? then url !in d.etagFailed
          else url in d.etagFailed && d.etagFailed[url] == outcome.value)
  }

  ghost predicate Inv(d: Desk) {
    Entries(d) && Owners(d) && Receivers(d) && Reasons(d)
  }

  lemma LeadKeeps(d: Desk, url: string)
    requires Inv(d) && |d.inflight| < MAX_INFLIGHT && url !in d.inflight
    ensures Inv(OnRegister(d, url).0)
  {
    var d1 := OnRegister(d, url).0;
    forall u | u in d1.inflight
      ensures u in d1.owner && EntryOk(d1, u)
    {
      assert u != url ==> u in d.inflight && EntryOk(d, u);
    }
  }

  lemma DistinctAppend(s: seq<nat>, x: nat)
    requires Distinct(s) && x !in s
    ensures Distinct(s + [x])
  {
  }

  lemma FollowKeepsEntry(d: Desk, url: string, u: string)
    requires Inv(d) && url in d.inflight && d.inflight[url].Pending? && u in d.inflight
    ensures EntryOk(NewFollower(d, url, d.inflight[url].senders), u)
  {
    var senders := d.inflight[url].senders;
    assert EntryOk(d, url) && EntryOk(d, u);
    if u == url {
      assert forall c :: c in senders ==> c < |d.follows|;
      DistinctAppend(senders, |d.channels|);
    }
  }

  lemma FollowKeepsRest(d: Desk, url: string)
    requires Inv(d) && url in d.inflight && d.inflight[url].Pending?
    ensures var d1 := NewFollower(d, url, d.inflight[url].senders);
      d1.inflight.Keys == d1.owner.Keys && Owners(d1) && Receivers(d1) && Reasons(d1)
  {
    assert EntryOk(d, url);
  }

  lemma RegisterKeeps(d: Desk, url: string)
    requires Inv(d) && |d.inflight| < MAX_INFLIGHT
    ensures Inv(OnRegister(d, url).0)
  {
    if url !in d.inflight {
      LeadKeeps(d, url);
    } else if d.inflight[url].Pending? {
      FollowKeepsRest(d, url);
      forall u | u in d.inflight
        ensures EntryOk(NewFollower(d, url, d.inflight[url].senders), u)
      {
        FollowKeepsEntry(d, url, u);
      }
    }
  }

  lemma AttachKeepsEntries(d: Desk, l: nat, b: nat)
    requires Inv(d) && Possible(d, Attach(l, b))
    ensures Entries(OnAttach(d, l, b))
  {
    var d1 := OnAttach(d, l, b);
    assert EntryOk(d, d.leaders[l].url);
    forall u | u in d1.inflight
      ensures u in d1.owner && EntryOk(d1, u)
    {
      assert EntryOk(d, u);
    }
  }

  lemma AttachKeeps(d: Desk, l: nat, b: nat)
    requires Inv(d) && Possible(d, Attach(l, b))
    ensures Inv(OnAttach(d, l, b))
  {
    AttachKeepsEntries(d, l, b);
    assert EntryOk(d, d.leaders[l].url);
  }

  lemma ReleaseKeeps(d: Desk, l: nat, outcome: Option<bool>)
    requires Inv(d) && IsLive(d, l)
    ensures Inv(OnRelease(d, l, outcome))
  {
  }

  lemma RecordKeeps(d: Desk, l: nat)
    requires Inv(d) && Possible(d, Record(l))
    ensures Inv(OnRecord(d, l))
  {
    var d1 := OnRecord(d, l);
    forall u | u in d1.inflight
      ensures u in d1.owner && EntryOk(d1, u)
    {
      assert EntryOk(d, u);
    }
  }

  lemma AbandonKeeps(d: Desk, l: nat)
    requires Inv(d) && Possible(d, Abandon(l))
    ensures Inv(After(d, Abandon(l)))
  {
  }

  lemma InvStep(d: Desk, e: Event)
    requires Inv(d) && Possible(d, e) && HasRoom(d, e)
    ensures Inv(After(d, e))
  {
    match e
    case Register(url) => RegisterKeeps(d, url);
    case Attach(l, b) => AttachKeeps(d, l, b);
    case Release(l, outcome) => ReleaseKeeps(d, l, outcome);
    case Record(l) => RecordKeeps(d, l);
    case Abandon(l) => AbandonKeeps(d, l);
  }

  lemma {:induction false} InvRun(d: Desk, run: seq<Event>)
    requires Inv(d) && CanRun(d, run) && BelowCapacity(d, run)
    ensures Inv(Run(d, run))
    decreases |run|
  {
    if run != [] {
      InvStep(d, run[0]);
      InvRun(After(d, run[0]), run[1..]);
    }
  }

  /** Some run below capacity leads here. */
  ghost predicate Reachable(run: seq<Event>) {
    CanRun(EMPTY, run) && BelowCapacity(EMPTY, run)
  }

  // ---- what the invariant gives -----------------------------------------------------------------

  ghost predicate OneLeaderPerUrl(d: Desk) {
    forall l, m :: 0 <= l < m < |d.leaders| && IsLive(d, l) && IsLive(d, m) ==> d.leaders[l].url != d.leaders[m].url
  }

  /** In every run below capacity, a URL never has two live leaders. */
  lemma OneLiveLeader(run: seq<Event>)
    requires Reachable(run)
    ensures OneLeaderPerUrl(Run(EMPTY, run))
  {
    InvRun(EMPTY, run);
  }

  /** Every receiver ever handed out is waiting, or was sent its leader's buffer, or was dropped: the
      leader's record says which, and one that waits is on its leader's list exactly once. */
  lemma ReceiversFollowTheirLeader(run: seq<Event>, c: nat)
    requires Reachable(run) && c < |Run(EMPTY, run).channels|
    ensures var d := Run(EMPTY, run);
      c < |d.follows| && d.follows[c] < |d.leaders| &&
      var leader := d.leaders[d.follows[c]];
      && (d.channels[c].Sent? <==> leader.buffer.Some?)
      && (d.channels[c].Sent? ==> leader.buffer == Some(d.channels[c].buffer))
      && (d.channels[c].Dropped? <==> leader.buffer.None? && !IsHolding(leader))
      && (d.channels[c].Waiting? ==>
            && leader.url in d.inflight && d.inflight[leader.url].Pending?
            && multiset(d.inflight[leader.url].senders)[c] == 1)
  {
    InvRun(EMPTY, run);
    var d := Run(EMPTY, run);
    var l := d.follows[c];
    if d.channels[c].Waiting? {
      var url := d.leaders[l].url;
      assert url in d.owner && d.owner[url] == l;
      assert EntryOk(d, url);
      DistinctOnce(d.inflight[url].senders, c);
    }
  }

  lemma {:induction false} DistinctOnce(s: seq<nat>, x: nat)
    requires Distinct(s) && x in s
    ensures multiset(s)[x] == 1
    decreases |s|
  {
    assert s == [s[0]] + s[1..];
    if s[0] == x {
      assert x !in s[1..];
    } else {
      DistinctOnce(s[1..], x);
    }
  }

  /** The three answers of a registration, each exactly when it is due. */
  lemma RolesAreExact(run: seq<Event>, url: string)
    requires Reachable(run) && |Run(EMPTY, run).inflight| < 1024
    ensures var d := Run(EMPTY, run); var (d1, role) := OnRegister(d, url);
      && (role.Lead? <==> forall l: nat :: l < |d.leaders| && d.leaders[l].url == url ==> !IsHolding(d.leaders[l]))
      && (role.Lead? ==> IsLive(d1, |d.leaders|) && d1.leaders[|d.leaders|].url == url)
      && (forall b: nat :: role == Join(b) <==>
            exists l: nat :: IsLive(d, l) && d.leaders[l].url == url && d.leaders[l].buffer == Some(b))
  {
    InvRun(EMPTY, run);
    var d := Run(EMPTY, run);
    assert url in d.inflight ==> EntryOk(d, url);
  }

  /** A new follower gets a channel of its own and follows a leader of the same URL. */
  lemma FollowersShareTheUrl(run: seq<Event>, url: string)
    requires Reachable(run) && OnRegister(Run(EMPTY, run), url).1.Follow?
    ensures var d := Run(EMPTY, run); var (d1, role) := OnRegister(d, url);
      && role == Follow(|d.channels|) && d1.channels == d.channels + [Waiting]
      && |d1.follows| == |d1.channels| && d1.follows[|d.channels|] < |d1.leaders|
      && d1.leaders[d1.follows[|d.channels|]].url == url
      && IsHolding(d1.leaders[d1.follows[|d.channels|]])
  {
    InvRun(EMPTY, run);
    assert EntryOk(Run(EMPTY, run), url);
  }
}
