/** The coalescer as a class. Whatever takes two locks lets others run in between. */
module CoalescerClass {
  import opened Common
  import opened Coalescing
  import opened CoalescingLimits

  /** `d'` is `d` after any number of events that are none of leader `l`'s. */
  ghost predicate OthersRan(d: Desk, d': Desk, l: nat) {
    exists run: seq<Event> :: CanRun(d, run) && d' == Run(d, run) &&
      forall i :: 0 <= i < |run| ==> run[i].Register? || run[i].leader != l
  }

  lemma {:induction false} OthersLeaveLeaderAlone(d: Desk, run: seq<Event>, l: nat)
    requires CanRun(d, run) && l < |d.leaders| && forall i :: 0 <= i < |run| ==> run[i].Register? || run[i].leader != l
    ensures l < |Run(d, run).leaders| && Run(d, run).leaders[l] == d.leaders[l]
    decreases |run|
  {
    if run != [] {
      OthersLeaveLeaderAlone(After(d, run[0]), run[1..], l);
    }
  }

  /** Every sender listed belongs to a channel. */
  ghost predicate SendersKnown(d: Desk) {
    forall url :: url in d.inflight && d.inflight[url].Pending? ==>
      forall c :: c in d.inflight[url].senders ==> c < |d.channels|
  }

  lemma SendersStayKnown(d: Desk, e: Event)
    requires SendersKnown(d) && Possible(d, e)
    ensures SendersKnown(After(d, e))
  {
  }

  class Coalescer {
    var inflight: map<string, Inflight>
    var etagFailed: map<string, bool>
    var channels: seq<Channel>
    ghost var leaders: seq<Leader>
    ghost var follows: seq<nat>
    ghost var owner: map<string, nat>
    ghost var recorded: map<string, nat>

    ghost function View(): Desk
      reads this
    {
      Desk(inflight, etagFailed, channels, leaders, follows, owner, recorded)
    }

    ghost predicate Valid()
      reads this
    {
      SendersKnown(View())
    }

    constructor ()
      ensures Valid() && View() == EMPTY && Inv(View())
    {
      inflight, etagFailed, channels := map[], map[], [];
      leaders, follows, owner, recorded := [], [], map[], map[];
    }

    /** Others take the locks in between. */
    method Yield(ghost l: nat)
      requires Valid() && l < |leaders|
      modifies this
      ensures Valid() && OthersRan(old(View()), View(), l)
      ensures l < |leaders| && leaders[l] == old(leaders[l])
    {
      assert CanRun(View(), []) && View() == Run(View(), []);
    }

    /** At capacity the caller leads without an entry; from a table in order that is the only way to disorder. */
    method Register(url: string) returns (role: Role)
      requires Valid()
      modifies this
      ensures Valid() && (View(), role) == OnRegister(old(View()), url)
      ensures old(Inv(View())) ==> (Inv(View()) <==> |old(inflight)| < MAX_INFLIGHT)
    {
      SendersStayKnown(View(), Event.Register(url));
      RegisterEffect(View(), url);
      if |inflight| >= MAX_INFLIGHT {
        leaders := leaders + [Leader(url, Live, None)];
        return Lead;
      }
      if url in inflight {
        match inflight[url] {
          case Downloading(buffer) =>
            return Join(buffer);
          case Pending(senders) =>
            var channel := |channels|;
            follows := follows + [OwnerOf(View(), url)];
            channels := channels + [Waiting];
            inflight := inflight[url := Pending(senders + [channel])];
            return Follow(channel);
        }
      }
      inflight := inflight[url := Pending([])];
      owner := owner[url := |leaders|];
      leaders := leaders + [Leader(url, Live, None)];
      return Lead;
    }

    /** Leaves `status` in the channel of every sender listed. */
    method Settle(senders: seq<nat>, status: Channel)
      requires forall c :: c in senders ==> c < |channels|
      modifies this`channels
      ensures channels == SetAll(old(channels), senders, status)
    {
      for i := 0 to |senders|
        invariant channels == SetAll(old(channels), senders[..i], status)
      {
        assert senders[i] in senders;
        channels := channels[senders[i] := status];
        assert senders[..i + 1] == senders[..i] + [senders[i]];
      }
      assert senders[..|senders|] == senders;
    }

    method AttachBuffer(url: string, buffer: nat, ghost l: nat)
      requires Valid() && l < |leaders| && leaders[l].url == url
      modifies this
      ensures View() == OnAttach(old(View()), l, buffer)
      ensures old(Possible(View(), Attach(l, buffer))) ==> Valid()
      ensures old(Inv(View()) && Possible(View(), Attach(l, buffer))) ==> Inv(View())
    {
      if Possible(View(), Attach(l, buffer)) {
        SendersStayKnown(View(), Attach(l, buffer));
        if Inv(View()) {
          AttachKeeps(View(), l, buffer);
        }
      }
      leaders := leaders[l := leaders[l].(buffer := Some(buffer))];
      if url in inflight {
        var entry := inflight[url];
        inflight := inflight - {url};
        if entry.Pending? {
          Settle(entry.senders, Sent(buffer));
          inflight := inflight[url := Downloading(buffer)];
          assert inflight == old(inflight)[url := Downloading(buffer)];
        } else {
          owner := owner - {url};
        }
      }
    }

    /** The first lock of `complete` and `fail`: the entry goes, and with it the senders it still holds. */
    method RemoveEntry(url: string, ghost l: nat, ghost outcome: Option<bool>)
      requires Valid() && IsLive(View(), l) && leaders[l].url == url
      modifies this
      ensures Valid() && View() == OnRelease(old(View()), l, outcome)
      ensures old(Inv(View())) ==> Inv(View())
    {
      SendersStayKnown(View(), Release(l, outcome));
      if Inv(View()) {
        ReleaseKeeps(View(), l, outcome);
      }
      leaders := leaders[l := leaders[l].(phase := Leaving(outcome))];
      if url in inflight {
        var entry := inflight[url];
        inflight := inflight - {url};
        if entry.Pending? {
          Settle(entry.senders, Dropped);
        }
      }
      assert inflight == old(inflight) - {url};
      owner := owner - {url};
    }

    /** The second lock, with anything in between. */
    method Complete(url: string, ghost l: nat)
      requires Valid() && IsLive(View(), l) && leaders[l].url == url
      modifies this
      ensures Valid() && l < |leaders| && leaders[l].phase == Done(None) && url !in etagFailed
      ensures exists d: Desk ::
        OthersRan(OnRelease(old(View()), l, None), d, l) && Possible(d, Record(l)) && View() == OnRecord(d, l)
    {
      RemoveEntry(url, l, None);
      Yield(l);
      ghost var d := View();
      SendersStayKnown(d, Record(l));
      etagFailed := etagFailed - {url};
      recorded := recorded[url := l];
      leaders := leaders[l := leaders[l].(phase := Done(None))];
      assert View() == OnRecord(d, l);
    }

    method Fail(url: string, etagChanged: bool, ghost l: nat)
      requires Valid() && IsLive(View(), l) && leaders[l].url == url
      modifies this
      ensures Valid() && l < |leaders| && leaders[l].phase == Done(Some(etagChanged))
      ensures url in etagFailed && etagFailed[url] == etagChanged
      ensures exists d: Desk ::
        OthersRan(OnRelease(old(View()), l, Some(etagChanged)), d, l) && Possible(d, Record(l)) && View() == OnRecord(d, l)
    {
      RemoveEntry(url, l, Some(etagChanged));
      Yield(l);
      ghost var d := View();
      SendersStayKnown(d, Record(l));
      etagFailed := etagFailed[url := etagChanged];
      recorded := recorded[url := l];
      leaders := leaders[l := leaders[l].(phase := Done(Some(etagChanged)))];
      assert View() == OnRecord(d, l);
    }
  }

  lemma RegisterEffect(d: Desk, url: string)
    ensures Inv(d) ==> (Inv(OnRegister(d, url).0) <==> |d.inflight| < MAX_INFLIGHT)
  {
    if Inv(d) {
      if |d.inflight| < MAX_INFLIGHT {
        RegisterKeeps(d, url);
      } else {
        UnlistedLeader(d, url);
      }
    }
  }
}
