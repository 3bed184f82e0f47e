/** The loop around the coalescer: look in the cache, register, follow, and start over when a leader fails. */
module RetryLoop {
  import opened Common

  /** What the cache has for the URL: nothing usable, a fresh or revalidated copy, or a copy that upstream replaced. */
  datatype Lookup = Miss | Usable | Replaced

  /** How following ends. */
  datatype Followed = Got(buffer: nat) | LeaderDropped(etagChanged: bool) | TimedOut

  datatype Answer = MustLead | UseBuffer(buffer: nat) | WaitFor(outcome: Followed)

  /** What one turn of the loop meets. */
  datatype Turn = Turn(cooldown: bool, lookup: Lookup, answer: Answer)

  datatype Outcome =
    | Cached
    | FollowerBuffer(buffer: nat)
    | Leads
    | Cooldown
    | GaveUp(etagChanged: bool)
    | WaitTimedOut
    | NeedsMoreTurns

  /** The turn ends with a follower whose leader dropped the download. */
  predicate IsDrop(t: Turn, etagChanged: bool) {
    !t.cooldown && !t.lookup.Usable? && t.answer == WaitFor(LeaderDropped(etagChanged))
  }

  /**
   The loop goes on past turn `i` exactly if that turn was a drop and not yet one too many: the first
   `maxRetries` turns may be drops of the ordinary kind, the first `etagMaxRetries` drops for a changed ETag.
   The turn that ends it decides the outcome, and the loop takes at most one turn more than the larger budget.
   */
  method ResolveWithCoalescing(turns: seq<Turn>, maxRetries: nat, etagMaxRetries: nat)
    returns (outcome: Outcome, used: nat)
    ensures used <= |turns| && used <= Max(maxRetries, etagMaxRetries) + 1
    ensures outcome.NeedsMoreTurns? ==> used == |turns| <= Max(maxRetries, etagMaxRetries)
    ensures outcome.NeedsMoreTurns? ==> forall i :: 0 <= i < |turns| ==>
      (IsDrop(turns[i], true) && i < etagMaxRetries) || (IsDrop(turns[i], false) && i < maxRetries)
    ensures !outcome.NeedsMoreTurns? ==> used > 0 && forall i :: 0 <= i < used - 1 ==>
      (IsDrop(turns[i], true) && i < etagMaxRetries) || (IsDrop(turns[i], false) && i < maxRetries)
    ensures outcome == GaveUp(true) ==> IsDrop(turns[used - 1], true) && used > etagMaxRetries
    ensures outcome == GaveUp(false) ==> IsDrop(turns[used - 1], false) && used > maxRetries
    ensures outcome.Cooldown? ==> turns[used - 1].cooldown
    ensures !outcome.NeedsMoreTurns? && !outcome.Cooldown? ==> !turns[used - 1].cooldown
    ensures outcome.Cached? ==> turns[used - 1].lookup.Usable?
    ensures outcome.Leads? ==> !turns[used - 1].lookup.Usable? && turns[used - 1].answer == MustLead
    ensures outcome.FollowerBuffer? ==>
      var t := turns[used - 1];
      !t.lookup.Usable? && (t.answer == UseBuffer(outcome.buffer) || t.answer == WaitFor(Got(outcome.buffer)))
    ensures outcome.WaitTimedOut? ==> !turns[used - 1].lookup.Usable? && turns[used - 1].answer == WaitFor(TimedOut)
  {
    var retries := 0;
    for i := 0 to |turns|
      invariant retries == i <= Max(maxRetries, etagMaxRetries)
      invariant forall j :: 0 <= j < i ==>
        (IsDrop(turns[j], true) && j < etagMaxRetries) || (IsDrop(turns[j], false) && j < maxRetries)
    {
      var t := turns[i];
      if t.cooldown {
        return Cooldown, i + 1;
      }
      if t.lookup.Usable? {
        return Cached, i + 1;
      }
      match t.answer {
        case MustLead =>
          return Leads, i + 1;
        case UseBuffer(b) =>
          return FollowerBuffer(b), i + 1;
        case WaitFor(Got(b)) =>
          return FollowerBuffer(b), i + 1;
        case WaitFor(LeaderDropped(etagChanged)) =>
          var budget := if etagChanged then etagMaxRetries else maxRetries;
          retries := retries + 1;
          if retries > budget {
            return GaveUp(etagChanged), i + 1;
          }
        case WaitFor(TimedOut) =>
          return WaitTimedOut, i + 1;
      }
    }
    return NeedsMoreTurns, |turns|;
  }
}
