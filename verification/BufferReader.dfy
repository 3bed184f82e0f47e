/**
 The streaming reader as imperative code, over the shared buffer of `DownloadWorker`.

 The history of a reader is a run of the watched system of `BufferStream`; between its looks at the buffer
 it lets everybody else run.
 */
module BufferReader {
  import opened Common
  import opened Segments
  import opened DownloadSystem
  import opened DownloadTheorems
  import opened DownloadWorker
  import opened BufferStream
  import opened StreamTheorems
  import opened StreamWitness

  /** What one call of the stream's closure produces; `StillWaiting` if it ran out of turns. */
  datatype Item = Bytes(data: seq<byte>) | Failure | End | StillWaiting

  class StreamReader {
    const buffer: SegmentsBuffer
    var currentSegment: nat
    var offsetInSegment: nat
    var errored: bool

    ghost var start: State
    ghost var moves: seq<Move>
    ghost var st: Stream

    /** The history is a run that leads to the present. */
    ghost predicate Linked()
      reads this, buffer
    {
      && buffer.Valid() && Watchable(buffer.cfg, start, moves)
      && After(buffer.cfg, start, moves) == Watched(buffer.world, st)
    }

    ghost predicate Valid()
      reads this, buffer
    {
      Linked() && st.current == currentSegment && st.offset == offsetInSegment && st.errored == errored
    }

    constructor (buffer: SegmentsBuffer)
      requires buffer.Valid()
      ensures Valid() && this.buffer == buffer && st == NEW_STREAM
    {
      this.buffer := buffer;
      currentSegment, offsetInSegment, errored := 0, 0, false;
      st := NEW_STREAM;
      ghost var s0, acts :| Reachable(buffer.cfg, s0, acts) && buffer.world == Run(buffer.cfg, s0, acts);
      WatchDownload(buffer.cfg, s0, NEW_STREAM, acts);
      start, moves := s0, Moves(acts);
    }

    /** Let everybody else run; this reader stays where it is. */
    method Yield()
      requires Valid()
      modifies buffer, this`moves
      ensures Valid() && (old(buffer.failed) ==> buffer.failed)
    {
    }

    /** The history gains one move of the reader. */
    ghost method Step(read: Option<nat>)
      requires Linked() && CanRead(buffer.world.buf, st, read)
      modifies this`st, this`moves
      ensures Linked() && st == Advance(buffer.world.buf, old(st), read)
    {
      var x := Watched(buffer.world, st);
      var m := Move.Reader(read);
      assert CanWatch(buffer.cfg, MoveTo(buffer.cfg, x, m), []);
      assert [m][1..] == [];
      WatchAppend(buffer.cfg, Watched(start, NEW_STREAM), moves, [m]);
      moves := moves + [m];
      st := Advance(buffer.world.buf, st, read);
    }

    /** A positional read: some bytes from `offset` on, at most `len`; None for an error or end of file. */
    method ReadData(offset: nat, len: nat) returns (data: Option<seq<byte>>)
      requires len > 0
      ensures data.Some? ==>
        && 0 < |data.value| <= len && offset + |data.value| <= |buffer.file|
        && data.value == buffer.file[offset..offset + |data.value|]
    {
      var n: nat :| n == 0 || (n <= len && offset + n <= |buffer.file|);
      return if n == 0 then None else Some(buffer.file[offset..offset + n]);
    }

    /** Read on from a registered segment, if it is ready. */
    method Serve() returns (item: Item)
      requires Valid() && st.pc.Serving? && currentSegment < |buffer.segments|
      modifies this
      ensures Valid() && st.pc.Top? && errored == old(errored)
      ensures item.Bytes? ==> item.data != [] && st.yielded == old(st.yielded) + item.data
      ensures !item.Bytes? ==> item == StillWaiting && st.yielded == old(st.yielded)
    {
      var seg := buffer.segments[currentSegment];
      if seg.state != Ready {
        Step(None);
        return StillWaiting;
      }
      var pos := seg.start + offsetInSegment;
      if pos >= seg.end {
        Step(None);
        currentSegment, offsetInSegment := currentSegment + 1, 0;
        return StillWaiting;
      }
      var data := ReadData(pos, seg.end - pos);
      if data.Some? {
        Step(Some(|data.value|));
        offsetInSegment := offsetInSegment + |data.value|;
        return Bytes(data.value);
      }
      Step(None);
      currentSegment, offsetInSegment := currentSegment + 1, 0;
      return StillWaiting;
    }

    /** Past the last registered segment: is this the end? */
    method TestEnd() returns (end: bool)
      requires Valid() && st.pc.Serving? && currentSegment >= |buffer.segments|
      modifies this`st, this`moves, buffer
      ensures Valid() && errored == old(errored) && st.yielded == old(st.yielded)
      ensures if end then st.pc.Ended? else st.pc.Top?
      ensures end <==> |buffer.segments| > 0 && buffer.allAssigned && buffer.readyCount >= |buffer.segments|
    {
      Step(None);
      Yield();
      var done := buffer.AllCompletedNow();
      end := |buffer.segments| > 0 && done;
      Step(None);
    }

    lemma ErroredMeansFailed()
      requires Valid()
      ensures errored ==> buffer.failed
    {
      AfterInv(buffer.cfg, start, moves);
    }

    /** One turn of the loop. */
    method Turn() returns (item: Item)
      requires Valid() && st.pc.Top?
      modifies this, buffer
      ensures Valid()
      ensures item.Bytes? ==> !errored && st.pc.Top? && item.data != [] && st.yielded == old(st.yielded) + item.data
      ensures item.Failure? ==> errored && !old(errored) && st.pc.Top? && st.yielded == old(st.yielded)
      ensures item.End? ==> st.pc.Ended? && st.yielded == old(st.yielded) && errored == old(errored)
      ensures item.StillWaiting? ==> st.pc.Top? && errored == old(errored) && st.yielded == old(st.yielded)
      ensures old(buffer.failed) && !old(errored) ==> item.Failure?
      ensures item.Failure? ==> buffer.failed
      ensures old(errored) ==> item.End?
      ensures item.End? && !errored ==>
        |buffer.segments| > 0 && buffer.allAssigned && buffer.readyCount >= |buffer.segments|
    {
      ErroredMeansFailed();
      Yield();
      ErroredMeansFailed();
      Step(None);
      if buffer.failed {
        if errored {
          return End;
        }
        errored := true;
        return Failure;
      }
      Yield();
      if currentSegment >= |buffer.segments| {
        var end := TestEnd();
        return if end then End else StillWaiting;
      }
      item := Serve();
    }

    /** The next item of the stream. A failed download is reported by the very next item, and the one after it
        is the end; a normal end finds the buffer complete. Whatever was handed out so far is a prefix of the
        file, as long as the segments read from are in file order and no read has failed. */
    method Next(turns: nat) returns (item: Item)
      requires Valid() && st.pc.Top?
      modifies this, buffer
      ensures Valid()
      ensures item.Bytes? ==> !errored && st.pc.Top? && item.data != [] && st.yielded == old(st.yielded) + item.data
      ensures item.Failure? ==> errored && !old(errored) && st.pc.Top? && st.yielded == old(st.yielded)
      ensures item.End? ==> st.pc.Ended? && st.yielded == old(st.yielded) && errored == old(errored)
      ensures item.StillWaiting? ==> st.pc.Top? && st.yielded == old(st.yielded) && errored == old(errored)
      ensures turns > 0 && old(buffer.failed) && !old(errored) ==> item.Failure?
      ensures item.Failure? ==> buffer.failed
      ensures turns > 0 && old(errored) ==> item.End?
      ensures item.End? && !errored ==>
        |buffer.segments| > 0 && buffer.allAssigned && buffer.readyCount >= |buffer.segments|
      ensures OneGeneration(buffer.cfg) && ReadInOrder(Watched(buffer.world, st)) && st.skipped == 0 ==>
        st.yielded <= buffer.cfg.head.content
    {
      item := StillWaiting;
      for i := 0 to turns
        invariant Valid() && st.pc.Top? && errored == old(errored) && st.yielded == old(st.yielded)
        invariant item.StillWaiting? && (i == 0 || !(old(buffer.failed) || old(errored)))
        invariant old(buffer.failed) && i == 0 ==> buffer.failed
      {
        item := Turn();
        if !item.StillWaiting? {
          break;
        }
      }
      if st.skipped == 0 {
        PrefixIffReachedInOrder(buffer.cfg, start, moves);
      }
    }
  }
}
