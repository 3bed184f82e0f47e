/**
 The shared segment buffer as a value, and each of its atomic operations.

 A field of `Buffer` is an atomic (or mutex-guarded) cell of the source's `SegmentsBuffer`; a function
 below is one indivisible access. The step system in `DownloadSystem` and the imperative class in
 `DownloadWorker` are both written with these functions.
 */
module Segments {
  import opened Common

  datatype SegState = Downloading | Ready

  datatype Segment = Segment(start: nat, end: nat, state: SegState)

  datatype Buffer = Buffer(
    total: nat,
    next: nat,
    segments: seq<Segment>,
    readyCount: nat,
    allAssigned: bool,
    failed: bool,
    file: seq<byte>)

  /** A fresh buffer over a file already extended to `total` bytes. */
  function NewBuffer(file: seq<byte>): Buffer {
    Buffer(|file|, 0, [], 0, false, false, file)
  }

  /** The successful compare-and-swap of `claim_range`: [b.next, result.next) now belongs to the caller. */
  function ClaimNext(b: Buffer, preferred: nat): Buffer
    requires b.next < b.total
  {
    b.(next := b.next + Min(preferred, b.total - b.next))
  }

  /** The push under the `segments` lock; the id handed out is the old length. */
  function Register(b: Buffer, start: nat, end: nat): Buffer {
    b.(segments := b.segments + [Segment(start, end, Downloading)])
  }

  /** `claim_range` found nothing left to assign. */
  function NoteExhausted(b: Buffer): Buffer {
    b.(allAssigned := true)
  }

  /** The part of `mark_ready` done under the locks. An unknown id is ignored. */
  function SetReady(b: Buffer, id: nat): Buffer {
    if id < |b.segments| then b.(segments := b.segments[id := b.segments[id].(state := Ready)]) else b
  }

  /** The counter increment of `mark_ready`, done after the locks are released. */
  function CountReady(b: Buffer, id: nat): Buffer {
    if id < |b.segments| then b.(readyCount := b.readyCount + 1) else b
  }

  /** `file` after `data` was written at `offset`; a write past the end extends the file with zeros. */
  function Splice(file: seq<byte>, offset: nat, data: seq<byte>): (r: seq<byte>)
    ensures |r| == Max(|file|, offset + |data|)
    ensures forall x :: 0 <= x < |r| ==>
      r[x] == if offset <= x < offset + |data| then data[x - offset] else if x < |file| then file[x] else 0
  {
    var end := offset + |data|;
    var head := if offset <= |file| then file[..offset] else file + seq(offset - |file|, _ => 0 as byte);
    head + data + (if end <= |file| then file[end..] else [])
  }

  function WriteAt(b: Buffer, offset: nat, data: seq<byte>): Buffer {
    b.(file := Splice(b.file, offset, data))
  }

  function MarkFailed(b: Buffer): Buffer {
    b.(failed := true)
  }

  predicate IsReady(b: Buffer, id: nat) {
    id < |b.segments| && b.segments[id].state == Ready
  }

  predicate AllCompleted(b: Buffer) {
    b.allAssigned && b.readyCount >= |b.segments|
  }
}
