/**
 The queue directory as a value: which record file lies in which lane, and what the queue's
 file operations do to it. Every operation is told which file-system calls succeed (`Io`), so
 one function covers the clean run, every I/O failure, and every crash point: a crash is an
 operation whose remaining calls all fail, followed by a restart.
 */
module QueueFiles {
  import opened Basics
  import opened SetSums

  type Id = string

  datatype Lane = Pending | Inflight | Dead | Overflow

  datatype Path = File(lane: Lane, id: Id)

  datatype Status = StatusPending | StatusInflight | StatusDead | StatusEvicted

  // `payload` is the gzipped event.
  datatype Record = Record(
    id: Id,
    destination: string,
    enqueuedAt: int,
    nextAttempt: int,
    attempts: int,
    status: Status,
    lastError: string,
    payload: Bytes)

  type Disk = map<Path, Record>

  datatype FileOp =
    | MakeDir(lane: Lane)
    | ReadDir(lane: Lane)
    | ReadSizes(lane: Lane)
    | Stat(path: Path)
    | ReadHeader(path: Path)
    | Read(path: Path)
    | Write(path: Path)
    | Remove(path: Path)

  // Which file-system calls of one queue operation succeed. No operation issues the same
  // call twice.
  type Io = FileOp -> bool

  const ALL_OK: Io := (_: FileOp) => true

  ghost predicate AllClear(io: Io) {
    forall op :: io(op)
  }

  // gzip, and the length in bytes of a record's JSON header.
  datatype Codec = Codec(gzip: Bytes -> Bytes, gunzip: Bytes -> Option<Bytes>, headerLen: Record -> nat)
  {
    ghost predicate Lossless() {
      forall b: Bytes :: gunzip(gzip(b)) == Some(b)
    }

    // A listing reads 4096 bytes and skips a file whose header does not end within them.
    predicate Visible(r: Record) {
      headerLen(r) < 4096
    }

    function FileSize(r: Record): nat {
      headerLen(r) + 1 + |r.payload|
    }

    function Unzipped(r: Record): Record {
      match gunzip(r.payload)
      case Some(b) => r.(payload := b)
      case None => r
    }
  }

  function StatusOf(lane: Lane): Status {
    match lane
    case Pending => StatusPending
    case Inflight => StatusInflight
    case Dead => StatusDead
    case Overflow => StatusEvicted
  }

  function Ids(d: Disk): set<Id> {
    set p | p in d :: p.id
  }

  // Every file is named after its record, and its header says which lane it is in.
  ghost predicate Coherent(d: Disk) {
    forall p :: p in d ==> d[p].id == p.id && d[p].status == StatusOf(p.lane)
  }

  // No event in two lanes.
  ghost predicate SingleCopy(d: Disk) {
    forall p, q :: p in d && q in d && p.id == q.id ==> p == q
  }

  // Every file holds the bytes stored for its id.
  ghost predicate Faithful(d: Disk, stored: map<Id, Bytes>) {
    forall p :: p in d ==> p.id in stored && d[p].payload == stored[p.id]
  }

  // ----- the two file operations of a transition -----

  function Move(d: Disk, src: Lane, dst: Lane, r: Record, io: Io): (Disk, bool) {
    if !io(Write(File(dst, r.id))) then (d, false)
    else
      var written := d[File(dst, r.id) := r];
      if File(src, r.id) !in written || !io(Remove(File(src, r.id))) then (written, false)
      else (written - {File(src, r.id)}, true)
  }

  // Read a record, relabel it, move it. The flag says whether all of it succeeded.
  function Transfer(d: Disk, src: Lane, dst: Lane, relabel: Record -> Record, id: Id, io: Io): (Disk, bool) {
    if File(src, id) !in d || !io(Read(File(src, id))) then (d, false)
    else Move(d, src, dst, relabel(d[File(src, id)]), io)
  }

  // Transfer one id after the other, carrying on past failures; returns those that succeeded.
  function TransferAll(d: Disk, src: Lane, dst: Lane, relabel: Record -> Record, ids: seq<Id>, io: Io): (Disk, seq<Id>)
  {
    if ids == [] then (d, [])
    else
      var last := ids[|ids| - 1];
      var (before, moved) := TransferAll(d, src, dst, relabel, ids[..|ids| - 1], io);
      var (after, ok) := Transfer(before, src, dst, relabel, last, io);
      (after, if ok then moved + [last] else moved)
  }

  function Removed(d: Disk, p: Path, io: Io): Disk {
    if p in d && io(Remove(p)) then d - {p} else d
  }

  // ----- what each transition writes -----

  function Relabelled(lane: Lane): Record -> Record {
    (r: Record) => r.(status := StatusOf(lane))
  }

  function Rescheduled(next: int, lastError: string): Record -> Record {
    (r: Record) => r.(attempts := r.attempts + 1, nextAttempt := next, lastError := lastError, status := StatusPending)
  }

  function Buried(lastError: string): Record -> Record {
    (r: Record) => r.(status := StatusDead, lastError := lastError)
  }

  ghost predicate Relabels(relabel: Record -> Record, dst: Lane) {
    forall r :: relabel(r).id == r.id && relabel(r).payload == r.payload && relabel(r).status == StatusOf(dst)
  }

  function AckDisk(d: Disk, id: Id, io: Io): Disk {
    Removed(d, File(Inflight, id), io)
  }

  function RetryDisk(d: Disk, id: Id, next: int, lastError: string, io: Io): Disk {
    Transfer(d, Inflight, Pending, Rescheduled(next, lastError), id, io).0
  }

  function MarkDeadDisk(d: Disk, id: Id, lastError: string, io: Io): Disk {
    Transfer(d, Inflight, Dead, Buried(lastError), id, io).0
  }

  // ----- conservation -----

  // A transfer never makes an id vanish or appear, and copies payload bytes unchanged,
  // wherever it stops.
  lemma TransferConserves(d: Disk, src: Lane, dst: Lane, relabel: Record -> Record, id: Id, io: Io,
                          stored: map<Id, Bytes>)
    requires src != dst && Relabels(relabel, dst)
    requires Coherent(d)
    ensures var d' := Transfer(d, src, dst, relabel, id, io).0;
            Ids(d') == Ids(d) && Coherent(d') && (Faithful(d, stored) ==> Faithful(d', stored))
  {
    var d' := Transfer(d, src, dst, relabel, id, io).0;
    if d' != d {
      var r := relabel(d[File(src, id)]);
      assert r.id == id;
      forall x | x in Ids(d) ensures x in Ids(d') {
        var p :| p in d && p.id == x;
        if p == File(src, id) {
          assert File(dst, id) in d';
        } else {
          assert p in d';
        }
      }
      forall x | x in Ids(d') ensures x in Ids(d) {
        var p :| p in d' && p.id == x;
        if p == File(dst, id) {
          assert File(src, id) in d;
        } else {
          assert p in d;
        }
      }
    }
  }

  lemma {:induction false} TransferAllConserves(d: Disk, src: Lane, dst: Lane, relabel: Record -> Record,
                                                ids: seq<Id>, io: Io, stored: map<Id, Bytes>)
    requires src != dst && Relabels(relabel, dst)
    requires Coherent(d)
    ensures var d' := TransferAll(d, src, dst, relabel, ids, io).0;
            Ids(d') == Ids(d) && Coherent(d') && (Faithful(d, stored) ==> Faithful(d', stored))
  {
    if ids != [] {
      var front := ids[..|ids| - 1];
      TransferAllConserves(d, src, dst, relabel, front, io, stored);
      TransferConserves(TransferAll(d, src, dst, relabel, front, io).0, src, dst, relabel, ids[|ids| - 1], io, stored);
    }
  }

  // What a batch of transfers does, file by file: a reported id has left `src`, relabelled,
  // for `dst`; an unreported one is still in `src` as it was; nothing appears in `src`, and
  // nothing outside the two lanes or the listed ids changes.
  ghost predicate Carried(d: Disk, d': Disk, src: Lane, dst: Lane, relabel: Record -> Record, ids: seq<Id>,
                          moved: seq<Id>) {
    && Distinct(moved)
    && (forall id :: id in moved ==> id in ids && File(src, id) in d && File(src, id) !in d'
                                     && File(dst, id) in d' && d'[File(dst, id)] == relabel(d[File(src, id)]))
    && (forall id :: id !in moved ==> Same(d, d', File(src, id)))
    && (forall id :: id !in ids ==> Same(d, d', File(dst, id)))
    && (forall p: Path :: p.lane != src && p.lane != dst ==> Same(d, d', p))
  }

  ghost predicate Same(d: Disk, d': Disk, p: Path) {
    (p in d <==> p in d') && (p in d ==> d[p] == d'[p])
  }

  // One transfer, as a step of the above.
  ghost predicate Carry(d: Disk, d': Disk, src: Lane, dst: Lane, relabel: Record -> Record, id: Id, ok: bool) {
    && (forall p :: p != File(src, id) && p != File(dst, id) ==> Same(d, d', p))
    && (if ok then
          File(src, id) in d && File(src, id) !in d' && File(dst, id) in d'
          && d'[File(dst, id)] == relabel(d[File(src, id)])
        else Same(d, d', File(src, id)))
  }

  lemma TransferCoherent(d: Disk, src: Lane, dst: Lane, relabel: Record -> Record, id: Id, io: Io)
    requires src != dst && Relabels(relabel, dst) && Coherent(d)
    ensures Coherent(Transfer(d, src, dst, relabel, id, io).0)
  {
  }

  lemma TransferEffect(d: Disk, src: Lane, dst: Lane, relabel: Record -> Record, id: Id, io: Io)
    requires src != dst && Relabels(relabel, dst) && Coherent(d)
    ensures var (d', ok) := Transfer(d, src, dst, relabel, id, io);
            Carry(d, d', src, dst, relabel, id, ok)
  {
    if File(src, id) in d && io(Read(File(src, id))) {
      var r := relabel(d[File(src, id)]);
      assert r.id == id;
      var written := d[File(dst, id) := r];
      var d' := written - {File(src, id)};
      assert forall p :: p != File(src, id) && p != File(dst, id) ==> Same(d, written, p) && Same(d, d', p);
    }
  }

  lemma MovedStep(d: Disk, mid: Disk, d': Disk, src: Lane, dst: Lane, relabel: Record -> Record, ids: seq<Id>,
                  moved: seq<Id>, id: Id, ok: bool, x: Id)
    requires src != dst && id !in ids && x in if ok then moved + [id] else moved
    requires Carried(d, mid, src, dst, relabel, ids, moved)
    requires Carry(mid, d', src, dst, relabel, id, ok)
    ensures x in ids + [id] && File(src, x) in d && File(src, x) !in d'
            && File(dst, x) in d' && d'[File(dst, x)] == relabel(d[File(src, x)])
  {
    assert Same(d, mid, File(src, id)) && Same(d, mid, File(dst, id));
    if x != id {
      assert x in moved;
      assert Same(mid, d', File(src, x)) && Same(mid, d', File(dst, x));
    }
  }

  lemma UnmovedStep(d: Disk, mid: Disk, d': Disk, src: Lane, dst: Lane, relabel: Record -> Record, ids: seq<Id>,
                    moved: seq<Id>, id: Id, ok: bool)
    requires src != dst && id !in ids
    requires Carried(d, mid, src, dst, relabel, ids, moved)
    requires Carry(mid, d', src, dst, relabel, id, ok)
    ensures forall x :: x !in (if ok then moved + [id] else moved) ==> Same(d, d', File(src, x))
    ensures forall x :: x !in ids + [id] ==> Same(d, d', File(dst, x))
    ensures forall p: Path :: p.lane != src && p.lane != dst ==> Same(d, d', p)
  {
    forall x | x !in ids + [id] ensures Same(d, d', File(dst, x)) {
      assert x !in ids && x != id;
      assert Same(mid, d', File(dst, x));
    }
    forall x | x !in if ok then moved + [id] else moved ensures Same(d, d', File(src, x)) {
      assert x !in moved;
      if x != id {
        assert Same(mid, d', File(src, x));
      }
    }
    forall p: Path | p.lane != src && p.lane != dst ensures Same(d, d', p) {
      assert Same(d, mid, p) && Same(mid, d', p);
    }
  }

  lemma DistinctSnoc(ids: seq<Id>, id: Id)
    requires Distinct(ids) && id !in ids
    ensures Distinct(ids + [id])
  {
  }

  lemma CarriedStep(d: Disk, mid: Disk, d': Disk, src: Lane, dst: Lane, relabel: Record -> Record, ids: seq<Id>,
                    moved: seq<Id>, id: Id, ok: bool)
    requires src != dst && id !in ids
    requires Carried(d, mid, src, dst, relabel, ids, moved)
    requires Carry(mid, d', src, dst, relabel, id, ok)
    ensures Carried(d, d', src, dst, relabel, ids + [id], if ok then moved + [id] else moved)
  {
    DistinctSnoc(moved, id);
    UnmovedStep(d, mid, d', src, dst, relabel, ids, moved, id, ok);
    forall x | x in if ok then moved + [id] else moved
      ensures x in ids + [id] && File(src, x) in d && File(src, x) !in d'
              && File(dst, x) in d' && d'[File(dst, x)] == relabel(d[File(src, x)])
    {
      MovedStep(d, mid, d', src, dst, relabel, ids, moved, id, ok, x);
    }
  }

  lemma {:induction false} TransferAllEffect(d: Disk, src: Lane, dst: Lane, relabel: Record -> Record, ids: seq<Id>,
                                             io: Io)
    requires src != dst && Relabels(relabel, dst) && Coherent(d) && Distinct(ids)
    ensures var (d', moved) := TransferAll(d, src, dst, relabel, ids, io);
            Coherent(d') && Carried(d, d', src, dst, relabel, ids, moved)
  {
    if ids != [] {
      var front, last := ids[..|ids| - 1], ids[|ids| - 1];
      assert ids == front + [last];
      TransferAllEffect(d, src, dst, relabel, front, io);
      var (mid, moved) := TransferAll(d, src, dst, relabel, front, io);
      TransferEffect(mid, src, dst, relabel, last, io);
      TransferCoherent(mid, src, dst, relabel, last, io);
      var (d', ok) := Transfer(mid, src, dst, relabel, last, io);
      CarriedStep(d, mid, d', src, dst, relabel, front, moved, last, ok);
    }
  }

  // The loop step: what the first `i` transfers left for the next one.
  lemma TransferAllNext(d: Disk, src: Lane, dst: Lane, relabel: Record -> Record, ids: seq<Id>, i: nat, io: Io)
    requires src != dst && Relabels(relabel, dst) && Coherent(d) && Distinct(ids) && i < |ids|
    ensures var (mid, moved) := TransferAll(d, src, dst, relabel, ids[..i], io);
            var (next, ok) := Transfer(mid, src, dst, relabel, ids[i], io);
            && Same(d, mid, File(src, ids[i]))
            && TransferAll(d, src, dst, relabel, ids[..i + 1], io) == (next, if ok then moved + [ids[i]] else moved)
  {
    assert ids[..i + 1][..i] == ids[..i] && ids[..i + 1][i] == ids[i];
    TransferAllEffect(d, src, dst, relabel, ids[..i], io);
    assert ids[i] !in ids[..i];
  }

  // Where a file of the destination lane comes from: it was there, or it was in the source lane.
  ghost predicate CameFrom(d: Disk, d': Disk, src: Lane, dst: Lane, relabel: Record -> Record, ids: seq<Id>, id: Id) {
    File(dst, id) in d' ==>
      || (File(dst, id) in d && d'[File(dst, id)] == d[File(dst, id)])
      || (id in ids && File(src, id) in d && d'[File(dst, id)] == relabel(d[File(src, id)]))
  }

  // One more transfer.
  lemma CameFromNext(d: Disk, mid: Disk, d': Disk, src: Lane, dst: Lane, relabel: Record -> Record, ids: seq<Id>,
                     last: Id, id: Id)
    requires src != dst && last !in ids && CameFrom(d, mid, src, dst, relabel, ids, id)
    requires Same(d, mid, File(src, last)) && Same(d, mid, File(dst, last))
    requires id != last ==> Same(mid, d', File(dst, id))
    requires id == last ==> CameFrom(mid, d', src, dst, relabel, [last], id)
    ensures CameFrom(d, d', src, dst, relabel, ids + [last], id)
  {
  }

  lemma TransferOrigin(d: Disk, src: Lane, dst: Lane, relabel: Record -> Record, id: Id, io: Io)
    requires src != dst && Relabels(relabel, dst) && Coherent(d)
    ensures CameFrom(d, Transfer(d, src, dst, relabel, id, io).0, src, dst, relabel, [id], id)
  {
  }

  lemma {:induction false} TransferAllOrigin(d: Disk, src: Lane, dst: Lane, relabel: Record -> Record, ids: seq<Id>,
                                             io: Io, id: Id)
    requires src != dst && Relabels(relabel, dst) && Coherent(d) && Distinct(ids)
    ensures CameFrom(d, TransferAll(d, src, dst, relabel, ids, io).0, src, dst, relabel, ids, id)
  {
    if ids != [] {
      var front, last := ids[..|ids| - 1], ids[|ids| - 1];
      var mid := TransferAll(d, src, dst, relabel, front, io).0;
      assert ids == front + [last];
      TransferAllOrigin(d, src, dst, relabel, front, io, id);
      TransferAllEffect(d, src, dst, relabel, front, io);
      TransferEffect(mid, src, dst, relabel, last, io);
      TransferOrigin(mid, src, dst, relabel, last, io);
      CameFromNext(d, mid, Transfer(mid, src, dst, relabel, last, io).0, src, dst, relabel, front, last, id);
    }
  }

  // With no failure every listed id is moved.
  lemma {:induction false} TransferAllOk(d: Disk, src: Lane, dst: Lane, relabel: Record -> Record, ids: seq<Id>, io: Io)
    requires src != dst && Relabels(relabel, dst) && Coherent(d) && Distinct(ids)
    requires AllClear(io)
    requires forall id :: id in ids ==> File(src, id) in d
    ensures TransferAll(d, src, dst, relabel, ids, io).1 == ids
  {
    if ids != [] {
      var front, last := ids[..|ids| - 1], ids[|ids| - 1];
      TransferAllOk(d, src, dst, relabel, front, io);
      TransferAllEffect(d, src, dst, relabel, front, io);
      var before := TransferAll(d, src, dst, relabel, front, io).0;
      assert last !in front;
      assert File(src, last) in before;
      assert relabel(before[File(src, last)]).id == last;
    }
  }

  // ----- listing a lane -----

  predicate Listed(d: Disk, codec: Codec, lane: Lane, dest: string, io: Io, id: Id) {
    && File(lane, id) in d
    && io(ReadHeader(File(lane, id)))
    && codec.Visible(d[File(lane, id)])
    && (dest == "" || d[File(lane, id)].destination == dest)
  }

  // `ids` is a listing of the lane, in the order the directory happens to give.
  ghost predicate IsListing(d: Disk, codec: Codec, lane: Lane, dest: string, io: Io, ids: seq<Id>) {
    Distinct(ids) && forall id :: id in ids <==> Listed(d, codec, lane, dest, io, id)
  }

  function NextAttemptAt(d: Disk): Id -> int {
    (id: Id) => if File(Pending, id) in d then d[File(Pending, id)].nextAttempt else 0
  }

  function EnqueuedAt(d: Disk): Id -> int {
    (id: Id) => if File(Pending, id) in d then d[File(Pending, id)].enqueuedAt else 0
  }

  ghost predicate SortedBy(ids: seq<Id>, key: Id -> int) {
    forall i, j :: 0 <= i < j < |ids| ==> key(ids[i]) <= key(ids[j])
  }

  // Claims are taken earliest-due first. `ids` holds due records only; either the limit is
  // reached or nothing due was left out, and what was left out is not due before what was taken.
  ghost predicate IsClaimOrder(d: Disk, codec: Codec, dest: string, limit: int, now: int, io: Io, ids: seq<Id>) {
    && Distinct(ids)
    && (forall id :: id in ids ==> Due(d, codec, dest, now, io, id))
    && SortedBy(ids, NextAttemptAt(d))
    && (limit > 0 ==> |ids| <= limit)
    && (forall id :: Due(d, codec, dest, now, io, id) && id !in ids ==>
                       && limit > 0 && |ids| == limit
                       && NextAttemptAt(d)(ids[|ids| - 1]) <= NextAttemptAt(d)(id))
  }

  predicate Due(d: Disk, codec: Codec, dest: string, now: int, io: Io, id: Id) {
    Listed(d, codec, Pending, dest, io, id) && d[File(Pending, id)].nextAttempt <= now
  }

  ghost predicate NothingDue(d: Disk, codec: Codec, dest: string, now: int, io: Io) {
    forall id :: !Due(d, codec, dest, now, io, id)
  }

  function ClaimDisk(d: Disk, ids: seq<Id>, io: Io): (Disk, seq<Id>) {
    TransferAll(d, Pending, Inflight, Relabelled(Inflight), ids, io)
  }

  // What the caller of a claim receives: the moved records, in order, with payloads unzipped.
  ghost predicate AreClaims(records: seq<Record>, d: Disk, codec: Codec, moved: seq<Id>) {
    && |records| == |moved|
    && forall i :: 0 <= i < |moved| ==>
                     && File(Pending, moved[i]) in d
                     && records[i] == codec.Unzipped(Relabelled(Inflight)(d[File(Pending, moved[i])]))
  }

  // Recovery from one listing of the inflight lane.
  function RecoverDisk(d: Disk, ids: seq<Id>, io: Io): (Disk, seq<Id>) {
    TransferAll(d, Inflight, Pending, Relabelled(Pending), ids, io)
  }

  // ----- eviction -----

  function SizeAt(d: Disk, codec: Codec): Path -> nat {
    (p: Path) => if p in d then codec.FileSize(d[p]) else 0
  }

  function Measured(d: Disk, io: Io): set<Path> {
    set p | p in d && p.lane != Overflow && io(Stat(p))
  }

  // The size the queue believes it has: nothing, when one of the lanes cannot be read.
  ghost function TotalBytes(d: Disk, codec: Codec, io: Io): nat {
    if io(ReadSizes(Pending)) && io(ReadSizes(Inflight)) && io(ReadSizes(Dead)) then
      Sum(Measured(d, io), SizeAt(d, codec))
    else 0
  }

  // Payload bytes of pending records.
  function Freed(d: Disk, ids: seq<Id>): nat {
    if ids == [] then 0
    else
      var p := File(Pending, ids[|ids| - 1]);
      Freed(d, ids[..|ids| - 1]) + if p in d then |d[p].payload| else 0
  }

  // All pending records that can be listed, oldest first.
  ghost predicate IsAgeOrder(d: Disk, codec: Codec, io: Io, ids: seq<Id>) {
    IsListing(d, codec, Pending, "", io, ids) && SortedBy(ids, EnqueuedAt(d))
  }

  function EvictDisk(d: Disk, ids: seq<Id>, io: Io): (Disk, seq<Id>) {
    TransferAll(d, Pending, Overflow, Relabelled(Overflow), ids, io)
  }

  // Eviction works through `order` and stops at `cut`, the first point at which the payload
  // bytes freed so far make room.
  ghost predicate StopsAt(d: Disk, size: int, room: int, order: seq<Id>, cut: nat, io: Io) {
    && cut <= |order|
    && (forall k: nat :: k < cut ==> size - Freed(d, EvictDisk(d, order[..k], io).1) > room)
    && (cut < |order| ==> size - Freed(d, EvictDisk(d, order[..cut], io).1) <= room)
  }

  // ----- pruning -----

  // One lane without its listed records older than the cutoff.
  function PruneLane(d: Disk, codec: Codec, lane: Lane, cutoff: int, io: Io): Disk {
    map p | p in d && !(p.lane == lane && Expired(d, codec, lane, cutoff, io, p.id) && io(Remove(p))) :: d[p]
  }

  predicate Expired(d: Disk, codec: Codec, lane: Lane, cutoff: int, io: Io, id: Id) {
    Listed(d, codec, lane, "", io, id) && d[File(lane, id)].enqueuedAt < cutoff
  }

  function PruneDisk(d: Disk, codec: Codec, cutoff: int, io: Io): Disk {
    if !io(ReadDir(Dead)) then d
    else
      var d1 := PruneLane(d, codec, Dead, cutoff, io);
      if !io(ReadDir(Overflow)) then d1 else PruneLane(d1, codec, Overflow, cutoff, io)
  }
}
