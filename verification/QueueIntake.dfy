/** What goes into the queue comes out of it: the enqueued event is handed out, when due, to its destination. */
module QueueIntake {
  import opened Basics
  import opened SetSums
  import opened QueueFiles
  import opened DurableQueue

  // ----- the claim -----

  // The pending records that a claim can see, of the destination, whose time has come.
  ghost function DueIds(d: Disk, codec: Codec, dest: string, now: int, io: Io): set<Id> {
    set p | p in d && p.lane == Pending && io(ReadHeader(p)) && codec.Visible(d[p])
            && (dest == "" || d[p].destination == dest) && d[p].nextAttempt <= now :: p.id
  }

  // The calls that move one pending record succeed.
  predicate Moves(io: Io, id: Id) {
    io(Read(File(Pending, id))) && io(Write(File(Inflight, id))) && io(Remove(File(Pending, id)))
  }

  lemma {:induction false} DistinctSize(ids: seq<Id>)
    requires Distinct(ids)
    ensures |set id | id in ids| == |ids|
  {
    if ids != [] {
      var front, last := ids[..|ids| - 1], ids[|ids| - 1];
      assert ids == front + [last];
      DistinctSize(front);
      assert (set id | id in ids) == (set id | id in front) + {last};
      assert last !in front;
    }
  }

  lemma {:induction false} TransferAllMoves(d: Disk, src: Lane, dst: Lane, relabel: Record -> Record, ids: seq<Id>,
                                            io: Io, id: Id)
    requires src != dst && Relabels(relabel, dst) && Coherent(d) && Distinct(ids) && id in ids && File(src, id) in d
    requires io(Read(File(src, id))) && io(Write(File(dst, id))) && io(Remove(File(src, id)))
    ensures id in TransferAll(d, src, dst, relabel, ids, io).1
  {
    var front, last := ids[..|ids| - 1], ids[|ids| - 1];
    assert ids == front + [last];
    if id == last {
      TransferAllEffect(d, src, dst, relabel, front, io);
      assert Same(d, TransferAll(d, src, dst, relabel, front, io).0, File(src, id));
      assert relabel(d[File(src, id)]).id == id;
    } else {
      TransferAllMoves(d, src, dst, relabel, front, io, id);
    }
  }

  // With room for all that is due, everything due is taken.
  lemma AllDueTaken(d: Disk, codec: Codec, dest: string, limit: int, now: int, order: seq<Id>, io: Io, id: Id)
    requires Coherent(d) && IsClaimOrder(d, codec, dest, limit, now, io, order)
    requires id in DueIds(d, codec, dest, now, io) && (limit <= 0 || |DueIds(d, codec, dest, now, io)| <= limit)
    ensures id in order
  {
    var all, taken := DueIds(d, codec, dest, now, io), set x | x in order;
    DistinctSize(order);
    forall x | x in taken ensures x in all {
      assert Due(d, codec, dest, now, io, x);
      assert File(Pending, x) in d;
    }
    if id !in order {
      assert Due(d, codec, dest, now, io, id);
      SubsetSize(taken, all, id);
    }
  }

  lemma SubsetSize<T>(a: set<T>, b: set<T>, x: T)
    requires a <= b && x in b && x !in a
    ensures |a| < |b|
  {
    assert a <= b - {x};
    SmallerSize(a, b - {x});
  }

  lemma {:induction false} SmallerSize<T>(a: set<T>, b: set<T>)
    requires a <= b
    ensures |a| <= |b|
  {
    if a != {} {
      var x :| x in a;
      SmallerSize(a - {x}, b - {x});
    }
  }

  // What a claim hands out is its pending record as it lay there, unzipped; each once, none before
  // its time and none of another destination.
  lemma ClaimHandsOut(d: Disk, codec: Codec, dest: string, limit: int, now: int, order: seq<Id>, batch: seq<Record>,
                      io: Io, i: nat)
    requires Coherent(d) && IsClaimOrder(d, codec, dest, limit, now, io, order) && i < |batch|
    requires AreClaims(batch, d, codec, ClaimDisk(d, order, io).1)
    ensures batch[i].id in DueIds(d, codec, dest, now, io)
    ensures var r := d[File(Pending, batch[i].id)];
            && batch[i].destination == r.destination && batch[i].attempts == r.attempts
            && batch[i].enqueuedAt == r.enqueuedAt && batch[i].nextAttempt == r.nextAttempt <= now
            && batch[i].lastError == r.lastError && batch[i].status == StatusInflight
            && (dest == "" || batch[i].destination == dest)
            && (codec.gunzip(r.payload).Some? ==> batch[i].payload == codec.gunzip(r.payload).value)
    ensures forall j :: 0 <= j < |batch| && batch[j].id == batch[i].id ==> j == i
    ensures limit > 0 ==> |batch| <= limit
  {
    var moved := ClaimDisk(d, order, io).1;
    TransferAllEffect(d, Pending, Inflight, Relabelled(Inflight), order, io);
    forall j | 0 <= j < |batch| ensures batch[j].id == moved[j] {
      assert d[File(Pending, moved[j])].id == moved[j];
    }
    assert moved[i] in moved;
    assert Due(d, codec, dest, now, io, moved[i]);
    assert File(Pending, moved[i]) in d;
    MovedAtMost(d, Pending, Inflight, Relabelled(Inflight), order, io);
  }

  lemma {:induction false} MovedAtMost(d: Disk, src: Lane, dst: Lane, relabel: Record -> Record, ids: seq<Id>, io: Io)
    ensures |TransferAll(d, src, dst, relabel, ids, io).1| <= |ids|
  {
    if ids != [] {
      MovedAtMost(d, src, dst, relabel, ids[..|ids| - 1], io);
    }
  }

  // A claim hands out the earliest due first, and leaves nothing behind that was due before what it
  // took.
  lemma EarliestFirst(d: Disk, codec: Codec, dest: string, limit: int, now: int, order: seq<Id>, io: Io)
    requires IsClaimOrder(d, codec, dest, limit, now, io, order)
    ensures forall id :: id in order ==> id in DueIds(d, codec, dest, now, io)
    ensures limit > 0 ==> |order| <= limit
    ensures forall i, j :: 0 <= i < j < |order| ==>
                             File(Pending, order[i]) in d && File(Pending, order[j]) in d
                             && d[File(Pending, order[i])].nextAttempt <= d[File(Pending, order[j])].nextAttempt
    ensures forall id, left :: id in order && left in DueIds(d, codec, dest, now, io) && left !in order ==>
                                 && 0 < limit == |order| && File(Pending, id) in d && File(Pending, left) in d
                                 && d[File(Pending, id)].nextAttempt <= d[File(Pending, left)].nextAttempt
  {
    forall id | id in order ensures id in DueIds(d, codec, dest, now, io) && File(Pending, id) in d {
      assert Due(d, codec, dest, now, io, id);
    }
    forall i, j | 0 <= i < j < |order|
      ensures d[File(Pending, order[i])].nextAttempt <= d[File(Pending, order[j])].nextAttempt
    {
      assert NextAttemptAt(d)(order[i]) <= NextAttemptAt(d)(order[j]);
    }
    forall id, left | id in order && left in DueIds(d, codec, dest, now, io) && left !in order
      ensures 0 < limit == |order| && d[File(Pending, id)].nextAttempt <= d[File(Pending, left)].nextAttempt
    {
      assert Due(d, codec, dest, now, io, left);
      var last := order[|order| - 1];
      assert last in order;
      assert NextAttemptAt(d)(id) <= NextAttemptAt(d)(last) <= NextAttemptAt(d)(left);
    }
  }

  // ----- enqueue, then claim -----

  // The record of an event as it was given, never sent.
  predicate IsGiven(r: Record, id: Id, dest: string, at: int, due: int, status: Status, payload: Bytes) {
    && r.id == id && r.destination == dest && r.enqueuedAt == at && r.nextAttempt == due
    && r.attempts == 0 && r.lastError == "" && r.status == status && r.payload == payload
  }

  lemma EnqueueStores(d: Disk, opts: Options, codec: Codec, size: int, id: Id, dest: string, json: Bytes, at: int,
                      due: int, order: seq<Id>, cut: nat, io: Io)
    requires Coherent(d) && cut <= |order|
    ensures var (d', err) := EnqueueDisk(d, opts, codec, size, NewRecord(codec, id, dest, json, at, due), order, cut,
                                         io);
            err == None ==>
              && Coherent(d') && File(Pending, id) in d'
              && IsGiven(d'[File(Pending, id)], id, dest, at, due, StatusPending, codec.gzip(json))
  {
    TransferAllConserves(d, Pending, Overflow, Relabelled(Overflow), order[..cut], io, map[]);
  }

  // The event is given to a claim, exactly once and as it was enqueued.
  ghost predicate IsHandedOut(batch: seq<Record>, id: Id, dest: string, at: int, due: int, json: Bytes) {
    exists i :: 0 <= i < |batch| && IsGiven(batch[i], id, dest, at, due, StatusInflight, json)
                && forall j :: 0 <= j < |batch| && batch[j].id == id ==> j == i
  }

  // From any disk: an event that Enqueue took is handed out, once and as it was given, by every claim
  // for its destination (or for any) that sees its header, has room for all that is due and moves
  // it, once its time has come; and by no claim before that or for another destination.
  lemma EnqueueThenClaim(d: Disk, opts: Options, codec: Codec, size: int, id: Id, dest: string, json: Bytes, at: int,
                         due: int, order: seq<Id>, cut: nat, io: Io, d': Disk,
                         dest': string, limit: int, now: int, order': seq<Id>, batch: seq<Record>, io': Io)
    requires codec.Lossless() && Coherent(d) && cut <= |order|
    requires (d', None) ==
             EnqueueDisk(d, opts, codec, size, NewRecord(codec, id, dest, json, at, due), order, cut, io)
    requires IsClaimOrder(d', codec, dest', limit, now, io', order')
    requires AreClaims(batch, d', codec, ClaimDisk(d', order', io').1)
    ensures (dest' != "" && dest' != dest) || now < due ==> forall r :: r in batch ==> r.id != id
    ensures (dest' == "" || dest' == dest) && due <= now && Moves(io', id)
            && File(Pending, id) in d' && codec.headerLen(d'[File(Pending, id)]) < 4096
            && io'(ReadHeader(File(Pending, id)))
            && (limit <= 0 || |DueIds(d', codec, dest', now, io')| <= limit) ==>
              IsHandedOut(batch, id, dest, at, due, json)
  {
    EnqueueStores(d, opts, codec, size, id, dest, json, at, due, order, cut, io);
    forall r | r in batch && r.id == id ensures (dest' == "" || dest' == dest) && due <= now {
      var i :| 0 <= i < |batch| && batch[i] == r;
      ClaimHandsOut(d', codec, dest', limit, now, order', batch, io', i);
    }
    if (dest' == "" || dest' == dest) && due <= now && Moves(io', id)
       && codec.headerLen(d'[File(Pending, id)]) < 4096 && io'(ReadHeader(File(Pending, id)))
       && (limit <= 0 || |DueIds(d', codec, dest', now, io')| <= limit)
    {
      FreshIsHandedOut(d', codec, dest, json, id, at, due, dest', limit, now, order', batch, io');
    }
  }

  lemma FreshIsHandedOut(d: Disk, codec: Codec, dest: string, json: Bytes, id: Id, at: int, due: int, dest': string,
                         limit: int, now: int, order: seq<Id>, batch: seq<Record>, io: Io)
    requires codec.Lossless() && Coherent(d) && IsClaimOrder(d, codec, dest', limit, now, io, order)
    requires AreClaims(batch, d, codec, ClaimDisk(d, order, io).1)
    requires File(Pending, id) in d
             && IsGiven(d[File(Pending, id)], id, dest, at, due, StatusPending, codec.gzip(json))
    requires (dest' == "" || dest' == dest) && due <= now && Moves(io, id)
             && codec.headerLen(d[File(Pending, id)]) < 4096 && io(ReadHeader(File(Pending, id)))
             && (limit <= 0 || |DueIds(d, codec, dest', now, io)| <= limit)
    ensures IsHandedOut(batch, id, dest, at, due, json)
  {
    AllDueTaken(d, codec, dest', limit, now, order, io, id);
    TransferAllMoves(d, Pending, Inflight, Relabelled(Inflight), order, io, id);
    var moved := ClaimDisk(d, order, io).1;
    var i :| 0 <= i < |moved| && moved[i] == id;
    ClaimHandsOut(d, codec, dest', limit, now, order, batch, io, i);
    assert IsGiven(batch[i], id, dest, at, due, StatusInflight, json);
  }

  // ----- what counts toward the limit -----

  lemma {:induction false} SumSame(s: set<Path>, v: Path -> nat, w: Path -> nat)
    requires forall p :: p in s ==> v(p) == w(p)
    ensures Sum(s, v) == Sum(s, w)
  {
    SumMonotone(s, v, s, w);
    SumMonotone(s, w, s, v);
  }

  // Every file of the pending, inflight and dead lanes counts with its whole size, an overflowed one
  // not at all.
  lemma FileCounts(d: Disk, codec: Codec, io: Io, p: Path, r: Record)
    requires AllClear(io) && p !in d
    ensures TotalBytes(map[], codec, io) == 0
    ensures TotalBytes(d[p := r], codec, io) ==
            TotalBytes(d, codec, io) + if p.lane == Overflow then 0 else codec.headerLen(r) + 1 + |r.payload|
  {
    var d' := d[p := r];
    var files := Measured(d, io);
    SumSame(files, SizeAt(d', codec), SizeAt(d, codec));
    if p.lane == Overflow {
      assert Measured(d', io) == files;
    } else {
      assert Measured(d', io) == files + {p};
      SumSplit(Measured(d', io), SizeAt(d', codec), p);
      assert files + {p} - {p} == files;
    }
    assert Measured(map[], io) == {};
  }

  // A queue that refuses new events when full: with no failing call, an event too large is turned
  // away, so is one beyond the limit, and the rest is stored; and the directory outgrows the limit by
  // no more than the last header.
  lemma RefusingQueueStaysWithin(d: Disk, opts: Options, codec: Codec, id: Id, dest: string, json: Bytes, at: int,
                                 due: int, io: Io)
    requires AllClear(io) && opts.maxBytes > 0 && opts.dropPolicy in {"newest", "block"} && File(Pending, id) !in d
    ensures var gz, size := codec.gzip(json), TotalBytes(d, codec, io);
            var (d', err) := EnqueueDisk(d, opts, codec, size, NewRecord(codec, id, dest, json, at, due), [], 0, io);
            && (err == Some(PayloadTooLarge) <==> |gz| > opts.maxRowBytes)
            && (err == Some(Full) <==> |gz| <= opts.maxRowBytes && size + |gz| > opts.maxBytes)
            && (err != None ==> d' == d)
            && (err == None ==>
                  && d'.Keys == d.Keys + {File(Pending, id)} && (forall p :: p in d ==> d'[p] == d[p])
                  && TotalBytes(d', codec, io) <= opts.maxBytes + codec.headerLen(d'[File(Pending, id)]) + 1)
  {
    var r := NewRecord(codec, id, dest, json, at, due);
    FileCounts(d, codec, io, File(Pending, id), r);
    assert EvictDisk(d, [][..0], io).0 == d;
  }

  // Left unset, the drop policy never refuses an event, and the row limit is two mebibytes of zipped
  // event.
  lemma UnsetOptions(d: Disk, opts: Options, codec: Codec, size: int, r: Record, order: seq<Id>, cut: nat, io: Io)
    requires cut <= |order|
    ensures opts.dropPolicy == "" ==> EnqueueDisk(d, Normalised(opts), codec, size, r, order, cut, io).1 != Some(Full)
    ensures opts.maxRowBytes == 0 ==>
              (EnqueueDisk(d, Normalised(opts), codec, size, r, order, cut, io).1 == Some(PayloadTooLarge)
               <==> |r.payload| > 2_097_152)
    ensures opts.maxRowBytes != 0 && opts.dropPolicy != "" ==> Normalised(opts) == opts
  {
  }

  // ----- pruning -----

  // With no failing call Prune removes exactly the dead and overflowed records that a listing sees
  // and that are older than the cutoff.
  lemma PrunesExactly(d: Disk, codec: Codec, cutoff: int, io: Io, p: Path)
    requires AllClear(io)
    ensures p in PruneDisk(d, codec, cutoff, io)
       <==> p in d && !(p.lane in {Dead, Overflow} && codec.headerLen(d[p]) < 4096 && d[p].enqueuedAt < cutoff)
    ensures p in PruneDisk(d, codec, cutoff, io) ==> PruneDisk(d, codec, cutoff, io)[p] == d[p]
  {
    assert File(p.lane, p.id) == p;
  }

  // ----- calls that fail -----

  lemma {:induction false} NothingTransferred(d: Disk, src: Lane, dst: Lane, relabel: Record -> Record, ids: seq<Id>,
                                              io: Io)
    requires forall op :: !io(op)
    ensures TransferAll(d, src, dst, relabel, ids, io) == (d, [])
  {
    if ids != [] {
      NothingTransferred(d, src, dst, relabel, ids[..|ids| - 1], io);
    }
  }

  // An operation none of whose calls succeeds changes nothing.
  lemma FailedCallsChangeNothing(d: Disk, opts: Options, codec: Codec, size: int, r: Record, order: seq<Id>, cut: nat,
                                 id: Id, next: int, err: string, cutoff: int, io: Io)
    requires cut <= |order| && forall op :: !io(op)
    ensures EnqueueDisk(d, opts, codec, size, r, order, cut, io).0 == d
            && EnqueueDisk(d, opts, codec, size, r, order, cut, io).1 != None
    ensures ClaimDisk(d, order, io) == (d, []) && RecoverDisk(d, order, io) == (d, [])
    ensures AckDisk(d, id, io) == d && RetryDisk(d, id, next, err, io) == d && MarkDeadDisk(d, id, err, io) == d
    ensures PruneDisk(d, codec, cutoff, io) == d
  {
    NothingTransferred(d, Pending, Overflow, Relabelled(Overflow), order[..cut], io);
    NothingTransferred(d, Pending, Inflight, Relabelled(Inflight), order, io);
    NothingTransferred(d, Inflight, Pending, Relabelled(Pending), order, io);
  }
}
