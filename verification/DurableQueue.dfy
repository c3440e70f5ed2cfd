/** The queue itself: an object whose methods rewrite the lane directories. */
module DurableQueue {
  import opened Basics
  import opened SetSums
  import opened QueueFiles

  datatype QueueError = DirRequired | PayloadTooLarge | Full | NotFound | IoFailed

  datatype Options = Options(dir: string, maxRowBytes: int, maxBytes: int, dropPolicy: string)

  // Defaults that Open fills in.
  function Normalised(opts: Options): Options {
    opts.(maxRowBytes := if opts.maxRowBytes == 0 then 2 * 1024 * 1024 else opts.maxRowBytes,
    dropPolicy := if opts.dropPolicy == "" then "oldest" else opts.dropPolicy)
  }

  // Insertion of one id into a sorted list.
  method Insert(ids: seq<Id>, key: Id -> int, id: Id) returns (r: seq<Id>)
    requires SortedBy(ids, key)
    ensures SortedBy(r, key) && multiset(r) == multiset(ids) + multiset{id}
    ensures forall x :: x in r <==> x in ids || x == id
  {
    if ids == [] || key(ids[|ids| - 1]) <= key(id) {
      SortedSnoc(ids, key, id);
      r := ids + [id];
    } else {
      var front, last := ids[..|ids| - 1], ids[|ids| - 1];
      SortedFront(ids, key);
      var before := Insert(front, key, id);
      SortedSnoc(before, key, last);
      r := before + [last];
    }
  }

  lemma SortedSnoc(ids: seq<Id>, key: Id -> int, id: Id)
    requires SortedBy(ids, key) && forall x :: x in ids ==> key(x) <= key(id)
    ensures SortedBy(ids + [id], key)
  {
  }

  lemma SortedFront(ids: seq<Id>, key: Id -> int)
    requires ids != [] && SortedBy(ids, key)
    ensures var front, last := ids[..|ids| - 1], ids[|ids| - 1];
            ids == front + [last] && SortedBy(front, key) && forall x :: x in ids ==> key(x) <= key(last)
  {
  }

  // The library sort: sorted, and nothing said about the order of equal keys.
  method Sort(ids: seq<Id>, key: Id -> int) returns (r: seq<Id>)
    ensures SortedBy(r, key) && multiset(r) == multiset(ids)
  {
    r := [];
    for i := 0 to |ids|
      invariant SortedBy(r, key) && multiset(r) == multiset(ids[..i])
    {
      assert ids[..i + 1] == ids[..i] + [ids[i]];
      r := Insert(r, key, ids[i]);
    }
    assert ids[..|ids|] == ids;
  }

  // A rearrangement of distinct ids is distinct and has the same members.
  lemma RearrangedDistinct(a: seq<Id>, b: seq<Id>)
    requires Distinct(a) && multiset(a) == multiset(b)
    ensures Distinct(b) && forall id :: id in a <==> id in b
  {
    forall id ensures id in a <==> id in b {
      assert id in multiset(a) <==> id in multiset(b);
    }
    forall i, j | 0 <= i < j < |b| ensures b[i] != b[j] {
      DistinctOnce(a, b[i]);
      SameTwice(b, i, j);
    }
  }

  lemma SameTwice(b: seq<Id>, i: nat, j: nat)
    requires i < j < |b|
    ensures b[i] == b[j] ==> multiset(b)[b[i]] >= 2
  {
    var front, back := b[..j], b[j..];
    assert b == front + back;
    assert front[i] in multiset(front) && back[0] in multiset(back);
  }

  lemma {:induction false} DistinctOnce(a: seq<Id>, x: Id)
    requires Distinct(a)
    ensures multiset(a)[x] <= 1
  {
    if a != [] {
      var front := a[..|a| - 1];
      assert a == front + [a[|a| - 1]];
      DistinctOnce(front, x);
      assert a[|a| - 1] !in front;
    }
  }

  // Eviction after i records: the disk, the records counted and the payload bytes freed.
  ghost predicate Evicting(before: Disk, cur: Disk, ids: seq<Id>, i: nat, freed: int, evicted0: nat, evicted: nat,
                           io: Io) {
    && i <= |ids|
    && cur == EvictDisk(before, ids[..i], io).0
    && evicted == evicted0 + |EvictDisk(before, ids[..i], io).1|
    && freed == Freed(before, EvictDisk(before, ids[..i], io).1)
  }

  // Nowhere before the i-th record had enough been freed.
  ghost predicate KeepsOn(before: Disk, size: nat, room: int, ids: seq<Id>, i: nat, io: Io) {
    i <= |ids| && forall k: nat :: k < i ==> size - Freed(before, EvictDisk(before, ids[..k], io).1) > room
  }

  class Queue {
    const opts: Options
    const codec: Codec
    var files: Disk
    var evicted: nat
    var writeErrors: nat
    var recovered: nat

    ghost predicate Valid()
      reads this
    {
      Coherent(files)
    }

    // Attach to whatever the directory holds.
    constructor Attach(opts: Options, codec: Codec, onDisk: Disk)
      ensures this.opts == opts && this.codec == codec && files == onDisk
      ensures evicted == writeErrors == recovered == 0
    {
      this.opts, this.codec, files := opts, codec, onDisk;
      evicted, writeErrors, recovered := 0, 0, 0;
    }

    static method Open(opts: Options, codec: Codec, onDisk: Disk, io: Io)
      returns (r: Result<Queue, QueueError>, ghost found: seq<Id>)
      requires Coherent(onDisk)
      ensures r.Ok? <==> opts.dir != "" && (forall l :: io(MakeDir(l))) && io(ReadDir(Inflight))
      ensures r.Ok? ==>
                && fresh(r.value) && r.value.Valid()
                && r.value.opts == Normalised(opts) && r.value.codec == codec
                && IsListing(onDisk, codec, Inflight, "", io, found)
                && r.value.files == RecoverDisk(onDisk, found, io).0
                && r.value.recovered == |RecoverDisk(onDisk, found, io).1|
    {
      found := [];
      if opts.dir == "" {
        return Err(DirRequired), found;
      }
      var lanes := [Pending, Inflight, Dead, Overflow];
      for i := 0 to |lanes|
        invariant forall j :: 0 <= j < i ==> io(MakeDir(lanes[j]))
      {
        if !io(MakeDir(lanes[i])) {
          return Err(IoFailed), found;
        }
      }
      forall l: Lane ensures io(MakeDir(l)) {
        assert l == lanes[0] || l == lanes[1] || l == lanes[2] || l == lanes[3];
      }
      var q := new Queue.Attach(Normalised(opts), codec, onDisk);
      var count;
      count, found := q.RecoverInflight(io);
      if count.Err? {
        return Err(count.error), found;
      }
      q.recovered := count.value;
      return Ok(q), found;
    }

    // The ids of one lane whose headers can be read, optionally for one destination.
    method ListDir(lane: Lane, dest: string, io: Io) returns (r: Result<seq<Id>, QueueError>)
      requires Valid()
      ensures r.Ok? <==> io(ReadDir(lane))
      ensures r.Ok? ==> IsListing(files, codec, lane, dest, io, r.value)
    {
      if !io(ReadDir(lane)) {
        return Err(IoFailed);
      }
      var out := [];
      var names := set p | p in files && p.lane == lane :: p.id;
      ghost var all := names;
      while names != {}
        invariant names <= all
        invariant forall id :: id in all <==> File(lane, id) in files
        invariant Distinct(out)
        invariant forall id :: id in out <==> id in all - names && Listed(files, codec, lane, dest, io, id)
        decreases |names|
      {
        var id :| id in names;
        names := names - {id};
        if Listed(files, codec, lane, dest, io, id) {
          out := out + [id];
        }
      }
      return Ok(out);
    }

    // Write the destination, then remove the source.
    method MoveRecord(src: Lane, dst: Lane, r: Record, io: Io) returns (ok: bool)
      modifies this`files
      ensures (files, ok) == Move(old(files), src, dst, r, io)
    {
      if !io(Write(File(dst, r.id))) {
        return false;
      }
      files := files[File(dst, r.id) := r];
      if File(src, r.id) !in files || !io(Remove(File(src, r.id))) {
        return false;
      }
      files := files - {File(src, r.id)};
      return true;
    }

    // The body shared by every transition: read, relabel, move.
    method MoveOne(src: Lane, dst: Lane, relabel: Record -> Record, id: Id, io: Io) returns (r: Option<Record>)
      requires Valid() && src != dst && Relabels(relabel, dst)
      modifies this`files
      ensures Valid()
      ensures (files, r.Some?) == Transfer(old(files), src, dst, relabel, id, io)
      ensures r.Some? ==> File(src, id) in old(files) && r.value == relabel(old(files)[File(src, id)])
    {
      TransferCoherent(files, src, dst, relabel, id, io);
      if File(src, id) !in files || !io(Read(File(src, id))) {
        return None;
      }
      var rec := relabel(files[File(src, id)]);
      var ok := MoveRecord(src, dst, rec, io);
      return if ok then Some(rec) else None;
    }

    method RecoverInflight(io: Io) returns (r: Result<nat, QueueError>, ghost found: seq<Id>)
      requires Valid()
      modifies this`files
      ensures Valid()
      ensures r.Ok? <==> io(ReadDir(Inflight))
      ensures r.Err? ==> files == old(files)
      ensures r.Ok? ==>
                && IsListing(old(files), codec, Inflight, "", io, found)
                && files == RecoverDisk(old(files), found, io).0
                && r.value == |RecoverDisk(old(files), found, io).1|
    {
      var entries := ListDir(Inflight, "", io);
      if entries.Err? {
        return Err(entries.error), [];
      }
      var ids := entries.value;
      var count := 0;
      for i := 0 to |ids|
        invariant Valid()
        invariant files == RecoverDisk(old(files), ids[..i], io).0
        invariant count == |RecoverDisk(old(files), ids[..i], io).1|
      {
        TransferAllNext(old(files), Inflight, Pending, Relabelled(Pending), ids, i, io);
        var moved := MoveOne(Inflight, Pending, Relabelled(Pending), ids[i], io);
        if moved.Some? {
          count := count + 1;
        }
      }
      assert ids[..|ids|] == ids;
      return Ok(count), ids;
    }

    // The due records of a destination, earliest first, cut to the limit.
    method SelectDue(dest: string, limit: int, now: int, io: Io) returns (r: Result<seq<Id>, QueueError>)
      requires Valid()
      ensures r.Ok? <==> io(ReadDir(Pending))
      ensures r.Ok? ==> IsClaimOrder(files, codec, dest, limit, now, io, r.value)
    {
      var entries := ListDir(Pending, dest, io);
      if entries.Err? {
        return entries;
      }
      var ids := entries.value;
      var eligible := [];
      for i := 0 to |ids|
        invariant Distinct(eligible)
        invariant forall id :: id in eligible <==> id in ids[..i] && Due(files, codec, dest, now, io, id)
      {
        assert ids[i] !in ids[..i] && ids[i] in ids;
        assert ids[..i + 1] == ids[..i] + [ids[i]];
        if files[File(Pending, ids[i])].nextAttempt <= now {
          eligible := eligible + [ids[i]];
        }
      }
      assert ids[..|ids|] == ids;
      var sorted := Sort(eligible, NextAttemptAt(files));
      RearrangedDistinct(eligible, sorted);
      if limit > 0 && |sorted| > limit {
        assert forall id :: id in sorted ==> id in sorted[..limit] || id in sorted[limit..];
        return Ok(sorted[..limit]);
      }
      return Ok(sorted);
    }

    method ClaimPending(dest: string, limit: int, now: int, io: Io)
      returns (r: Result<seq<Record>, QueueError>, ghost order: seq<Id>)
      requires Valid()
      modifies this`files
      ensures Valid()
      ensures r.Ok? <==> io(ReadDir(Pending))
      ensures r.Err? ==> files == old(files)
      ensures r.Ok? ==>
                && IsClaimOrder(old(files), codec, dest, limit, now, io, order)
                && files == ClaimDisk(old(files), order, io).0
                && AreClaims(r.value, old(files), codec, ClaimDisk(old(files), order, io).1)
    {
      var selected := SelectDue(dest, limit, now, io);
      if selected.Err? {
        return Err(selected.error), [];
      }
      order := selected.value;
      var out := ClaimAll(selected.value, io);
      r := Ok(out);
    }

    method ClaimAll(ids: seq<Id>, io: Io) returns (out: seq<Record>)
      requires Valid() && Distinct(ids)
      modifies this`files
      ensures Valid()
      ensures files == ClaimDisk(old(files), ids, io).0
      ensures AreClaims(out, old(files), codec, ClaimDisk(old(files), ids, io).1)
    {
      out := [];
      ghost var moved: seq<Id> := [];
      for i := 0 to |ids|
        invariant Valid()
        invariant (files, moved) == ClaimDisk(old(files), ids[..i], io)
        invariant AreClaims(out, old(files), codec, moved)
      {
        TransferAllNext(old(files), Pending, Inflight, Relabelled(Inflight), ids, i, io);
        var one := MoveOne(Pending, Inflight, Relabelled(Inflight), ids[i], io);
        if one.Some? {
          out := out + [codec.Unzipped(one.value)];
          moved := moved + [ids[i]];
        }
      }
      assert ids[..|ids|] == ids;
    }

    method Ack(id: Id, io: Io) returns (ok: bool)
      requires Valid()
      modifies this`files
      ensures Valid() && files == AckDisk(old(files), id, io)
      ensures ok <==> File(Inflight, id) in old(files) && io(Remove(File(Inflight, id)))
    {
      if File(Inflight, id) !in files || !io(Remove(File(Inflight, id))) {
        return false;
      }
      files := files - {File(Inflight, id)};
      return true;
    }

    method Retry(id: Id, next: int, lastError: string, io: Io) returns (ok: bool)
      requires Valid()
      modifies this`files
      ensures Valid() && files == RetryDisk(old(files), id, next, lastError, io)
      ensures ok == Transfer(old(files), Inflight, Pending, Rescheduled(next, lastError), id, io).1
    {
      var r := MoveOne(Inflight, Pending, Rescheduled(next, lastError), id, io);
      return r.Some?;
    }

    method MarkDead(id: Id, lastError: string, io: Io) returns (ok: bool)
      requires Valid()
      modifies this`files
      ensures Valid() && files == MarkDeadDisk(old(files), id, lastError, io)
      ensures ok == Transfer(old(files), Inflight, Dead, Buried(lastError), id, io).1
    {
      var r := MoveOne(Inflight, Dead, Buried(lastError), id, io);
      return r.Some?;
    }

    method Prune(maxAge: int, now: int, io: Io) returns (ok: bool)
      requires Valid()
      modifies this`files
      ensures Valid() && files == PruneDisk(old(files), codec, now - maxAge, io)
      ensures ok <==> io(ReadDir(Dead)) && io(ReadDir(Overflow))
    {
      ok := PruneOne(Dead, now - maxAge, io);
      if ok {
        ok := PruneOne(Overflow, now - maxAge, io);
      }
    }

    method PruneOne(lane: Lane, cutoff: int, io: Io) returns (ok: bool)
      requires Valid()
      modifies this`files
      ensures Valid() && ok == io(ReadDir(lane))
      ensures files == if ok then PruneLane(old(files), codec, lane, cutoff, io) else old(files)
    {
      var entries := ListDir(lane, "", io);
      if entries.Err? {
        return false;
      }
      var ids := entries.value;
      for i := 0 to |ids|
        invariant Valid()
        invariant forall p :: p in files <==>
                              && p in old(files)
                              && !(p.lane == lane && p.id in ids[..i]
                                   && Expired(old(files), codec, lane, cutoff, io, p.id) && io(Remove(p)))
        invariant forall p :: p in files ==> files[p] == old(files)[p]
      {
        assert ids[i] !in ids[..i] && ids[i] in ids;
        assert ids[..i + 1] == ids[..i] + [ids[i]];
        if files[File(lane, ids[i])].enqueuedAt < cutoff {
          files := Removed(files, File(lane, ids[i]), io);
        }
      }
      assert ids[..|ids|] == ids;
      return true;
    }

    // The bytes on disk in the three bounded lanes.
    method Measure(io: Io) returns (total: nat)
      ensures total == TotalBytes(files, codec, io)
    {
      if !io(ReadSizes(Pending)) || !io(ReadSizes(Inflight)) || !io(ReadSizes(Dead)) {
        return 0;
      }
      total := 0;
      var todo := Measured(files, io);
      while todo != {}
        invariant todo <= Measured(files, io)
        invariant total + Sum(todo, SizeAt(files, codec)) == TotalBytes(files, codec, io)
        decreases |todo|
      {
        var p :| p in todo;
        SumSplit(todo, SizeAt(files, codec), p);
        total := total + codec.FileSize(files[p]);
        todo := todo - {p};
      }
    }

    // Move the oldest pending records to overflow until the payload bytes freed make room.
    method EvictOldest(size: nat, room: int, io: Io) returns (ghost order: seq<Id>, ghost cut: nat)
      requires Valid()
      modifies this`files, this`evicted
      ensures Valid()
      ensures if io(ReadDir(Pending)) then
                IsAgeOrder(old(files), codec, io, order) && StopsAt(old(files), size, room, order, cut, io)
              else order == [] && cut == 0
      ensures files == EvictDisk(old(files), order[..cut], io).0
      ensures evicted == old(evicted) + |EvictDisk(old(files), order[..cut], io).1|
    {
      order, cut := [], 0;
      var entries := ListDir(Pending, "", io);
      if entries.Err? {
        return;
      }
      var ids := Sort(entries.value, EnqueuedAt(files));
      RearrangedDistinct(entries.value, ids);
      var freed := 0;
      var i := 0;
      while i < |ids| && size - freed > room
        invariant Valid()
        invariant Evicting(old(files), files, ids, i, freed, old(evicted), evicted, io)
        invariant KeepsOn(old(files), size, room, ids, i, io)
      {
        freed := EvictNth(old(files), ids, i, freed, old(evicted), io);
        i := i + 1;
      }
      order, cut := ids, i;
    }

    // One step of the loop.
    method EvictNth(ghost before: Disk, ids: seq<Id>, i: nat, freed: int, ghost evicted0: nat, io: Io)
      returns (freed': int)
      requires Valid() && Coherent(before) && Distinct(ids) && i < |ids|
      requires Evicting(before, files, ids, i, freed, evicted0, evicted, io)
      modifies this`files, this`evicted
      ensures Valid() && Evicting(before, files, ids, i + 1, freed', evicted0, evicted, io)
    {
      TransferAllNext(before, Pending, Overflow, Relabelled(Overflow), ids, i, io);
      var one := MoveOne(Pending, Overflow, Relabelled(Overflow), ids[i], io);
      freed' := freed;
      if one.Some? {
        evicted := evicted + 1;
        freed' := freed + |one.value.payload|;
        FreedSnoc(before, EvictDisk(before, ids[..i], io).1, ids[i]);
      }
    }

    // Make room for `incoming` payload bytes, or refuse, as the drop policy says.
    method EvictIfFull(incoming: nat, io: Io) returns (ok: bool, ghost order: seq<Id>, ghost cut: nat)
      requires Valid()
      modifies this`files, this`evicted
      ensures Valid()
      ensures var size := TotalBytes(old(files), codec, io);
              && ok == !(OverLimit(opts, size, incoming) && Refuses(opts))
              && Evictions(old(files), opts, codec, size, incoming, order, cut, io)
      ensures files == EvictDisk(old(files), order[..cut], io).0
      ensures evicted == old(evicted) + |EvictDisk(old(files), order[..cut], io).1|
    {
      order, cut := [], 0;
      if opts.maxBytes <= 0 {
        return true, order, cut;
      }
      var size := Measure(io);
      if size + incoming <= opts.maxBytes {
        return true, order, cut;
      }
      if opts.dropPolicy == "newest" || opts.dropPolicy == "block" {
        return false, order, cut;
      }
      order, cut := EvictOldest(size, opts.maxBytes - incoming, io);
      return true, order, cut;
    }

    method Enqueue(id: Id, dest: string, json: Bytes, enqueuedAt: int, nextAttempt: int, io: Io)
      returns (r: Option<QueueError>, ghost order: seq<Id>, ghost cut: nat)
      requires Valid()
      modifies this`files, this`evicted, this`writeErrors
      ensures Valid()
      ensures EvictionPlan(old(files), opts, codec, codec.gzip(json), order, cut, io)
      ensures (files, r) == EnqueueDisk(old(files), opts, codec, TotalBytes(old(files), codec, io),
                                        NewRecord(codec, id, dest, json, enqueuedAt, nextAttempt), order, cut, io)
      ensures r == None ==>
                && File(Pending, id) in files
                && files[File(Pending, id)] ==
                   Record(id, dest, enqueuedAt, nextAttempt, 0, StatusPending, "", codec.gzip(json))
      ensures writeErrors == old(writeErrors) + if r == Some(IoFailed) then 1 else 0
    {
      order, cut := [], 0;
      var gz := codec.gzip(json);
      if |gz| > opts.maxRowBytes {
        return Some(PayloadTooLarge), order, cut;
      }
      var ok;
      ok, order, cut := EvictIfFull(|gz|, io);
      if !ok {
        return Some(Full), order, cut;
      }
      var rec := Record(id, dest, enqueuedAt, nextAttempt, 0, StatusPending, "", gz);
      if !io(Write(File(Pending, id))) {
        writeErrors := writeErrors + 1;
        return Some(IoFailed), order, cut;
      }
      files := files[File(Pending, id) := rec];
      return None, order, cut;
    }
  }

  function NewRecord(codec: Codec, id: Id, dest: string, json: Bytes, enqueuedAt: int, nextAttempt: int): Record {
    Record(id, dest, enqueuedAt, nextAttempt, 0, StatusPending, "", codec.gzip(json))
  }

  lemma FreedSnoc(d: Disk, ids: seq<Id>, id: Id)
    ensures Freed(d, ids + [id]) == Freed(d, ids) + if File(Pending, id) in d then |d[File(Pending, id)].payload| else 0
  {
    assert (ids + [id])[..|ids|] == ids;
  }

  predicate OverLimit(opts: Options, size: int, incoming: int) {
    opts.maxBytes > 0 && size + incoming > opts.maxBytes
  }

  predicate Refuses(opts: Options) {
    opts.dropPolicy == "newest" || opts.dropPolicy == "block"
  }

  // The evictions that make room for `incoming` bytes: none unless the queue is over its
  // limit and drops its oldest.
  ghost predicate Evictions(d: Disk, opts: Options, codec: Codec, size: nat, incoming: nat, order: seq<Id>, cut: nat,
                            io: Io) {
    if OverLimit(opts, size, incoming) && !Refuses(opts) && io(ReadDir(Pending)) then
      IsAgeOrder(d, codec, io, order) && StopsAt(d, size, opts.maxBytes - incoming, order, cut, io)
    else order == [] && cut == 0
  }

  ghost predicate EvictionPlan(d: Disk, opts: Options, codec: Codec, payload: Bytes, order: seq<Id>, cut: nat, io: Io) {
    if |payload| <= opts.maxRowBytes then
      Evictions(d, opts, codec, TotalBytes(d, codec, io), |payload|, order, cut, io)
    else order == [] && cut == 0
  }

  // Eviction as planned, then the write of the fresh record.
  function EnqueueDisk(d: Disk, opts: Options, codec: Codec, size: int, r: Record, order: seq<Id>, cut: nat,
                       io: Io): (Disk, Option<QueueError>)
    requires cut <= |order|
  {
    if |r.payload| > opts.maxRowBytes then (d, Some(PayloadTooLarge))
    else if OverLimit(opts, size, |r.payload|) && Refuses(opts) then (d, Some(Full))
    else
      var d1 := EvictDisk(d, order[..cut], io).0;
      if !io(Write(File(Pending, r.id))) then (d1, Some(IoFailed))
      else (d1[File(Pending, r.id) := r], None)
  }
}
