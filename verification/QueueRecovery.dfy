/** What recovery and eviction guarantee, from every crash point. */
module QueueRecovery {
  import opened Basics
  import opened SetSums
  import opened QueueFiles
  import opened DurableQueue

  ghost predicate NoInflight(d: Disk) {
    forall id :: File(Inflight, id) !in d
  }

  ghost predicate InflightVisible(d: Disk, codec: Codec) {
    forall id :: File(Inflight, id) in d ==> codec.Visible(d[File(Inflight, id)])
  }

  // A recovery during which nothing fails.
  ghost predicate Recovers(d: Disk, codec: Codec, d': Disk) {
    exists found :: IsListing(d, codec, Inflight, "", ALL_OK, found) && d' == RecoverDisk(d, found, ALL_OK).0
  }

  // File by file: each listed inflight record is in pending, everything else is untouched.
  lemma RecoveryEffect(d: Disk, codec: Codec, found: seq<Id>)
    requires Coherent(d) && IsListing(d, codec, Inflight, "", ALL_OK, found)
    ensures var d' := RecoverDisk(d, found, ALL_OK).0;
            && Coherent(d') && Ids(d') == Ids(d)
            && (forall id :: id in found ==> File(Inflight, id) !in d' && File(Pending, id) in d'
                                             && d'[File(Pending, id)] == Relabelled(Pending)(d[File(Inflight, id)]))
            && (forall id :: id !in found ==> Same(d, d', File(Pending, id)) && Same(d, d', File(Inflight, id)))
            && (forall id :: Same(d, d', File(Dead, id)) && Same(d, d', File(Overflow, id)))
  {
    TransferAllOk(d, Inflight, Pending, Relabelled(Pending), found, ALL_OK);
    TransferAllEffect(d, Inflight, Pending, Relabelled(Pending), found, ALL_OK);
    TransferAllConserves(d, Inflight, Pending, Relabelled(Pending), found, ALL_OK, map[]);
  }

  // Opening the queue empties the inflight lane exactly when every inflight header fits the
  // window a listing reads.
  lemma OpenEmptiesInflight(d: Disk, codec: Codec, d': Disk)
    requires Coherent(d) && Recovers(d, codec, d')
    ensures NoInflight(d') <==> InflightVisible(d, codec)
  {
    var found :| IsListing(d, codec, Inflight, "", ALL_OK, found) && d' == RecoverDisk(d, found, ALL_OK).0;
    RecoveryEffect(d, codec, found);
    if NoInflight(d') {
      forall id | File(Inflight, id) in d ensures id in found {
        assert Same(d, d', File(Inflight, id)) || id in found;
      }
    }
    if InflightVisible(d, codec) {
      forall id ensures File(Inflight, id) !in d' {
        if id !in found {
          assert !Listed(d, codec, Inflight, "", ALL_OK, id);
          assert Same(d, d', File(Inflight, id));
        }
      }
    }
  }

  // Recovering again changes nothing, whatever the headers.
  lemma RecoveryIdempotent(d: Disk, codec: Codec, d': Disk, d'': Disk)
    requires Coherent(d) && Recovers(d, codec, d') && Recovers(d', codec, d'')
    ensures d'' == d'
  {
    var found :| IsListing(d, codec, Inflight, "", ALL_OK, found) && d' == RecoverDisk(d, found, ALL_OK).0;
    RecoveryEffect(d, codec, found);
    var again :| IsListing(d', codec, Inflight, "", ALL_OK, again) && d'' == RecoverDisk(d', again, ALL_OK).0;
    forall id ensures !Listed(d', codec, Inflight, "", ALL_OK, id) {
      if id !in found {
        assert Same(d, d', File(Inflight, id));
        assert !Listed(d, codec, Inflight, "", ALL_OK, id);
      }
    }
    assert again != [] ==> again[0] in again;
  }

  lemma SameEverywhere(d: Disk, d': Disk)
    requires forall p :: Same(d, d', p)
    ensures d' == d
  {
    forall p | p in d ensures p in d' && d'[p] == d[p] { assert Same(d, d', p); }
    forall p | p in d' ensures p in d { assert Same(d, d', p); }
  }

  // The claim had the record's inflight header fit what a listing reads.
  ghost predicate ClaimVisible(d: Disk, codec: Codec, order: seq<Id>, id: Id) {
    id in order && File(Pending, id) in d ==> codec.Visible(Relabelled(Inflight)(d[File(Pending, id)]))
  }

  // A crash anywhere inside ClaimPending, then Open: a record that was not in flight before is
  // exactly what it was before the claim, whatever else is in flight.
  lemma CrashInClaimOf(d: Disk, codec: Codec, order: seq<Id>, io: Io, d': Disk, id: Id)
    requires Coherent(d) && Distinct(order) && Recovers(ClaimDisk(d, order, io).0, codec, d')
    requires File(Inflight, id) !in d && ClaimVisible(d, codec, order, id)
    ensures forall lane :: Same(d, d', File(lane, id))
  {
    UnclaimedAgain(d, codec, order, io, d', id);
    forall lane ensures Same(d, d', File(lane, id)) {
      match lane
      case Pending =>
      case Inflight =>
      case Dead =>
      case Overflow =>
    }
  }

  lemma UnclaimedAgain(d: Disk, codec: Codec, order: seq<Id>, io: Io, d': Disk, id: Id)
    requires Coherent(d) && Distinct(order) && Recovers(ClaimDisk(d, order, io).0, codec, d')
    requires File(Inflight, id) !in d && ClaimVisible(d, codec, order, id)
    ensures Same(d, d', File(Pending, id)) && Same(d, d', File(Inflight, id))
    ensures Same(d, d', File(Dead, id)) && Same(d, d', File(Overflow, id))
  {
    var (d1, moved) := ClaimDisk(d, order, io);
    TransferAllEffect(d, Pending, Inflight, Relabelled(Inflight), order, io);
    TransferAllCopies(d, Pending, Inflight, Relabelled(Inflight), order, io);
    var found :| IsListing(d1, codec, Inflight, "", ALL_OK, found) && d' == RecoverDisk(d1, found, ALL_OK).0;
    RecoveryEffect(d1, codec, found);
    assert Same(d, d1, File(Dead, id)) && Same(d, d1, File(Overflow, id));
    if File(Inflight, id) in d1 {
      assert Listed(d1, codec, Inflight, "", ALL_OK, id);
      assert d1[File(Inflight, id)] == Relabelled(Inflight)(d[File(Pending, id)]);
    } else {
      assert id !in moved && id !in found;
      assert Same(d, d1, File(Pending, id)) && Same(d1, d', File(Pending, id)) && Same(d1, d', File(Inflight, id));
    }
  }

  // The claim lengthens the header by one letter. A record that it moved across, with a header that
  // does not fit any more, stays in flight, whatever is opened.
  lemma ClaimedTooLong(d: Disk, codec: Codec, order: seq<Id>, io: Io, d': Disk, id: Id)
    requires Coherent(d) && Distinct(order) && Recovers(ClaimDisk(d, order, io).0, codec, d')
    requires id in ClaimDisk(d, order, io).1 && !ClaimVisible(d, codec, order, id)
    ensures File(Inflight, id) in d' && File(Pending, id) !in d'
    ensures d'[File(Inflight, id)] == Relabelled(Inflight)(d[File(Pending, id)])
  {
    var (d1, moved) := ClaimDisk(d, order, io);
    TransferAllEffect(d, Pending, Inflight, Relabelled(Inflight), order, io);
    var found :| IsListing(d1, codec, Inflight, "", ALL_OK, found) && d' == RecoverDisk(d1, found, ALL_OK).0;
    RecoveryEffect(d1, codec, found);
    assert !Listed(d1, codec, Inflight, "", ALL_OK, id);
    assert Same(d1, d', File(Pending, id)) && Same(d1, d', File(Inflight, id));
  }

  // A record that was in flight before and is not claimed is recovered as if there had been no
  // claim.
  lemma CrashInClaimBeside(d: Disk, codec: Codec, order: seq<Id>, io: Io, d': Disk, id: Id)
    requires Coherent(d) && Distinct(order) && Recovers(ClaimDisk(d, order, io).0, codec, d')
    requires File(Inflight, id) in d && id !in order
    ensures if codec.Visible(d[File(Inflight, id)]) then
              File(Inflight, id) !in d' && File(Pending, id) in d'
              && d'[File(Pending, id)] == Relabelled(Pending)(d[File(Inflight, id)])
            else Same(d, d', File(Inflight, id)) && Same(d, d', File(Pending, id))
  {
    var (d1, moved) := ClaimDisk(d, order, io);
    TransferAllEffect(d, Pending, Inflight, Relabelled(Inflight), order, io);
    var found :| IsListing(d1, codec, Inflight, "", ALL_OK, found) && d' == RecoverDisk(d1, found, ALL_OK).0;
    RecoveryEffect(d1, codec, found);
    assert id !in moved;
    assert Same(d, d1, File(Pending, id)) && Same(d, d1, File(Inflight, id));
    assert id in found <==> Listed(d1, codec, Inflight, "", ALL_OK, id);
    if id !in found {
      assert Same(d1, d', File(Pending, id)) && Same(d1, d', File(Inflight, id));
    }
  }

  // With nothing in flight before, the disk is what it was before the claim, record for record.
  lemma CrashInClaimUndone(d: Disk, codec: Codec, order: seq<Id>, io: Io, d': Disk)
    requires Coherent(d) && NoInflight(d) && Distinct(order)
    requires forall id :: ClaimVisible(d, codec, order, id)
    requires Recovers(ClaimDisk(d, order, io).0, codec, d')
    ensures d' == d
  {
    forall p ensures Same(d, d', p) {
      CrashInClaimOf(d, codec, order, io, d', p.id);
      assert Same(d, d', File(p.lane, p.id));
    }
    SameEverywhere(d, d');
  }

  // Whatever stands in the destination lane for an id that was not there before is the
  // relabelled copy of the source record.
  lemma {:induction false} TransferAllCopies(d: Disk, src: Lane, dst: Lane, relabel: Record -> Record, ids: seq<Id>,
                                             io: Io)
    requires src != dst && Relabels(relabel, dst) && Coherent(d) && Distinct(ids)
    ensures var d' := TransferAll(d, src, dst, relabel, ids, io).0;
            forall id :: File(dst, id) in d' && File(dst, id) !in d ==>
                           id in ids && File(src, id) in d && d'[File(dst, id)] == relabel(d[File(src, id)])
  {
    if ids != [] {
      var n := |ids| - 1;
      var front, last := ids[..n], ids[n];
      TransferAllCopies(d, src, dst, relabel, front, io);
      TransferAllNext(d, src, dst, relabel, ids, n, io);
      assert ids[..n + 1] == ids;
      var mid := TransferAll(d, src, dst, relabel, front, io).0;
      TransferAllCoherent(d, src, dst, relabel, front, io);
      TransferEffect(mid, src, dst, relabel, last, io);
      forall id | File(dst, id) in TransferAll(d, src, dst, relabel, ids, io).0 && File(dst, id) !in d
        ensures id in ids && File(src, id) in d
                && TransferAll(d, src, dst, relabel, ids, io).0[File(dst, id)] == relabel(d[File(src, id)])
      {
        if id != last {
          assert Same(mid, TransferAll(d, src, dst, relabel, ids, io).0, File(dst, id));
        }
      }
    }
  }

  lemma TransferAllCoherent(d: Disk, src: Lane, dst: Lane, relabel: Record -> Record, ids: seq<Id>, io: Io)
    requires src != dst && Relabels(relabel, dst) && Coherent(d)
    ensures Coherent(TransferAll(d, src, dst, relabel, ids, io).0)
  {
    TransferAllConserves(d, src, dst, relabel, ids, io, map[]);
  }

  // A crash inside Retry, then Open: the record is pending, either as it was before the
  // attempt was booked or as Retry wanted it; the latter exactly when the source was removed.
  lemma CrashInRetry(d: Disk, codec: Codec, id: Id, next: int, lastError: string, io: Io, d': Disk)
    requires Coherent(d) && File(Inflight, id) in d && codec.Visible(d[File(Inflight, id)])
    requires Recovers(RetryDisk(d, id, next, lastError, io), codec, d')
    ensures File(Inflight, id) !in d' && File(Pending, id) in d'
    ensures d'[File(Pending, id)] ==
            if io(Read(File(Inflight, id))) && io(Write(File(Pending, id))) && io(Remove(File(Inflight, id))) then
              Rescheduled(next, lastError)(d[File(Inflight, id)])
            else Relabelled(Pending)(d[File(Inflight, id)])
  {
    var d1 := RetryDisk(d, id, next, lastError, io);
    TransferEffect(d, Inflight, Pending, Rescheduled(next, lastError), id, io);
    TransferCoherent(d, Inflight, Pending, Rescheduled(next, lastError), id, io);
    var found :| IsListing(d1, codec, Inflight, "", ALL_OK, found) && d' == RecoverDisk(d1, found, ALL_OK).0;
    RecoveryEffect(d1, codec, found);
    if File(Inflight, id) in d1 {
      assert Listed(d1, codec, Inflight, "", ALL_OK, id);
    } else {
      assert id !in found;
      assert Same(d1, d', File(Pending, id)) && Same(d1, d', File(Inflight, id));
    }
  }

  // A listing finds a rescheduled record exactly when its header still fits the window. One whose
  // error text is too long is never claimed again, and so never delivered and never buried.
  lemma RetriedIsListedExactlyWhen(d: Disk, codec: Codec, id: Id, next: int, lastError: string, io: Io)
    requires Coherent(d) && File(Inflight, id) in d
    requires io(Read(File(Inflight, id))) && io(Write(File(Pending, id))) && io(Remove(File(Inflight, id)))
    ensures var d' := RetryDisk(d, id, next, lastError, io);
            && File(Pending, id) in d'
            && (Listed(d', codec, Pending, "", ALL_OK, id)
                <==> codec.Visible(Rescheduled(next, lastError)(d[File(Inflight, id)])))
  {
    TransferEffect(d, Inflight, Pending, Rescheduled(next, lastError), id, io);
  }

  // A crash inside MarkDead, then Open: the event is dead, pending, or both; both exactly when
  // the crash fell between the two file operations.
  lemma CrashInMarkDead(d: Disk, codec: Codec, id: Id, lastError: string, io: Io, d': Disk)
    requires Coherent(d) && File(Inflight, id) in d && codec.Visible(d[File(Inflight, id)])
    requires File(Pending, id) !in d && File(Dead, id) !in d
    requires Recovers(MarkDeadDisk(d, id, lastError, io), codec, d')
    ensures var wrote := io(Read(File(Inflight, id))) && io(Write(File(Dead, id)));
            && File(Inflight, id) !in d'
            && (File(Dead, id) in d' <==> wrote)
            && (File(Pending, id) in d' <==> !(wrote && io(Remove(File(Inflight, id)))))
            && (File(Dead, id) in d' ==> d'[File(Dead, id)] == Buried(lastError)(d[File(Inflight, id)]))
            && (File(Pending, id) in d' ==> d'[File(Pending, id)] == Relabelled(Pending)(d[File(Inflight, id)]))
  {
    var d1 := MarkDeadDisk(d, id, lastError, io);
    TransferEffect(d, Inflight, Dead, Buried(lastError), id, io);
    TransferCoherent(d, Inflight, Dead, Buried(lastError), id, io);
    var found :| IsListing(d1, codec, Inflight, "", ALL_OK, found) && d' == RecoverDisk(d1, found, ALL_OK).0;
    RecoveryEffect(d1, codec, found);
    assert Same(d1, d', File(Dead, id));
    assert Same(d, d1, File(Pending, id));
    if File(Inflight, id) in d1 {
      assert Listed(d1, codec, Inflight, "", ALL_OK, id);
    } else {
      assert id !in found;
      assert Same(d1, d', File(Pending, id)) && Same(d1, d', File(Inflight, id));
    }
  }

  // ----- eviction -----

  // The bytes on disk fall by at least the payload bytes the loop counts as freed.
  lemma {:induction false} EvictionFrees(d: Disk, codec: Codec, ids: seq<Id>)
    requires Coherent(d) && Distinct(ids) && forall id :: id in ids ==> File(Pending, id) in d
    ensures var (d', moved) := EvictDisk(d, ids, ALL_OK);
            TotalBytes(d', codec, ALL_OK) + Freed(d, moved) <= TotalBytes(d, codec, ALL_OK)
  {
    if ids != [] {
      EvictionFrees(d, codec, ids[..|ids| - 1]);
      LastEvictionFrees(d, codec, ids);
    }
  }

  // The last of a list of evictions frees at least its payload.
  lemma LastEvictionFrees(d: Disk, codec: Codec, ids: seq<Id>)
    requires Coherent(d) && Distinct(ids) && ids != [] && forall id :: id in ids ==> File(Pending, id) in d
    ensures var (mid, moved) := EvictDisk(d, ids[..|ids| - 1], ALL_OK);
            var (d', moved') := EvictDisk(d, ids, ALL_OK);
            TotalBytes(d', codec, ALL_OK) + Freed(d, moved') <= TotalBytes(mid, codec, ALL_OK) + Freed(d, moved)
  {
    var n := |ids| - 1;
    var front, last := ids[..n], ids[n];
    var p := File(Pending, last);
    TransferAllNext(d, Pending, Overflow, Relabelled(Overflow), ids, n, ALL_OK);
    assert ids[..n + 1] == ids;
    var (mid, moved) := EvictDisk(d, front, ALL_OK);
    TransferAllCoherent(d, Pending, Overflow, Relabelled(Overflow), front, ALL_OK);
    TransferEffect(mid, Pending, Overflow, Relabelled(Overflow), last, ALL_OK);
    FreedSnoc(d, moved, last);
    OneEvictionFrees(mid, EvictDisk(d, ids, ALL_OK).0, codec, p);
  }

  lemma OneEvictionFrees(mid: Disk, d': Disk, codec: Codec, p: Path)
    requires p in mid && p.lane == Pending && p !in d' && forall q :: q in d' && q.lane != Overflow ==> Same(mid, d', q)
    ensures TotalBytes(d', codec, ALL_OK) + codec.FileSize(mid[p]) <= TotalBytes(mid, codec, ALL_OK)
  {
    SumSplit(Measured(mid, ALL_OK), SizeAt(mid, codec), p);
    SumMonotone(Measured(mid, ALL_OK) - {p}, SizeAt(mid, codec), Measured(d', ALL_OK), SizeAt(d', codec));
  }

  // Oldest-first eviction with no failure: exactly the first `cut` records go; there is room
  // afterwards, or no record that can be listed is pending; and one record fewer would not
  // have freed enough payload.
  lemma EvictionMakesRoom(d: Disk, codec: Codec, room: int, order: seq<Id>, cut: nat)
    requires Coherent(d) && IsAgeOrder(d, codec, ALL_OK, order) && room < TotalBytes(d, codec, ALL_OK)
    requires StopsAt(d, TotalBytes(d, codec, ALL_OK), room, order, cut, ALL_OK)
    ensures var (d', gone) := EvictDisk(d, order[..cut], ALL_OK);
            && gone == order[..cut]
            && (TotalBytes(d', codec, ALL_OK) <= room || forall id :: !Listed(d', codec, Pending, "", ALL_OK, id))
    ensures order != [] ==> cut > 0 && TotalBytes(d, codec, ALL_OK) - Freed(d, order[..cut - 1]) > room
  {
    EvictsExactly(d, codec, order, cut);
    if cut == |order| {
      EvictingAllLeavesNone(d, codec, order);
      assert order[..cut] == order;
    }
    if cut > 0 {
      EvictsExactly(d, codec, order, cut - 1);
    } else {
      assert order[..0] == [];
    }
  }

  // What Enqueue evicts from a queue that drops its oldest, with no failing call: nothing while the
  // event fits; otherwise records until it does, or until none that can be listed is left, and not
  // one more than the payload counted calls for.
  lemma EnqueueEvicts(d: Disk, opts: Options, codec: Codec, payload: Bytes, order: seq<Id>, cut: nat)
    requires Coherent(d) && opts.maxBytes > 0 && opts.dropPolicy !in {"newest", "block"}
    requires |payload| <= opts.maxRowBytes && EvictionPlan(d, opts, codec, payload, order, cut, ALL_OK)
    ensures var size, mid := TotalBytes(d, codec, ALL_OK), EvictDisk(d, order[..cut], ALL_OK).0;
            if size + |payload| <= opts.maxBytes then mid == d
            else
              && (TotalBytes(mid, codec, ALL_OK) + |payload| <= opts.maxBytes
                  || forall id :: !Listed(mid, codec, Pending, "", ALL_OK, id))
              && (order != [] ==> cut > 0 && size - Freed(d, order[..cut - 1]) + |payload| > opts.maxBytes)
              && (order == [] ==> forall id :: !Listed(d, codec, Pending, "", ALL_OK, id))
  {
    var size := TotalBytes(d, codec, ALL_OK);
    if size + |payload| > opts.maxBytes {
      EvictionMakesRoomFor(d, codec, opts.maxBytes - |payload|, order, cut);
    } else {
      assert order[..cut] == [];
    }
  }

  lemma EvictionMakesRoomFor(d: Disk, codec: Codec, room: int, order: seq<Id>, cut: nat)
    requires Coherent(d) && IsAgeOrder(d, codec, ALL_OK, order) && room < TotalBytes(d, codec, ALL_OK)
    requires StopsAt(d, TotalBytes(d, codec, ALL_OK), room, order, cut, ALL_OK)
    ensures var mid := EvictDisk(d, order[..cut], ALL_OK).0;
            TotalBytes(mid, codec, ALL_OK) <= room || forall id :: !Listed(mid, codec, Pending, "", ALL_OK, id)
    ensures order != [] ==> cut > 0 && TotalBytes(d, codec, ALL_OK) - Freed(d, order[..cut - 1]) > room
    ensures order == [] ==> forall id :: !Listed(d, codec, Pending, "", ALL_OK, id)
  {
    EvictionMakesRoom(d, codec, room, order, cut);
    forall id | Listed(d, codec, Pending, "", ALL_OK, id) ensures order != [] {
      assert id in order;
    }
  }

  lemma EvictsExactly(d: Disk, codec: Codec, order: seq<Id>, k: nat)
    requires Coherent(d) && IsAgeOrder(d, codec, ALL_OK, order) && k <= |order|
    ensures var (d', gone) := EvictDisk(d, order[..k], ALL_OK);
            gone == order[..k] && TotalBytes(d', codec, ALL_OK) + Freed(d, gone) <= TotalBytes(d, codec, ALL_OK)
  {
    assert forall id :: id in order[..k] ==> id in order;
    TransferAllOk(d, Pending, Overflow, Relabelled(Overflow), order[..k], ALL_OK);
    EvictionFrees(d, codec, order[..k]);
  }

  lemma EvictingAllLeavesNone(d: Disk, codec: Codec, order: seq<Id>)
    requires Coherent(d) && IsAgeOrder(d, codec, ALL_OK, order)
    ensures var d' := EvictDisk(d, order, ALL_OK).0;
            forall id :: !Listed(d', codec, Pending, "", ALL_OK, id)
  {
    var d' := EvictDisk(d, order, ALL_OK).0;
    TransferAllOk(d, Pending, Overflow, Relabelled(Overflow), order, ALL_OK);
    TransferAllEffect(d, Pending, Overflow, Relabelled(Overflow), order, ALL_OK);
    forall id ensures !Listed(d', codec, Pending, "", ALL_OK, id) {
      if id !in order {
        assert Same(d, d', File(Pending, id));
        assert !Listed(d, codec, Pending, "", ALL_OK, id);
      }
    }
  }

  // What an eviction takes lands in overflow with everything but its status unchanged.
  lemma EvictedToOverflow(d: Disk, codec: Codec, order: seq<Id>, cut: nat)
    requires Coherent(d) && IsAgeOrder(d, codec, ALL_OK, order) && cut <= |order|
    ensures var d' := EvictDisk(d, order[..cut], ALL_OK).0;
            && (forall id :: id in order[..cut] ==>
                               && File(Pending, id) in d && File(Pending, id) !in d' && File(Overflow, id) in d'
                               && d'[File(Overflow, id)] == d[File(Pending, id)].(status := StatusEvicted))
            && (forall id :: id !in order[..cut] ==> Same(d, d', File(Pending, id)))
  {
    var ids := order[..cut];
    assert forall id :: id in ids ==> id in order;
    TransferAllOk(d, Pending, Overflow, Relabelled(Overflow), ids, ALL_OK);
    TransferAllEffect(d, Pending, Overflow, Relabelled(Overflow), ids, ALL_OK);
  }

  // The evicted records are the oldest of those that could be listed, and each is in overflow
  // with everything but its status unchanged.
  lemma EvictionTakesOldest(d: Disk, codec: Codec, order: seq<Id>, cut: nat)
    requires Coherent(d) && IsAgeOrder(d, codec, ALL_OK, order) && cut <= |order|
    ensures var d' := EvictDisk(d, order[..cut], ALL_OK).0;
            && (forall id :: id in order[..cut] ==>
                               && File(Pending, id) in d && File(Pending, id) !in d' && File(Overflow, id) in d'
                               && d'[File(Overflow, id)] == d[File(Pending, id)].(status := StatusEvicted))
            && (forall id, kept :: id in order[..cut] && Listed(d', codec, Pending, "", ALL_OK, kept) ==>
                                     && File(Pending, kept) in d
                                     && d[File(Pending, id)].enqueuedAt <= d[File(Pending, kept)].enqueuedAt)
  {
    EvictedToOverflow(d, codec, order, cut);
    var d' := EvictDisk(d, order[..cut], ALL_OK).0;
    forall id, kept | id in order[..cut] && Listed(d', codec, Pending, "", ALL_OK, kept)
      ensures File(Pending, kept) in d && EnqueuedAt(d)(id) <= EnqueuedAt(d)(kept)
    {
      assert kept !in order[..cut];
      assert Same(d, d', File(Pending, kept));
      assert Listed(d, codec, Pending, "", ALL_OK, kept);
      EarlierIsOlder(order, cut, EnqueuedAt(d), id, kept);
    }
  }

  lemma EarlierIsOlder(order: seq<Id>, cut: nat, key: Id -> int, id: Id, kept: Id)
    requires cut <= |order| && SortedBy(order, key) && id in order[..cut] && kept in order && kept !in order[..cut]
    ensures key(id) <= key(kept)
  {
    var i :| 0 <= i < cut && order[i] == id;
    var j :| 0 <= j < |order| && order[j] == kept;
    assert order[j] !in order[..cut];
  }
}
