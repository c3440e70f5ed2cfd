/** Why an event is in the dead lane: a destination refused it for good, or it was sent often enough. */
module DeadLetters {
  import opened Basics
  import opened QueueFiles
  import opened DurableQueue
  import opened Dispatch
  import opened EventSafety
  import opened SendBudget

  // The step hands the event to its destination and is told never to try again.
  ghost predicate Refuses(w: World, s: Step, id: Id) {
    Holds(w, s, id) && !s.res.ok && !s.res.retriable
  }

  ghost predicate Refused(ws: seq<World>, steps: seq<Step>, id: Id, k: nat)
    requires k <= |steps| <= |ws|
  {
    exists i :: 0 <= i < k && Refuses(ws[i], steps[i], id)
  }

  // A file with at most n attempts booked, if it is there.
  ghost predicate AtMost(d: Disk, p: Path, n: nat) {
    p in d ==> 0 <= d[p].attempts <= n
  }

  // A record that is yet to be settled has an attempt booked for each send at most, the current one
  // not counted.
  ghost predicate Counts(w: World, r: Record, n: nat, refused: bool) {
    && 0 <= r.attempts <= n - Unbooked(w.phase)
    && (File(Inflight, r.id) in w.disk ==> w.disk[File(Inflight, r.id)].attempts == r.attempts)
    && (w.phase.Settling? && !w.phase.res.ok && !w.phase.res.retriable ==> refused)
  }

  // The account of one event after n sends, of which some was refused for good or none.
  ghost predicate Deserved(w: World, id: Id, n: nat, refused: bool, maxRetries: int) {
    && AtMost(w.disk, File(Pending, id), n) && AtMost(w.disk, File(Inflight, id), n)
    && (forall r :: r in Unsettled(w.phase) && r.id == id ==> Counts(w, r, n, refused))
    && (File(Dead, id) in w.disk ==> refused || n >= Limit(maxRetries))
  }

  lemma StaysDeserved(w: World, w': World, id: Id, n: nat, refused: bool, maxRetries: int)
    requires Deserved(w, id, n, refused, maxRetries) && w'.phase == w.phase
    requires Stays(w.disk, w'.disk, File(Pending, id)) && Stays(w.disk, w'.disk, File(Inflight, id))
    requires Stays(w.disk, w'.disk, File(Dead, id))
    ensures Deserved(w', id, n, refused, maxRetries)
  {
  }

  // ----- the steps -----

  lemma EvictionSparesDead(d: Disk, ids: seq<Id>, io: Io, id: Id)
    requires Coherent(d) && Distinct(ids)
    ensures Same(d, EvictDisk(d, ids, io).0, File(Dead, id))
  {
    TransferAllEffect(d, Pending, Overflow, Relabelled(Overflow), ids, io);
  }

  lemma EnqueueDeserves(w: World, s: Step, opts: Options, codec: Codec, maxRetries: int, id: Id, n: nat, refused: bool)
    requires Inv(w, codec) && s.Enqueue? && Enabled(w, s, opts, codec) && Deserved(w, id, n, refused, maxRetries)
    ensures Deserved(After(w, s, opts, codec, maxRetries), id, n, refused, maxRetries)
  {
    assert Distinct(s.order[..s.cut]);
    EvictionStays(w.disk, s.order[..s.cut], s.io, id);
    EvictionSparesDead(w.disk, s.order[..s.cut], s.io, id);
    EnqueueLeaves(w, s, opts, codec, maxRetries);
    if s.id == id {
      NotInBatch(w, codec, id);
    } else {
      StaysDeserved(w, After(w, s, opts, codec, maxRetries), id, n, refused, maxRetries);
    }
  }

  lemma ClaimSparesDead(d: Disk, ids: seq<Id>, io: Io, id: Id)
    requires Coherent(d) && Distinct(ids)
    ensures Same(d, ClaimDisk(d, ids, io).0, File(Dead, id))
  {
    TransferAllEffect(d, Pending, Inflight, Relabelled(Inflight), ids, io);
  }

  lemma ClaimDeserves(w: World, s: Step, opts: Options, codec: Codec, maxRetries: int, id: Id, n: nat, refused: bool)
    requires Inv(w, codec) && s.Claim? && Enabled(w, s, opts, codec) && Deserved(w, id, n, refused, maxRetries)
    ensures Deserved(After(w, s, opts, codec, maxRetries), id, n, refused, maxRetries)
  {
    ClaimLeaves(w.disk, codec, s.order, s.batch, s.io, id);
    ClaimSparesDead(w.disk, s.order, s.io, id);
  }

  lemma SendDeserves(w: World, s: Step, opts: Options, codec: Codec, maxRetries: int, id: Id, n: nat, refused: bool)
    requires s.Send? && Enabled(w, s, opts, codec) && Deserved(w, id, n, refused, maxRetries)
    ensures Deserved(After(w, s, opts, codec, maxRetries), id, n + (if Holds(w, s, id) then 1 else 0),
                     refused || Refuses(w, s, id), maxRetries)
  {
    assert w.phase.batch[0..] == w.phase.batch;
  }

  // What settling one record puts into the dead lane.
  lemma SettleBuries(d: Disk, r: Record, res: SendResult, maxRetries: int, next: int, io: Io, id: Id)
    requires Coherent(d)
    ensures var d' := SettleDisk(d, r, res, maxRetries, next, io);
            Stays(d, d', File(Dead, id))
            || (id == r.id && !res.ok && (!res.retriable || r.attempts + 1 >= maxRetries) && File(Dead, id) in d')
  {
    if !res.ok && (!res.retriable || r.attempts + 1 >= maxRetries) {
      TransferEffect(d, Inflight, Dead, Buried(res.err), r.id, io);
    } else if !res.ok {
      TransferEffect(d, Inflight, Pending, Rescheduled(next, res.err), r.id, io);
    }
  }

  // The files of an event once a record has been settled.
  lemma FilesDeserved(w: World, d': Disk, r: Record, id: Id, n: nat, refused: bool, maxRetries: int)
    requires Deserved(w, id, n, refused, maxRetries) && w.phase.Settling? && r in Unsettled(w.phase)
    requires Stays(w.disk, d', File(Inflight, id))
    requires Stays(w.disk, d', File(Pending, id))
             || (r.id == id && File(Inflight, id) in w.disk && r.attempts + 1 < maxRetries
                 && d'[File(Pending, id)].attempts == w.disk[File(Inflight, id)].attempts + 1)
    requires Stays(w.disk, d', File(Dead, id))
             || (id == r.id && !w.phase.res.ok && (!w.phase.res.retriable || r.attempts + 1 >= maxRetries))
    ensures AtMost(d', File(Pending, id), n) && AtMost(d', File(Inflight, id), n)
    ensures File(Dead, id) in d' ==> refused || n >= Limit(maxRetries)
  {
    if r.id == id {
      assert Counts(w, r, n, refused);
    }
  }

  lemma OthersCount(w: World, w': World, left: seq<Record>, id: Id, n: nat, refused: bool, maxRetries: int)
    requires Deserved(w, id, n, refused, maxRetries) && w.phase.Settling? && Stays(w.disk, w'.disk, File(Inflight, id))
    requires w'.phase.Idle? || (w'.phase.Settling? && w'.phase.res == w.phase.res)
    requires forall r :: r in left ==> r in Unsettled(w.phase)
    ensures forall r :: r in left && r.id == id ==> Counts(w', r, n, refused)
  {
  }

  lemma SettleDeserves(w: World, s: Step, opts: Options, codec: Codec, maxRetries: int, id: Id, n: nat, refused: bool)
    requires Inv(w, codec) && s.Settle? && Enabled(w, s, opts, codec) && Deserved(w, id, n, refused, maxRetries)
    ensures Deserved(After(w, s, opts, codec, maxRetries), id, n, refused, maxRetries)
  {
    var batch, k, w' := w.phase.batch, w.phase.settled, After(w, s, opts, codec, maxRetries);
    SettleLeaves(w.disk, batch[k], w.phase.res, maxRetries, s.next, s.io, id);
    SettleBuries(w.disk, batch[k], w.phase.res, maxRetries, s.next, s.io, id);
    OneLess(batch, k);
    NextLeft(w.phase);
    FilesDeserved(w, w'.disk, batch[k], id, n, refused, maxRetries);
    OthersCount(w, w', batch[k + 1..], id, n, refused, maxRetries);
  }

  lemma RecoverySparesDead(d: Disk, ids: seq<Id>, io: Io, id: Id)
    requires Coherent(d) && Distinct(ids)
    ensures Same(d, RecoverDisk(d, ids, io).0, File(Dead, id))
  {
    TransferAllEffect(d, Inflight, Pending, Relabelled(Pending), ids, io);
  }

  lemma RecoveryDeserves(w: World, w': World, found: seq<Id>, io: Io, maxRetries: int, id: Id, n: nat, refused: bool)
    requires Coherent(w.disk) && Distinct(found) && Deserved(w, id, n, refused, maxRetries)
    requires w' == w.(disk := RecoverDisk(w.disk, found, io).0, phase := w'.phase)
    requires w'.phase == w.phase || w'.phase == Idle
    ensures Deserved(w', id, n, refused, maxRetries)
  {
    RecoveryLeaves(w.disk, found, io, id);
    RecoverySparesDead(w.disk, found, io, id);
  }

  lemma PruneDeserves(w: World, s: Step, opts: Options, codec: Codec, maxRetries: int, id: Id, n: nat, refused: bool)
    requires Inv(w, codec) && s.Prune? && Enabled(w, s, opts, codec) && Deserved(w, id, n, refused, maxRetries)
    ensures Deserved(After(w, s, opts, codec, maxRetries), id, n, refused, maxRetries)
  {
    PruneShrinks(w.disk, codec, s.cutoff, s.io);
    StaysDeserved(w, After(w, s, opts, codec, maxRetries), id, n, refused, maxRetries);
  }

  // Every step, whichever calls fail, keeps the account.
  lemma StepDeserves(w: World, s: Step, opts: Options, codec: Codec, maxRetries: int, id: Id, n: nat, refused: bool)
    requires Inv(w, codec) && Enabled(w, s, opts, codec) && Deserved(w, id, n, refused, maxRetries)
    ensures Deserved(After(w, s, opts, codec, maxRetries), id, n + (if Holds(w, s, id) then 1 else 0),
                     refused || Refuses(w, s, id), maxRetries)
  {
    match s
    case Enqueue(_, _, _, _, _, _, _, _) => EnqueueDeserves(w, s, opts, codec, maxRetries, id, n, refused);
    case Claim(_, _, _, _, _, _) => ClaimDeserves(w, s, opts, codec, maxRetries, id, n, refused);
    case Send(_) => SendDeserves(w, s, opts, codec, maxRetries, id, n, refused);
    case Settle(_, _) => SettleDeserves(w, s, opts, codec, maxRetries, id, n, refused);
    case Prune(_, _) => PruneDeserves(w, s, opts, codec, maxRetries, id, n, refused);
    case Recover(found, io) =>
      RecoveryDeserves(w, After(w, s, opts, codec, maxRetries), found, io, maxRetries, id, n, refused);
    case Restart(found, io) =>
      RecoveryDeserves(w, After(w, s, opts, codec, maxRetries), found, io, maxRetries, id, n, refused);
  }

  // ----- whole runs -----

  lemma RefusedNext(ws: seq<World>, steps: seq<Step>, id: Id, i: nat)
    requires i < |steps| <= |ws|
    ensures Refused(ws, steps, id, i + 1) <==> Refused(ws, steps, id, i) || Refuses(ws[i], steps[i], id)
  {
  }

  lemma DeservedNext(ws: seq<World>, steps: seq<Step>, opts: Options, codec: Codec, maxRetries: int, id: Id, i: nat)
    requires codec.Lossless() && IsRun(ws, steps, opts, codec, maxRetries) && i < |steps|
    requires Deserved(ws[i], id, Sends(ws, steps, id, i), Refused(ws, steps, id, i), maxRetries)
    ensures Deserved(ws[i + 1], id, Sends(ws, steps, id, i + 1), Refused(ws, steps, id, i + 1), maxRetries)
  {
    StepOfRun(ws, steps, opts, codec, maxRetries, i);
    CountsNext(ws, steps, id, i);
    RefusedNext(ws, steps, id, i);
    StepDeserves(ws[i], steps[i], opts, codec, maxRetries, id, Sends(ws, steps, id, i), Refused(ws, steps, id, i));
  }

  lemma {:induction false} RunDeserves(ws: seq<World>, steps: seq<Step>, opts: Options, codec: Codec, maxRetries: int,
                                       id: Id, k: nat)
    requires codec.Lossless() && IsRun(ws, steps, opts, codec, maxRetries) && k <= |steps|
    ensures Deserved(ws[k], id, Sends(ws, steps, id, k), Refused(ws, steps, id, k), maxRetries)
    decreases k
  {
    if k > 0 {
      RunDeserves(ws, steps, opts, codec, maxRetries, id, k - 1);
      DeservedNext(ws, steps, opts, codec, maxRetries, id, k - 1);
    }
  }

  // In every run, whichever file-system calls fail and wherever it restarts, an event is in the dead
  // lane only if a destination refused it for good, or it has been sent at least max(1, maxRetries)
  // times.
  lemma DeadOnlyWhen(ws: seq<World>, steps: seq<Step>, opts: Options, codec: Codec, maxRetries: int, id: Id, k: nat)
    requires codec.Lossless() && IsRun(ws, steps, opts, codec, maxRetries) && k <= |steps|
    requires File(Dead, id) in ws[k].disk
    ensures Refused(ws, steps, id, k) || Sends(ws, steps, id, k) >= Limit(maxRetries)
  {
    RunDeserves(ws, steps, opts, codec, maxRetries, id, k);
  }
}
