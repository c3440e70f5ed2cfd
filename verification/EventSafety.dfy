/**
 Whole runs of one queue and its dispatcher. A run interleaves queue operations from any
 caller with the dispatcher's claim, send and settle steps; every operation may have any of its
 file-system calls fail, and a restart may follow any step, which together reach every state a
 crash can leave behind.
 */
module EventSafety {
  import opened Basics
  import opened QueueFiles
  import opened DurableQueue
  import opened Dispatch

  // Where the dispatcher stands between two queue operations. Lost in a crash.
  datatype Phase =
    | Idle
    | Sending(batch: seq<Record>)
    | Settling(batch: seq<Record>, res: SendResult, settled: nat)

  // `journal` is what callers were told is enqueued, `delivered` what destinations accepted,
  // `aged` the ids of which Prune removed the last file.
  datatype World = World(disk: Disk, phase: Phase, journal: map<Id, Bytes>, delivered: map<Id, Bytes>, aged: set<Id>)

  datatype Step =
    | Enqueue(id: Id, dest: string, json: Bytes, at: int, due: int, order: seq<Id>, cut: nat, io: Io)
    | Claim(dest: string, limit: int, now: int, order: seq<Id>, batch: seq<Record>, io: Io)
    | Send(res: SendResult)
    | Settle(next: int, io: Io)
    | Prune(cutoff: int, io: Io)
    | Recover(found: seq<Id>, io: Io)
    | Restart(found: seq<Id>, io: Io)

  ghost predicate Init(w: World) {
    w == World(map[], Idle, map[], map[], {})
  }

  ghost predicate Enabled(w: World, s: Step, opts: Options, codec: Codec) {
    match s
    case Enqueue(id, dest, json, at, due, order, cut, io) =>
      // Ids are never reused.
      id !in w.journal && id !in Ids(w.disk) && EvictionPlan(w.disk, opts, codec, codec.gzip(json), order, cut, io)
    case Claim(dest, limit, now, order, batch, io) =>
      && w.phase.Idle? && io(ReadDir(Pending))
      && IsClaimOrder(w.disk, codec, dest, limit, now, io, order)
      && AreClaims(batch, w.disk, codec, ClaimDisk(w.disk, order, io).1)
    case Send(res) => w.phase.Sending?
    case Settle(next, io) => w.phase.Settling? && w.phase.settled < |w.phase.batch|
    case Prune(cutoff, io) => true
    case Recover(found, io) => IsListing(w.disk, codec, Inflight, "", io, found)
    case Restart(found, io) => IsListing(w.disk, codec, Inflight, "", io, found)
  }

  ghost function After(w: World, s: Step, opts: Options, codec: Codec, maxRetries: int): World
    requires Enabled(w, s, opts, codec)
  {
    match s
    case Enqueue(id, dest, json, at, due, order, cut, io) =>
      var (d, err) := EnqueueDisk(w.disk, opts, codec, TotalBytes(w.disk, codec, io),
                                  NewRecord(codec, id, dest, json, at, due), order, cut, io);
      w.(disk := d, journal := if err.None? then w.journal[id := json] else w.journal)
    case Claim(dest, limit, now, order, batch, io) =>
      w.(disk := ClaimDisk(w.disk, order, io).0, phase := if batch == [] then Idle else Sending(batch))
    case Send(res) =>
      w.(phase := Settling(w.phase.batch, res, 0),
      delivered := if res.ok then w.delivered + Bodies(w.phase.batch) else w.delivered)
    case Settle(next, io) =>
      var ph := w.phase;
      w.(disk := SettleDisk(w.disk, ph.batch[ph.settled], ph.res, maxRetries, next, io),
      phase := if ph.settled + 1 == |ph.batch| then Idle else ph.(settled := ph.settled + 1))
    case Prune(cutoff, io) =>
      var d := PruneDisk(w.disk, codec, cutoff, io);
      w.(disk := d, aged := w.aged + (Ids(w.disk) - Ids(d)))
    case Recover(found, io) =>
      w.(disk := RecoverDisk(w.disk, found, io).0)
    case Restart(found, io) =>
      w.(disk := RecoverDisk(w.disk, found, io).0, phase := Idle)
  }

  // The events of a batch as the destination sees them.
  ghost function Bodies(batch: seq<Record>): map<Id, Bytes> {
    if batch == [] then map[]
    else Bodies(batch[..|batch| - 1])[batch[|batch| - 1].id := batch[|batch| - 1].payload]
  }

  ghost predicate IsRun(ws: seq<World>, steps: seq<Step>, opts: Options, codec: Codec, maxRetries: int) {
    IsChain(ws, steps, opts, codec, maxRetries) && Init(ws[0])
  }

  // Worlds one step apart.
  ghost predicate IsChain(ws: seq<World>, steps: seq<Step>, opts: Options, codec: Codec, maxRetries: int) {
    && |ws| == |steps| + 1
    && forall i :: 0 <= i < |steps| ==>
                     Enabled(ws[i], steps[i], opts, codec)
                     && ws[i + 1] == After(ws[i], steps[i], opts, codec, maxRetries)
  }

  // ----- the invariant -----

  ghost function Stored(journal: map<Id, Bytes>, codec: Codec): map<Id, Bytes> {
    map id | id in journal :: codec.gzip(journal[id])
  }

  ghost predicate Accounted(w: World) {
    forall id :: id in w.journal ==> id in w.delivered || id in w.aged || id in Ids(w.disk)
  }

  ghost predicate Intact(bodies: map<Id, Bytes>, journal: map<Id, Bytes>) {
    forall id :: id in bodies ==> id in journal && bodies[id] == journal[id]
  }

  ghost predicate BatchIntact(batch: seq<Record>, journal: map<Id, Bytes>) {
    forall r :: r in batch ==> r.id in journal && r.payload == journal[r.id]
  }

  ghost predicate PhaseOk(w: World) {
    match w.phase
    case Idle => true
    case Sending(batch) => BatchIntact(batch, w.journal)
    case Settling(batch, res, settled) =>
      BatchIntact(batch, w.journal) && (res.ok ==> forall r :: r in batch ==> r.id in w.delivered)
  }

  ghost predicate Inv(w: World, codec: Codec) {
    && Coherent(w.disk)
    && Faithful(w.disk, Stored(w.journal, codec))
    && Accounted(w)
    && Intact(w.delivered, w.journal)
    && PhaseOk(w)
  }

  lemma {:induction false} BodiesOf(batch: seq<Record>, journal: map<Id, Bytes>)
    requires BatchIntact(batch, journal)
    ensures Intact(Bodies(batch), journal) && forall r :: r in batch ==> r.id in Bodies(batch)
  {
    if batch != [] {
      var front := batch[..|batch| - 1];
      assert batch == front + [batch[|batch| - 1]];
      BodiesOf(front, journal);
    }
  }

  lemma FreshRecordFaithful(d: Disk, journal: map<Id, Bytes>, r: Record, json: Bytes, codec: Codec)
    requires Faithful(d, Stored(journal, codec)) && r.id !in journal && r.payload == codec.gzip(json)
    ensures Faithful(d[File(Pending, r.id) := r], Stored(journal[r.id := json], codec))
  {
  }

  lemma FreshRecordAccounted(w: World, r: Record, json: Bytes)
    requires Accounted(w)
    ensures Accounted(w.(disk := w.disk[File(Pending, r.id) := r], journal := w.journal[r.id := json]))
  {
    var d' := w.disk[File(Pending, r.id) := r];
    assert File(Pending, r.id) in d';
    forall id | id in Ids(w.disk) ensures id in Ids(d') {
      var p :| p in w.disk && p.id == id;
      assert p in d';
    }
  }

  lemma FreshRecordKeepsInv(w: World, r: Record, json: Bytes, codec: Codec)
    requires Inv(w, codec) && r.id !in w.journal
    requires r.status == StatusPending && r.payload == codec.gzip(json)
    ensures Inv(w.(disk := w.disk[File(Pending, r.id) := r], journal := w.journal[r.id := json]), codec)
  {
    FreshRecordFaithful(w.disk, w.journal, r, json, codec);
    FreshRecordAccounted(w, r, json);
  }

  lemma EnqueueKeepsInv(w: World, s: Step, opts: Options, codec: Codec, maxRetries: int)
    requires Inv(w, codec) && s.Enqueue? && Enabled(w, s, opts, codec)
    ensures Inv(After(w, s, opts, codec, maxRetries), codec)
  {
    var w' := After(w, s, opts, codec, maxRetries);
    var d1 := EvictDisk(w.disk, s.order[..s.cut], s.io).0;
    TransferAllConserves(w.disk, Pending, Overflow, Relabelled(Overflow), s.order[..s.cut], s.io,
                         Stored(w.journal, codec));
    if w'.journal != w.journal {
      FreshRecordKeepsInv(w.(disk := d1), NewRecord(codec, s.id, s.dest, s.json, s.at, s.due), s.json, codec);
    }
  }

  lemma ClaimKeepsInv(w: World, s: Step, opts: Options, codec: Codec, maxRetries: int)
    requires codec.Lossless() && Inv(w, codec) && s.Claim? && Enabled(w, s, opts, codec)
    ensures Inv(After(w, s, opts, codec, maxRetries), codec)
  {
    TransferAllConserves(w.disk, Pending, Inflight, Relabelled(Inflight), s.order, s.io, Stored(w.journal, codec));
    var moved := ClaimDisk(w.disk, s.order, s.io).1;
    forall r | r in s.batch ensures r.id in w.journal && r.payload == w.journal[r.id] {
      var i :| 0 <= i < |s.batch| && s.batch[i] == r;
      var p := File(Pending, moved[i]);
      assert p in w.disk && w.disk[p].payload == codec.gzip(w.journal[p.id]);
    }
  }

  lemma SettleKeepsInv(w: World, s: Step, opts: Options, codec: Codec, maxRetries: int)
    requires Inv(w, codec) && s.Settle? && Enabled(w, s, opts, codec)
    ensures Inv(After(w, s, opts, codec, maxRetries), codec)
  {
    var w' := After(w, s, opts, codec, maxRetries);
    var r := w.phase.batch[w.phase.settled];
    assert r in w.phase.batch;
    if w.phase.res.ok {
      forall id | id in w'.journal ensures id in w'.delivered || id in w'.aged || id in Ids(w'.disk) {
        if id in Ids(w.disk) && id != r.id {
          var p :| p in w.disk && p.id == id;
          assert p in w'.disk;
        }
      }
    } else {
      TransferConserves(w.disk, Inflight, Dead, Buried(w.phase.res.err), r.id, s.io, Stored(w.journal, codec));
      TransferConserves(w.disk, Inflight, Pending, Rescheduled(s.next, w.phase.res.err), r.id, s.io,
                        Stored(w.journal, codec));
    }
  }

  lemma PruneKeepsInv(w: World, s: Step, opts: Options, codec: Codec, maxRetries: int)
    requires Inv(w, codec) && s.Prune? && Enabled(w, s, opts, codec)
    ensures Inv(After(w, s, opts, codec, maxRetries), codec)
  {
    PruneShrinks(w.disk, codec, s.cutoff, s.io);
  }

  // Pruning only removes, and only from the dead and overflow lanes, records older than the cutoff.
  lemma PruneShrinks(d: Disk, codec: Codec, cutoff: int, io: Io)
    ensures var d' := PruneDisk(d, codec, cutoff, io);
            && (forall p :: p in d' ==> p in d && d'[p] == d[p])
            && (forall p :: p in d && p !in d' ==> p.lane in {Dead, Overflow} && d[p].enqueuedAt < cutoff)
  {
  }

  lemma RecoverKeepsInv(w: World, s: Step, opts: Options, codec: Codec, maxRetries: int)
    requires Inv(w, codec) && (s.Recover? || s.Restart?) && Enabled(w, s, opts, codec)
    ensures Inv(After(w, s, opts, codec, maxRetries), codec)
  {
    TransferAllConserves(w.disk, Inflight, Pending, Relabelled(Pending), s.found, s.io, Stored(w.journal, codec));
  }

  lemma StepKeepsInv(w: World, s: Step, opts: Options, codec: Codec, maxRetries: int)
    requires codec.Lossless() && Inv(w, codec) && Enabled(w, s, opts, codec)
    ensures Inv(After(w, s, opts, codec, maxRetries), codec)
    ensures w.journal.Keys <= After(w, s, opts, codec, maxRetries).journal.Keys
    ensures forall id :: id in w.journal ==> After(w, s, opts, codec, maxRetries).journal[id] == w.journal[id]
  {
    match s
    case Enqueue(_, _, _, _, _, _, _, _) => EnqueueKeepsInv(w, s, opts, codec, maxRetries);
    case Claim(_, _, _, _, _, _) => ClaimKeepsInv(w, s, opts, codec, maxRetries);
    case Send(res) => BodiesOf(w.phase.batch, w.journal);
    case Settle(_, _) => SettleKeepsInv(w, s, opts, codec, maxRetries);
    case Prune(_, _) => PruneKeepsInv(w, s, opts, codec, maxRetries);
    case Recover(_, _) => RecoverKeepsInv(w, s, opts, codec, maxRetries);
    case Restart(_, _) => RecoverKeepsInv(w, s, opts, codec, maxRetries);
  }

  // ----- whole runs -----

  lemma {:induction false} RunKeepsInv(ws: seq<World>, steps: seq<Step>, opts: Options, codec: Codec,
                                       maxRetries: int, j: nat, k: nat)
    requires codec.Lossless() && IsRun(ws, steps, opts, codec, maxRetries) && j <= k < |ws|
    ensures Inv(ws[j], codec) && Inv(ws[k], codec)
    ensures forall id :: id in ws[j].journal ==> id in ws[k].journal && ws[k].journal[id] == ws[j].journal[id]
    decreases k
  {
    if k > 0 {
      var i := k - 1;
      RunKeepsInv(ws, steps, opts, codec, maxRetries, if j < k then j else i, i);
      assert Enabled(ws[i], steps[i], opts, codec);
      StepKeepsInv(ws[i], steps[i], opts, codec, maxRetries);
    }
  }

  // No event is lost. Once Enqueue has accepted an event, at every later point of every run a
  // destination has accepted exactly its bytes, or Prune aged it out, or some lane holds it;
  // and every file that carries its id holds its payload.
  lemma NoEventLost(ws: seq<World>, steps: seq<Step>, opts: Options, codec: Codec, maxRetries: int, j: nat, k: nat,
                    id: Id)
    requires codec.Lossless() && IsRun(ws, steps, opts, codec, maxRetries) && j <= k < |ws|
    requires id in ws[j].journal
    ensures || (id in ws[k].delivered && ws[k].delivered[id] == ws[j].journal[id])
            || id in ws[k].aged
            || exists lane :: File(lane, id) in ws[k].disk
    ensures forall lane :: File(lane, id) in ws[k].disk ==>
                             && codec.gunzip(ws[k].disk[File(lane, id)].payload) == Some(ws[j].journal[id])
                             && ws[k].disk[File(lane, id)].status == StatusOf(lane)
  {
    RunKeepsInv(ws, steps, opts, codec, maxRetries, j, k);
    if id in Ids(ws[k].disk) {
      var p :| p in ws[k].disk && p.id == id;
      assert File(p.lane, id) in ws[k].disk;
    }
    forall lane | File(lane, id) in ws[k].disk
      ensures codec.gunzip(ws[k].disk[File(lane, id)].payload) == Some(ws[j].journal[id])
    {
      assert ws[k].disk[File(lane, id)].payload == Stored(ws[k].journal, codec)[id];
    }
  }

  // ----- duplicates -----

  // No file-system call of the step fails, so no crash falls inside it.
  ghost predicate Clean(s: Step) {
    match s
    case Enqueue(_, _, _, _, _, _, _, io) => AllClear(io)
    case Claim(_, _, _, _, _, io) => AllClear(io)
    case Send(_) => true
    case Settle(_, io) => AllClear(io)
    case Prune(_, io) => AllClear(io)
    case Recover(_, io) => AllClear(io)
    case Restart(_, io) => AllClear(io)
  }

  lemma {:induction false} TransferAllSingle(d: Disk, src: Lane, dst: Lane, relabel: Record -> Record, ids: seq<Id>,
                                             io: Io)
    requires src != dst && Relabels(relabel, dst) && AllClear(io) && Coherent(d) && SingleCopy(d)
    ensures SingleCopy(TransferAll(d, src, dst, relabel, ids, io).0)
  {
    if ids != [] {
      var n := |ids| - 1;
      TransferAllSingle(d, src, dst, relabel, ids[..n], io);
      TransferAllConserves(d, src, dst, relabel, ids[..n], io, map[]);
      TransferSingle(TransferAll(d, src, dst, relabel, ids[..n], io).0, src, dst, relabel, ids[n], io);
    }
  }

  lemma TransferSingle(d: Disk, src: Lane, dst: Lane, relabel: Record -> Record, id: Id, io: Io)
    requires src != dst && Relabels(relabel, dst) && AllClear(io) && Coherent(d) && SingleCopy(d)
    ensures SingleCopy(Transfer(d, src, dst, relabel, id, io).0)
  {
    if File(src, id) in d {
      assert relabel(d[File(src, id)]).id == id;
    }
  }

  lemma SubsetSingle(d: Disk, d': Disk)
    requires SingleCopy(d) && forall p :: p in d' ==> p in d
    ensures SingleCopy(d')
  {
  }

  lemma CleanStepSingle(w: World, s: Step, opts: Options, codec: Codec, maxRetries: int)
    requires Coherent(w.disk) && SingleCopy(w.disk) && Enabled(w, s, opts, codec) && Clean(s)
    ensures SingleCopy(After(w, s, opts, codec, maxRetries).disk)
  {
    match s
    case Enqueue(_, _, _, _, _, order, cut, io) =>
      TransferAllSingle(w.disk, Pending, Overflow, Relabelled(Overflow), order[..cut], io);
      TransferAllConserves(w.disk, Pending, Overflow, Relabelled(Overflow), order[..cut], io, map[]);
      assert s.id !in Ids(EvictDisk(w.disk, order[..cut], io).0);
    case Claim(_, _, _, order, _, io) =>
      TransferAllSingle(w.disk, Pending, Inflight, Relabelled(Inflight), order, io);
    case Send(_) =>
    case Settle(next, io) =>
      var r, res := w.phase.batch[w.phase.settled], w.phase.res;
      TransferSingle(w.disk, Inflight, Dead, Buried(res.err), r.id, io);
      TransferSingle(w.disk, Inflight, Pending, Rescheduled(next, res.err), r.id, io);
    case Prune(cutoff, io) =>
      PruneShrinks(w.disk, codec, cutoff, io);
      SubsetSingle(w.disk, PruneDisk(w.disk, codec, cutoff, io));
    case Recover(found, io) =>
      TransferAllSingle(w.disk, Inflight, Pending, Relabelled(Pending), found, io);
    case Restart(found, io) =>
      TransferAllSingle(w.disk, Inflight, Pending, Relabelled(Pending), found, io);
  }

  // As long as no file-system call fails or is cut off by a crash, restarts included, an event
  // is in exactly one lane. (CrashInMarkDead shows how a crash between the two file operations
  // of a move leaves it in two.)
  lemma {:induction false} CleanRunsKeepOneCopy(ws: seq<World>, steps: seq<Step>, opts: Options, codec: Codec,
                                                maxRetries: int, k: nat)
    requires codec.Lossless() && IsRun(ws, steps, opts, codec, maxRetries) && k < |ws|
    requires forall i :: 0 <= i < k ==> Clean(steps[i])
    ensures SingleCopy(ws[k].disk)
  {
    if k > 0 {
      CleanRunsKeepOneCopy(ws, steps, opts, codec, maxRetries, k - 1);
      RunKeepsInv(ws, steps, opts, codec, maxRetries, k - 1, k - 1);
      assert Enabled(ws[k - 1], steps[k - 1], opts, codec);
      CleanStepSingle(ws[k - 1], steps[k - 1], opts, codec, maxRetries);
    }
  }
}
