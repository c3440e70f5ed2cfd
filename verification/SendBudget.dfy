/** How often an event is sent over a whole run: at most max(1, MaxRetries) times, and once more a recovery. */
module SendBudget {
  import opened Basics
  import opened QueueFiles
  import opened DurableQueue
  import opened Dispatch
  import opened EventSafety

  function Limit(maxRetries: int): nat {
    if maxRetries < 1 then 1 else maxRetries
  }

  ghost predicate Holds(w: World, s: Step, id: Id) {
    s.Send? && w.phase.Sending? && id in IdsOf(w.phase.batch)
  }

  // The sends among the first k steps whose batch holds the event.
  ghost function Sends(ws: seq<World>, steps: seq<Step>, id: Id, k: nat): nat
    requires k <= |steps| <= |ws|
  {
    if k == 0 then 0 else Sends(ws, steps, id, k - 1) + if Holds(ws[k - 1], steps[k - 1], id) then 1 else 0
  }

  ghost predicate Recovering(s: Step) {
    s.Recover? || s.Restart?
  }

  // A recovery that found the event in flight.
  predicate Recovers(s: Step, id: Id) {
    match s
    case Recover(found, _) => id in found
    case Restart(found, _) => id in found
    case _ => false
  }

  function Recoveries(steps: seq<Step>, id: Id, k: nat): nat
    requires k <= |steps|
  {
    if k == 0 then 0 else Recoveries(steps, id, k - 1) + if Recovers(steps[k - 1], id) then 1 else 0
  }

  // The records of the batch that have not been settled yet.
  function Unsettled(ph: Phase): seq<Record> {
    match ph
    case Idle => []
    case Sending(batch) => batch
    case Settling(batch, _, settled) => if settled <= |batch| then batch[settled..] else []
  }

  // How often the records of the current batch have been sent without the attempt being booked.
  function Unbooked(ph: Phase): nat {
    if ph.Settling? then 1 else 0
  }

  // Whether the event is about to be sent.
  ghost function Unsent(ph: Phase, id: Id): nat {
    if ph.Sending? && id in IdsOf(ph.batch) then 1 else 0
  }

  // `attempts` are at least n, and leave room for another one.
  predicate Covers(attempts: int, n: int, maxRetries: int) {
    attempts >= n && (attempts == 0 || attempts < maxRetries)
  }

  // A file with at least n attempts booked, if it is there.
  ghost predicate Books(d: Disk, p: Path, n: int, maxRetries: int) {
    p in d ==> Covers(d[p].attempts, n, maxRetries)
  }

  ghost predicate Tracks(d: Disk, r: Record, n: int, maxRetries: int) {
    Covers(r.attempts, n, maxRetries)
    && (File(Inflight, r.id) in d ==> d[File(Inflight, r.id)].attempts == r.attempts)
  }

  // The accounting for one event after n sends and `lost` recoveries. A pending record has an
  // attempt booked for each send, an unsettled one for each but the current, one left in flight for
  // each but one; and every recovery may have undone one.
  ghost predicate Spent(w: World, id: Id, n: nat, lost: nat, maxRetries: int) {
    && n <= Limit(maxRetries) + lost && (n > 0 ==> id in w.journal)
    && Books(w.disk, File(Pending, id), n + Unsent(w.phase, id) - lost, maxRetries)
    && Books(w.disk, File(Inflight, id), n - 1 - lost, maxRetries)
    && forall r :: r in Unsettled(w.phase) && r.id == id ==>
                     Tracks(w.disk, r, n - Unbooked(w.phase) - lost, maxRetries)
  }

  // A file that is still what it was, unless it is gone.
  ghost predicate Stays(d: Disk, d': Disk, p: Path) {
    p in d' ==> p in d && d'[p] == d[p]
  }

  lemma StaysKeeps(w: World, w': World, id: Id, n: nat, lost: nat, maxRetries: int)
    requires Spent(w, id, n, lost, maxRetries) && w'.phase == w.phase && w.journal.Keys <= w'.journal.Keys
    requires Stays(w.disk, w'.disk, File(Pending, id)) && Stays(w.disk, w'.disk, File(Inflight, id))
    ensures Spent(w', id, n, lost, maxRetries)
  {
  }

  lemma EvictionStays(d: Disk, ids: seq<Id>, io: Io, id: Id)
    requires Coherent(d) && Distinct(ids)
    ensures Stays(d, EvictDisk(d, ids, io).0, File(Pending, id))
            && Stays(d, EvictDisk(d, ids, io).0, File(Inflight, id))
  {
    var (d', moved) := EvictDisk(d, ids, io);
    TransferAllEffect(d, Pending, Overflow, Relabelled(Overflow), ids, io);
    assert id in moved || Same(d, d', File(Pending, id));
    assert Same(d, d', File(Inflight, id));
  }

  // ----- the steps -----

  lemma EnqueueKeeps(w: World, s: Step, opts: Options, codec: Codec, maxRetries: int, id: Id, n: nat, lost: nat)
    requires Inv(w, codec) && s.Enqueue? && Enabled(w, s, opts, codec) && Spent(w, id, n, lost, maxRetries)
    ensures Spent(After(w, s, opts, codec, maxRetries), id, n, lost, maxRetries)
  {
    var w', d1 := After(w, s, opts, codec, maxRetries), EvictDisk(w.disk, s.order[..s.cut], s.io).0;
    assert Distinct(s.order[..s.cut]);
    EvictionStays(w.disk, s.order[..s.cut], s.io, id);
    EnqueueLeaves(w, s, opts, codec, maxRetries);
    if s.id == id {
      NotInBatch(w, codec, id);
    } else {
      StaysKeeps(w, w', id, n, lost, maxRetries);
    }
  }

  lemma EnqueueLeaves(w: World, s: Step, opts: Options, codec: Codec, maxRetries: int)
    requires s.Enqueue? && Enabled(w, s, opts, codec)
    ensures var w', d1 := After(w, s, opts, codec, maxRetries), EvictDisk(w.disk, s.order[..s.cut], s.io).0;
            var made := NewRecord(codec, s.id, s.dest, s.json, s.at, s.due);
            || w' == w || w' == w.(disk := d1)
            || w' == w.(disk := d1[File(Pending, s.id) := made], journal := w.journal[s.id := s.json])
  {
  }

  lemma NotInBatch(w: World, codec: Codec, id: Id)
    requires Inv(w, codec) && id !in w.journal
    ensures Unsent(w.phase, id) == 0 && forall r :: r in Unsettled(w.phase) ==> r.id != id
  {
  }

  // What a claim leaves of an event, and what it hands out of it.
  lemma ClaimLeaves(d: Disk, codec: Codec, order: seq<Id>, batch: seq<Record>, io: Io, id: Id)
    requires Coherent(d) && Distinct(order) && AreClaims(batch, d, codec, ClaimDisk(d, order, io).1)
    ensures var d' := ClaimDisk(d, order, io).0;
            && Stays(d, d', File(Pending, id))
            && CameFrom(d, d', Pending, Inflight, Relabelled(Inflight), order, id)
            && forall r :: r in batch && r.id == id ==>
                             && File(Pending, id) in d && r.attempts == d[File(Pending, id)].attempts
                             && File(Pending, id) !in d' && File(Inflight, id) in d'
                             && d'[File(Inflight, id)].attempts == r.attempts
  {
    var (d', moved) := ClaimDisk(d, order, io);
    TransferAllEffect(d, Pending, Inflight, Relabelled(Inflight), order, io);
    TransferAllOrigin(d, Pending, Inflight, Relabelled(Inflight), order, io, id);
    assert id in moved || Same(d, d', File(Pending, id));
    forall r | r in batch && r.id == id
      ensures id in moved && File(Pending, id) in d && r.attempts == d[File(Pending, id)].attempts
    {
      var i :| 0 <= i < |batch| && batch[i] == r;
      assert moved[i] == id;
    }
  }

  lemma ClaimKeeps(w: World, s: Step, opts: Options, codec: Codec, maxRetries: int, id: Id, n: nat, lost: nat)
    requires Inv(w, codec) && s.Claim? && Enabled(w, s, opts, codec) && Spent(w, id, n, lost, maxRetries)
    ensures Spent(After(w, s, opts, codec, maxRetries), id, n, lost, maxRetries)
  {
    ClaimLeaves(w.disk, codec, s.order, s.batch, s.io, id);
  }

  lemma SendKeeps(w: World, s: Step, opts: Options, codec: Codec, maxRetries: int, id: Id, n: nat, lost: nat)
    requires Inv(w, codec) && s.Send? && Enabled(w, s, opts, codec) && Spent(w, id, n, lost, maxRetries)
    ensures Spent(After(w, s, opts, codec, maxRetries), id, n + if Holds(w, s, id) then 1 else 0, lost, maxRetries)
  {
    var batch := w.phase.batch;
    assert batch[0..] == batch;
    if id in IdsOf(batch) {
      var r :| r in batch && r.id == id;
      assert Tracks(w.disk, r, n - lost, maxRetries);
    }
  }

  // What settling one record leaves of another, and of its own.
  lemma SettleLeaves(d: Disk, r: Record, res: SendResult, maxRetries: int, next: int, io: Io, id: Id)
    requires Coherent(d)
    ensures var d' := SettleDisk(d, r, res, maxRetries, next, io);
            && Stays(d, d', File(Inflight, id))
            && (id != r.id ==> Stays(d, d', File(Pending, id)))
            && (Stays(d, d', File(Pending, r.id))
                || (File(Inflight, r.id) in d && r.attempts + 1 < maxRetries
                    && d'[File(Pending, r.id)].attempts == d[File(Inflight, r.id)].attempts + 1))
  {
    if !res.ok && (!res.retriable || r.attempts + 1 >= maxRetries) {
      TransferEffect(d, Inflight, Dead, Buried(res.err), r.id, io);
    } else if !res.ok {
      TransferEffect(d, Inflight, Pending, Rescheduled(next, res.err), r.id, io);
    }
  }

  function NextPhase(ph: Phase): Phase
    requires ph.Settling?
  {
    if ph.settled + 1 == |ph.batch| then Idle else ph.(settled := ph.settled + 1)
  }

  lemma OneLess(batch: seq<Record>, k: nat)
    requires k < |batch|
    ensures batch[k..] == [batch[k]] + batch[k + 1..]
    ensures forall r :: r in batch[k + 1..] ==> r in batch[k..]
  {
    assert batch[k..] == [batch[k]] + batch[k + 1..];
  }

  // The files of an event once a record has been settled.
  lemma FilesSettled(w: World, d': Disk, r: Record, id: Id, n: nat, lost: nat, maxRetries: int)
    requires Spent(w, id, n, lost, maxRetries) && w.phase.Settling? && r in Unsettled(w.phase)
    requires Stays(w.disk, d', File(Inflight, id))
    requires Stays(w.disk, d', File(Pending, id))
             || (r.id == id && File(Inflight, id) in w.disk && r.attempts + 1 < maxRetries
                 && d'[File(Pending, id)].attempts == w.disk[File(Inflight, id)].attempts + 1)
    ensures Books(d', File(Pending, id), n - lost, maxRetries)
            && Books(d', File(Inflight, id), n - 1 - lost, maxRetries)
  {
    if r.id == id {
      assert Tracks(w.disk, r, n - 1 - lost, maxRetries);
    }
  }

  lemma OthersTracked(w: World, d': Disk, left: seq<Record>, id: Id, n: nat, lost: nat, maxRetries: int)
    requires Spent(w, id, n, lost, maxRetries) && w.phase.Settling? && Stays(w.disk, d', File(Inflight, id))
    requires forall r :: r in left ==> r in Unsettled(w.phase)
    ensures forall r :: r in left && r.id == id ==> Tracks(d', r, n - 1 - lost, maxRetries)
  {
  }

  lemma NextLeft(ph: Phase)
    requires ph.Settling? && ph.settled < |ph.batch|
    ensures Unsettled(NextPhase(ph)) == ph.batch[ph.settled + 1..] && !NextPhase(ph).Sending?
    ensures NextPhase(ph).Idle? ==> ph.batch[ph.settled + 1..] == []
  {
  }

  lemma SettledKeeps(w: World, d': Disk, id: Id, n: nat, lost: nat, maxRetries: int)
    requires w.phase.Settling? && w.phase.settled < |w.phase.batch| && Spent(w, id, n, lost, maxRetries)
    requires Books(d', File(Pending, id), n - lost, maxRetries)
             && Books(d', File(Inflight, id), n - 1 - lost, maxRetries)
    requires forall r :: r in w.phase.batch[w.phase.settled + 1..] && r.id == id ==>
                           Tracks(d', r, n - 1 - lost, maxRetries)
    ensures Spent(w.(disk := d', phase := NextPhase(w.phase)), id, n, lost, maxRetries)
  {
    NextLeft(w.phase);
  }

  lemma SettleKeeps(w: World, s: Step, opts: Options, codec: Codec, maxRetries: int, id: Id, n: nat, lost: nat)
    requires Inv(w, codec) && s.Settle? && Enabled(w, s, opts, codec) && Spent(w, id, n, lost, maxRetries)
    ensures Spent(After(w, s, opts, codec, maxRetries), id, n, lost, maxRetries)
  {
    var batch, k := w.phase.batch, w.phase.settled;
    var d' := SettleDisk(w.disk, batch[k], w.phase.res, maxRetries, s.next, s.io);
    SettleLeaves(w.disk, batch[k], w.phase.res, maxRetries, s.next, s.io, id);
    OneLess(batch, k);
    FilesSettled(w, d', batch[k], id, n, lost, maxRetries);
    OthersTracked(w, d', batch[k + 1..], id, n, lost, maxRetries);
    SettledKeeps(w, d', id, n, lost, maxRetries);
  }

  // What a recovery leaves of an event.
  lemma RecoveryLeaves(d: Disk, found: seq<Id>, io: Io, id: Id)
    requires Coherent(d) && Distinct(found)
    ensures var d' := RecoverDisk(d, found, io).0;
            && Stays(d, d', File(Inflight, id))
            && CameFrom(d, d', Inflight, Pending, Relabelled(Pending), found, id)
  {
    TransferAllEffect(d, Inflight, Pending, Relabelled(Pending), found, io);
    TransferAllOrigin(d, Inflight, Pending, Relabelled(Pending), found, io, id);
    var (d', moved) := RecoverDisk(d, found, io);
    assert id in moved || Same(d, d', File(Inflight, id));
  }

  lemma InFlightBooks(w: World, id: Id, n: nat, lost: nat, maxRetries: int)
    requires Spent(w, id, n, lost, maxRetries)
    ensures Books(w.disk, File(Inflight, id), n + Unsent(w.phase, id) - (lost + 1), maxRetries)
  {
    if w.phase.Sending? && id in IdsOf(w.phase.batch) {
      var r :| r in w.phase.batch && r.id == id;
      assert Tracks(w.disk, r, n - lost, maxRetries);
    }
  }

  lemma RecoveryKeeps(w: World, w': World, found: seq<Id>, io: Io, maxRetries: int, id: Id, n: nat, lost: nat)
    requires Coherent(w.disk) && Distinct(found) && Spent(w, id, n, lost, maxRetries)
    requires w' == w.(disk := RecoverDisk(w.disk, found, io).0, phase := w'.phase)
    requires w'.phase == w.phase || w'.phase == Idle
    ensures Spent(w', id, n, lost + if id in found then 1 else 0, maxRetries)
  {
    RecoveryLeaves(w.disk, found, io, id);
    InFlightBooks(w, id, n, lost, maxRetries);
  }

  lemma PruneKeeps(w: World, s: Step, opts: Options, codec: Codec, maxRetries: int, id: Id, n: nat, lost: nat)
    requires Inv(w, codec) && s.Prune? && Enabled(w, s, opts, codec) && Spent(w, id, n, lost, maxRetries)
    ensures Spent(After(w, s, opts, codec, maxRetries), id, n, lost, maxRetries)
  {
    var w' := After(w, s, opts, codec, maxRetries);
    PruneShrinks(w.disk, codec, s.cutoff, s.io);
    StaysKeeps(w, w', id, n, lost, maxRetries);
  }

  // Every step, whichever calls fail, keeps the accounting.
  lemma StepKeeps(w: World, s: Step, opts: Options, codec: Codec, maxRetries: int, id: Id, n: nat, lost: nat)
    requires Inv(w, codec) && Enabled(w, s, opts, codec) && Spent(w, id, n, lost, maxRetries)
    ensures Spent(After(w, s, opts, codec, maxRetries), id, n + (if Holds(w, s, id) then 1 else 0),
                  lost + (if Recovers(s, id) then 1 else 0), maxRetries)
  {
    match s
    case Enqueue(_, _, _, _, _, _, _, _) => EnqueueKeeps(w, s, opts, codec, maxRetries, id, n, lost);
    case Claim(_, _, _, _, _, _) => ClaimKeeps(w, s, opts, codec, maxRetries, id, n, lost);
    case Send(_) => SendKeeps(w, s, opts, codec, maxRetries, id, n, lost);
    case Settle(_, _) => SettleKeeps(w, s, opts, codec, maxRetries, id, n, lost);
    case Prune(_, _) => PruneKeeps(w, s, opts, codec, maxRetries, id, n, lost);
    case Recover(found, io) =>
      RecoveryKeeps(w, After(w, s, opts, codec, maxRetries), found, io, maxRetries, id, n, lost);
    case Restart(found, io) =>
      RecoveryKeeps(w, After(w, s, opts, codec, maxRetries), found, io, maxRetries, id, n, lost);
  }

  // ----- whole runs -----

  lemma StepOfRun(ws: seq<World>, steps: seq<Step>, opts: Options, codec: Codec, maxRetries: int, i: nat)
    requires codec.Lossless() && IsRun(ws, steps, opts, codec, maxRetries) && i < |steps|
    ensures Inv(ws[i], codec) && Enabled(ws[i], steps[i], opts, codec)
    ensures ws[i + 1] == After(ws[i], steps[i], opts, codec, maxRetries)
  {
    RunKeepsInv(ws, steps, opts, codec, maxRetries, i, i);
  }

  lemma NothingSpent(w: World, id: Id, maxRetries: int)
    requires Init(w)
    ensures Spent(w, id, 0, 0, maxRetries)
  {
  }

  lemma CountsNext(ws: seq<World>, steps: seq<Step>, id: Id, i: nat)
    requires i < |steps| <= |ws|
    ensures Sends(ws, steps, id, i + 1) == Sends(ws, steps, id, i) + if Holds(ws[i], steps[i], id) then 1 else 0
    ensures Recoveries(steps, id, i + 1) == Recoveries(steps, id, i) + if Recovers(steps[i], id) then 1 else 0
  {
  }

  lemma SpendsNext(ws: seq<World>, steps: seq<Step>, opts: Options, codec: Codec, maxRetries: int, id: Id, i: nat)
    requires codec.Lossless() && IsRun(ws, steps, opts, codec, maxRetries) && i < |steps|
    requires Spent(ws[i], id, Sends(ws, steps, id, i), Recoveries(steps, id, i), maxRetries)
    ensures Spent(ws[i + 1], id, Sends(ws, steps, id, i + 1), Recoveries(steps, id, i + 1), maxRetries)
  {
    StepOfRun(ws, steps, opts, codec, maxRetries, i);
    CountsNext(ws, steps, id, i);
    StepKeeps(ws[i], steps[i], opts, codec, maxRetries, id, Sends(ws, steps, id, i), Recoveries(steps, id, i));
  }

  lemma {:induction false} RunSpends(ws: seq<World>, steps: seq<Step>, opts: Options, codec: Codec, maxRetries: int,
                                     id: Id, k: nat)
    requires codec.Lossless() && IsRun(ws, steps, opts, codec, maxRetries) && k <= |steps|
    ensures Spent(ws[k], id, Sends(ws, steps, id, k), Recoveries(steps, id, k), maxRetries)
    decreases k
  {
    if k == 0 {
      NothingSpent(ws[0], id, maxRetries);
    } else {
      RunSpends(ws, steps, opts, codec, maxRetries, id, k - 1);
      SpendsNext(ws, steps, opts, codec, maxRetries, id, k - 1);
    }
  }

  // In every run, whichever file-system calls fail, wherever it restarts, and however many drains,
  // destinations and callers it mixes, an event is sent at most max(1, maxRetries) times, and once
  // more for every recovery that finds it in flight.
  lemma SendsAndRecoveries(ws: seq<World>, steps: seq<Step>, opts: Options, codec: Codec, maxRetries: int, id: Id,
                           k: nat)
    requires codec.Lossless() && IsRun(ws, steps, opts, codec, maxRetries) && k <= |steps|
    ensures Sends(ws, steps, id, k) <= Limit(maxRetries) + Recoveries(steps, id, k)
  {
    RunSpends(ws, steps, opts, codec, maxRetries, id, k);
  }

  lemma {:induction false} NoRecoveries(steps: seq<Step>, id: Id, k: nat)
    requires k <= |steps| && forall i :: 0 <= i < k ==> !Recovering(steps[i])
    ensures Recoveries(steps, id, k) == 0
  {
    if k > 0 {
      NoRecoveries(steps, id, k - 1);
    }
  }

  // ... so at most max(1, maxRetries) times as long as nothing recovers the inflight lane.
  lemma SendsBounded(ws: seq<World>, steps: seq<Step>, opts: Options, codec: Codec, maxRetries: int, id: Id, k: nat)
    requires codec.Lossless() && IsRun(ws, steps, opts, codec, maxRetries) && k <= |steps|
    requires forall i :: 0 <= i < k ==> !Recovering(steps[i])
    ensures Sends(ws, steps, id, k) <= Limit(maxRetries)
  {
    NoRecoveries(steps, id, k);
    SendsAndRecoveries(ws, steps, opts, codec, maxRetries, id, k);
  }
}
