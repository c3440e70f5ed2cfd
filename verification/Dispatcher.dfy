/** The loop that drains one destination: claim a batch, send it, settle every record. */
module Dispatch {
  import opened Basics
  import opened SetSums
  import opened QueueFiles
  import opened DurableQueue
  import opened Backoff

  // `retryAfter` is in nanoseconds.
  datatype SendResult = SendResult(ok: bool, retriable: bool, retryAfter: int, err: string)

  // Everything the loop does not control, by tick: which file-system calls succeed, what the
  // destination answers, the clock in nanoseconds, and the random source.
  datatype Environment = Environment(io: nat -> Io, answer: nat -> SendResult, clock: nat -> int,
                                     draw: nat -> Option<nat>)

  function UnixMilli(nanos: int): int {
    nanos / NANOS_PER_MS
  }

  // What becomes of one record of an answered batch.
  function SettleDisk(d: Disk, r: Record, res: SendResult, maxRetries: int, next: int, io: Io): Disk {
    if res.ok then AckDisk(d, r.id, io)
    else if !res.retriable || r.attempts + 1 >= maxRetries then MarkDeadDisk(d, r.id, res.err, io)
    else RetryDisk(d, r.id, next, res.err, io)
  }

  // When a record is due again: after the later of its backoff and what the destination asked for.
  function RetryAt(cfg: BackoffConfig, r: Record, res: SendResult, env: Environment, tick: nat): int
    requires cfg.jitter ==> cfg.maxMs >= 0
  {
    var delay := Compute(cfg, r.attempts, env.draw(tick));
    UnixMilli(env.clock(tick) + if res.retryAfter > delay then res.retryAfter else delay)
  }

  // Settling a whole batch, one record per tick, takes the disk from d to d': `steps` are the disk
  // before each record and after the last.
  ghost predicate AreSteps(d: Disk, d': Disk, steps: seq<Disk>, batch: seq<Record>, res: SendResult,
                           cfg: BackoffConfig, env: Environment, start: nat)
    requires cfg.jitter ==> cfg.maxMs >= 0
  {
    && |steps| == |batch| + 1 && steps[0] == d && steps[|batch|] == d'
    && forall i :: 0 <= i < |batch| ==> IsStep(steps, batch, res, cfg, env, start, i)
  }

  ghost predicate IsStep(steps: seq<Disk>, batch: seq<Record>, res: SendResult, cfg: BackoffConfig, env: Environment,
                         start: nat, i: nat)
    requires (cfg.jitter ==> cfg.maxMs >= 0) && |steps| > i + 1 && i < |batch|
  {
    steps[i + 1] ==
    SettleDisk(steps[i], batch[i], res, cfg.maxRetries, RetryAt(cfg, batch[i], res, env, start + i),
               env.io(start + i))
  }

  function Buries(r: Record, res: SendResult, maxRetries: int): nat {
    if !res.ok && (!res.retriable || r.attempts + 1 >= maxRetries) then 1 else 0
  }

  function Burials(batch: seq<Record>, res: SendResult, maxRetries: int): nat {
    if batch == [] then 0
    else Burials(batch[..|batch| - 1], res, maxRetries) + Buries(batch[|batch| - 1], res, maxRetries)
  }

  // How often a pending record of this destination may still be sent.
  function Budget(d: Disk, dest: string, maxRetries: int): Id -> nat {
    (id: Id) =>
      if !IsPendingFor(d, dest, id) then 0
      else if maxRetries - d[File(Pending, id)].attempts < 1 then 1
      else maxRetries - d[File(Pending, id)].attempts
  }

  predicate IsPendingFor(d: Disk, dest: string, id: Id) {
    File(Pending, id) in d && (dest == "" || d[File(Pending, id)].destination == dest)
  }

  ghost function PendingFor(d: Disk, dest: string): set<Id> {
    set p | p in d && p.lane == Pending && IsPendingFor(d, dest, p.id) :: p.id
  }

  // The termination measure of the loop.
  ghost function TotalBudget(d: Disk, dest: string, maxRetries: int): nat {
    Sum(PendingFor(d, dest), Budget(d, dest, maxRetries))
  }

  // The batch is in flight: each record has left pending, and its inflight file carries the
  // attempts and destination the dispatcher was handed.
  ghost predicate InFlight(d: Disk, batch: seq<Record>) {
    && (forall i, j :: 0 <= i < j < |batch| ==> batch[i].id != batch[j].id)
    && (forall r :: r in batch ==>
                      && File(Pending, r.id) !in d
                      && File(Inflight, r.id) in d
                      && d[File(Inflight, r.id)].attempts == r.attempts
                      && d[File(Inflight, r.id)].destination == r.destination)
  }

  ghost function IdsOf(batch: seq<Record>): set<Id> {
    set r | r in batch :: r.id
  }

  // What settling a batch may have done.
  ghost predicate Settled(d: Disk, d': Disk, batch: seq<Record>, res: SendResult, maxRetries: int) {
    && (forall p: Path :: p.id !in IdsOf(batch) ==> Same(d, d', p))
    && (forall r :: r in batch && File(Pending, r.id) in d' ==>
                      && !res.ok && res.retriable
                      && d'[File(Pending, r.id)].attempts == r.attempts + 1 < maxRetries
                      && d'[File(Pending, r.id)].destination == r.destination)
    && (forall id :: id in Ids(d) ==> id in Ids(d') || (res.ok && id in IdsOf(batch)))
  }

  // ----- what becomes of a record when no call fails -----

  // `next` is the millisecond in which both waits are over: the one the destination asked for, and
  // the backoff.
  predicate IsDueAfter(next: int, now: int, asked: int, delay: int) {
    && now + asked < (next + 1) * NANOS_PER_MS && now + delay < (next + 1) * NANOS_PER_MS
    && (next * NANOS_PER_MS <= now + asked || next * NANOS_PER_MS <= now + delay)
  }

  // Where the files of a record that lay in lane `from` are after its event has been answered: gone
  // when it was accepted; pending with the attempt booked when it may be sent once more; otherwise
  // dead.
  ghost predicate IsOutcome(d: Disk, d': Disk, from: Lane, r: Record, res: SendResult, maxRetries: int, now: int,
                            delay: int) {
    var was := File(from, r.id);
    if res.ok then forall lane :: File(lane, r.id) !in d'
    else if res.retriable && r.attempts + 1 < maxRetries then
      var p := File(Pending, r.id);
      && was in d && (forall lane :: File(lane, r.id) in d' <==> lane == Pending)
      && d'[p].attempts == r.attempts + 1 && d'[p].lastError == res.err && Carries(d[was], d'[p])
      && IsDueAfter(d'[p].nextAttempt, now, res.retryAfter, delay)
    else
      var p := File(Dead, r.id);
      && was in d && (forall lane :: File(lane, r.id) in d' <==> lane == Dead)
      && d'[p].attempts == r.attempts && d'[p].lastError == res.err && Carries(d[was], d'[p])
  }

  // The outcome of a settlement at a tick.
  ghost predicate GetsItsDue(d: Disk, d': Disk, from: Lane, r: Record, res: SendResult, cfg: BackoffConfig,
                             env: Environment, tick: nat)
    requires cfg.jitter ==> cfg.maxMs >= 0
  {
    IsOutcome(d, d', from, r, res, cfg.maxRetries, env.clock(tick), Compute(cfg, r.attempts, env.draw(tick)))
  }

  // The same event for the same destination.
  predicate Carries(a: Record, b: Record) {
    a.id == b.id && a.destination == b.destination && a.enqueuedAt == b.enqueuedAt && a.payload == b.payload
  }

  // The record is in flight and nowhere else.
  ghost predicate OnlyInFlight(d: Disk, r: Record) {
    && (forall lane :: File(lane, r.id) in d <==> lane == Inflight)
    && d[File(Inflight, r.id)].id == r.id && d[File(Inflight, r.id)].attempts == r.attempts
  }

  lemma LaterWaitIsDue(now: int, asked: int, delay: int)
    ensures IsDueAfter(UnixMilli(now + if asked > delay then asked else delay), now, asked, delay)
  {
  }

  lemma SettledCleanly(d: Disk, r: Record, res: SendResult, cfg: BackoffConfig, env: Environment, tick: nat)
    requires (cfg.jitter ==> cfg.maxMs >= 0) && AllClear(env.io(tick)) && OnlyInFlight(d, r)
    ensures GetsItsDue(d, SettleDisk(d, r, res, cfg.maxRetries, RetryAt(cfg, r, res, env, tick), env.io(tick)),
                       Inflight, r, res, cfg, env, tick)
  {
    var delay := Compute(cfg, r.attempts, env.draw(tick));
    LaterWaitIsDue(env.clock(tick), res.retryAfter, delay);
  }

  lemma AckEffect(d: Disk, r: Record, io: Io)
    requires Coherent(d)
    ensures Coherent(AckDisk(d, r.id, io)) && Ids(d) <= Ids(AckDisk(d, r.id, io)) + {r.id}
    ensures forall p: Path :: p.id != r.id ==> Same(d, AckDisk(d, r.id, io), p)
  {
    var d' := AckDisk(d, r.id, io);
    forall id | id in Ids(d) && id != r.id ensures id in Ids(d') {
      var p :| p in d && p.id == id;
      assert p in d';
    }
  }

  // Settling one record of a batch in flight.
  lemma SettleOneEffect(d: Disk, r: Record, res: SendResult, maxRetries: int, next: int, io: Io)
    requires Coherent(d) && InFlight(d, [r])
    ensures var d' := SettleDisk(d, r, res, maxRetries, next, io);
            Coherent(d') && Settled(d, d', [r], res, maxRetries)
  {
    if res.ok {
      AckEffect(d, r, io);
    } else if !res.retriable || r.attempts + 1 >= maxRetries {
      BuryEffect(d, r, res.err, io);
    } else {
      RetryEffect(d, r, next, res.err, io);
    }
  }

  lemma BuryEffect(d: Disk, r: Record, err: string, io: Io)
    requires Coherent(d) && InFlight(d, [r])
    ensures var d' := MarkDeadDisk(d, r.id, err, io);
            && Coherent(d') && Ids(d) <= Ids(d') && File(Pending, r.id) !in d'
            && forall p: Path :: p.id != r.id ==> Same(d, d', p)
  {
    assert r in [r];
    TransferEffect(d, Inflight, Dead, Buried(err), r.id, io);
    TransferConserves(d, Inflight, Dead, Buried(err), r.id, io, map[]);
    assert Same(d, MarkDeadDisk(d, r.id, err, io), File(Pending, r.id));
  }

  lemma RetryEffect(d: Disk, r: Record, next: int, err: string, io: Io)
    requires Coherent(d) && InFlight(d, [r])
    ensures var d' := RetryDisk(d, r.id, next, err, io);
            && Coherent(d') && Ids(d) <= Ids(d')
            && (forall p: Path :: p.id != r.id ==> Same(d, d', p))
            && (File(Pending, r.id) in d' ==>
                  d'[File(Pending, r.id)].attempts == r.attempts + 1
                  && d'[File(Pending, r.id)].destination == r.destination)
  {
    assert r in [r];
    TransferEffect(d, Inflight, Pending, Rescheduled(next, err), r.id, io);
    TransferConserves(d, Inflight, Pending, Rescheduled(next, err), r.id, io, map[]);
  }

  lemma SettledStep(d: Disk, mid: Disk, d': Disk, done: seq<Record>, r: Record, res: SendResult, maxRetries: int)
    requires Settled(d, mid, done, res, maxRetries) && Settled(mid, d', [r], res, maxRetries)
    requires r.id !in IdsOf(done)
    ensures Settled(d, d', done + [r], res, maxRetries)
  {
    var all := done + [r];
    assert forall x :: x in all <==> x in done || x == r;
    assert IdsOf([r]) == {r.id};
    assert IdsOf(all) == IdsOf(done) + {r.id};
    forall p: Path | p.id !in IdsOf(all) ensures Same(d, d', p) {
      assert Same(d, mid, p) && Same(mid, d', p);
    }
    forall x | x in done && File(Pending, x.id) in d'
      ensures File(Pending, x.id) in mid && d'[File(Pending, x.id)] == mid[File(Pending, x.id)]
    {
      assert x.id in IdsOf(done);
      assert Same(mid, d', File(Pending, x.id));
    }
  }

  // Settling the first `i` records leaves the next one in flight.
  lemma StillInFlight(d: Disk, mid: Disk, batch: seq<Record>, i: nat, res: SendResult, maxRetries: int)
    requires InFlight(d, batch) && i < |batch| && Settled(d, mid, batch[..i], res, maxRetries)
    ensures InFlight(mid, [batch[i]]) && batch[i].id !in IdsOf(batch[..i])
    ensures batch[..i + 1] == batch[..i] + [batch[i]]
  {
    var r := batch[i];
    NotAmongEarlier(batch, i);
    assert r in batch;
    assert Same(d, mid, File(Pending, r.id)) && Same(d, mid, File(Inflight, r.id));
  }

  lemma NotAmongEarlier(batch: seq<Record>, i: nat)
    requires i < |batch| && forall j, k :: 0 <= j < k < |batch| ==> batch[j].id != batch[k].id
    ensures batch[i].id !in IdsOf(batch[..i]) && batch[..i + 1] == batch[..i] + [batch[i]]
  {
  }

  // One more record settled.
  lemma StepsSnoc(d: Disk, mid: Disk, d': Disk, steps: seq<Disk>, batch: seq<Record>, i: nat, res: SendResult,
                  cfg: BackoffConfig, env: Environment, start: nat)
    requires (cfg.jitter ==> cfg.maxMs >= 0) && i < |batch| && AreSteps(d, mid, steps, batch[..i], res, cfg, env, start)
    requires d' ==
             SettleDisk(mid, batch[i], res, cfg.maxRetries, RetryAt(cfg, batch[i], res, env, start + i),
                        env.io(start + i))
    ensures AreSteps(d, d', steps + [d'], batch[..i + 1], res, cfg, env, start)
  {
    var all, done := steps + [d'], batch[..i + 1];
    forall j | 0 <= j < i + 1 ensures IsStep(all, done, res, cfg, env, start, j) {
      if j < i {
        assert IsStep(steps, batch[..i], res, cfg, env, start, j);
      }
    }
  }

  lemma BurialsSnoc(batch: seq<Record>, i: nat, res: SendResult, maxRetries: int)
    requires i < |batch|
    ensures Burials(batch[..i + 1], res, maxRetries) ==
            Burials(batch[..i], res, maxRetries) + Buries(batch[i], res, maxRetries)
  {
    assert batch[..i + 1][..i] == batch[..i];
  }

  // The loop over a batch, at record i.
  ghost predicate BatchSettled(d: Disk, cur: Disk, steps: seq<Disk>, batch: seq<Record>, i: nat, res: SendResult,
                               cfg: BackoffConfig,
                               env: Environment, start: nat, dead: nat, dead': nat)
    requires cfg.jitter ==> cfg.maxMs >= 0
  {
    && i <= |batch| && AreSteps(d, cur, steps, batch[..i], res, cfg, env, start)
    && dead' == dead + Burials(batch[..i], res, cfg.maxRetries)
  }

  lemma BatchSettledNext(d: Disk, mid: Disk, d': Disk, steps: seq<Disk>, batch: seq<Record>, i: nat, res: SendResult,
                         cfg: BackoffConfig,
                         env: Environment, start: nat, dead: nat, dead': nat)
    requires (cfg.jitter ==> cfg.maxMs >= 0) && i < |batch|
             && BatchSettled(d, mid, steps, batch, i, res, cfg, env, start, dead, dead')
    requires d' ==
             SettleDisk(mid, batch[i], res, cfg.maxRetries, RetryAt(cfg, batch[i], res, env, start + i),
                        env.io(start + i))
    ensures BatchSettled(d, d', steps + [d'], batch, i + 1, res, cfg, env, start, dead,
                         dead' + Buries(batch[i], res, cfg.maxRetries))
  {
    StepsSnoc(d, mid, d', steps, batch, i, res, cfg, env, start);
    BurialsSnoc(batch, i, res, cfg.maxRetries);
  }

  lemma BatchSettledAll(d: Disk, cur: Disk, steps: seq<Disk>, batch: seq<Record>, res: SendResult, cfg: BackoffConfig,
                        env: Environment, start: nat, dead: nat, dead': nat)
    requires (cfg.jitter ==> cfg.maxMs >= 0)
             && BatchSettled(d, cur, steps, batch, |batch|, res, cfg, env, start, dead, dead')
    ensures AreSteps(d, cur, steps, batch, res, cfg, env, start) && dead' == dead + Burials(batch, res, cfg.maxRetries)
  {
    assert batch[..|batch|] == batch;
  }

  // One more record of a batch in flight.
  lemma SettleNext(d: Disk, mid: Disk, d': Disk, batch: seq<Record>, i: nat, res: SendResult, maxRetries: int,
                   next: int, io: Io)
    requires i < |batch| && InFlight(d, batch) && Coherent(mid) && Settled(d, mid, batch[..i], res, maxRetries)
    requires d' == SettleDisk(mid, batch[i], res, maxRetries, next, io)
    ensures Coherent(d') && Settled(d, d', batch[..i + 1], res, maxRetries)
  {
    StillInFlight(d, mid, batch, i, res, maxRetries);
    SettleOneEffect(mid, batch[i], res, maxRetries, next, io);
    SettledStep(d, mid, d', batch[..i], batch[i], res, maxRetries);
  }

  // Settling a batch in flight, up to record i.
  lemma {:induction false} SettleAllEffect(d: Disk, d': Disk, steps: seq<Disk>, batch: seq<Record>, i: nat,
                                           res: SendResult, cfg: BackoffConfig, env: Environment, start: nat)
    requires (cfg.jitter ==> cfg.maxMs >= 0) && AreSteps(d, d', steps, batch, res, cfg, env, start) && i <= |batch|
    requires Coherent(d) && InFlight(d, batch)
    ensures Coherent(steps[i]) && Settled(d, steps[i], batch[..i], res, cfg.maxRetries)
    decreases i
  {
    if i > 0 {
      var n := i - 1;
      SettleAllEffect(d, d', steps, batch, n, res, cfg, env, start);
      assert IsStep(steps, batch, res, cfg, env, start, n);
      SettleNext(d, steps[n], steps[i], batch, n, res, cfg.maxRetries,
                 RetryAt(cfg, batch[n], res, env, start + n), env.io(start + n));
    }
  }

  // Settling one record leaves the files of every other event alone.
  lemma SettleIsLocal(d: Disk, r: Record, res: SendResult, maxRetries: int, next: int, io: Io, p: Path)
    requires Coherent(d) && p.id != r.id
    ensures Same(d, SettleDisk(d, r, res, maxRetries, next, io), p)
  {
    if res.ok {
      AckEffect(d, r, io);
    } else if !res.retriable || r.attempts + 1 >= maxRetries {
      TransferEffect(d, Inflight, Dead, Buried(res.err), r.id, io);
    } else {
      TransferEffect(d, Inflight, Pending, Rescheduled(next, res.err), r.id, io);
    }
  }

  lemma StepIsLocal(d: Disk, d': Disk, steps: seq<Disk>, batch: seq<Record>, i: nat, res: SendResult,
                    cfg: BackoffConfig, env: Environment, start: nat, p: Path)
    requires (cfg.jitter ==> cfg.maxMs >= 0) && AreSteps(d, d', steps, batch, res, cfg, env, start)
    requires Coherent(d) && InFlight(d, batch) && i < |batch| && p.id != batch[i].id
    ensures Same(steps[i], steps[i + 1], p)
  {
    SettleAllEffect(d, d', steps, batch, i, res, cfg, env, start);
    assert IsStep(steps, batch, res, cfg, env, start, i);
    SettleIsLocal(steps[i], batch[i], res, cfg.maxRetries, RetryAt(cfg, batch[i], res, env, start + i),
                  env.io(start + i), p);
  }

  lemma {:induction false} StepsLeaveAlone(d: Disk, d': Disk, steps: seq<Disk>, batch: seq<Record>, i: nat, j: nat,
                                           res: SendResult, cfg: BackoffConfig, env: Environment, start: nat, p: Path)
    requires (cfg.jitter ==> cfg.maxMs >= 0) && AreSteps(d, d', steps, batch, res, cfg, env, start)
    requires Coherent(d) && InFlight(d, batch) && i <= j <= |batch| && forall n :: i <= n < j ==> batch[n].id != p.id
    ensures Same(steps[i], steps[j], p)
    decreases j
  {
    if j > i {
      StepsLeaveAlone(d, d', steps, batch, i, j - 1, res, cfg, env, start, p);
      StepIsLocal(d, d', steps, batch, j - 1, res, cfg, env, start, p);
    }
  }

  lemma FilesBetween(d: Disk, d': Disk, steps: seq<Disk>, batch: seq<Record>, i: nat, res: SendResult,
                     cfg: BackoffConfig, env: Environment, start: nat)
    requires (cfg.jitter ==> cfg.maxMs >= 0) && AreSteps(d, d', steps, batch, res, cfg, env, start)
    requires Coherent(d) && InFlight(d, batch) && i < |batch|
    ensures forall lane :: Same(d, steps[i], File(lane, batch[i].id)) && Same(steps[i + 1], d', File(lane, batch[i].id))
  {
    forall lane ensures Same(d, steps[i], File(lane, batch[i].id)) && Same(steps[i + 1], d', File(lane, batch[i].id)) {
      StepsLeaveAlone(d, d', steps, batch, 0, i, res, cfg, env, start, File(lane, batch[i].id));
      StepsLeaveAlone(d, d', steps, batch, i + 1, |batch|, res, cfg, env, start, File(lane, batch[i].id));
    }
  }

  // Only the files of the record matter.
  lemma OutcomeElsewhere(d: Disk, mid: Disk, mid': Disk, d': Disk, r: Record, res: SendResult, maxRetries: int,
                         now: int, delay: int)
    requires IsOutcome(mid, mid', Inflight, r, res, maxRetries, now, delay)
    requires forall lane :: Same(d, mid, File(lane, r.id)) && Same(mid', d', File(lane, r.id))
    ensures IsOutcome(d, d', Inflight, r, res, maxRetries, now, delay)
  {
  }

  // Every record of a batch gets what is due to it if no call of its own settlement fails, whatever
  // fails for the others.
  lemma BatchOutcome(d: Disk, d': Disk, steps: seq<Disk>, batch: seq<Record>, i: nat, res: SendResult,
                     cfg: BackoffConfig, env: Environment, start: nat)
    requires (cfg.jitter ==> cfg.maxMs >= 0) && AreSteps(d, d', steps, batch, res, cfg, env, start)
    requires Coherent(d) && InFlight(d, batch) && i < |batch| && OnlyInFlight(d, batch[i])
             && AllClear(env.io(start + i))
    ensures GetsItsDue(d, d', Inflight, batch[i], res, cfg, env, start + i)
  {
    FilesBetween(d, d', steps, batch, i, res, cfg, env, start);
    assert IsStep(steps, batch, res, cfg, env, start, i);
    SettledCleanly(steps[i], batch[i], res, cfg, env, start + i);
    OutcomeElsewhere(d, steps[i], steps[i + 1], d', batch[i], res, cfg.maxRetries, env.clock(start + i),
                     Compute(cfg, batch[i].attempts, env.draw(start + i)));
  }

  // The records of a batch that are dead afterwards.
  ghost function DeadOf(batch: seq<Record>, d': Disk): set<Id> {
    set r | r in batch && File(Dead, r.id) in d' :: r.id
  }

  lemma DeadOfSnoc(batch: seq<Record>, r: Record, d': Disk)
    requires forall x :: x in batch ==> x.id != r.id
    ensures DeadOf(batch + [r], d') == DeadOf(batch, d') + (if File(Dead, r.id) in d' then {r.id} else {})
    ensures r.id !in DeadOf(batch, d')
  {
    forall id ensures id in DeadOf(batch + [r], d') <==>
                      id in DeadOf(batch, d') || (id == r.id && File(Dead, r.id) in d')
    {
      if id in DeadOf(batch, d') {
        var x :| x in batch && File(Dead, x.id) in d' && x.id == id;
        assert x in batch + [r];
      }
      if id == r.id && File(Dead, r.id) in d' {
        assert r in batch + [r];
      }
    }
  }

  lemma {:induction false} BurialsAreDead(batch: seq<Record>, d': Disk, res: SendResult, maxRetries: int)
    requires forall i, j :: 0 <= i < j < |batch| ==> batch[i].id != batch[j].id
    requires forall r :: r in batch ==> (File(Dead, r.id) in d' <==> Buries(r, res, maxRetries) == 1)
    ensures Burials(batch, res, maxRetries) == |DeadOf(batch, d')|
  {
    if batch != [] {
      var front, last := batch[..|batch| - 1], batch[|batch| - 1];
      assert batch == front + [last] && last in batch;
      BurialsAreDead(front, d', res, maxRetries);
      DeadOfSnoc(front, last, d');
    }
  }

  // The dead counter grows by the records that the round leaves in the dead lane, when no settlement
  // fails.
  lemma DeadAreCounted(d: Disk, d': Disk, steps: seq<Disk>, batch: seq<Record>, res: SendResult, cfg: BackoffConfig,
                       env: Environment, start: nat)
    requires (cfg.jitter ==> cfg.maxMs >= 0) && AreSteps(d, d', steps, batch, res, cfg, env, start)
    requires Coherent(d) && InFlight(d, batch)
    requires forall i :: 0 <= i < |batch| ==> OnlyInFlight(d, batch[i]) && AllClear(env.io(start + i))
    ensures Burials(batch, res, cfg.maxRetries) == |DeadOf(batch, d')|
  {
    forall r | r in batch ensures File(Dead, r.id) in d' <==> Buries(r, res, cfg.maxRetries) == 1 {
      var i :| 0 <= i < |batch| && batch[i] == r;
      BatchOutcome(d, d', steps, batch, i, res, cfg, env, start);
    }
    BurialsAreDead(batch, d', res, cfg.maxRetries);
  }

  // What a claim handed out is in flight, addressed to the destination, and nothing else moved.
  ghost predicate ClaimedFrom(d: Disk, d': Disk, dest: string, batch: seq<Record>) {
    && Coherent(d') && Ids(d') == Ids(d)
    && InFlight(d', batch)
    && (forall r :: r in batch ==> IsPendingFor(d, dest, r.id) && d[File(Pending, r.id)].attempts == r.attempts)
    && (forall r :: r in batch ==> d[File(Pending, r.id)].destination == r.destination)
    && (forall id :: id !in IdsOf(batch) ==> Same(d, d', File(Pending, id)))
  }

  lemma ClaimedRecords(d: Disk, codec: Codec, dest: string, limit: int, now: int, order: seq<Id>, batch: seq<Record>,
                       io: Io)
    requires Coherent(d) && IsClaimOrder(d, codec, dest, limit, now, io, order)
    requires AreClaims(batch, d, codec, ClaimDisk(d, order, io).1)
    ensures var moved := ClaimDisk(d, order, io).1;
            && (forall i :: 0 <= i < |batch| ==> batch[i].id == moved[i])
            && (forall r :: r in batch ==>
                              && r.id in moved && IsPendingFor(d, dest, r.id)
                              && d[File(Pending, r.id)].attempts == r.attempts
                              && d[File(Pending, r.id)].destination == r.destination)
  {
    var moved := ClaimDisk(d, order, io).1;
    TransferAllEffect(d, Pending, Inflight, Relabelled(Inflight), order, io);
    forall i | 0 <= i < |batch| ensures batch[i].id == moved[i] {
      assert d[File(Pending, moved[i])].id == moved[i];
    }
    forall r | r in batch
      ensures r.id in moved && IsPendingFor(d, dest, r.id)
              && d[File(Pending, r.id)].attempts == r.attempts && d[File(Pending, r.id)].destination == r.destination
    {
      var i :| 0 <= i < |batch| && batch[i] == r;
      assert moved[i] in moved;
    }
  }

  lemma ClaimEffect(d: Disk, codec: Codec, dest: string, limit: int, now: int, order: seq<Id>, batch: seq<Record>,
                    io: Io)
    requires Coherent(d) && IsClaimOrder(d, codec, dest, limit, now, io, order)
    requires AreClaims(batch, d, codec, ClaimDisk(d, order, io).1)
    ensures ClaimedFrom(d, ClaimDisk(d, order, io).0, dest, batch)
  {
    var (d', moved) := ClaimDisk(d, order, io);
    TransferAllEffect(d, Pending, Inflight, Relabelled(Inflight), order, io);
    TransferAllConserves(d, Pending, Inflight, Relabelled(Inflight), order, io, map[]);
    ClaimedRecords(d, codec, dest, limit, now, order, batch, io);
    assert forall i :: 0 <= i < |moved| ==> batch[i] in batch && moved[i] in IdsOf(batch);
    forall id | id !in IdsOf(batch) ensures Same(d, d', File(Pending, id)) {
      assert id !in moved;
    }
  }

  // A claim hands out records of its destination, each once.
  lemma ClaimAddressed(d: Disk, codec: Codec, dest: string, limit: int, now: int, order: seq<Id>, batch: seq<Record>,
                       io: Io)
    requires Coherent(d) && IsClaimOrder(d, codec, dest, limit, now, io, order)
    requires AreClaims(batch, d, codec, ClaimDisk(d, order, io).1)
    ensures forall r :: r in batch ==> dest == "" || r.destination == dest
    ensures forall i, j :: 0 <= i < j < |batch| ==> batch[i].id != batch[j].id
  {
    ClaimEffect(d, codec, dest, limit, now, order, batch, io);
  }

  // A claimed record with one file is in flight and nowhere else, for the same event.
  lemma ClaimedAlone(d: Disk, codec: Codec, order: seq<Id>, batch: seq<Record>, io: Io, i: nat)
    requires Coherent(d) && SingleCopy(d) && Distinct(order)
    requires AreClaims(batch, d, codec, ClaimDisk(d, order, io).1) && i < |batch|
    ensures OnlyInFlight(ClaimDisk(d, order, io).0, batch[i])
    ensures File(Pending, batch[i].id) in d && d[File(Pending, batch[i].id)].attempts == batch[i].attempts
    ensures Carries(d[File(Pending, batch[i].id)], ClaimDisk(d, order, io).0[File(Inflight, batch[i].id)])
  {
    var (d', moved) := ClaimDisk(d, order, io);
    var id := moved[i];
    TransferAllEffect(d, Pending, Inflight, Relabelled(Inflight), order, io);
    assert id in moved && batch[i].id == id;
    assert Same(d, d', File(Dead, id)) && Same(d, d', File(Overflow, id));
  }

  lemma OutcomeFromPending(d: Disk, mid: Disk, d': Disk, r: Record, res: SendResult, maxRetries: int, now: int,
                           delay: int)
    requires IsOutcome(mid, d', Inflight, r, res, maxRetries, now, delay)
    requires File(Pending, r.id) in d && File(Inflight, r.id) in mid
             && Carries(d[File(Pending, r.id)], mid[File(Inflight, r.id)])
    ensures IsOutcome(d, d', Pending, r, res, maxRetries, now, delay)
  {
  }

  lemma ClaimInFlight(d: Disk, codec: Codec, dest: string, limit: int, now: int, order: seq<Id>, batch: seq<Record>,
                      io: Io)
    requires Coherent(d) && IsClaimOrder(d, codec, dest, limit, now, io, order)
    requires AreClaims(batch, d, codec, ClaimDisk(d, order, io).1)
    ensures Coherent(ClaimDisk(d, order, io).0) && InFlight(ClaimDisk(d, order, io).0, batch)
  {
    ClaimEffect(d, codec, dest, limit, now, order, batch, io);
  }

  // The disk after one round: the due records claimed, sent together, and settled one by one.
  ghost predicate IsRoundOf(d: Disk, d': Disk, codec: Codec, dest: string, limit: int, cfg: BackoffConfig,
                            env: Environment, start: nat, order: seq<Id>, batch: seq<Record>, steps: seq<Disk>)
    requires cfg.jitter ==> cfg.maxMs >= 0
  {
    var io := env.io(start);
    && IsClaimOrder(d, codec, dest, limit, UnixMilli(env.clock(start)), io, order)
    && AreClaims(batch, d, codec, ClaimDisk(d, order, io).1)
    && AreSteps(ClaimDisk(d, order, io).0, d', steps, batch, env.answer(start + 1), cfg, env, start + 2)
  }

  // What a round makes of each record it claims, from a disk with one file for each event: as
  // above, counted from the pending record.
  lemma RoundOutcome(d: Disk, d': Disk, codec: Codec, dest: string, limit: int, cfg: BackoffConfig, env: Environment,
                     start: nat, order: seq<Id>, batch: seq<Record>, steps: seq<Disk>, i: nat)
    requires (cfg.jitter ==> cfg.maxMs >= 0) && Coherent(d) && SingleCopy(d)
    requires IsRoundOf(d, d', codec, dest, limit, cfg, env, start, order, batch, steps)
    requires i < |batch| && AllClear(env.io(start + 2 + i))
    ensures File(Pending, batch[i].id) in d && d[File(Pending, batch[i].id)].attempts == batch[i].attempts
    ensures GetsItsDue(d, d', Pending, batch[i], env.answer(start + 1), cfg, env, start + 2 + i)
  {
    var mid, res, tick := ClaimDisk(d, order, env.io(start)).0, env.answer(start + 1), start + 2;
    ClaimInFlight(d, codec, dest, limit, UnixMilli(env.clock(start)), order, batch, env.io(start));
    ClaimedAlone(d, codec, order, batch, env.io(start), i);
    BatchOutcome(mid, d', steps, batch, i, res, cfg, env, tick);
    OutcomeFromPending(d, mid, d', batch[i], res, cfg.maxRetries, env.clock(tick + i),
                       Compute(cfg, batch[i].attempts, env.draw(tick + i)));
  }

  // One round of the loop costs every claimed record one send of its budget.
  lemma IdSpends(d: Disk, mid: Disk, d': Disk, dest: string, batch: seq<Record>, res: SendResult, maxRetries: int,
                 id: Id)
    requires ClaimedFrom(d, mid, dest, batch) && Settled(mid, d', batch, res, maxRetries)
    ensures Budget(d', dest, maxRetries)(id) + (if id in IdsOf(batch) then 1 else 0) <= Budget(d, dest, maxRetries)(id)
  {
    if id in IdsOf(batch) {
      var r :| r in batch && r.id == id;
      assert IsPendingFor(d, dest, id);
    } else {
      assert Same(d, mid, File(Pending, id)) && Same(mid, d', File(Pending, id));
    }
  }

  lemma RoundSpends(d: Disk, mid: Disk, d': Disk, dest: string, batch: seq<Record>, res: SendResult, maxRetries: int)
    requires ClaimedFrom(d, mid, dest, batch) && Settled(mid, d', batch, res, maxRetries)
    ensures forall id :: Budget(d', dest, maxRetries)(id) + (if id in IdsOf(batch) then 1 else 0) <=
                         Budget(d, dest, maxRetries)(id)
    ensures batch != [] ==> TotalBudget(d', dest, maxRetries) < TotalBudget(d, dest, maxRetries)
  {
    forall id
      ensures Budget(d', dest, maxRetries)(id) + (if id in IdsOf(batch) then 1 else 0) <=
              Budget(d, dest, maxRetries)(id)
    {
      IdSpends(d, mid, d', dest, batch, res, maxRetries, id);
    }
    if batch != [] {
      var y := batch[0].id;
      assert y in IdsOf(batch);
      forall id | id in PendingFor(d', dest) ensures id in PendingFor(d, dest) {
        assert Budget(d', dest, maxRetries)(id) >= 1;
        assert Budget(d, dest, maxRetries)(id) >= 1;
        assert File(Pending, id) in d;
      }
      assert File(Pending, y) in d;
      SumStrict(PendingFor(d, dest), Budget(d, dest, maxRetries), PendingFor(d', dest), Budget(d', dest, maxRetries),
                y);
    }
  }

  // What one round did: when it began, what it claimed, and the disks while it settled.
  datatype Trace = Trace(start: nat, order: seq<Id>, batch: seq<Record>, disks: seq<Disk>)

  class Dispatcher {
    const queue: Queue
    const batchMax: int
    const backoff: BackoffConfig
    var attempts: nat
    var success: nat
    var dead: nat
    // Every id handed to the destination, as often as it was, and those it accepted.
    ghost var sent: multiset<Id>
    ghost var accepted: set<Id>

    constructor (queue: Queue, batchMax: int, backoff: BackoffConfig)
      ensures this.queue == queue && this.batchMax == (if batchMax == 0 then 25 else batchMax)
      ensures this.backoff == if backoff.initialMs == 0 then DEFAULT_BACKOFF else backoff
      ensures attempts == success == dead == 0 && sent == multiset{} && accepted == {}
    {
      this.queue := queue;
      this.batchMax := if batchMax == 0 then 25 else batchMax;
      this.backoff := if backoff.initialMs == 0 then DEFAULT_BACKOFF else backoff;
      attempts, success, dead := 0, 0, 0;
      sent, accepted := multiset{}, {};
    }

    // Hand one batch to the destination, which gets its own records only.
    method Send(dest: string, batch: seq<Record>, env: Environment, tick: nat) returns (res: SendResult)
      requires forall r :: r in batch ==> dest == "" || r.destination == dest
      requires forall i, j :: 0 <= i < j < |batch| ==> batch[i].id != batch[j].id
      modifies this`attempts, this`sent, this`accepted
      ensures res == env.answer(tick)
      ensures attempts == old(attempts) + 1
      ensures sent == old(sent) + multiset(IdsOf(batch))
      ensures accepted == old(accepted) + if res.ok then IdsOf(batch) else {}
    {
      attempts := attempts + 1;
      res := env.answer(tick);
      sent := sent + multiset(IdsOf(batch));
      accepted := accepted + if res.ok then IdsOf(batch) else {};
    }

    // Acknowledge, reschedule or bury one record.
    method SettleOne(r: Record, res: SendResult, env: Environment, tick: nat) returns (next: int)
      requires queue.Valid() && (backoff.jitter ==> backoff.maxMs >= 0)
      modifies this`dead, queue`files
      ensures queue.Valid()
      ensures next == RetryAt(backoff, r, res, env, tick)
      ensures queue.files == SettleDisk(old(queue.files), r, res, backoff.maxRetries, next, env.io(tick))
      ensures dead == old(dead) + Buries(r, res, backoff.maxRetries)
      ensures AllClear(env.io(tick)) && OnlyInFlight(old(queue.files), r) ==>
                GetsItsDue(old(queue.files), queue.files, Inflight, r, res, backoff, env, tick)
    {
      if AllClear(env.io(tick)) && OnlyInFlight(queue.files, r) {
        SettledCleanly(queue.files, r, res, backoff, env, tick);
      }
      var delay := Compute(backoff, r.attempts, env.draw(tick));
      if res.retryAfter > delay {
        delay := res.retryAfter;
      }
      next := UnixMilli(env.clock(tick) + delay);
      var done;
      if res.ok {
        done := queue.Ack(r.id, env.io(tick));
      } else if !res.retriable || r.attempts + 1 >= backoff.maxRetries {
        done := queue.MarkDead(r.id, res.err, env.io(tick));
        dead := dead + 1;
      } else {
        done := queue.Retry(r.id, next, res.err, env.io(tick));
      }
    }

    method SettleBatch(batch: seq<Record>, res: SendResult, env: Environment, start: nat)
      returns (tick: nat, ghost steps: seq<Disk>)
      requires queue.Valid() && (backoff.jitter ==> backoff.maxMs >= 0)
      modifies this`dead, queue`files
      ensures queue.Valid() && tick == start + |batch|
      ensures AreSteps(old(queue.files), queue.files, steps, batch, res, backoff, env, start)
      ensures dead == old(dead) + Burials(batch, res, backoff.maxRetries)
    {
      tick, steps := start, [queue.files];
      for i := 0 to |batch|
        invariant queue.Valid() && tick == start + i
        invariant BatchSettled(old(queue.files), queue.files, steps, batch, i, res, backoff, env, start, old(dead),
                               dead)
      {
        steps := SettleNth(batch, i, res, env, start, old(queue.files), steps, old(dead));
        tick := tick + 1;
      }
      BatchSettledAll(old(queue.files), queue.files, steps, batch, res, backoff, env, start, old(dead), dead);
    }

    // One step of the loop.
    method SettleNth(batch: seq<Record>, i: nat, res: SendResult, env: Environment, start: nat, ghost d: Disk,
                     ghost steps: seq<Disk>, ghost dead0: nat)
      returns (ghost steps': seq<Disk>)
      requires queue.Valid() && (backoff.jitter ==> backoff.maxMs >= 0) && i < |batch|
      requires BatchSettled(d, queue.files, steps, batch, i, res, backoff, env, start, dead0, dead)
      modifies this`dead, queue`files
      ensures queue.Valid() && BatchSettled(d, queue.files, steps', batch, i + 1, res, backoff, env, start, dead0, dead)
    {
      ghost var mid, buried := queue.files, dead;
      var next := SettleOne(batch[i], res, env, start + i);
      BatchSettledNext(d, mid, queue.files, steps, batch, i, res, backoff, env, start, dead0, buried);
      steps' := steps + [queue.files];
    }

    // Send a batch and settle it.
    method Deliver(dest: string, batch: seq<Record>, env: Environment, start: nat)
      returns (tick: nat, ghost steps: seq<Disk>)
      requires queue.Valid() && (backoff.jitter ==> backoff.maxMs >= 0)
      requires forall r :: r in batch ==> dest == "" || r.destination == dest
      requires forall i, j :: 0 <= i < j < |batch| ==> batch[i].id != batch[j].id
      modifies this, queue`files
      ensures queue.Valid()
      ensures AreSteps(old(queue.files), queue.files, steps, batch, env.answer(start), backoff, env, start + 1)
      ensures sent == old(sent) + multiset(IdsOf(batch))
      ensures accepted == old(accepted) + if env.answer(start).ok then IdsOf(batch) else {}
      ensures attempts == old(attempts) + 1
      ensures success == old(success) + if env.answer(start).ok then 1 else 0
      ensures dead == old(dead) + Burials(batch, env.answer(start), backoff.maxRetries)
    {
      var res := Send(dest, batch, env, start);
      if res.ok {
        success := success + 1;
      }
      tick, steps := SettleBatch(batch, res, env, start + 1);
    }

    // Claim, send, settle.
    method Round(dest: string, env: Environment, start: nat)
      returns (r: Result<bool, QueueError>, tick: nat, ghost order: seq<Id>, ghost batch: seq<Record>,
               ghost steps: seq<Disk>)
      requires queue.Valid() && (backoff.jitter ==> backoff.maxMs >= 0)
      modifies this, queue`files
      ensures queue.Valid()
      ensures r.Ok? <==> env.io(start)(ReadDir(Pending))
      ensures r.Ok? ==>
                r.value == (batch != [])
                && IsRound(old(queue.files), queue.files, dest, env, start, order, batch, steps)
      ensures r.Err? ==> queue.files == old(queue.files) && batch == []
      ensures sent == old(sent) + multiset(IdsOf(batch))
      ensures accepted == old(accepted) + if env.answer(start + 1).ok then IdsOf(batch) else {}
      ensures attempts == old(attempts) + if batch == [] then 0 else 1
      ensures success == old(success) + if batch != [] && env.answer(start + 1).ok then 1 else 0
      ensures dead == old(dead) + Burials(batch, env.answer(start + 1), backoff.maxRetries)
    {
      ghost var before := queue.files;
      tick, batch, steps := start, [], [queue.files];
      var claimed;
      claimed, order := queue.ClaimPending(dest, batchMax, UnixMilli(env.clock(tick)), env.io(tick));
      if claimed.Err? {
        r := Err(claimed.error);
        return;
      }
      batch := claimed.value;
      r := Ok(claimed.value != []);
      steps := [queue.files];
      if claimed.value == [] {
        return;
      }
      ClaimAddressed(before, queue.codec, dest, batchMax, UnixMilli(env.clock(tick)), order, batch, env.io(tick));
      tick, steps := Deliver(dest, claimed.value, env, start + 1);
    }

    // The disk after one round: the due records claimed, sent together, and settled one by one.
    ghost predicate IsRound(d: Disk, d': Disk, dest: string, env: Environment, start: nat, order: seq<Id>,
                            batch: seq<Record>, steps: seq<Disk>)
      requires backoff.jitter ==> backoff.maxMs >= 0
    {
      IsRoundOf(d, d', queue.codec, dest, batchMax, backoff, env, start, order, batch, steps)
    }

    // A round that claims something spends budget; one that claims nothing, with no failure,
    // found nothing due.
    lemma RoundAdvances(d: Disk, d': Disk, dest: string, env: Environment, start: nat, order: seq<Id>,
                        batch: seq<Record>, steps: seq<Disk>,
                        sent: multiset<Id>, accepted: set<Id>)
      requires (backoff.jitter ==> backoff.maxMs >= 0) && Coherent(d)
               && IsRound(d, d', dest, env, start, order, batch, steps)
      ensures var accepted' := accepted + if env.answer(start + 1).ok then IdsOf(batch) else {};
              Progress(d, d', dest, sent, sent + multiset(IdsOf(batch)), accepted, accepted')
      ensures batch != [] ==> TotalBudget(d', dest, backoff.maxRetries) < TotalBudget(d, dest, backoff.maxRetries)
      ensures batch == [] && AllClear(env.io(start)) ==>
                NothingDue(d', queue.codec, dest, UnixMilli(env.clock(start)), env.io(start))
    {
      var io, res, now := env.io(start), env.answer(start + 1), UnixMilli(env.clock(start));
      var mid := ClaimDisk(d, order, io).0;
      ClaimEffect(d, queue.codec, dest, batchMax, now, order, batch, io);
      SettleAllEffect(mid, d', steps, batch, |batch|, res, backoff, env, start + 2);
      assert batch[..|batch|] == batch;
      if batch == [] {
        NothingClaimed(d, queue.codec, dest, batchMax, now, order, io);
      }
      RoundSpends(d, mid, d', dest, batch, res, backoff.maxRetries);
      RoundProgress(d, mid, d', dest, batch, res, sent, sent + multiset(IdsOf(batch)), accepted,
                    accepted + if res.ok then IdsOf(batch) else {});
    }

    ghost predicate Rounded(d: Disk, mid: Disk, d': Disk, dest: string, batch: seq<Record>, res: SendResult,
                            sent: multiset<Id>, sent': multiset<Id>, accepted: set<Id>, accepted': set<Id>)
    {
      && ClaimedFrom(d, mid, dest, batch)
      && Settled(mid, d', batch, res, backoff.maxRetries)
      && sent' == sent + multiset(IdsOf(batch))
      && accepted' == accepted + if res.ok then IdsOf(batch) else {}
    }

    // What any number of rounds preserves.
    ghost predicate Progress(d: Disk, d': Disk, dest: string, sent: multiset<Id>, sent': multiset<Id>,
                             accepted: set<Id>, accepted': set<Id>) {
      && Ids(d) <= Ids(d') + accepted'
      && accepted <= accepted'
      && forall id :: sent'[id] + Budget(d', dest, backoff.maxRetries)(id) <=
                      sent[id] + Budget(d, dest, backoff.maxRetries)(id)
    }

    lemma RoundProgress(d: Disk, mid: Disk, d': Disk, dest: string, batch: seq<Record>, res: SendResult,
                        sent: multiset<Id>, sent': multiset<Id>, accepted: set<Id>, accepted': set<Id>)
      requires Rounded(d, mid, d', dest, batch, res, sent, sent', accepted, accepted')
      ensures Progress(d, d', dest, sent, sent', accepted, accepted')
    {
      RoundSpends(d, mid, d', dest, batch, res, backoff.maxRetries);
      assert forall id :: multiset(IdsOf(batch))[id] == if id in IdsOf(batch) then 1 else 0;
    }

    lemma ProgressChains(d: Disk, mid: Disk, d': Disk, dest: string, sent: multiset<Id>, sentMid: multiset<Id>,
                         sent': multiset<Id>,
                         accepted: set<Id>, acceptedMid: set<Id>, accepted': set<Id>)
      requires Progress(d, mid, dest, sent, sentMid, accepted, acceptedMid)
      requires Progress(mid, d', dest, sentMid, sent', acceptedMid, accepted')
      ensures Progress(d, d', dest, sent, sent', accepted, accepted')
    {
    }

    // One more round of a drain.
    lemma DrainStep(d0: Disk, d: Disk, d': Disk, dest: string, env: Environment, start: nat, order: seq<Id>,
                    batch: seq<Record>, steps: seq<Disk>,
                    sent0: multiset<Id>, sent: multiset<Id>, accepted0: set<Id>, accepted: set<Id>)
      requires (backoff.jitter ==> backoff.maxMs >= 0) && Coherent(d)
               && IsRound(d, d', dest, env, start, order, batch, steps)
      requires Progress(d0, d, dest, sent0, sent, accepted0, accepted)
      ensures var accepted' := accepted + if env.answer(start + 1).ok then IdsOf(batch) else {};
              Progress(d0, d', dest, sent0, sent + multiset(IdsOf(batch)), accepted0, accepted')
      ensures batch != [] ==> TotalBudget(d', dest, backoff.maxRetries) < TotalBudget(d, dest, backoff.maxRetries)
      ensures batch == [] && AllClear(env.io(start)) ==>
                NothingDue(d', queue.codec, dest, UnixMilli(env.clock(start)), env.io(start))
    {
      RoundAdvances(d, d', dest, env, start, order, batch, steps, sent, accepted);
      ProgressChains(d0, d, d', dest, sent0, sent, sent + multiset(IdsOf(batch)), accepted0, accepted,
                     accepted + if env.answer(start + 1).ok then IdsOf(batch) else {});
    }

    // Drain one destination. It returns whatever the destination answers, however the clock
    // moves and whichever file operations fail; no event disappears unless the destination
    // accepted it; every send comes out of its record's budget, and what is left is there for later
    // drains; and after a last round without failures nothing of this destination is due.
    method RunDest(dest: string, env: Environment)
      returns (ok: bool, ghost last: nat, ghost at: seq<Disk>, ghost rounds: seq<Trace>)
      requires queue.Valid() && (backoff.jitter ==> backoff.maxMs >= 0)
      modifies this, queue`files
      ensures queue.Valid()
      ensures Ids(old(queue.files)) <= Ids(queue.files) + accepted
      ensures old(accepted) <= accepted
      ensures forall id :: sent[id] + Budget(queue.files, dest, backoff.maxRetries)(id) <=
                           old(sent)[id] + Budget(old(queue.files), dest, backoff.maxRetries)(id)
      ensures Ended(queue.files, dest, env, last, ok)
      ensures AreRounds(old(queue.files), queue.files, dest, env, at, rounds)
    {
      var tick, more := 0, true;
      ok, last, at, rounds := true, 0, [queue.files], [];
      while more
        invariant queue.Valid()
        invariant Progress(old(queue.files), queue.files, dest, old(sent), sent, old(accepted), accepted)
        invariant !more ==> Ended(queue.files, dest, env, last, ok)
        invariant AreRounds(old(queue.files), queue.files, dest, env, at, rounds)
        decreases more, TotalBudget(queue.files, dest, backoff.maxRetries)
      {
        ghost var before, sentBefore, acceptedBefore := queue.files, sent, accepted;
        last := tick;
        var r; ghost var order, batch, steps;
        r, tick, order, batch, steps := Round(dest, env, tick);
        if r.Ok? {
          DrainStep(old(queue.files), before, queue.files, dest, env, last, order, batch, steps, old(sent),
                    sentBefore, old(accepted), acceptedBefore);
          RoundsSnoc(old(queue.files), before, queue.files, dest, env, at, rounds, Trace(last, order, batch, steps));
          at, rounds := at + [queue.files], rounds + [Trace(last, order, batch, steps)];
        }
        ok, more := r.Ok?, r.Ok? && r.value;
      }
    }

    // A drain as the rounds it consists of: `at` are the disks before each round and after the last.
    ghost predicate AreRounds(d: Disk, d': Disk, dest: string, env: Environment, at: seq<Disk>, rounds: seq<Trace>)
      requires backoff.jitter ==> backoff.maxMs >= 0
    {
      && |at| == |rounds| + 1 && at[0] == d && at[|rounds|] == d'
      && forall i :: 0 <= i < |rounds| ==> IsTrace(at[i], at[i + 1], dest, env, rounds[i])
    }

    ghost predicate IsTrace(d: Disk, d': Disk, dest: string, env: Environment, t: Trace)
      requires backoff.jitter ==> backoff.maxMs >= 0
    {
      env.io(t.start)(ReadDir(Pending)) && IsRound(d, d', dest, env, t.start, t.order, t.batch, t.disks)
    }

    lemma RoundsSnoc(d: Disk, mid: Disk, d': Disk, dest: string, env: Environment, at: seq<Disk>, rounds: seq<Trace>,
                     t: Trace)
      requires (backoff.jitter ==> backoff.maxMs >= 0) && AreRounds(d, mid, dest, env, at, rounds)
               && IsTrace(mid, d', dest, env, t)
      ensures AreRounds(d, d', dest, env, at + [d'], rounds + [t])
    {
      var at', rounds' := at + [d'], rounds + [t];
      forall i | 0 <= i < |rounds'| ensures IsTrace(at'[i], at'[i + 1], dest, env, rounds'[i]) {
        if i < |rounds| {
          assert IsTrace(at[i], at[i + 1], dest, env, rounds[i]);
        }
      }
    }

    // How a drain ends: the pending lane could not be read, or nothing was claimed, which with
    // no failure means that nothing was due.
    ghost predicate Ended(d: Disk, dest: string, env: Environment, last: nat, ok: bool) {
      && ok == env.io(last)(ReadDir(Pending))
      && (ok && AllClear(env.io(last)) ==> NothingDue(d, queue.codec, dest, UnixMilli(env.clock(last)), env.io(last)))
    }
  }

  // An all-clear claim that hands out nothing found nothing due.
  lemma NothingClaimed(d: Disk, codec: Codec, dest: string, limit: int, now: int, order: seq<Id>, io: Io)
    requires Coherent(d) && IsClaimOrder(d, codec, dest, limit, now, io, order)
    requires ClaimDisk(d, order, io).1 == []
    ensures AllClear(io) ==> NothingDue(ClaimDisk(d, order, io).0, codec, dest, now, io)
  {
    if AllClear(io) {
      TransferAllOk(d, Pending, Inflight, Relabelled(Inflight), order, io);
    }
  }

  const DEFAULT_BACKOFF := BackoffConfig(500, 60_000, 8, true)
}
