/** The dispatcher's rounds are sequences of the steps that whole runs are made of. */
module RoundSteps {
  import opened QueueFiles
  import opened DurableQueue
  import opened Backoff
  import opened Dispatch
  import opened EventSafety

  // The steps of one round, and the worlds between them.
  ghost predicate Leads(w: World, w': World, opts: Options, codec: Codec, maxRetries: int) {
    exists ws: seq<World>, ss: seq<Step> :: IsWay(ws, ss, w, w', opts, codec, maxRetries)
  }

  ghost predicate IsWay(ws: seq<World>, ss: seq<Step>, w: World, w': World, opts: Options, codec: Codec,
                        maxRetries: int) {
    IsChain(ws, ss, opts, codec, maxRetries) && ws[0] == w && ws[|ss|] == w'
  }

  lemma OneStep(w: World, s: Step, opts: Options, codec: Codec, maxRetries: int)
    requires Enabled(w, s, opts, codec)
    ensures Leads(w, After(w, s, opts, codec, maxRetries), opts, codec, maxRetries)
  {
    assert IsWay([w, After(w, s, opts, codec, maxRetries)], [s], w, After(w, s, opts, codec, maxRetries), opts,
                 codec, maxRetries);
  }

  lemma ChainsJoin(ws: seq<World>, ss: seq<Step>, ws': seq<World>, ss': seq<Step>, opts: Options, codec: Codec,
                   maxRetries: int)
    requires IsChain(ws, ss, opts, codec, maxRetries) && IsChain(ws', ss', opts, codec, maxRetries)
             && ws[|ss|] == ws'[0]
    ensures IsChain(ws + ws'[1..], ss + ss', opts, codec, maxRetries)
    ensures (ws + ws'[1..])[0] == ws[0] && (ws + ws'[1..])[|ss + ss'|] == ws'[|ss'|]
  {
    var all, steps := ws + ws'[1..], ss + ss';
    forall i | 0 <= i < |steps|
      ensures Enabled(all[i], steps[i], opts, codec) && all[i + 1] == After(all[i], steps[i], opts, codec, maxRetries)
    {
      if i < |ss| {
        assert all[i] == ws[i] && all[i + 1] == ws[i + 1] && steps[i] == ss[i];
      } else {
        var k := i - |ss|;
        assert all[i] == ws'[k] && all[i + 1] == ws'[k + 1] && steps[i] == ss'[k];
      }
    }
  }

  lemma LeadsOn(w: World, mid: World, w': World, opts: Options, codec: Codec, maxRetries: int)
    requires Leads(w, mid, opts, codec, maxRetries) && Leads(mid, w', opts, codec, maxRetries)
    ensures Leads(w, w', opts, codec, maxRetries)
  {
    var ws: seq<World>, ss: seq<Step> :| IsWay(ws, ss, w, mid, opts, codec, maxRetries);
    var ws': seq<World>, ss': seq<Step> :| IsWay(ws', ss', mid, w', opts, codec, maxRetries);
    ChainsJoin(ws, ss, ws', ss', opts, codec, maxRetries);
    assert IsWay(ws + ws'[1..], ss + ss', w, w', opts, codec, maxRetries);
  }

  // A run goes on where its last world leads.
  lemma RunExtends(ws: seq<World>, ss: seq<Step>, w': World, opts: Options, codec: Codec, maxRetries: int)
    returns (ws': seq<World>, ss': seq<Step>)
    requires IsRun(ws, ss, opts, codec, maxRetries) && Leads(ws[|ss|], w', opts, codec, maxRetries)
    ensures IsRun(ws', ss', opts, codec, maxRetries) && ws <= ws' && ws'[|ss'|] == w'
  {
    var on: seq<World>, more: seq<Step> :| IsWay(on, more, ws[|ss|], w', opts, codec, maxRetries);
    ChainsJoin(ws, ss, on, more, opts, codec, maxRetries);
    ws', ss' := ws + on[1..], ss + more;
  }

  // The world after i records of a batch have been settled.
  ghost function AtRecord(w: World, disks: seq<Disk>, batch: seq<Record>, res: SendResult, i: nat): World
    requires i < |disks|
  {
    w.(disk := disks[i], phase := if i == |batch| then Idle else Settling(batch, res, i))
  }

  lemma {:induction false} SettlingLeads(w: World, d: Disk, d': Disk, disks: seq<Disk>, batch: seq<Record>,
                                         res: SendResult, cfg: BackoffConfig,
                                         env: Environment, start: nat, i: nat, opts: Options, codec: Codec)
    requires (cfg.jitter ==> cfg.maxMs >= 0) && AreSteps(d, d', disks, batch, res, cfg, env, start) && 0 < i <= |batch|
    ensures Leads(AtRecord(w, disks, batch, res, 0), AtRecord(w, disks, batch, res, i), opts, codec, cfg.maxRetries)
    decreases i
  {
    var n := i - 1;
    var at := AtRecord(w, disks, batch, res, n);
    var s := Settle(RetryAt(cfg, batch[n], res, env, start + n), env.io(start + n));
    assert IsStep(disks, batch, res, cfg, env, start, n);
    OneStep(at, s, opts, codec, cfg.maxRetries);
    assert After(at, s, opts, codec, cfg.maxRetries) == AtRecord(w, disks, batch, res, i);
    if n > 0 {
      SettlingLeads(w, d, d', disks, batch, res, cfg, env, start, n, opts, codec);
      LeadsOn(AtRecord(w, disks, batch, res, 0), at, AtRecord(w, disks, batch, res, i), opts, codec, cfg.maxRetries);
    }
  }

  // The world after a round from an idle one.
  ghost function AfterRound(w: World, d': Disk, batch: seq<Record>, ok: bool): World {
    w.(disk := d', phase := Idle, delivered := if batch != [] && ok then w.delivered + Bodies(batch) else w.delivered)
  }

  // What a round does to the disk, however its file-system calls fail, the steps of a run do: one
  // claim, one send, one settlement per record.
  lemma RoundLeads(disp: Dispatcher, w: World, d': Disk, dest: string, env: Environment, start: nat, order: seq<Id>,
                   batch: seq<Record>,
                   disks: seq<Disk>, opts: Options)
    requires (disp.backoff.jitter ==> disp.backoff.maxMs >= 0) && w.phase.Idle?
    requires env.io(start)(ReadDir(Pending)) && disp.IsRound(w.disk, d', dest, env, start, order, batch, disks)
    ensures Leads(w, AfterRound(w, d', batch, env.answer(start + 1).ok), opts, disp.queue.codec,
                  disp.backoff.maxRetries)
  {
    var codec, cfg, res := disp.queue.codec, disp.backoff, env.answer(start + 1);
    var claim := Claim(dest, disp.batchMax, UnixMilli(env.clock(start)), order, batch, env.io(start));
    var claimed := After(w, claim, opts, codec, cfg.maxRetries);
    OneStep(w, claim, opts, codec, cfg.maxRetries);
    if batch != [] {
      var sent := After(claimed, Step.Send(res), opts, codec, cfg.maxRetries);
      OneStep(claimed, Step.Send(res), opts, codec, cfg.maxRetries);
      LeadsOn(w, claimed, sent, opts, codec, cfg.maxRetries);
      SettlingLeads(sent, claimed.disk, d', disks, batch, res, cfg, env, start + 2, |batch|, opts, codec);
      assert sent == AtRecord(sent, disks, batch, res, 0);
      LeadsOn(w, sent, AtRecord(sent, disks, batch, res, |batch|), opts, codec, cfg.maxRetries);
    }
  }

  // The world after the first i rounds of a drain.
  ghost function AfterRounds(w: World, at: seq<Disk>, rounds: seq<Trace>, env: Environment, i: nat): World
    requires |at| == |rounds| + 1 && i <= |rounds|
  {
    if i == 0 then w
    else AfterRound(AfterRounds(w, at, rounds, env, i - 1), at[i], rounds[i - 1].batch,
                    env.answer(rounds[i - 1].start + 1).ok)
  }

  lemma {:induction false} AfterRoundsKeeps(w: World, at: seq<Disk>, rounds: seq<Trace>, env: Environment, i: nat)
    requires |at| == |rounds| + 1 && i <= |rounds| && at[0] == w.disk && w.phase.Idle?
    ensures var w' := AfterRounds(w, at, rounds, env, i);
            w'.disk == at[i] && w'.phase.Idle? && w'.journal == w.journal && w'.aged == w.aged
  {
    if i > 0 {
      AfterRoundsKeeps(w, at, rounds, env, i - 1);
    }
  }

  lemma AfterNext(w: World, at: seq<Disk>, rounds: seq<Trace>, env: Environment, n: nat)
    requires |at| == |rounds| + 1 && n < |rounds|
    ensures AfterRounds(w, at, rounds, env, n + 1) ==
            AfterRound(AfterRounds(w, at, rounds, env, n), at[n + 1], rounds[n].batch,
                       env.answer(rounds[n].start + 1).ok)
  {
  }

  // The rounds of a drain that begins in an idle world.
  ghost predicate Drains(disp: Dispatcher, w: World, d': Disk, dest: string, env: Environment, at: seq<Disk>,
                         rounds: seq<Trace>)
  {
    && (disp.backoff.jitter ==> disp.backoff.maxMs >= 0) && w.phase.Idle?
    && disp.AreRounds(w.disk, d', dest, env, at, rounds)
  }

  // A drain is a sequence of steps as well.
  lemma DrainLeads(disp: Dispatcher, w: World, d': Disk, dest: string, env: Environment, at: seq<Disk>,
                   rounds: seq<Trace>, opts: Options)
    requires Drains(disp, w, d', dest, env, at, rounds)
    ensures Leads(w, AfterRounds(w, at, rounds, env, |rounds|), opts, disp.queue.codec, disp.backoff.maxRetries)
  {
    Stays(w, opts, disp.queue.codec, disp.backoff.maxRetries);
    for n := 0 to |rounds|
      invariant Leads(w, AfterRounds(w, at, rounds, env, n), opts, disp.queue.codec, disp.backoff.maxRetries)
    {
      DrainNext(disp, w, d', dest, env, at, rounds, opts, n);
    }
  }

  lemma DrainNext(disp: Dispatcher, w: World, d': Disk, dest: string, env: Environment, at: seq<Disk>,
                  rounds: seq<Trace>, opts: Options, n: nat)
    requires Drains(disp, w, d', dest, env, at, rounds) && n < |rounds|
    requires Leads(w, AfterRounds(w, at, rounds, env, n), opts, disp.queue.codec, disp.backoff.maxRetries)
    ensures Leads(w, AfterRounds(w, at, rounds, env, n + 1), opts, disp.queue.codec, disp.backoff.maxRetries)
  {
    RoundBegins(disp, w, d', dest, env, at, rounds, n);
    AfterNext(w, at, rounds, env, n);
    NextRound(disp, w, AfterRounds(w, at, rounds, env, n), at[n + 1], dest, env, rounds[n], opts);
  }

  lemma RoundBegins(disp: Dispatcher, w: World, d': Disk, dest: string, env: Environment, at: seq<Disk>,
                    rounds: seq<Trace>, n: nat)
    requires Drains(disp, w, d', dest, env, at, rounds) && n < |rounds|
    ensures var before := AfterRounds(w, at, rounds, env, n);
            before.phase.Idle? && disp.IsTrace(before.disk, at[n + 1], dest, env, rounds[n])
  {
    AfterRoundsKeeps(w, at, rounds, env, n);
  }

  lemma Stays(w: World, opts: Options, codec: Codec, maxRetries: int)
    ensures Leads(w, w, opts, codec, maxRetries)
  {
    assert IsWay([w], [], w, w, opts, codec, maxRetries);
  }

  lemma NextRound(disp: Dispatcher, w: World, before: World, d': Disk, dest: string, env: Environment, t: Trace,
                  opts: Options)
    requires (disp.backoff.jitter ==> disp.backoff.maxMs >= 0) && before.phase.Idle?
    requires Leads(w, before, opts, disp.queue.codec, disp.backoff.maxRetries)
             && disp.IsTrace(before.disk, d', dest, env, t)
    ensures Leads(w, AfterRound(before, d', t.batch, env.answer(t.start + 1).ok), opts, disp.queue.codec,
                  disp.backoff.maxRetries)
  {
    RoundLeads(disp, before, d', dest, env, t.start, t.order, t.batch, t.disks, opts);
    LeadsOn(w, before, AfterRound(before, d', t.batch, env.answer(t.start + 1).ok), opts, disp.queue.codec,
            disp.backoff.maxRetries);
  }

  // Every event accepted before a drain, at any point of any run, is accounted for after it.
  lemma DrainLosesNothing(disp: Dispatcher, ws: seq<World>, ss: seq<Step>, d': Disk, dest: string, env: Environment,
                          at: seq<Disk>, rounds: seq<Trace>, opts: Options, id: Id)
    requires (disp.backoff.jitter ==> disp.backoff.maxMs >= 0) && disp.queue.codec.Lossless()
    requires IsRun(ws, ss, opts, disp.queue.codec, disp.backoff.maxRetries) && ws[|ss|].phase.Idle?
             && id in ws[|ss|].journal
    requires disp.AreRounds(ws[|ss|].disk, d', dest, env, at, rounds)
    ensures var w := AfterRounds(ws[|ss|], at, rounds, env, |rounds|);
            || (id in w.delivered && w.delivered[id] == ws[|ss|].journal[id])
            || id in w.aged
            || exists lane :: File(lane, id) in d'
  {
    var w' := AfterRounds(ws[|ss|], at, rounds, env, |rounds|);
    DrainLeads(disp, ws[|ss|], d', dest, env, at, rounds, opts);
    AfterRoundsKeeps(ws[|ss|], at, rounds, env, |rounds|);
    var ws', ss' := RunExtends(ws, ss, w', opts, disp.queue.codec, disp.backoff.maxRetries);
    NoEventLost(ws', ss', opts, disp.queue.codec, disp.backoff.maxRetries, |ss|, |ss'|, id);
  }
}
