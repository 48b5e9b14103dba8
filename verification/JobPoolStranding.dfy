/** When a stop can leave a consumer asleep for good: the exact numbers of consumers and channels. */
module JobPoolStranding {
  import opened Counting
  import opened JobPool
  import opened JobPoolInvariant

  /** All workers have left while consumer k sleeps on m_has_completed. */
  predicate Stranded(s: State, k: nat) {
    && s.stopping && s.pending == []
    && (forall w :: 0 <= w < |s.workers| ==> s.workers[w].Exited?)
    && k < |s.consumers| && s.consumers[k].Asleep?
  }

  /** Nothing but a spurious wake-up ever frees a stranded consumer. */
  lemma {:induction false} StrandedForGood(cfg: Config, s: State, k: nat, steps: seq<Step>, t: State)
    requires Stranded(s, k) && Run(cfg, s, steps, t)
    requires forall i :: 0 <= i < |steps| ==> steps[i] != SpuriousConsumer(k)
    ensures Stranded(t, k)
    decreases |steps|
  {
    if steps != [] {
      assert steps[0] != SpuriousConsumer(k);
      assert Stranded(Next(cfg, s, steps[0]), k);
      forall i | 0 <= i < |steps[1..]| ensures steps[1..][i] != SpuriousConsumer(k) {
        assert steps[1..][i] == steps[i + 1];
      }
      StrandedForGood(cfg, Next(cfg, s, steps[0]), k, steps[1..], t);
    }
  }

  ghost predicate SomebodyStranded(s: State) { exists k :: Stranded(s, k) }

  lemma {:induction false} SameThreads(cfg: Config, s: State, steps: seq<Step>, t: State)
    requires Run(cfg, s, steps, t)
    ensures |t.workers| == |s.workers| && |t.consumers| == |s.consumers|
    decreases |steps|
  {
    if steps != [] { SameThreads(cfg, Next(cfg, s, steps[0]), steps[1..], t); }
  }

  // ---------------------------------------------------------------- one consumer on one channel

  /** While the pool stops, its only consumer sleeps only as long as a result is still to come. */
  predicate ResultToCome(s: State) {
    s.stopping && |s.consumers| == 1 && s.consumers[0].Asleep? ==> |s.pending| + Count(s.workers, HoldsJob) > 0
  }

  lemma DeliveryWakes(cfg: Config, s: State, w: nat, wake: int)
    requires Shaped(cfg, s) && Enabled(cfg, s, Deliver(w, wake)) && cfg.Channels() == 1 && |s.consumers| == 1
    ensures !Delivered(s, w, wake).consumers[0].Asleep?
  {
    assert s.workers[w].job.channel == 0;
    if s.consumers[0].Asleep? { assert AsleepForResult(0)(s.consumers[0]); }
  }

  lemma StepResultToCome(cfg: Config, s: State, step: Step)
    requires Shaped(cfg, s) && Enabled(cfg, s, step) && cfg.Channels() == 1 && |s.consumers| == 1
    requires ResultToCome(s)
    ensures ResultToCome(Next(cfg, s, step)) && |Next(cfg, s, step).consumers| == 1
  {
    if IsWorkerMove(step) {
      CountUpdate(s.workers, step.w, MovedWorker(s.workers[step.w], step), HoldsJob);
    } else if !IsConsumerMove(step) {
      match step
      case Take(w) => CountUpdate(s.workers, w, Running(cfg.Handed(s.pending[0])), HoldsJob);
      case Deliver(w, wake) => DeliveryWakes(cfg, s, w, wake);
      case ConsumerPop(_, wake) => CountSame(s.workers, WakeWorker(s.workers, wake), HoldsJob);
      case PopNow(_, wake) => CountSame(s.workers, WakeWorker(s.workers, wake), HoldsJob);
      case Submit(_, _) =>
      case Stop(_) =>
    }
  }

  lemma {:induction false} RunResultToCome(cfg: Config, s: State, steps: seq<Step>, t: State)
    requires Run(cfg, s, steps, t) && cfg.Channels() == 1 && |s.consumers| == 1 && ResultToCome(s)
    ensures |t.consumers| == 1 && ResultToCome(t)
    decreases |steps|
  {
    if steps != [] {
      StepResultToCome(cfg, s, steps[0]);
      RunResultToCome(cfg, Next(cfg, s, steps[0]), steps[1..], t);
    }
  }

  lemma OneConsumerNeverStranded(cfg: Config, n: nat, s: State)
    requires cfg.Channels() == 1 && Reachable(cfg, n, 1, s)
    ensures !SomebodyStranded(s)
  {
    var steps :| Run(cfg, Init(cfg, n, 1), steps, s);
    RunResultToCome(cfg, Init(cfg, n, 1), steps, s);
    if forall w :: 0 <= w < |s.workers| ==> s.workers[w].Exited? { NobodyAsleep(s.workers, HoldsJob); }
  }

  // ---------------------------------------------------------------- the runs that strand

  lemma Chain(cfg: Config, n: nat, m: nat, s: State, step: Step) returns (t: State)
    requires cfg.Valid() && Reachable(cfg, n, m, s) && Shaped(cfg, s) && Enabled(cfg, s, step)
    ensures t == Next(cfg, s, step) && Reachable(cfg, n, m, t) && Shaped(cfg, t)
  {
    ReachableNext(cfg, n, m, s, step);
    t := Next(cfg, s, step);
  }

  function Sleepers(m: nat, asleep: nat): seq<Consumer> {
    seq(m, k => if k < asleep then Asleep(0) else Away)
  }

  /** Draining, with job still pending and the first consumers asleep on channel 0. */
  function Draining(cfg: Config, n: nat, m: nat, job: Job, asleep: nat): State {
    Init(cfg, n, m).(consumers := Sleepers(m, asleep), pending := [job], accepted := [job], stopping := true)
  }

  lemma DrainStarts(cfg: Config, n: nat, m: nat, job: Job)
    requires cfg.Valid() && job.fn != 0 && job.data0 != 0 && job.channel < cfg.Channels()
    ensures Reachable(cfg, n, m, Draining(cfg, n, m, job, 0)) && Shaped(cfg, Draining(cfg, n, m, job, 0))
  {
    ReachableInit(cfg, n, m);
    var s := Chain(cfg, n, m, Init(cfg, n, m), Submit(job, -1));
    s := Chain(cfg, n, m, s, Stop(true));
    assert s.workers == Init(cfg, n, m).workers && s.consumers == Sleepers(m, 0);
    assert s == Draining(cfg, n, m, job, 0);
  }

  /** One more consumer asks for a result of channel 0, finds none and sleeps. */
  lemma OneMoreAsleep(cfg: Config, n: nat, m: nat, job: Job, k: nat)
    requires cfg.Valid() && cfg.Channels() > 0 && k < m
    requires Reachable(cfg, n, m, Draining(cfg, n, m, job, k)) && Shaped(cfg, Draining(cfg, n, m, job, k))
    ensures Reachable(cfg, n, m, Draining(cfg, n, m, job, k + 1)) && Shaped(cfg, Draining(cfg, n, m, job, k + 1))
  {
    var s := Chain(cfg, n, m, Draining(cfg, n, m, job, k), Ask(k, 0));
    s := Chain(cfg, n, m, s, ConsumerSleep(k));
    assert s.consumers == Sleepers(m, k + 1);
    assert s == Draining(cfg, n, m, job, k + 1);
  }

  /** Nothing is left to come, consumer 0 sleeps and no worker does anything. */
  predicate WorkDone(s: State, n: nat) {
    && s.stopping && s.pending == [] && |s.consumers| > 0 && s.consumers[0].Asleep?
    && |s.workers| == n && forall w :: 0 <= w < n ==> s.workers[w].Ready? || s.workers[w].Exited?
  }

  /** Worker 0 has taken the last job, and stands where worker says. */
  function LastJob(cfg: Config, n: nat, m: nat, job: Job, asleep: nat, worker: Worker): State
    requires n > 0
  {
    var s := Draining(cfg, n, m, job, asleep);
    s.(pending := [], started := [job], workers := s.workers[0 := worker])
  }

  lemma LastJobTaken(cfg: Config, n: nat, m: nat, job: Job, asleep: nat)
    requires cfg.Valid() && n > 0
    requires Reachable(cfg, n, m, Draining(cfg, n, m, job, asleep)) && Shaped(cfg, Draining(cfg, n, m, job, asleep))
    ensures var s := LastJob(cfg, n, m, job, asleep, Running(cfg.Handed(job)));
            Reachable(cfg, n, m, s) && Shaped(cfg, s)
  {
    var s := Chain(cfg, n, m, Draining(cfg, n, m, job, asleep), Take(0));
    assert s == LastJob(cfg, n, m, job, asleep, Running(cfg.Handed(job)));
  }

  lemma LastJobFinished(cfg: Config, n: nat, m: nat, job: Job, asleep: nat)
    requires cfg.Valid() && n > 0
    requires Reachable(cfg, n, m, Draining(cfg, n, m, job, asleep)) && Shaped(cfg, Draining(cfg, n, m, job, asleep))
    ensures var s := LastJob(cfg, n, m, job, asleep, Delivering(cfg.Handed(job)));
            Reachable(cfg, n, m, s) && Shaped(cfg, s)
  {
    LastJobTaken(cfg, n, m, job, asleep);
    var s := Chain(cfg, n, m, LastJob(cfg, n, m, job, asleep, Running(cfg.Handed(job))), Finish(0));
    assert s == LastJob(cfg, n, m, job, asleep, Delivering(cfg.Handed(job)));
  }

  /** pop_completed_wait gives up while a worker still runs the last job, of that very channel. */
  lemma GivesUpTooEarly(cfg: Config, n: nat, m: nat) returns (s: State)
    requires cfg.Valid() && n > 0 && m > 0 && cfg.Channels() > 0
    ensures Reachable(cfg, n, m, s) && Shaped(cfg, s) && Enabled(cfg, s, GiveUp(0))
    ensures |s.workers| == n && |s.consumers| == m
    ensures s.consumers[0] == Waiting(0) && HoldsJob(s.workers[0]) && s.workers[0].job.channel == 0
  {
    var job := Job(0, 1, 1, 0);
    DrainStarts(cfg, n, m, job);
    LastJobTaken(cfg, n, m, job, 0);
    s := Chain(cfg, n, m, LastJob(cfg, n, m, job, 0, Running(cfg.Handed(job))), Ask(0, 0));
  }

  /** Worker 0 runs the last job; its delivery wakes nobody, or a consumer other than the first. */
  lemma LastJobDone(cfg: Config, n: nat, m: nat, job: Job, asleep: nat, wake: int) returns (s: State)
    requires cfg.Valid() && n > 0 && 0 < asleep <= m && wake != 0 && job.channel < cfg.Channels()
    requires LegalWake(Sleepers(m, asleep), wake, AsleepForResult(job.channel))
    requires Reachable(cfg, n, m, Draining(cfg, n, m, job, asleep)) && Shaped(cfg, Draining(cfg, n, m, job, asleep))
    ensures Reachable(cfg, n, m, s) && Shaped(cfg, s) && WorkDone(s, n)
  {
    LastJobFinished(cfg, n, m, job, asleep);
    s := Chain(cfg, n, m, LastJob(cfg, n, m, job, asleep, Delivering(cfg.Handed(job))), Deliver(0, wake));
  }

  /** The workers leave one after the other. */
  lemma {:induction false} AllLeave(cfg: Config, n: nat, m: nat, s: State, k: nat) returns (t: State)
    requires cfg.Valid() && Reachable(cfg, n, m, s) && Shaped(cfg, s) && WorkDone(s, n) && k <= n
    requires forall w :: 0 <= w < k ==> s.workers[w].Exited?
    ensures Reachable(cfg, n, m, t) && Stranded(t, 0)
    decreases n - k
  {
    if k == n {
      t := s;
    } else {
      t := s;
      if s.workers[k].Ready? { t := Chain(cfg, n, m, s, Exit(k)); }
      t := AllLeave(cfg, n, m, t, k + 1);
    }
  }

  /** With a second channel: the last job of the drain is for another channel than the consumer's. */
  lemma OtherChannelStrands(cfg: Config, n: nat, m: nat) returns (s: State)
    requires cfg.Valid() && n > 0 && m > 0 && cfg.Channels() > 1
    ensures Reachable(cfg, n, m, s) && Stranded(s, 0)
  {
    var job := Job(1, 1, 1, 0);
    DrainStarts(cfg, n, m, job);
    OneMoreAsleep(cfg, n, m, job, 0);
    s := LastJobDone(cfg, n, m, job, 1, -1);
    s := AllLeave(cfg, n, m, s, 0);
  }

  /** With a second consumer, even on the same channel: the last result wakes only that one. */
  lemma OtherConsumerStrands(cfg: Config, n: nat, m: nat) returns (s: State)
    requires cfg.Valid() && n > 0 && m > 1 && cfg.Channels() > 0
    ensures Reachable(cfg, n, m, s) && Stranded(s, 0)
  {
    var job := Job(0, 1, 1, 0);
    DrainStarts(cfg, n, m, job);
    OneMoreAsleep(cfg, n, m, job, 0);
    OneMoreAsleep(cfg, n, m, job, 1);
    assert AsleepForResult(0)(Sleepers(m, 2)[1]);
    s := LastJobDone(cfg, n, m, job, 2, 1);
    s := AllLeave(cfg, n, m, s, 0);
  }

  /**
   In no run does a stop leave a consumer asleep for good, if and only if there is no consumer, or there is
   one consumer and one channel.
   */
  lemma NobodyStranded(cfg: Config, n: nat, m: nat)
    requires cfg.Valid() && n > 0 && cfg.Channels() > 0
    ensures (forall s :: Reachable(cfg, n, m, s) ==> !SomebodyStranded(s))
            <==> m == 0 || (m == 1 && cfg.Channels() == 1)
  {
    if m > 1 {
      var s := OtherConsumerStrands(cfg, n, m);
    } else if m == 1 && cfg.Channels() > 1 {
      var s := OtherChannelStrands(cfg, n, m);
    } else {
      forall s | Reachable(cfg, n, m, s) ensures !SomebodyStranded(s) {
        if m == 1 {
          OneConsumerNeverStranded(cfg, n, s);
        } else {
          var steps :| Run(cfg, Init(cfg, n, m), steps, s);
          SameThreads(cfg, Init(cfg, n, m), steps, s);
        }
      }
    }
  }
}
