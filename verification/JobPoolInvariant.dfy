/** What every step of the worker pool keeps: where jobs are, in what order, and who must be awake. */
module JobPoolInvariant {
  import opened Counting
  import opened JobPool

  // ---------------------------------------------------------------- where the jobs are

  function Holding(job: Job): Worker -> bool {
    (w: Worker) => HoldsJob(w) && w.job == job
  }

  /** How many workers have this job in their hands. */
  function HeldTimes(ws: seq<Worker>, job: Job): nat { Count(ws, Holding(job)) }

  lemma {:induction false} HandAllConcat(cfg: Config, a: seq<Job>, b: seq<Job>)
    ensures cfg.HandAll(a + b) == cfg.HandAll(a) + cfg.HandAll(b)
  {
    if a == [] {
      assert a + b == b;
    } else {
      assert (a + b)[1..] == a[1..] + b;
      HandAllConcat(cfg, a[1..], b);
    }
  }

  /** Every accepted job was started, is pending, or was dropped, in submission order. */
  predicate InOrder(s: State) {
    s.accepted == s.started + s.pending + s.dropped
  }

  /** Every started job is in exactly one place: a worker's hands, a ring, or a consumer's. */
  ghost predicate Accounted(cfg: Config, s: State, job: Job) {
    Times(cfg.HandAll(s.started), job)
    == HeldTimes(s.workers, job) + TimesAll(s.completed, job) + TimesAll(s.popped, job)
  }

  predicate OwnChannels(s: State) {
    && (forall c, j :: 0 <= c < |s.completed| && 0 <= j < |s.completed[c]| ==> s.completed[c][j].channel == c)
    && (forall c, j :: 0 <= c < |s.popped| && 0 <= j < |s.popped[c]| ==> s.popped[c][j].channel == c)
  }

  lemma StepInOrder(cfg: Config, s: State, step: Step)
    requires Shaped(cfg, s) && Enabled(cfg, s, step) && InOrder(s)
    requires !s.stopping ==> s.dropped == []
    ensures InOrder(Next(cfg, s, step))
  {
    if step.Take? {
      assert s.pending == [s.pending[0]] + s.pending[1..];
    }
  }

  lemma PopAccounted(cfg: Config, s: State, c: nat, wake: int, job: Job)
    requires Shaped(cfg, s) && c < cfg.Channels() && s.completed[c] != [] && wake < |s.workers|
    requires Accounted(cfg, s, job)
    ensures Accounted(cfg, PopResult(cfg, s, c, wake), job)
  {
    var ring := s.completed[c];
    CountSame(s.workers, WakeWorker(s.workers, wake), Holding(job));
    TimesAllUpdate(s.completed, c, ring[1..], job);
    TimesAllUpdate(s.popped, c, s.popped[c] + [ring[0]], job);
    assert ring == [ring[0]] + ring[1..];
    CountConcat([ring[0]], ring[1..], Is(job));
    CountConcat(s.popped[c], [ring[0]], Is(job));
  }

  lemma TakeAccounted(cfg: Config, s: State, w: nat, job: Job)
    requires w < |s.workers| && s.workers[w].Ready? && s.pending != [] && Accounted(cfg, s, job)
    ensures Accounted(cfg, Taken(cfg, s, w), job)
  {
    var taken := s.pending[0];
    CountUpdate(s.workers, w, Running(cfg.Handed(taken)), Holding(job));
    HandAllConcat(cfg, s.started, [taken]);
    assert cfg.HandAll([taken]) == [cfg.Handed(taken)];
    CountConcat(cfg.HandAll(s.started), [cfg.Handed(taken)], Is(job));
  }

  lemma DeliverAccounted(cfg: Config, s: State, w: nat, wake: int, job: Job)
    requires w < |s.workers| && HoldsJob(s.workers[w]) && s.workers[w].job.channel < |s.completed|
    requires wake < |s.consumers| && Accounted(cfg, s, job)
    ensures Accounted(cfg, Delivered(s, w, wake), job)
  {
    var done := s.workers[w].job;
    var ring := s.completed[done.channel];
    CountUpdate(s.workers, w, Ready, Holding(job));
    TimesAllUpdate(s.completed, done.channel, ring + [done], job);
    CountConcat(ring, [done], Is(job));
  }

  lemma MoveAccounted(cfg: Config, s: State, step: Step, job: Job)
    requires Shaped(cfg, s) && Enabled(cfg, s, step) && IsWorkerMove(step) && Accounted(cfg, s, job)
    ensures Accounted(cfg, Next(cfg, s, step), job)
  {
    CountUpdate(s.workers, step.w, MovedWorker(s.workers[step.w], step), Holding(job));
  }

  lemma StepAccounted(cfg: Config, s: State, step: Step, job: Job)
    requires Shaped(cfg, s) && Enabled(cfg, s, step) && Accounted(cfg, s, job)
    ensures Accounted(cfg, Next(cfg, s, step), job)
  {
    if IsWorkerMove(step) {
      MoveAccounted(cfg, s, step, job);
    } else if !IsConsumerMove(step) {
      match step
      case Submit(_, wake) => CountSame(s.workers, WakeWorker(s.workers, wake), Holding(job));
      case Take(w) => TakeAccounted(cfg, s, w, job);
      case Deliver(w, wake) => DeliverAccounted(cfg, s, w, wake, job);
      case ConsumerPop(k, wake) => PopAccounted(cfg, s, s.consumers[k].channel, wake, job);
      case PopNow(c, wake) => PopAccounted(cfg, s, c, wake, job);
      case Stop(drains) => CountSame(s.workers, Stopped(s, drains).workers, Holding(job));
    }
  }

  lemma StepOwnChannels(cfg: Config, s: State, step: Step)
    requires Shaped(cfg, s) && Enabled(cfg, s, step) && OwnChannels(s)
    ensures OwnChannels(Next(cfg, s, step))
  {
  }

  // ---------------------------------------------------------------- who must be awake

  /** A sleeper on m_has_jobs leaves at least one awake taker for each pending job. */
  predicate JobsWatched(s: State) {
    Count(s.workers, IsIdle) > 0 ==> Count(s.workers, IsReady) >= |s.pending|
  }

  /** A sleeper on m_room_completed[c] leaves an awake deliverer for each free slot of ring c. */
  predicate RoomWatched(cfg: Config, s: State, c: nat)
    requires Shaped(cfg, s) && c < cfg.Channels()
  {
    Count(s.workers, AsleepForRoom(c)) > 0 ==>
      Count(s.workers, AwakeForRoom(c)) >= cfg.ringCapacities[c] - |s.completed[c]|
  }

  /** A sleeper on m_has_completed[c] leaves an awake consumer for each result in ring c. */
  predicate ResultsWatched(cfg: Config, s: State, c: nat)
    requires Shaped(cfg, s) && c < cfg.Channels()
  {
    Count(s.consumers, AsleepForResult(c)) > 0 ==>
      Count(s.consumers, AwakeForResult(c)) >= |s.completed[c]|
  }

  predicate Watched(cfg: Config, s: State)
    requires Shaped(cfg, s)
  {
    && JobsWatched(s)
    && forall c :: 0 <= c < cfg.Channels() ==> RoomWatched(cfg, s, c) && ResultsWatched(cfg, s, c)
  }

  lemma NobodyAsleep<T>(threads: seq<T>, p: T -> bool)
    requires forall i :: 0 <= i < |threads| ==> !p(threads[i])
    ensures Count(threads, p) == 0
  {
    CountPositive(threads, p);
  }

  /** How one worker's move changes the four counts the wake-up invariants speak of. */
  lemma WorkerMoves(ws: seq<Worker>, w: nat, x: Worker, c: nat)
    requires w < |ws|
    ensures Count(ws[w := x], IsIdle) + Bit(ws[w].IdleAsleep?) == Count(ws, IsIdle) + Bit(x.IdleAsleep?)
    ensures Count(ws[w := x], IsReady) + Bit(ws[w].Ready?) == Count(ws, IsReady) + Bit(x.Ready?)
    ensures Count(ws[w := x], AsleepForRoom(c)) + Bit(AsleepForRoom(c)(ws[w]))
         == Count(ws, AsleepForRoom(c)) + Bit(AsleepForRoom(c)(x))
    ensures Count(ws[w := x], AwakeForRoom(c)) + Bit(AwakeForRoom(c)(ws[w]))
         == Count(ws, AwakeForRoom(c)) + Bit(AwakeForRoom(c)(x))
  {
    CountUpdate(ws, w, x, IsIdle);
    CountUpdate(ws, w, x, IsReady);
    CountUpdate(ws, w, x, AsleepForRoom(c));
    CountUpdate(ws, w, x, AwakeForRoom(c));
  }

  lemma ConsumerMoves(ks: seq<Consumer>, k: nat, x: Consumer, c: nat)
    requires k < |ks|
    ensures Count(ks[k := x], AsleepForResult(c)) + Bit(ks[k] == Asleep(c))
         == Count(ks, AsleepForResult(c)) + Bit(x == Asleep(c))
    ensures Count(ks[k := x], AwakeForResult(c)) + Bit(ks[k] == Waiting(c))
         == Count(ks, AwakeForResult(c)) + Bit(x == Waiting(c))
  {
    CountUpdate(ks, k, x, AsleepForResult(c));
    CountUpdate(ks, k, x, AwakeForResult(c));
  }

  lemma WorkerSignalled(ws: seq<Worker>, wake: int, asleep: Worker -> bool, c: nat)
    requires LegalWake(ws, wake, asleep)
    ensures if wake < 0 then WakeWorker(ws, wake) == ws && Count(ws, asleep) == 0
            else
              var vs := WakeWorker(ws, wake);
              && Count(vs, IsIdle) + Bit(ws[wake].IdleAsleep?) == Count(ws, IsIdle)
              && Count(vs, IsReady) + Bit(ws[wake].Ready?) == Count(ws, IsReady) + Bit(Woken(ws[wake]).Ready?)
              && Count(vs, AsleepForRoom(c)) + Bit(AsleepForRoom(c)(ws[wake])) == Count(ws, AsleepForRoom(c))
              && Count(vs, AwakeForRoom(c)) + Bit(AwakeForRoom(c)(ws[wake]))
                 == Count(ws, AwakeForRoom(c)) + Bit(AwakeForRoom(c)(Woken(ws[wake])))
  {
    if wake < 0 {
      NobodyAsleep(ws, asleep);
    } else {
      WorkerMoves(ws, wake, Woken(ws[wake]), c);
    }
  }

  lemma StepJobsWatched(cfg: Config, s: State, step: Step)
    requires Shaped(cfg, s) && Enabled(cfg, s, step) && JobsWatched(s)
    ensures JobsWatched(Next(cfg, s, step))
  {
    if IsWorkerMove(step) {
      WorkerMoves(s.workers, step.w, MovedWorker(s.workers[step.w], step), 0);
    } else if !IsConsumerMove(step) {
      match step
      case Submit(job, wake) => WorkerSignalled(s.workers, wake, IsIdle, 0);
      case Take(w) => WorkerMoves(s.workers, w, Running(cfg.Handed(s.pending[0])), 0);
      case Deliver(w, wake) => WorkerMoves(s.workers, w, Ready, 0);
      case ConsumerPop(k, wake) => WorkerSignalled(s.workers, wake, AsleepForRoom(s.consumers[k].channel), 0);
      case PopNow(c, wake) => WorkerSignalled(s.workers, wake, AsleepForRoom(c), 0);
      case Stop(drains) => NobodyAsleep(Stopped(s, drains).workers, IsIdle);
    }
  }

  lemma PopRoomWatched(cfg: Config, s: State, d: nat, wake: int, c: nat)
    requires Shaped(cfg, s) && d < cfg.Channels() && s.completed[d] != []
    requires LegalWake(s.workers, wake, AsleepForRoom(d))
    requires c < cfg.Channels() && RoomWatched(cfg, s, c)
    ensures Shaped(cfg, PopResult(cfg, s, d, wake)) && RoomWatched(cfg, PopResult(cfg, s, d, wake), c)
  {
    WorkerSignalled(s.workers, wake, AsleepForRoom(d), c);
  }

  lemma DeliverRoomWatched(cfg: Config, s: State, w: nat, wake: int, c: nat)
    requires Shaped(cfg, s) && Enabled(cfg, s, Deliver(w, wake)) && c < cfg.Channels() && RoomWatched(cfg, s, c)
    ensures Shaped(cfg, Next(cfg, s, Deliver(w, wake))) && RoomWatched(cfg, Next(cfg, s, Deliver(w, wake)), c)
  {
    StepShaped(cfg, s, Deliver(w, wake));
    WorkerMoves(s.workers, w, Ready, c);
  }

  lemma StepRoomWatched(cfg: Config, s: State, step: Step, c: nat)
    requires Shaped(cfg, s) && Enabled(cfg, s, step) && c < cfg.Channels() && RoomWatched(cfg, s, c)
    ensures Shaped(cfg, Next(cfg, s, step)) && RoomWatched(cfg, Next(cfg, s, step), c)
  {
    StepShaped(cfg, s, step);
    if IsWorkerMove(step) {
      WorkerMoves(s.workers, step.w, MovedWorker(s.workers[step.w], step), c);
    } else if !IsConsumerMove(step) {
      match step
      case Submit(job, wake) => WorkerSignalled(s.workers, wake, IsIdle, c);
      case Take(w) => WorkerMoves(s.workers, w, Running(cfg.Handed(s.pending[0])), c);
      case Deliver(w, wake) => DeliverRoomWatched(cfg, s, w, wake, c);
      case ConsumerPop(k, wake) => PopRoomWatched(cfg, s, s.consumers[k].channel, wake, c);
      case PopNow(d, wake) => PopRoomWatched(cfg, s, d, wake, c);
      case Stop(drains) => NobodyAsleep(Stopped(s, drains).workers, AsleepForRoom(c));
    }
  }

  lemma DeliverResultsWatched(cfg: Config, s: State, w: nat, wake: int, c: nat)
    requires Shaped(cfg, s) && Enabled(cfg, s, Deliver(w, wake)) && c < cfg.Channels() && ResultsWatched(cfg, s, c)
    ensures Shaped(cfg, Delivered(s, w, wake)) && ResultsWatched(cfg, Delivered(s, w, wake), c)
  {
    if wake < 0 {
      NobodyAsleep(s.consumers, AsleepForResult(s.workers[w].job.channel));
    } else {
      ConsumerMoves(s.consumers, wake, WokenConsumer(s.consumers[wake]), c);
    }
  }

  lemma StepResultsWatched(cfg: Config, s: State, step: Step, c: nat)
    requires Shaped(cfg, s) && Enabled(cfg, s, step) && c < cfg.Channels() && ResultsWatched(cfg, s, c)
    ensures Shaped(cfg, Next(cfg, s, step)) && ResultsWatched(cfg, Next(cfg, s, step), c)
  {
    StepShaped(cfg, s, step);
    if IsConsumerMove(step) {
      ConsumerMoves(s.consumers, step.k, MovedConsumer(s.consumers[step.k], step), c);
    } else if !IsWorkerMove(step) {
      match step
      case Deliver(w, wake) => DeliverResultsWatched(cfg, s, w, wake, c);
      case ConsumerPop(k, wake) => ConsumerMoves(s.consumers, k, Away, c);
      case Stop(drains) => NobodyAsleep(Stopped(s, drains).consumers, AsleepForResult(c));
      case _ =>
    }
  }

  // ---------------------------------------------------------------- stopping

  /** What m_stopping and m_drain_mode rule out. */
  predicate StopRespected(s: State) {
    && (s.stopping ==> forall w :: 0 <= w < |s.workers| ==> !s.workers[w].IdleAsleep?)
    && (!s.stopping ==> s.drain && s.dropped == [])
    && (s.drain ==> s.dropped == [])
    && (forall w :: 0 <= w < |s.workers| && s.workers[w].Exited? ==> s.stopping && s.pending == [])
  }

  lemma StepStopRespected(cfg: Config, s: State, step: Step)
    requires Shaped(cfg, s) && Enabled(cfg, s, step) && StopRespected(s)
    ensures StopRespected(Next(cfg, s, step))
  {
    if IsWorkerMove(step) {
      MoveStopRespected(cfg, s, step);
    } else if !IsConsumerMove(step) {
      match step
      case Take(w) => TakeStopRespected(cfg, s, w);
      case Submit(_, wake) => SignalStopRespected(s, wake);
      case ConsumerPop(_, wake) => SignalStopRespected(s, wake);
      case PopNow(_, wake) => SignalStopRespected(s, wake);
      case _ =>
    }
  }

  lemma MoveStopRespected(cfg: Config, s: State, step: Step)
    requires Shaped(cfg, s) && Enabled(cfg, s, step) && IsWorkerMove(step) && StopRespected(s)
    ensures StopRespected(Next(cfg, s, step))
  {
  }

  lemma TakeStopRespected(cfg: Config, s: State, w: nat)
    requires w < |s.workers| && s.pending != [] && StopRespected(s)
    ensures StopRespected(Taken(cfg, s, w))
  {
  }

  lemma SignalStopRespected(s: State, wake: int)
    requires wake < |s.workers| && StopRespected(s)
    ensures StopRespected(s.(workers := WakeWorker(s.workers, wake)))
  {
  }

  // ---------------------------------------------------------------- all together, over all runs

  ghost predicate Inv(cfg: Config, s: State) {
    && Shaped(cfg, s) && InOrder(s) && OwnChannels(s)
    && (forall job :: Accounted(cfg, s, job))
    && Watched(cfg, s) && StopRespected(s)
  }

  lemma InitInv(cfg: Config, n: nat, m: nat)
    requires cfg.Valid()
    ensures Inv(cfg, Init(cfg, n, m))
  {
    var s := Init(cfg, n, m);
    forall job ensures Accounted(cfg, s, job) {
      TimesAllEmpty(s.completed, job);
      NobodyAsleep(s.workers, Holding(job));
    }
    NobodyAsleep(s.workers, IsIdle);
    forall c | 0 <= c < cfg.Channels() ensures RoomWatched(cfg, s, c) && ResultsWatched(cfg, s, c) {
      NobodyAsleep(s.workers, AsleepForRoom(c));
      NobodyAsleep(s.consumers, AsleepForResult(c));
    }
  }

  /** One step, whichever thread takes it, keeps the whole invariant. */
  lemma StepInv(cfg: Config, s: State, step: Step)
    requires Inv(cfg, s) && Enabled(cfg, s, step)
    ensures Inv(cfg, Next(cfg, s, step))
  {
    StepShaped(cfg, s, step);
    StepInOrder(cfg, s, step);
    forall job ensures Accounted(cfg, Next(cfg, s, step), job) {
      StepAccounted(cfg, s, step, job);
    }
    StepOwnChannels(cfg, s, step);
    StepJobsWatched(cfg, s, step);
    StepStopRespected(cfg, s, step);
    forall c | 0 <= c < cfg.Channels()
      ensures RoomWatched(cfg, Next(cfg, s, step), c) && ResultsWatched(cfg, Next(cfg, s, step), c)
    {
      StepRoomWatched(cfg, s, step, c);
      StepResultsWatched(cfg, s, step, c);
    }
  }

  lemma {:induction false} RunInv(cfg: Config, s: State, steps: seq<Step>, t: State)
    requires Inv(cfg, s) && Run(cfg, s, steps, t)
    ensures Inv(cfg, t)
    decreases |steps|
  {
    if steps != [] {
      StepInv(cfg, s, steps[0]);
      RunInv(cfg, Next(cfg, s, steps[0]), steps[1..], t);
    }
  }

  lemma ReachableInv(cfg: Config, n: nat, m: nat, s: State)
    requires cfg.Valid() && Reachable(cfg, n, m, s)
    ensures Inv(cfg, s)
  {
    var steps :| Run(cfg, Init(cfg, n, m), steps, s);
    InitInv(cfg, n, m);
    RunInv(cfg, Init(cfg, n, m), steps, s);
  }

  // ---------------------------------------------------------------- building runs

  lemma {:induction false} RunSnoc(cfg: Config, s: State, steps: seq<Step>, t: State, step: Step)
    requires Run(cfg, s, steps, t) && Shaped(cfg, t) && Enabled(cfg, t, step)
    ensures Run(cfg, s, steps + [step], Next(cfg, t, step))
    decreases |steps|
  {
    StepShaped(cfg, t, step);
    if steps == [] {
      var u := Next(cfg, t, step);
      assert Run(cfg, u, [], u);
      assert [step][1..] == [];
    } else {
      assert (steps + [step])[1..] == steps[1..] + [step];
      RunSnoc(cfg, Next(cfg, s, steps[0]), steps[1..], t, step);
    }
  }

  lemma ReachableNext(cfg: Config, n: nat, m: nat, s: State, step: Step)
    requires cfg.Valid() && Reachable(cfg, n, m, s)
    requires Shaped(cfg, s) && Enabled(cfg, s, step)
    ensures Reachable(cfg, n, m, Next(cfg, s, step)) && Shaped(cfg, Next(cfg, s, step))
  {
    var steps :| Run(cfg, Init(cfg, n, m), steps, s);
    RunSnoc(cfg, Init(cfg, n, m), steps, s, step);
    StepShaped(cfg, s, step);
  }

  lemma ReachableInit(cfg: Config, n: nat, m: nat)
    requires cfg.Valid()
    ensures Reachable(cfg, n, m, Init(cfg, n, m)) && Shaped(cfg, Init(cfg, n, m))
  {
    InitInv(cfg, n, m);
    assert Run(cfg, Init(cfg, n, m), [], Init(cfg, n, m));
  }
}
