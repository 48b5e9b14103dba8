/**
 The worker pool of job_manager.cpp as a transition system: one step for each critical section
 that runs between taking and releasing (or waiting on) the pool's mutex.

 A step that signals a condition variable carries the scheduler's choice of whom to wake, so the
 set of runs covers every interleaving, every choice of woken thread and every spurious wake-up.
 */
module JobPool {

  /** A machine pointer; 0 is NULL. */
  type Ptr = nat

  datatype Job = Job(channel: nat, fn: Ptr, data0: Ptr, data1: Ptr)

  /** Where a worker stands in worker_loop. */
  datatype Worker =
    | Ready                    // awake, about to look at the pending ring
    | IdleAsleep               // asleep on m_has_jobs
    | Running(job: Job)        // executing the job outside the lock
    | Delivering(job: Job)     // awake, about to look at its channel's completed ring
    | RoomAsleep(job: Job)     // asleep on m_room_completed[job.channel]
    | Exited

  /** A thread that may call pop_completed_wait. */
  datatype Consumer = Away | Waiting(channel: nat) | Asleep(channel: nat)

  /**
   copiesData1 says whether ring_t::pop copies m_job_data1 to its caller. The code at hand does
   not (lines 82-92), which is the setting false; true is the ring with that assignment in place.
   */
  datatype Config = Config(pendingCapacity: nat, ringCapacities: seq<nat>, copiesData1: bool) {
    predicate Valid() {
      && pendingCapacity > 0
      && forall c :: 0 <= c < |ringCapacities| ==> ringCapacities[c] > 0
    }

    function Channels(): nat { |ringCapacities| }

    /** The job as a worker sees it after popping it into locals that start out NULL. */
    function Handed(job: Job): Job {
      if copiesData1 then job else job.(data1 := 0)
    }

    function HandAll(jobs: seq<Job>): (r: seq<Job>)
      ensures |r| == |jobs|
    {
      if jobs == [] then [] else [Handed(jobs[0])] + HandAll(jobs[1..])
    }
  }

  /** The shared state, followed by history variables that record what has happened so far. */
  datatype State = State(
    workers: seq<Worker>,
    consumers: seq<Consumer>,
    pending: seq<Job>,
    completed: seq<seq<Job>>,
    stopping: bool,
    drain: bool,
    accepted: seq<Job>,        // jobs submit said yes to
    dropped: seq<Job>,         // jobs discarded by stop(0)
    started: seq<Job>,         // jobs taken from the pending ring
    popped: seq<seq<Job>>      // per channel, what consumers received
  )

  /** A wake of -1 says that nobody was asleep on the signalled condition variable. */
  datatype Step =
    | Submit(job: Job, wake: int)
    | Take(w: nat)
    | Idle(w: nat)
    | Exit(w: nat)
    | Finish(w: nat)
    | Block(w: nat)
    | Deliver(w: nat, wake: int)
    | SpuriousWorker(w: nat)
    | Ask(k: nat, c: nat)
    | ConsumerSleep(k: nat)
    | ConsumerPop(k: nat, wake: int)
    | GiveUp(k: nat)
    | SpuriousConsumer(k: nat)
    | PopNow(c: nat, wake: int)
    | Stop(drains: bool)

  function Init(cfg: Config, workers: nat, consumers: nat): State {
    State(seq(workers, _ => Ready), seq(consumers, _ => Away), [], seq(cfg.Channels(), _ => []),
          false, true, [], [], [], seq(cfg.Channels(), _ => []))
  }

  // ---------------------------------------------------------------- threads

  function AsleepForRoom(c: nat): Worker -> bool {
    (w: Worker) => w.RoomAsleep? && w.job.channel == c
  }

  function AwakeForRoom(c: nat): Worker -> bool {
    (w: Worker) => w.Delivering? && w.job.channel == c
  }

  function AsleepForResult(c: nat): Consumer -> bool {
    (k: Consumer) => k == Asleep(c)
  }

  function AwakeForResult(c: nat): Consumer -> bool {
    (k: Consumer) => k == Waiting(c)
  }

  predicate IsIdle(w: Worker) { w.IdleAsleep? }
  predicate IsReady(w: Worker) { w.Ready? }
  predicate HoldsJob(w: Worker) { w.Running? || w.Delivering? || w.RoomAsleep? }

  predicate LegalWake<T>(threads: seq<T>, wake: int, asleep: T -> bool) {
    if wake < 0
    then wake == -1 && forall i :: 0 <= i < |threads| ==> !asleep(threads[i])
    else wake < |threads| && asleep(threads[wake])
  }

  function Woken(w: Worker): Worker {
    match w
    case IdleAsleep => Ready
    case RoomAsleep(job) => Delivering(job)
    case _ => w
  }

  function WokenConsumer(k: Consumer): Consumer {
    match k
    case Asleep(c) => Waiting(c)
    case _ => k
  }

  function WakeWorker(ws: seq<Worker>, wake: int): (r: seq<Worker>)
    requires wake < |ws|
  {
    if wake < 0 then ws else ws[wake := Woken(ws[wake])]
  }

  function WakeConsumer(ks: seq<Consumer>, wake: int): seq<Consumer>
    requires wake < |ks|
  {
    if wake < 0 then ks else ks[wake := WokenConsumer(ks[wake])]
  }

  // ---------------------------------------------------------------- steps

  predicate Shaped(cfg: Config, s: State) {
    && cfg.Valid()
    && |s.completed| == |s.popped| == cfg.Channels()
    && |s.pending| <= cfg.pendingCapacity
    && (forall c :: 0 <= c < cfg.Channels() ==> |s.completed[c]| <= cfg.ringCapacities[c])
    && (forall j :: 0 <= j < |s.pending| ==> s.pending[j].channel < cfg.Channels())
    && (forall w :: 0 <= w < |s.workers| && HoldsJob(s.workers[w]) ==> s.workers[w].job.channel < cfg.Channels())
    && (forall k :: 0 <= k < |s.consumers| && !s.consumers[k].Away? ==> s.consumers[k].channel < cfg.Channels())
  }

  lemma InitShaped(cfg: Config, workers: nat, consumers: nat)
    requires cfg.Valid()
    ensures Shaped(cfg, Init(cfg, workers, consumers))
  {
  }

  predicate Full(cfg: Config, s: State, c: nat)
    requires Shaped(cfg, s) && c < cfg.Channels()
  {
    |s.completed[c]| == cfg.ringCapacities[c]
  }

  predicate Enabled(cfg: Config, s: State, step: Step)
    requires Shaped(cfg, s)
  {
    match step
    case Submit(job, wake) =>
      && job.fn != 0 && job.data0 != 0 && job.channel < cfg.Channels()
      && !s.stopping && |s.pending| < cfg.pendingCapacity
      && LegalWake(s.workers, wake, IsIdle)
    case Take(w) => w < |s.workers| && s.workers[w].Ready? && s.pending != []
    case Idle(w) => w < |s.workers| && s.workers[w].Ready? && s.pending == [] && !s.stopping
    case Exit(w) => w < |s.workers| && s.workers[w].Ready? && s.pending == [] && s.stopping
    case Finish(w) => w < |s.workers| && s.workers[w].Running?
    case Block(w) => w < |s.workers| && s.workers[w].Delivering? && Full(cfg, s, s.workers[w].job.channel)
    case Deliver(w, wake) =>
      && w < |s.workers| && s.workers[w].Delivering? && !Full(cfg, s, s.workers[w].job.channel)
      && LegalWake(s.consumers, wake, AsleepForResult(s.workers[w].job.channel))
    case SpuriousWorker(w) => w < |s.workers| && (s.workers[w].IdleAsleep? || s.workers[w].RoomAsleep?)
    case Ask(k, c) => k < |s.consumers| && s.consumers[k].Away? && c < cfg.Channels()
    case ConsumerSleep(k) =>
      && k < |s.consumers| && s.consumers[k].Waiting? && s.completed[s.consumers[k].channel] == []
      && !(s.stopping && s.pending == [])
    case ConsumerPop(k, wake) =>
      && k < |s.consumers| && s.consumers[k].Waiting? && s.completed[s.consumers[k].channel] != []
      && LegalWake(s.workers, wake, AsleepForRoom(s.consumers[k].channel))
    case GiveUp(k) =>
      && k < |s.consumers| && s.consumers[k].Waiting? && s.completed[s.consumers[k].channel] == []
      && s.stopping && s.pending == []
    case SpuriousConsumer(k) => k < |s.consumers| && s.consumers[k].Asleep?
    case PopNow(c, wake) =>
      && c < cfg.Channels() && s.completed[c] != []
      && LegalWake(s.workers, wake, AsleepForRoom(c))
    case Stop(_) => !s.stopping
  }

  /** A consumer takes the oldest result of channel c and signals m_room_completed[c]. */
  function PopResult(cfg: Config, s: State, c: nat, wake: int): State
    requires Shaped(cfg, s) && c < cfg.Channels() && s.completed[c] != [] && wake < |s.workers|
  {
    s.(completed := s.completed[c := s.completed[c][1..]],
       popped := s.popped[c := s.popped[c] + [s.completed[c][0]]],
       workers := WakeWorker(s.workers, wake))
  }

  /** Steps after which only one worker's phase has changed. */
  predicate IsWorkerMove(step: Step) {
    step.Idle? || step.Exit? || step.Finish? || step.Block? || step.SpuriousWorker?
  }

  function MovedWorker(w: Worker, step: Step): Worker
    requires IsWorkerMove(step)
    requires step.Finish? || step.Block? ==> HoldsJob(w)
  {
    match step
    case Idle(_) => IdleAsleep
    case Exit(_) => Exited
    case Finish(_) => Delivering(w.job)
    case Block(_) => RoomAsleep(w.job)
    case SpuriousWorker(_) => Woken(w)
  }

  /** Steps after which only one consumer's phase has changed. */
  predicate IsConsumerMove(step: Step) {
    step.Ask? || step.ConsumerSleep? || step.GiveUp? || step.SpuriousConsumer?
  }

  function MovedConsumer(k: Consumer, step: Step): Consumer
    requires IsConsumerMove(step)
    requires step.ConsumerSleep? ==> k.Waiting?
  {
    match step
    case Ask(_, c) => Waiting(c)
    case ConsumerSleep(_) => Asleep(k.channel)
    case GiveUp(_) => Away
    case SpuriousConsumer(_) => WokenConsumer(k)
  }

  function Submitted(s: State, job: Job, wake: int): State
    requires wake < |s.workers|
  {
    s.(pending := s.pending + [job], accepted := s.accepted + [job], workers := WakeWorker(s.workers, wake))
  }

  function Taken(cfg: Config, s: State, w: nat): State
    requires w < |s.workers| && s.pending != []
  {
    s.(pending := s.pending[1..], started := s.started + [s.pending[0]],
       workers := s.workers[w := Running(cfg.Handed(s.pending[0]))])
  }

  /** Worker w appends its job to the job's own ring, signals that channel and goes for the next job. */
  function Delivered(s: State, w: nat, wake: int): State
    requires w < |s.workers| && HoldsJob(s.workers[w]) && s.workers[w].job.channel < |s.completed|
    requires wake < |s.consumers|
  {
    var job := s.workers[w].job;
    s.(completed := s.completed[job.channel := s.completed[job.channel] + [job]],
       workers := s.workers[w := Ready], consumers := WakeConsumer(s.consumers, wake))
  }

  /** The first stop: it broadcasts every condition variable and, unless draining, empties pending. */
  function Stopped(s: State, drains: bool): State {
    s.(stopping := true, drain := drains,
       dropped := if drains then s.dropped else s.dropped + s.pending,
       pending := if drains then s.pending else [],
       workers := seq(|s.workers|, i requires 0 <= i < |s.workers| => Woken(s.workers[i])),
       consumers := seq(|s.consumers|, i requires 0 <= i < |s.consumers| => WokenConsumer(s.consumers[i])))
  }

  function Next(cfg: Config, s: State, step: Step): State
    requires Shaped(cfg, s) && Enabled(cfg, s, step)
  {
    if IsWorkerMove(step) then
      s.(workers := s.workers[step.w := MovedWorker(s.workers[step.w], step)])
    else if IsConsumerMove(step) then
      s.(consumers := s.consumers[step.k := MovedConsumer(s.consumers[step.k], step)])
    else match step
      case Submit(job, wake) => Submitted(s, job, wake)
      case Take(w) => Taken(cfg, s, w)
      case Deliver(w, wake) => Delivered(s, w, wake)
      case ConsumerPop(k, wake) =>
        PopResult(cfg, s, s.consumers[k].channel, wake).(consumers := s.consumers[k := Away])
      case PopNow(c, wake) => PopResult(cfg, s, c, wake)
      case Stop(drains) => Stopped(s, drains)
  }

  lemma TakenShaped(cfg: Config, s: State, w: nat)
    requires Shaped(cfg, s) && w < |s.workers| && s.pending != []
    ensures Shaped(cfg, Taken(cfg, s, w))
  {
  }

  lemma DeliveredShaped(cfg: Config, s: State, w: nat, wake: int)
    requires Shaped(cfg, s) && w < |s.workers| && HoldsJob(s.workers[w])
    requires !Full(cfg, s, s.workers[w].job.channel) && wake < |s.consumers|
    ensures Shaped(cfg, Delivered(s, w, wake))
  {
  }

  lemma PopShaped(cfg: Config, s: State, c: nat, wake: int)
    requires Shaped(cfg, s) && c < cfg.Channels() && s.completed[c] != [] && wake < |s.workers|
    ensures Shaped(cfg, PopResult(cfg, s, c, wake))
  {
  }

  lemma WorkerMoveShaped(cfg: Config, s: State, step: Step)
    requires Shaped(cfg, s) && Enabled(cfg, s, step) && IsWorkerMove(step)
    ensures Shaped(cfg, Next(cfg, s, step))
  {
    var w := s.workers[step.w];
    assert HoldsJob(MovedWorker(w, step)) ==> HoldsJob(w) && MovedWorker(w, step).job == w.job;
  }

  lemma ConsumerMoveShaped(cfg: Config, s: State, step: Step)
    requires Shaped(cfg, s) && Enabled(cfg, s, step) && IsConsumerMove(step)
    ensures Shaped(cfg, Next(cfg, s, step))
  {
    var k := MovedConsumer(s.consumers[step.k], step);
    assert !k.Away? ==> k.channel < cfg.Channels();
  }

  lemma SubmittedShaped(cfg: Config, s: State, job: Job, wake: int)
    requires Shaped(cfg, s) && job.channel < cfg.Channels() && |s.pending| < cfg.pendingCapacity
    requires wake < |s.workers|
    ensures Shaped(cfg, Submitted(s, job, wake))
  {
  }

  lemma StoppedShaped(cfg: Config, s: State, drains: bool)
    requires Shaped(cfg, s)
    ensures Shaped(cfg, Stopped(s, drains))
  {
  }

  lemma StepShaped(cfg: Config, s: State, step: Step)
    requires Shaped(cfg, s) && Enabled(cfg, s, step)
    ensures Shaped(cfg, Next(cfg, s, step))
  {
    if IsWorkerMove(step) {
      WorkerMoveShaped(cfg, s, step);
    } else if IsConsumerMove(step) {
      ConsumerMoveShaped(cfg, s, step);
    } else {
      match step
      case Submit(job, wake) => SubmittedShaped(cfg, s, job, wake);
      case Take(w) => TakenShaped(cfg, s, w);
      case Deliver(w, wake) => DeliveredShaped(cfg, s, w, wake);
      case ConsumerPop(k, wake) => PopShaped(cfg, s, s.consumers[k].channel, wake);
      case PopNow(c, wake) => PopShaped(cfg, s, c, wake);
      case Stop(drains) => StoppedShaped(cfg, s, drains);
    }
  }

  // ---------------------------------------------------------------- runs

  /** steps leads from s to t, one enabled step at a time. */
  ghost predicate Run(cfg: Config, s: State, steps: seq<Step>, t: State)
    decreases |steps|
  {
    && Shaped(cfg, s)
    && if steps == [] then s == t
       else Enabled(cfg, s, steps[0]) && Run(cfg, Next(cfg, s, steps[0]), steps[1..], t)
  }

  /** What n workers and m consumers can bring about, starting from a fresh pool. */
  ghost predicate Reachable(cfg: Config, n: nat, m: nat, s: State) {
    exists steps :: Run(cfg, Init(cfg, n, m), steps, s)
  }
}
