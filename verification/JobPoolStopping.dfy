/** What stopping the worker pool guarantees: it terminates, it drains, and what its -1 means. */
module JobPoolStopping {
  import opened Counting
  import opened JobPool
  import opened JobPoolInvariant

  // ---------------------------------------------------------------- termination

  /** Steps by which a worker gets nearer to leaving worker_loop. */
  predicate IsProgress(step: Step) {
    step.Take? || step.Finish? || step.Deliver? || step.Exit?
  }

  predicate IsDelivery(step: Step) { step.Deliver? }

  function Rank(w: Worker): nat {
    match w
    case Exited => 0
    case Ready => 1
    case IdleAsleep => 1
    case Delivering(_) => 2
    case RoomAsleep(_) => 2
    case Running(_) => 3
  }

  function RankSum(ws: seq<Worker>): nat {
    if ws == [] then 0 else Rank(ws[0]) + RankSum(ws[1..])
  }

  lemma {:induction false} RankUpdate(ws: seq<Worker>, i: nat, x: Worker)
    requires i < |ws|
    ensures RankSum(ws[i := x]) + Rank(ws[i]) == RankSum(ws) + Rank(x)
  {
    if i == 0 {
      assert ws[i := x][1..] == ws[1..];
    } else {
      assert ws[i := x][1..] == ws[1..][i - 1 := x];
      RankUpdate(ws[1..], i - 1, x);
    }
  }

  /** Work left once nothing more can be submitted. */
  function WorkLeft(s: State): nat { 3 * |s.pending| + RankSum(s.workers) }

  lemma WakeKeepsRank(ws: seq<Worker>, wake: int)
    requires wake < |ws|
    ensures RankSum(WakeWorker(ws, wake)) == RankSum(ws)
  {
    if wake >= 0 { RankUpdate(ws, wake, Woken(ws[wake])); }
  }

  /** Once stopping, progress steps use up work and no other step creates any. */
  lemma StepUsesWork(cfg: Config, s: State, step: Step)
    requires Shaped(cfg, s) && Enabled(cfg, s, step) && s.stopping
    ensures var t := Next(cfg, s, step);
            t.stopping && if IsProgress(step) then WorkLeft(t) < WorkLeft(s) else WorkLeft(t) == WorkLeft(s)
  {
    if IsWorkerMove(step) {
      RankUpdate(s.workers, step.w, MovedWorker(s.workers[step.w], step));
    } else if !IsConsumerMove(step) {
      match step
      case Take(w) => RankUpdate(s.workers, w, Running(cfg.Handed(s.pending[0])));
      case Deliver(w, _) => RankUpdate(s.workers, w, Ready);
      case ConsumerPop(_, wake) => WakeKeepsRank(s.workers, wake);
      case PopNow(_, wake) => WakeKeepsRank(s.workers, wake);
    }
  }

  /**
   Stopping terminates: every run from a stopping pool, however long and with however many spurious
   wake-ups, holds no more progress steps than there was work left.
   */
  lemma {:induction false} StopTerminates(cfg: Config, s: State, steps: seq<Step>, t: State)
    requires Run(cfg, s, steps, t) && s.stopping
    ensures t.stopping && Count(steps, IsProgress) + WorkLeft(t) <= WorkLeft(s)
    decreases |steps|
  {
    if steps != [] {
      StepUsesWork(cfg, s, steps[0]);
      StopTerminates(cfg, Next(cfg, s, steps[0]), steps[1..], t);
    }
  }

  /** Worker w has results to hand over and the ring for them is full. */
  predicate FacesFullRing(cfg: Config, s: State, w: nat)
    requires Shaped(cfg, s) && w < |s.workers|
  {
    var worker := s.workers[w];
    (worker.Delivering? || worker.RoomAsleep?) && Full(cfg, s, worker.job.channel)
  }

  lemma SomeLegalWake<T>(threads: seq<T>, asleep: T -> bool) returns (wake: int)
    ensures LegalWake(threads, wake, asleep)
  {
    if i :| 0 <= i < |threads| && asleep(threads[i]) { wake := i; } else { wake := -1; }
  }

  lemma DeliveryPossible(cfg: Config, s: State, w: nat) returns (step: Step)
    requires Shaped(cfg, s) && w < |s.workers| && s.workers[w].Delivering?
    requires !Full(cfg, s, s.workers[w].job.channel)
    ensures IsProgress(step) && Enabled(cfg, s, step)
  {
    var wake := SomeLegalWake(s.consumers, AsleepForResult(s.workers[w].job.channel));
    step := Deliver(w, wake);
  }

  /** A stopping pool never hangs by itself: any worker not facing a full ring leaves a step to take. */
  lemma StopNeverStuck(cfg: Config, n: nat, m: nat, s: State, w: nat) returns (step: Step)
    requires cfg.Valid() && Reachable(cfg, n, m, s) && Shaped(cfg, s) && s.stopping
    requires w < |s.workers| && !s.workers[w].Exited? && !FacesFullRing(cfg, s, w)
    ensures IsProgress(step) && Enabled(cfg, s, step)
  {
    ReachableInv(cfg, n, m, s);
    match s.workers[w]
    case Ready => step := if s.pending != [] then Take(w) else Exit(w);
    case Running(_) => step := Finish(w);
    case Delivering(job) => step := DeliveryPossible(cfg, s, w);
    case RoomAsleep(job) =>
      var c := job.channel;
      assert AsleepForRoom(c)(s.workers[w]);
      CountPositive(s.workers, AsleepForRoom(c));
      assert RoomWatched(cfg, s, c);
      CountPositive(s.workers, AwakeForRoom(c));
      var v :| 0 <= v < |s.workers| && AwakeForRoom(c)(s.workers[v]);
      step := DeliveryPossible(cfg, s, v);
  }

  /** When every worker has left, all accepted jobs were started, but for those a drop discarded. */
  lemma ExitLeavesNothingBehind(cfg: Config, n: nat, m: nat, s: State, job: Job)
    requires cfg.Valid() && Reachable(cfg, n, m, s)
    requires s.workers != [] && forall w :: 0 <= w < |s.workers| ==> s.workers[w].Exited?
    ensures s.stopping && s.pending == [] && s.accepted == s.started + s.dropped
    ensures Times(cfg.HandAll(s.started), job) == TimesAll(s.completed, job) + TimesAll(s.popped, job)
    ensures s.drain ==> s.accepted == s.started
  {
    ReachableInv(cfg, n, m, s);
    assert s.workers[0].Exited?;
    assert Accounted(cfg, s, job);
    NobodyAsleep(s.workers, Holding(job));
  }

  // ---------------------------------------------------------------- the -1 of pop_completed_wait

  lemma StepAfterLast(cfg: Config, s: State, step: Step)
    requires Shaped(cfg, s) && Enabled(cfg, s, step) && s.stopping && s.pending == []
    ensures var t := Next(cfg, s, step);
            && t.stopping && t.pending == []
            && Count(t.workers, HoldsJob) + Bit(IsDelivery(step)) == Count(s.workers, HoldsJob)
  {
    if IsWorkerMove(step) {
      CountUpdate(s.workers, step.w, MovedWorker(s.workers[step.w], step), HoldsJob);
    } else if !IsConsumerMove(step) {
      match step
      case Deliver(w, _) => CountUpdate(s.workers, w, Ready, HoldsJob);
      case ConsumerPop(_, wake) => CountSame(s.workers, WakeWorker(s.workers, wake), HoldsJob);
      case PopNow(_, wake) => CountSame(s.workers, WakeWorker(s.workers, wake), HoldsJob);
    }
  }

  /**
   What -1 from pop_completed_wait promises. It does not say that no more completions will come, as
   its comment has it: what still comes, over all channels, is exactly what workers then held and
   later let go of, hence at most one result a worker, and none if none held a job.
   */
  lemma AfterGiveUp(cfg: Config, s: State, k: nat, steps: seq<Step>, t: State)
    requires Shaped(cfg, s) && Enabled(cfg, s, GiveUp(k)) && Run(cfg, Next(cfg, s, GiveUp(k)), steps, t)
    ensures Count(steps, IsDelivery) + Count(t.workers, HoldsJob) == Count(s.workers, HoldsJob)
    ensures Count(steps, IsDelivery) <= |s.workers|
  {
    RunAfterLast(cfg, Next(cfg, s, GiveUp(k)), steps, t);
  }

  lemma {:induction false} RunAfterLast(cfg: Config, s: State, steps: seq<Step>, t: State)
    requires s.stopping && s.pending == [] && Run(cfg, s, steps, t)
    ensures t.stopping && t.pending == []
    ensures Count(steps, IsDelivery) + Count(t.workers, HoldsJob) == Count(s.workers, HoldsJob)
    decreases |steps|
  {
    if steps != [] {
      StepAfterLast(cfg, s, steps[0]);
      RunAfterLast(cfg, Next(cfg, s, steps[0]), steps[1..], t);
    }
  }

  lemma RunCons(cfg: Config, s: State, step: Step, steps: seq<Step>, t: State)
    requires Shaped(cfg, s) && Enabled(cfg, s, step) && Run(cfg, Next(cfg, s, step), steps, t)
    ensures Run(cfg, s, [step] + steps, t)
    ensures Count([step] + steps, IsDelivery) == Bit(IsDelivery(step)) + Count(steps, IsDelivery)
  {
    assert ([step] + steps)[1..] == steps;
  }

  /** Whoever holds a job can still be brought to deliver it: consumers can always make room. */
  lemma CanDeliver(cfg: Config, s: State, w: nat) returns (steps: seq<Step>, t: State)
    requires Shaped(cfg, s) && w < |s.workers| && HoldsJob(s.workers[w])
    ensures Run(cfg, s, steps, t) && Count(steps, IsDelivery) > 0
    decreases match s.workers[w]
              case Running(_) => 3
              case RoomAsleep(_) => 2
              case Delivering(job) => if Full(cfg, s, job.channel) then 1 else 0
              case _ => 0
  {
    var step: Step;
    var c := s.workers[w].job.channel;
    if s.workers[w].Running? {
      step := Finish(w);
    } else if s.workers[w].RoomAsleep? {
      step := SpuriousWorker(w);
    } else if Full(cfg, s, c) {
      var wake := SomeLegalWake(s.workers, AsleepForRoom(c));
      step := PopNow(c, wake);
    } else {
      var wake := SomeLegalWake(s.consumers, AsleepForResult(c));
      step := Deliver(w, wake);
    }
    var u := Next(cfg, s, step);
    StepShaped(cfg, s, step);
    if IsDelivery(step) {
      steps, t := [], u;
    } else {
      steps, t := CanDeliver(cfg, u, w);
    }
    RunCons(cfg, s, step, steps, t);
    steps := [step] + steps;
  }

  ghost predicate MoreCompletionsPossible(cfg: Config, s: State) {
    exists steps, t :: Run(cfg, s, steps, t) && Count(steps, IsDelivery) > 0
  }

  /** The -1 means that no completion can follow exactly when no worker holds a job at that moment. */
  lemma GiveUpIsFinal(cfg: Config, s: State, k: nat)
    requires Shaped(cfg, s) && Enabled(cfg, s, GiveUp(k))
    ensures MoreCompletionsPossible(cfg, Next(cfg, s, GiveUp(k)))
            <==> exists w :: 0 <= w < |s.workers| && HoldsJob(s.workers[w])
  {
    var u := Next(cfg, s, GiveUp(k));
    StepShaped(cfg, s, GiveUp(k));
    CountPositive(s.workers, HoldsJob);
    if exists w :: 0 <= w < |s.workers| && HoldsJob(s.workers[w]) {
      var w :| 0 <= w < |s.workers| && HoldsJob(s.workers[w]);
      var steps, t := CanDeliver(cfg, u, w);
    } else {
      forall steps, t | Run(cfg, u, steps, t) ensures Count(steps, IsDelivery) == 0 {
        RunAfterLast(cfg, u, steps, t);
      }
    }
  }

  // ---------------------------------------------------------------- consumers left behind

  predicate SomeConsumerAsleep(s: State) {
    exists k :: 0 <= k < |s.consumers| && s.consumers[k].Asleep?
  }

  lemma {:induction false} NobodyFallsAsleep(cfg: Config, s: State, steps: seq<Step>, t: State)
    requires s.stopping && s.pending == [] && !SomeConsumerAsleep(s) && Run(cfg, s, steps, t)
    ensures !SomeConsumerAsleep(t)
    decreases |steps|
  {
    if steps != [] {
      var u := Next(cfg, s, steps[0]);
      StepAfterLast(cfg, s, steps[0]);
      assert forall k :: 0 <= k < |u.consumers| ==> u.consumers[k].Asleep? ==> s.consumers[k].Asleep?;
      NobodyFallsAsleep(cfg, u, steps[1..], t);
    }
  }

  ghost predicate CanFindSleeper(cfg: Config, s: State) {
    exists steps, t :: Run(cfg, s, steps, t) && SomeConsumerAsleep(t)
  }

  /**
   stop wakes every consumer; one that has nothing to pop goes back to sleep afterwards exactly when
   the stop drains and jobs were still pending.
   */
  lemma StopPutsConsumersBackToSleep(cfg: Config, s: State, drains: bool, k: nat)
    requires Shaped(cfg, s) && !s.stopping && k < |s.consumers|
    requires !s.consumers[k].Away? && s.completed[s.consumers[k].channel] == []
    ensures CanFindSleeper(cfg, Next(cfg, s, Stop(drains))) <==> drains && s.pending != []
  {
    var u := Next(cfg, s, Stop(drains));
    StepShaped(cfg, s, Stop(drains));
    assert forall j :: 0 <= j < |u.consumers| ==> !u.consumers[j].Asleep?;
    if drains && s.pending != [] {
      var step := ConsumerSleep(k);
      var t := Next(cfg, u, step);
      StepShaped(cfg, u, step);
      assert t.consumers[k].Asleep? && SomeConsumerAsleep(t);
      var steps := [step];
      assert steps[1..] == [];
      assert Run(cfg, t, [], t);
      assert Run(cfg, u, steps, t);
    } else {
      forall steps, t | Run(cfg, u, steps, t) ensures !SomeConsumerAsleep(t) {
        NobodyFallsAsleep(cfg, u, steps, t);
      }
    }
  }
}
