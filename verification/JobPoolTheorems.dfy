/** Safety of the worker pool over every run: conservation, wake-ups and order. */
module JobPoolTheorems {
  import opened Counting
  import opened JobPool
  import opened JobPoolInvariant

  // ---------------------------------------------------------------- conservation

  /**
   In every reachable state an accepted job is dropped, pending, in a worker's hands, in a completed
   ring or popped, and in just one of these; it was started at most as often as it was submitted.
   */
  lemma Conservation(cfg: Config, n: nat, m: nat, s: State, job: Job)
    requires cfg.Valid() && Reachable(cfg, n, m, s)
    ensures multiset(cfg.HandAll(s.accepted))[job]
         == multiset(cfg.HandAll(s.dropped))[job] + multiset(cfg.HandAll(s.pending))[job]
            + HeldTimes(s.workers, job) + TimesAll(s.completed, job) + TimesAll(s.popped, job)
    ensures multiset(s.started) <= multiset(s.accepted)
  {
    ReachableInv(cfg, n, m, s);
    assert Accounted(cfg, s, job);
    HandAllConcat(cfg, s.started + s.pending, s.dropped);
    HandAllConcat(cfg, s.started, s.pending);
    var st, pe, dr := cfg.HandAll(s.started), cfg.HandAll(s.pending), cfg.HandAll(s.dropped);
    CountConcat(st + pe, dr, Is(job));
    CountConcat(st, pe, Is(job));
    TimesIsMultiplicity(cfg.HandAll(s.accepted), job);
    TimesIsMultiplicity(pe, job);
    TimesIsMultiplicity(dr, job);
  }

  /** A result only ever sits in, or leaves from, the ring of the channel it was submitted for. */
  lemma ResultsStayOnTheirChannel(cfg: Config, n: nat, m: nat, s: State, c: nat, job: Job)
    requires cfg.Valid() && Reachable(cfg, n, m, s) && c < cfg.Channels() == |s.completed| == |s.popped|
    requires job in s.completed[c] || job in s.popped[c]
    ensures job.channel == c
  {
    ReachableInv(cfg, n, m, s);
  }

  lemma {:induction false} HandAllAt(cfg: Config, jobs: seq<Job>, i: nat)
    requires i < |jobs|
    ensures cfg.HandAll(jobs)[i] == cfg.Handed(jobs[i])
  {
    if i > 0 { HandAllAt(cfg, jobs[1..], i - 1); }
  }

  lemma {:induction false} HandAllIsIdentity(cfg: Config, jobs: seq<Job>)
    requires cfg.copiesData1 || forall i :: 0 <= i < |jobs| ==> jobs[i].data1 == 0
    ensures cfg.HandAll(jobs) == jobs
  {
    if jobs != [] { HandAllIsIdentity(cfg, jobs[1..]); }
  }

  /**
   When the jobs workers run are the jobs that were submitted, second argument included: exactly
   when the ring copies that argument or no started job carries one.
   */
  lemma SecondArgumentSurvives(cfg: Config, n: nat, m: nat, s: State)
    requires cfg.Valid() && Reachable(cfg, n, m, s)
    ensures (forall job :: Times(s.started, job)
                           == HeldTimes(s.workers, job) + TimesAll(s.completed, job) + TimesAll(s.popped, job))
       <==> cfg.copiesData1 || forall i :: 0 <= i < |s.started| ==> s.started[i].data1 == 0
  {
    ReachableInv(cfg, n, m, s);
    if cfg.copiesData1 || forall i :: 0 <= i < |s.started| ==> s.started[i].data1 == 0 {
      HandAllIsIdentity(cfg, s.started);
      forall job ensures Times(s.started, job)
                         == HeldTimes(s.workers, job) + TimesAll(s.completed, job) + TimesAll(s.popped, job) {
        assert Accounted(cfg, s, job);
      }
    } else {
      var i :| 0 <= i < |s.started| && s.started[i].data1 != 0;
      var job := s.started[i];
      var handed := cfg.HandAll(s.started);
      CountPositive(s.started, Is(job));
      forall j | 0 <= j < |handed| ensures handed[j] != job {
        HandAllAt(cfg, s.started, j);
      }
      CountPositive(handed, Is(job));
      assert Accounted(cfg, s, job);
      assert Times(s.started, job) > 0 && Times(handed, job) == 0;
    }
  }

  // ---------------------------------------------------------------- no lost wake-ups

  /**
   No wake-up is lost: whoever sleeps on m_has_jobs, on a channel's m_room_completed or on its
   m_has_completed leaves enough awake threads behind to take care of all the work there is.
   */
  lemma NoLostWakeups(cfg: Config, n: nat, m: nat, s: State)
    requires cfg.Valid() && Reachable(cfg, n, m, s)
    ensures Shaped(cfg, s)
    ensures (exists w :: 0 <= w < |s.workers| && s.workers[w].IdleAsleep?)
            ==> Count(s.workers, IsReady) >= |s.pending|
    ensures forall w :: 0 <= w < |s.workers| && s.workers[w].RoomAsleep? ==>
              var c := s.workers[w].job.channel;
              Count(s.workers, AwakeForRoom(c)) >= cfg.ringCapacities[c] - |s.completed[c]|
    ensures forall k :: 0 <= k < |s.consumers| && s.consumers[k].Asleep? ==>
              var c := s.consumers[k].channel;
              Count(s.consumers, AwakeForResult(c)) >= |s.completed[c]|
  {
    ReachableInv(cfg, n, m, s);
    if w :| 0 <= w < |s.workers| && s.workers[w].IdleAsleep? {
      assert IsIdle(s.workers[w]);
      CountPositive(s.workers, IsIdle);
    }
    forall w | 0 <= w < |s.workers| && s.workers[w].RoomAsleep?
      ensures var c := s.workers[w].job.channel;
              Count(s.workers, AwakeForRoom(c)) >= cfg.ringCapacities[c] - |s.completed[c]|
    {
      var c := s.workers[w].job.channel;
      assert AsleepForRoom(c)(s.workers[w]);
      CountPositive(s.workers, AsleepForRoom(c));
      assert RoomWatched(cfg, s, c);
    }
    forall k | 0 <= k < |s.consumers| && s.consumers[k].Asleep?
      ensures var c := s.consumers[k].channel;
              Count(s.consumers, AwakeForResult(c)) >= |s.completed[c]|
    {
      var c := s.consumers[k].channel;
      assert AsleepForResult(c)(s.consumers[k]);
      CountPositive(s.consumers, AsleepForResult(c));
      assert ResultsWatched(cfg, s, c);
    }
  }

  // ---------------------------------------------------------------- order

  function OnChannel(c: nat): Job -> bool { (job: Job) => job.channel == c }

  function InHand(ws: seq<Worker>, c: nat): seq<Job> {
    if |ws| == 1 && HoldsJob(ws[0]) && ws[0].job.channel == c then [ws[0].job] else []
  }

  /** With one worker, channel c's results leave in the order their jobs were started. */
  predicate StartedInOrder(cfg: Config, s: State, c: nat)
    requires c < |s.popped| == |s.completed|
  {
    Filter(cfg.HandAll(s.started), OnChannel(c)) == s.popped[c] + s.completed[c] + InHand(s.workers, c)
  }

  lemma TakenInOrder(cfg: Config, s: State, c: nat)
    requires Shaped(cfg, s) && |s.workers| == 1 && s.workers[0].Ready? && s.pending != []
    requires c < cfg.Channels() && StartedInOrder(cfg, s, c)
    ensures StartedInOrder(cfg, Taken(cfg, s, 0), c)
  {
    var taken := s.pending[0];
    HandAllConcat(cfg, s.started, [taken]);
    assert cfg.HandAll([taken]) == [cfg.Handed(taken)];
    FilterConcat(cfg.HandAll(s.started), [cfg.Handed(taken)], OnChannel(c));
  }

  lemma PopInOrder(cfg: Config, s: State, d: nat, wake: int, c: nat)
    requires Shaped(cfg, s) && |s.workers| == 1 && d < cfg.Channels() && s.completed[d] != [] && wake < 1
    requires c < cfg.Channels() && StartedInOrder(cfg, s, c)
    ensures StartedInOrder(cfg, PopResult(cfg, s, d, wake), c)
  {
    var t := PopResult(cfg, s, d, wake);
    assert t.popped[c] + t.completed[c] == s.popped[c] + s.completed[c];
  }

  lemma DeliveredInOrder(cfg: Config, s: State, wake: int, c: nat)
    requires Shaped(cfg, s) && |s.workers| == 1 && HoldsJob(s.workers[0]) && wake < |s.consumers|
    requires c < cfg.Channels() && StartedInOrder(cfg, s, c)
    ensures StartedInOrder(cfg, Delivered(s, 0, wake), c)
  {
  }

  lemma MoveInOrder(cfg: Config, s: State, step: Step, c: nat)
    requires Shaped(cfg, s) && Enabled(cfg, s, step) && |s.workers| == 1
    requires IsWorkerMove(step) || IsConsumerMove(step) || step.Submit? || step.Stop?
    requires c < cfg.Channels() && StartedInOrder(cfg, s, c)
    ensures var t := Next(cfg, s, step);
            |t.workers| == 1 && t.popped == s.popped && t.completed == s.completed && StartedInOrder(cfg, t, c)
  {
    var t := Next(cfg, s, step);
    assert t.started == s.started && |t.workers| == 1;
    assert InHand(t.workers, c) == InHand(s.workers, c);
  }

  lemma StepStartedInOrder(cfg: Config, s: State, step: Step, c: nat)
    requires Shaped(cfg, s) && Enabled(cfg, s, step) && |s.workers| == 1
    requires c < cfg.Channels() && StartedInOrder(cfg, s, c)
    ensures var t := Next(cfg, s, step);
            |t.workers| == 1 && Shaped(cfg, t) && StartedInOrder(cfg, t, c)
  {
    StepShaped(cfg, s, step);
    match step
    case Take(_) => TakenInOrder(cfg, s, c);
    case Deliver(_, wake) => DeliveredInOrder(cfg, s, wake, c);
    case ConsumerPop(k, wake) => PopInOrder(cfg, s, s.consumers[k].channel, wake, c);
    case PopNow(d, wake) => PopInOrder(cfg, s, d, wake, c);
    case _ => MoveInOrder(cfg, s, step, c);
  }

  lemma {:induction false} RunStartedInOrder(cfg: Config, s: State, steps: seq<Step>, t: State, c: nat)
    requires Run(cfg, s, steps, t) && |s.workers| == 1
    requires c < cfg.Channels() && StartedInOrder(cfg, s, c)
    ensures |t.workers| == 1 && |t.popped| == |t.completed| == cfg.Channels() && StartedInOrder(cfg, t, c)
    decreases |steps|
  {
    if steps != [] {
      StepStartedInOrder(cfg, s, steps[0], c);
      RunStartedInOrder(cfg, Next(cfg, s, steps[0]), steps[1..], t, c);
    }
  }

  /** Jobs start in submission order whatever the number of workers: pending is a FIFO. */
  lemma StartsInSubmissionOrder(cfg: Config, n: nat, m: nat, s: State)
    requires cfg.Valid() && Reachable(cfg, n, m, s)
    ensures s.accepted == s.started + s.pending + s.dropped
  {
    ReachableInv(cfg, n, m, s);
  }

  /** With one worker every channel is FIFO end to end, from submit to the consumer. */
  lemma OneWorkerKeepsChannelOrder(cfg: Config, m: nat, s: State, c: nat)
    requires cfg.Valid() && Reachable(cfg, 1, m, s) && c < cfg.Channels()
    ensures Shaped(cfg, s)
    ensures Filter(cfg.HandAll(s.accepted), OnChannel(c))
         == s.popped[c] + s.completed[c] + InHand(s.workers, c)
            + Filter(cfg.HandAll(s.pending), OnChannel(c)) + Filter(cfg.HandAll(s.dropped), OnChannel(c))
  {
    ReachableInv(cfg, 1, m, s);
    var steps :| Run(cfg, Init(cfg, 1, m), steps, s);
    InitInv(cfg, 1, m);
    RunStartedInOrder(cfg, Init(cfg, 1, m), steps, s, c);
    HandAllConcat(cfg, s.started + s.pending, s.dropped);
    HandAllConcat(cfg, s.started, s.pending);
    var st, pe, dr := cfg.HandAll(s.started), cfg.HandAll(s.pending), cfg.HandAll(s.dropped);
    FilterConcat(st + pe, dr, OnChannel(c));
    FilterConcat(st, pe, OnChannel(c));
  }

  /** Results reach channel c's consumers in submission order, with none skipped. */
  predicate ChannelOrder(cfg: Config, s: State, c: nat)
    requires c < |s.popped| == |s.completed|
  {
    s.popped[c] + s.completed[c] <= Filter(cfg.HandAll(s.accepted), OnChannel(c))
  }

  const FIRST_JOB := Job(0, 1, 1, 0)
  const SECOND_JOB := Job(0, 1, 2, 0)

  /** Two workers have taken a job each, for the same channel. */
  lemma BothTaken(cfg: Config, n: nat, m: nat) returns (s: State)
    requires cfg.Valid() && cfg.Channels() > 0 && n >= 2
    ensures Reachable(cfg, n, m, s) && Shaped(cfg, s) && |s.workers| == n && |s.consumers| == m
    ensures s.workers[1] == Running(cfg.Handed(SECOND_JOB)) && s.accepted == [FIRST_JOB, SECOND_JOB]
    ensures s.completed[0] == [] && s.popped[0] == []
    ensures forall k :: 0 <= k < m ==> !s.consumers[k].Asleep?
  {
    ReachableInit(cfg, n, m);
    s := Overtake(cfg, n, m, Init(cfg, n, m), FIRST_JOB, 0);
    s := Overtake(cfg, n, m, s, SECOND_JOB, 1);
  }

  /** The second worker delivers before the first. */
  lemma SecondDelivers(cfg: Config, n: nat, m: nat, s: State) returns (t: State)
    requires cfg.Valid() && Reachable(cfg, n, m, s) && Shaped(cfg, s) && |s.workers| > 1 && cfg.Channels() > 0
    requires s.workers[1] == Running(cfg.Handed(SECOND_JOB)) && s.completed[0] == []
    requires forall k :: 0 <= k < |s.consumers| ==> !s.consumers[k].Asleep?
    ensures Reachable(cfg, n, m, t) && Shaped(cfg, t) && t.accepted == s.accepted
    ensures t.completed[0] == [cfg.Handed(SECOND_JOB)] && t.popped == s.popped
  {
    ReachableNext(cfg, n, m, s, Finish(1));
    var u := Next(cfg, s, Finish(1));
    assert u == s.(workers := s.workers[1 := Delivering(cfg.Handed(SECOND_JOB))]);
    ReachableNext(cfg, n, m, u, Deliver(1, -1));
    t := Next(cfg, u, Deliver(1, -1));
  }

  /** Two workers can overtake one another: the run that delivers the second job first. */
  lemma TwoWorkersReorder(cfg: Config, n: nat, m: nat) returns (s: State)
    requires cfg.Valid() && cfg.Channels() > 0 && n >= 2
    ensures Reachable(cfg, n, m, s) && Shaped(cfg, s) && !ChannelOrder(cfg, s, 0)
  {
    s := BothTaken(cfg, n, m);
    s := SecondDelivers(cfg, n, m, s);
    HandAllAt(cfg, s.accepted, 0);
    assert cfg.HandAll(s.accepted)[0] == cfg.Handed(FIRST_JOB);
    assert Filter(cfg.HandAll(s.accepted), OnChannel(0))[0] == cfg.Handed(FIRST_JOB);
    assert (s.popped[0] + s.completed[0])[0] == cfg.Handed(SECOND_JOB);
  }

  /** A job is submitted and taken at once by worker w, who was waiting for nothing else. */
  lemma Overtake(cfg: Config, n: nat, m: nat, s: State, job: Job, w: nat) returns (t: State)
    requires cfg.Valid() && Reachable(cfg, n, m, s) && Shaped(cfg, s)
    requires w < |s.workers| && s.workers[w].Ready? && s.pending == [] && !s.stopping
    requires forall i :: 0 <= i < |s.workers| ==> !s.workers[i].IdleAsleep?
    requires job.fn != 0 && job.data0 != 0 && job.channel < cfg.Channels()
    ensures Reachable(cfg, n, m, t) && Shaped(cfg, t)
    ensures t == s.(workers := s.workers[w := Running(cfg.Handed(job))],
                    accepted := s.accepted + [job], started := s.started + [job])
  {
    ReachableNext(cfg, n, m, s, Submit(job, -1));
    var u := Next(cfg, s, Submit(job, -1));
    ReachableNext(cfg, n, m, u, Take(w));
    t := Next(cfg, u, Take(w));
  }

  lemma OneWorkerChannelOrder(cfg: Config, m: nat, s: State, c: nat)
    requires cfg.Valid() && Reachable(cfg, 1, m, s) && c < cfg.Channels()
    ensures Shaped(cfg, s) && ChannelOrder(cfg, s, c)
  {
    OneWorkerKeepsChannelOrder(cfg, m, s, c);
    FrontOf(s.popped[c] + s.completed[c], InHand(s.workers, c), Filter(cfg.HandAll(s.pending), OnChannel(c)),
            Filter(cfg.HandAll(s.dropped), OnChannel(c)));
  }

  lemma FrontOf(seen: seq<Job>, a: seq<Job>, b: seq<Job>, c: seq<Job>)
    ensures seen <= seen + a + b + c
  {
  }

  /** A job with a second argument, whose worker runs it without. */
  lemma SecondArgumentLost(cfg: Config, n: nat, m: nat) returns (s: State)
    requires cfg.Valid() && cfg.Channels() > 0 && n > 0 && !cfg.copiesData1
    ensures Reachable(cfg, n, m, s) && |s.workers| == n
    ensures s.started == [Job(0, 1, 1, 7)] && s.workers[0] == Running(Job(0, 1, 1, 0))
  {
    ReachableInit(cfg, n, m);
    s := Overtake(cfg, n, m, Init(cfg, n, m), Job(0, 1, 1, 7), 0);
  }

  /** Per-channel order holds in all runs exactly when there is no second worker. */
  lemma OrderNeedsOneWorker(cfg: Config, n: nat, m: nat)
    requires cfg.Valid() && cfg.Channels() > 0 && n > 0
    ensures (forall s, c: nat ::
               Reachable(cfg, n, m, s) && Shaped(cfg, s) && c < cfg.Channels() ==> ChannelOrder(cfg, s, c))
            <==> n == 1
  {
    if n >= 2 {
      var s := TwoWorkersReorder(cfg, n, m);
    } else {
      forall s, c: nat | Reachable(cfg, n, m, s) && Shaped(cfg, s) && c < cfg.Channels()
        ensures ChannelOrder(cfg, s, c)
      {
        OneWorkerChannelOrder(cfg, m, s, c);
      }
    }
  }
}
