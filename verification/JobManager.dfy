/**
 job_manager_t over real rings. Each method is one pass through a critical section by one thread and
 is shown to be a step of the transition system JobPool, so every theorem about its runs holds here.

 Threads are represented by their phase, and a wake parameter is the scheduler's choice of the thread
 that uv_cond_signal wakes.
 */
module JobManagers {
  import opened JobPool
  import opened JobPoolInvariant
  import opened Rings

  ghost predicate IsEmpty(ring: Ring, capacity: nat, copies: bool)
    reads ring, ring.buf
  {
    ring.Valid() && ring.Contents() == [] && ring.capacity == capacity && ring.copiesData1 == copies
  }

  /** No two of the rings are one or share their memory. */
  ghost predicate Apart(rings: seq<Ring>) {
    forall c, d :: 0 <= c < |rings| && 0 <= d < |rings| && c != d ==>
      rings[c] != rings[d] && rings[c].buf != rings[d].buf
  }

  ghost predicate Owned(rings: seq<Ring>, owned: set<object>) {
    forall ring :: ring in rings ==> ring in owned && ring.buf in owned
  }

  /** An empty ring for each capacity; owned is what they are made of. */
  method NewRings(capacities: seq<nat>, copies: bool) returns (rings: seq<Ring>, ghost owned: set<object>)
    requires forall c :: 0 <= c < |capacities| ==> capacities[c] > 0
    ensures |rings| == |capacities| && fresh(owned)
    ensures Owned(rings, owned) && Apart(rings)
    ensures forall c :: 0 <= c < |rings| ==> IsEmpty(rings[c], capacities[c], copies)
  {
    rings, owned := [], {};
    for c := 0 to |capacities|
      invariant |rings| == c && fresh(owned)
      invariant Owned(rings, owned) && Apart(rings)
      invariant forall d :: 0 <= d < c ==> IsEmpty(rings[d], capacities[d], copies)
    {
      var next := new Ring(capacities[c], copies);
      rings := rings + [next];
      owned := owned + {next, next.buf};
    }
  }

  /** m_pending and m_completed: rings that share no memory with one another. */
  class Queues {
    ghost const cfg: Config
    ghost const Repr: set<object>
    const pending: Ring
    const completed: seq<Ring>
    ghost var Pending: seq<Job>        // the contents of the pending ring, oldest first
    ghost var Results: seq<seq<Job>>   // the contents of the completed ring of each channel

    ghost predicate Separate()
    {
      && this !in Repr && pending in Repr && pending.buf in Repr
      && (forall c :: 0 <= c < |completed| ==>
            && completed[c] in Repr && completed[c].buf in Repr
            && completed[c] != pending && completed[c].buf != pending.buf)
      && Apart(completed)
    }

    ghost predicate Sized()
    {
      && pending.capacity == cfg.pendingCapacity && pending.copiesData1 == cfg.copiesData1
      && |completed| == cfg.Channels()
      && forall c :: 0 <= c < |completed| ==>
           completed[c].capacity == cfg.ringCapacities[c] && completed[c].copiesData1 == cfg.copiesData1
    }

    ghost predicate Valid()
      reads this, Repr
    {
      && Separate() && Sized()
      && pending.Valid() && Pending == pending.Contents()
      && |Results| == |completed|
      && forall c :: 0 <= c < |completed| ==> completed[c].Valid() && Results[c] == completed[c].Contents()
    }

    function PendingCount(): (n: nat)
      requires Valid()
      reads this, Repr
      ensures n == |Pending|
    {
      pending.count
    }

    function CompletedCount(c: nat): (n: nat)
      requires Valid() && c < cfg.Channels()
      reads this, Repr
      ensures n == |Results[c]|
    {
      completed[c].count
    }

    predicate CompletedFull(c: nat)
      requires Valid() && c < cfg.Channels()
      reads this, Repr
      ensures CompletedFull(c) <==> |Results[c]| == cfg.ringCapacities[c]
    {
      completed[c].count == completed[c].capacity
    }

    constructor (pendingCapacity: nat, ringCapacities: seq<nat>, copies: bool)
      requires pendingCapacity > 0 && forall c :: 0 <= c < |ringCapacities| ==> ringCapacities[c] > 0
      ensures Valid() && fresh(Repr) && Pending == [] && Results == seq(|ringCapacities|, _ => [])
      ensures cfg == Config(pendingCapacity, ringCapacities, copies)
    {
      var ring := new Ring(pendingCapacity, copies);
      var rings;
      ghost var owned;
      rings, owned := NewRings(ringCapacities, copies);
      cfg := Config(pendingCapacity, ringCapacities, copies);
      Repr := owned + {ring, ring.buf};
      pending, completed := ring, rings;
      Pending, Results := [], seq(|ringCapacities|, _ => []);
    }

    method PushPending(job: Job) returns (rc: int)
      requires Valid()
      modifies this, Repr
      ensures Valid() && Results == old(Results)
      ensures rc == if |old(Pending)| == cfg.pendingCapacity then -1 else 0
      ensures Pending == if rc == 0 then old(Pending) + [job] else old(Pending)
    {
      rc := pending.Push(job.channel, job.fn, job.data0, job.data1);
      if rc == 0 { Pending := Pending + [job]; }
    }

    /** The worker's locals start out as NULL; the popped job is what they hold afterwards. */
    method PopPending() returns (rc: int, job: Job)
      requires Valid()
      modifies this, Repr
      ensures Valid() && Results == old(Results)
      ensures rc == if old(Pending) == [] then -1 else 0
      ensures Pending == if rc == 0 then old(Pending)[1..] else old(Pending)
      ensures rc == 0 ==> job == cfg.Handed(old(Pending)[0])
    {
      var channel, fn, data0, data1;
      rc, channel, fn, data0, data1 := pending.Pop(0);
      job := Job(channel, fn, data0, data1);
      if rc == 0 { Pending := Pending[1..]; }
    }

    method ResetPending()
      requires Valid()
      modifies this, Repr
      ensures Valid() && Results == old(Results) && Pending == []
    {
      pending.Reset();
      Pending := [];
    }

    method PushCompleted(c: nat, job: Job) returns (rc: int)
      requires Valid() && c < cfg.Channels()
      modifies this, Repr
      ensures Valid() && Pending == old(Pending)
      ensures rc == if |old(Results)[c]| == cfg.ringCapacities[c] then -1 else 0
      ensures Results == if rc == 0 then old(Results)[c := old(Results)[c] + [job]] else old(Results)
    {
      rc := completed[c].Push(job.channel, job.fn, job.data0, job.data1);
      if rc == 0 { Results := Results[c := Results[c] + [job]]; }
    }

    method PopCompleted(c: nat, data1In: Ptr) returns (rc: int, data0: Ptr, data1: Ptr)
      requires Valid() && c < cfg.Channels()
      modifies this, Repr
      ensures Valid() && Pending == old(Pending)
      ensures rc == if old(Results)[c] == [] then -1 else 0
      ensures Results == if rc == 0 then old(Results)[c := old(Results)[c][1..]] else old(Results)
      ensures rc == 0 ==>
                && data0 == old(Results)[c][0].data0
                && data1 == if cfg.copiesData1 then old(Results)[c][0].data1 else data1In
    {
      var channel, fn;
      rc, channel, fn, data0, data1 := completed[c].Pop(data1In);
      if rc == 0 { Results := Results[c := Results[c][1..]]; }
    }
  }

  class JobManager {
    const queues: Queues
    var stopping: bool
    var drain: bool
    var workers: seq<Worker>
    var consumers: seq<Consumer>
    ghost var accepted: seq<Job>
    ghost var dropped: seq<Job>
    ghost var started: seq<Job>
    ghost var popped: seq<seq<Job>>

    ghost predicate Valid()
      reads this, queues, queues.Repr
    {
      this !in queues.Repr && queues.Valid() && Shaped(queues.cfg, Abs())
    }

    ghost function Cfg(): Config { queues.cfg }

    ghost function Abs(): State
      reads this, queues
    {
      State(workers, consumers, queues.Pending, queues.Results, stopping, drain,
            accepted, dropped, started, popped)
    }

    /** The post-state is what the transition system makes of the pre-state with this step. */
    twostate predicate Performs(step: Step)
      requires old(Valid())
      reads this, queues, queues.Repr
    {
      && Valid()
      && Enabled(Cfg(), old(Abs()), step)
      && Abs() == Next(Cfg(), old(Abs()), step)
    }

    /** Whatever a method performs stays within the runs that the theorems about JobPool speak of. */
    twostate lemma StaysReachable(n: nat, m: nat, step: Step)
      requires old(Valid()) && Cfg().Valid() && old(Reachable(Cfg(), n, m, Abs())) && Performs(step)
      ensures Reachable(Cfg(), n, m, Abs())
    {
      ReachableNext(Cfg(), n, m, old(Abs()), step);
    }

    constructor (nWorkers: int, nConsumers: nat, pendingCapacity: int, ringCapacities: seq<nat>, copies: bool)
      requires forall c :: 0 <= c < |ringCapacities| ==> ringCapacities[c] > 0
      ensures Valid() && fresh(queues) && fresh(queues.Repr)
      ensures Cfg() == Config(if pendingCapacity <= 0 then 1 else pendingCapacity, ringCapacities, copies)
      ensures Abs() == Init(Cfg(), if nWorkers <= 0 then 1 else nWorkers, nConsumers)
    {
      var room := if pendingCapacity <= 0 then 1 else pendingCapacity;
      queues := new Queues(room, ringCapacities, copies);
      stopping, drain := false, true;
      workers := seq(if nWorkers <= 0 then 1 else nWorkers, _ => Ready);
      consumers := seq(nConsumers, _ => Away);
      accepted, dropped, started := [], [], [];
      popped := seq(|ringCapacities|, _ => []);
      new;
      var n := if nWorkers <= 0 then 1 else nWorkers;
      InitShaped(Cfg(), n, nConsumers);
      assert Abs() == Init(Cfg(), n, nConsumers);
    }

    method SignalWorker(wake: int)
      requires wake < |workers|
      modifies this`workers
      ensures workers == WakeWorker(old(workers), wake)
    {
      if wake >= 0 { workers := workers[wake := Woken(workers[wake])]; }
    }

    method SignalConsumer(wake: int)
      requires wake < |consumers|
      modifies this`consumers
      ensures consumers == WakeConsumer(old(consumers), wake)
    {
      if wake >= 0 { consumers := consumers[wake := WokenConsumer(consumers[wake])]; }
    }

    /** A submission is refused when fn or data0 is NULL, when stopping, and when pending is full. */
    method Submit(job: Job, wake: int) returns (rc: int)
      requires Valid() && job.channel < Cfg().Channels() && LegalWake(workers, wake, IsIdle)
      modifies this, queues, queues.Repr
      ensures rc == 0 ==> Performs(Step.Submit(job, wake)) && queues.Pending == old(queues.Pending) + [job]
                          && queues.Results == old(queues.Results)
      ensures rc != 0 ==> rc == -1 && Valid() && Abs() == old(Abs())
      ensures rc == 0 <==> job.fn != 0 && job.data0 != 0 && !old(stopping)
                           && |old(Abs()).pending| < Cfg().pendingCapacity
    {
      if job.fn == 0 || job.data0 == 0 { return -1; }
      if stopping { return -1; }
      rc := PushSubmitted(job, wake);
    }

    /** Push to the pending ring and signal m_has_jobs, unless the ring is full. */
    method PushSubmitted(job: Job, wake: int) returns (rc: int)
      requires Valid() && job.channel < Cfg().Channels() && wake < |workers|
      modifies this, queues, queues.Repr
      ensures Valid() && rc == if |old(queues.Pending)| == Cfg().pendingCapacity then -1 else 0
      ensures Abs() == if rc == 0 then Submitted(old(Abs()), job, wake) else old(Abs())
      ensures queues.Results == old(queues.Results)
      ensures queues.Pending == if rc == 0 then old(queues.Pending) + [job] else old(queues.Pending)
    {
      ghost var s := Abs();
      if |s.pending| < Cfg().pendingCapacity { SubmittedShaped(Cfg(), s, job, wake); }
      rc := queues.PushPending(job);
      if rc == 0 {
        accepted := accepted + [job];
        SignalWorker(wake);
        assert Abs() == Submitted(s, job, wake);
      }
    }

    /** The top of worker_loop: wait for a job, leave, or take one. */
    method LookForJob(w: nat) returns (ghost step: Step)
      requires Valid() && w < |workers| && workers[w].Ready?
      modifies this, queues, queues.Repr
      ensures Performs(step)
      ensures step == if old(queues.Pending) != [] then Step.Take(w)
                      else if old(stopping) then Step.Exit(w) else Step.Idle(w)
      ensures step.Take? ==> workers[w] == Running(Cfg().Handed(old(queues.Pending)[0]))
      ensures queues.Pending == if step.Take? then old(queues.Pending)[1..] else old(queues.Pending)
    {
      ghost var s := Abs();
      if queues.PendingCount() == 0 && !stopping {
        workers := workers[w := IdleAsleep];
        step := Step.Idle(w);
      } else if stopping && queues.PendingCount() == 0 {
        workers := workers[w := Exited];
        step := Step.Exit(w);
      } else {
        TakeJob(w);
        step := Step.Take(w);
      }
      StepShaped(Cfg(), s, step);
    }

    method TakeJob(w: nat)
      requires Valid() && w < |workers| && queues.Pending != []
      modifies this, queues, queues.Repr
      ensures Valid() && Abs() == Taken(Cfg(), old(Abs()), w)
    {
      ghost var s, front := Abs(), queues.Pending[0];
      var rc, job := queues.PopPending();
      workers := workers[w := Running(job)];
      started := started + [front];
      TakenShaped(Cfg(), s, w);
    }

    /** The job function returns. */
    method JobDone(w: nat)
      requires Valid() && w < |workers| && workers[w].Running?
      modifies this
      ensures Performs(Step.Finish(w))
    {
      ghost var s := Abs();
      workers := workers[w := Delivering(workers[w].job)];
      StepShaped(Cfg(), s, Step.Finish(w));
    }

    /** Push the worker's job to its ring and signal m_has_completed there. */
    method PushResult(w: nat, wake: int)
      requires Valid() && w < |workers| && workers[w].Delivering? && wake < |consumers|
      requires !Full(Cfg(), Abs(), workers[w].job.channel)
      modifies this, queues, queues.Repr
      ensures Valid() && Abs() == Delivered(old(Abs()), w, wake)
    {
      ghost var s := Abs();
      var job := workers[w].job;
      var rc := queues.PushCompleted(job.channel, job);
      workers := workers[w := Ready];
      SignalConsumer(wake);
      DeliveredShaped(Cfg(), s, w, wake);
    }

    /** The second half of worker_loop: wait for room in the job's own ring, or push there and signal. */
    method HandOver(w: nat, wake: int) returns (ghost step: Step)
      requires Valid() && w < |workers| && workers[w].Delivering?
      requires LegalWake(consumers, wake, AsleepForResult(workers[w].job.channel))
      modifies this, queues, queues.Repr
      ensures Performs(step)
      ensures var job := old(workers)[w].job;
              if |old(queues.Results)[job.channel]| == Cfg().ringCapacities[job.channel] then
                step == Step.Block(w) && queues.Results == old(queues.Results)
              else
                && step == Step.Deliver(w, wake)
                && queues.Results[job.channel] == old(queues.Results)[job.channel] + [job]
    {
      ghost var s := Abs();
      var job := workers[w].job;
      if queues.CompletedFull(job.channel) {
        workers := workers[w := RoomAsleep(job)];
        step := Step.Block(w);
      } else {
        PushResult(w, wake);
        step := Step.Deliver(w, wake);
      }
      StepShaped(Cfg(), s, step);
    }

    /** Pop a result of channel c and signal m_room_completed[c], or find nothing there. */
    method TakeResult(c: nat, data1In: Ptr, wake: int) returns (rc: int, data0: Ptr, data1: Ptr)
      requires Valid() && c < Cfg().Channels() && wake < |workers|
      modifies this, queues, queues.Repr
      ensures Valid() && rc == if old(Abs()).completed[c] == [] then -1 else 0
      ensures Abs() == if rc == 0 then PopResult(Cfg(), old(Abs()), c, wake) else old(Abs())
      ensures rc == 0 ==> var job := old(Abs()).completed[c][0];
                          data0 == job.data0 && data1 == if Cfg().copiesData1 then job.data1 else data1In
    {
      ghost var s := Abs();
      rc, data0, data1 := queues.PopCompleted(c, data1In);
      if rc == 0 {
        popped := popped[c := popped[c] + [s.completed[c][0]]];
        SignalWorker(wake);
        assert Abs() == PopResult(Cfg(), s, c, wake);
        PopShaped(Cfg(), s, c, wake);
      }
    }

    /** The non-blocking pop_completed. */
    method PopCompleted(c: nat, data1In: Ptr, wake: int) returns (rc: int, data0: Ptr, data1: Ptr)
      requires Valid() && c < Cfg().Channels() && LegalWake(workers, wake, AsleepForRoom(c))
      modifies this, queues, queues.Repr
      ensures rc == if old(Abs()).completed[c] == [] then -1 else 0
      ensures rc != 0 ==> Valid() && Abs() == old(Abs())
      ensures rc == 0 ==> Performs(Step.PopNow(c, wake))
      ensures rc == 0 ==> var job := old(Abs()).completed[c][0];
                          data0 == job.data0 && data1 == if Cfg().copiesData1 then job.data1 else data1In
    {
      rc, data0, data1 := TakeResult(c, data1In, wake);
    }

    /** The body of pop_completed_wait's loop: give up if nothing is left to come, else sleep. */
    method WaitForResult(k: nat) returns (rc: int)
      requires Valid() && k < |consumers| && consumers[k].Waiting? && queues.Results[consumers[k].channel] == []
      modifies this`consumers
      ensures rc == if stopping && queues.Pending == [] then -1 else 1
      ensures rc == 1 ==> Performs(Step.ConsumerSleep(k))
      ensures rc == -1 ==> Performs(Step.GiveUp(k))
    {
      ghost var s := Abs();
      if stopping && queues.PendingCount() == 0 {
        consumers := consumers[k := Away];
        ConsumerMoveShaped(Cfg(), s, Step.GiveUp(k));
        return -1;
      }
      consumers := consumers[k := Asleep(consumers[k].channel)];
      ConsumerMoveShaped(Cfg(), s, Step.ConsumerSleep(k));
      return 1;
    }

    /** One pass of pop_completed_wait; a result of 1 stands for going to sleep in uv_cond_wait. */
    method PopCompletedWait(k: nat, data1In: Ptr, wake: int) returns (rc: int, data0: Ptr, data1: Ptr)
      requires Valid() && k < |consumers| && consumers[k].Waiting?
      requires LegalWake(workers, wake, AsleepForRoom(consumers[k].channel))
      modifies this, queues, queues.Repr
      ensures rc == if old(queues.Results)[old(consumers)[k].channel] != [] then 0
                    else if old(stopping) && old(queues.Pending) == [] then -1 else 1
      ensures rc == 0 ==> Performs(Step.ConsumerPop(k, wake))
      ensures rc == 1 ==> Performs(Step.ConsumerSleep(k))
      ensures rc == -1 ==> Performs(Step.GiveUp(k))
      ensures rc == 0 ==> var job := old(Abs()).completed[old(consumers)[k].channel][0];
                          data0 == job.data0 && data1 == if Cfg().copiesData1 then job.data1 else data1In
    {
      var c := consumers[k].channel;
      data0, data1 := 0, data1In;
      if queues.CompletedCount(c) == 0 {
        rc := WaitForResult(k);
      } else {
        data0, data1 := PopWaited(k, data1In, wake);
        rc := 0;
      }
    }

    method PopWaited(k: nat, data1In: Ptr, wake: int) returns (data0: Ptr, data1: Ptr)
      requires Valid() && k < |consumers| && consumers[k].Waiting? && Abs().completed[consumers[k].channel] != []
      requires LegalWake(workers, wake, AsleepForRoom(consumers[k].channel))
      modifies this, queues, queues.Repr
      ensures Performs(Step.ConsumerPop(k, wake))
      ensures var job := old(Abs()).completed[old(consumers)[k].channel][0];
              data0 == job.data0 && data1 == if Cfg().copiesData1 then job.data1 else data1In
    {
      ghost var s := Abs();
      StepShaped(Cfg(), s, Step.ConsumerPop(k, wake));
      var rc;
      rc, data0, data1 := TakeResult(consumers[k].channel, data1In, wake);
      consumers := consumers[k := Away];
      assert Abs() == Next(Cfg(), s, Step.ConsumerPop(k, wake));
    }

    /** uv_cond_broadcast on m_has_jobs and then, channel by channel, on the other two. */
    method BroadcastAll()
      requires forall i :: 0 <= i < |workers| && workers[i].RoomAsleep? ==> workers[i].job.channel < |queues.completed|
      requires forall i :: 0 <= i < |consumers| && consumers[i].Asleep? ==> consumers[i].channel < |queues.completed|
      modifies this`workers, this`consumers
      ensures |workers| == old(|workers|) && forall i :: 0 <= i < |workers| ==> workers[i] == Woken(old(workers)[i])
      ensures |consumers| == old(|consumers|)
      ensures forall i :: 0 <= i < |consumers| ==> consumers[i] == WokenConsumer(old(consumers)[i])
    {
      workers := seq(|workers|, i requires 0 <= i < |workers| reads this => AfterBroadcast(workers[i], 0));
      for c := 0 to |queues.completed|
        invariant |workers| == old(|workers|) && |consumers| == old(|consumers|)
        invariant forall i :: 0 <= i < |workers| ==> workers[i] == AfterBroadcast(old(workers)[i], c)
        invariant forall i :: 0 <= i < |consumers| ==>
                    var k := old(consumers)[i];
                    consumers[i] == if k.Asleep? && k.channel < c then Waiting(k.channel) else k
      {
        consumers := seq(|consumers|, i requires 0 <= i < |consumers| reads this =>
                           if consumers[i] == Asleep(c) then Waiting(c) else consumers[i]);
        workers := seq(|workers|, i requires 0 <= i < |workers| reads this =>
                         if AsleepForRoom(c)(workers[i]) then Woken(workers[i]) else workers[i]);
      }
    }

    method DropPending()
      requires this !in queues.Repr && queues.Valid()
      modifies this`dropped, queues, queues.Repr
      ensures queues.Valid() && queues.Results == old(queues.Results) && queues.Pending == []
      ensures dropped == old(dropped) + old(queues.Pending)
    {
      dropped := dropped + queues.Pending;
      queues.ResetPending();
    }

    /** The first call flips m_stopping, drops or keeps pending, and broadcasts channel by channel. */
    method Stop(drains: bool)
      requires Valid()
      modifies this, queues, queues.Repr
      ensures old(stopping) ==> Valid() && Abs() == old(Abs())
      ensures !old(stopping) ==> Performs(Step.Stop(drains)) && stopping && drain == drains
      ensures !old(stopping) ==> queues.Results == old(queues.Results)
                                 && queues.Pending == if drains then old(queues.Pending) else []
      ensures !old(stopping) ==> forall w :: 0 <= w < |workers| ==> !workers[w].IdleAsleep? && !workers[w].RoomAsleep?
    {
      if !stopping { StopNow(drains); }
    }

    method StopNow(drains: bool)
      requires Valid()
      modifies this, queues, queues.Repr
      ensures Valid() && Abs() == Stopped(old(Abs()), drains)
    {
      ghost var s := Abs();
      stopping, drain := true, drains;
      if !drains { DropPending(); }
      BroadcastAll();
      assert workers == Stopped(s, drains).workers && consumers == Stopped(s, drains).consumers;
      assert Abs() == Stopped(s, drains);
      StoppedShaped(Cfg(), s, drains);
    }
  }

  /** A worker after m_has_jobs and the first n m_room_completed have been broadcast. */
  function AfterBroadcast(w: Worker, n: nat): Worker {
    if w.IdleAsleep? || (w.RoomAsleep? && w.job.channel < n) then Woken(w) else w
  }
}
