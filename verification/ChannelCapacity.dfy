/** How much capacity the single condition variable of channel.cpp needs, exactly. */
module ChannelCapacity {
  import opened ChannelProtocol

  lemma {:induction false} RunSnoc(cap: nat, s: State, steps: seq<Step>, t: State, step: Step)
    requires Run(cap, s, steps, t) && Enabled(cap, t, step)
    ensures Run(cap, s, steps + [step], Next(cap, t, step))
    decreases |steps|
  {
    if steps == [] {
      assert [step][1..] == [];
    } else {
      assert (steps + [step])[1..] == steps[1..] + [step];
      RunSnoc(cap, Next(cap, s, steps[0]), steps[1..], t, step);
    }
  }

  lemma Then(cap: nat, p: nat, c: nat, s: State, step: Step) returns (t: State)
    requires Reachable(cap, p, c, s) && Enabled(cap, s, step)
    ensures t == Next(cap, s, step) && Reachable(cap, p, c, t)
  {
    var steps :| Run(cap, Init(p, c), steps, s);
    RunSnoc(cap, Init(p, c), steps, s, step);
    t := Next(cap, s, step);
  }

  function Zeros(n: nat): seq<int> { seq(n, _ => 0) }

  /** The first k of n threads are in one state, the others in another. */
  function Split<T>(n: nat, k: nat, first: T, rest: T): seq<T> {
    seq(n, i => if i < k then first else rest)
  }

  // ---------------------------------------------------------------- too many producers

  /** Producer 0 fills the queue. */
  lemma {:induction false} Filled(cap: nat, p: nat, c: nat, n: nat)
    requires p > 0 && n <= cap
    ensures Reachable(cap, p, c, Init(p, c).(queue := Zeros(n), pushed := Zeros(n)))
  {
    if n == 0 {
      assert Run(cap, Init(p, c), [], Init(p, c));
      assert Init(p, c).(queue := Zeros(0), pushed := Zeros(0)) == Init(p, c);
    } else {
      Filled(cap, p, c, n - 1);
      var s := Init(p, c).(queue := Zeros(n - 1), pushed := Zeros(n - 1));
      s := Then(cap, p, c, s, CallPush(0, 0));
      s := Then(cap, p, c, s, Push(0, Nobody));
      assert s == Init(p, c).(queue := Zeros(n), pushed := Zeros(n));
    }
  }

  function QueueFull(cap: nat, p: nat, c: nat, k: nat): State {
    Init(p, c).(producers := Split(p, k, AsleepP(0), OutP), queue := Zeros(cap), pushed := Zeros(cap))
  }

  /** One producer after the other finds the queue full and falls asleep. */
  lemma {:induction false} ProducersAsleep(cap: nat, p: nat, c: nat, k: nat)
    requires p > 0 && k <= p
    ensures Reachable(cap, p, c, QueueFull(cap, p, c, k))
  {
    if k == 0 {
      Filled(cap, p, c, cap);
      assert QueueFull(cap, p, c, 0) == Init(p, c).(queue := Zeros(cap), pushed := Zeros(cap));
    } else {
      ProducersAsleep(cap, p, c, k - 1);
      var s := Then(cap, p, c, QueueFull(cap, p, c, k - 1), CallPush(k - 1, 0));
      s := Then(cap, p, c, s, SleepP(k - 1));
      assert s == QueueFull(cap, p, c, k);
    }
  }

  function QueueEmptied(cap: nat, p: nat, c: nat, t: nat): State
    requires t <= cap
  {
    Init(p, c).(producers := Split(p, t, TryP(0), AsleepP(0)), queue := Zeros(cap - t),
                pushed := Zeros(cap), popped := Zeros(t))
  }

  /** Consumer 0 pops item by item, waking one producer each time. */
  lemma {:induction false} ProducersWoken(cap: nat, p: nat, c: nat, t: nat)
    requires c > 0 && t <= cap < p
    ensures Reachable(cap, p, c, QueueEmptied(cap, p, c, t))
  {
    if t == 0 {
      ProducersAsleep(cap, p, c, p);
      assert QueueEmptied(cap, p, c, 0) == QueueFull(cap, p, c, p);
    } else {
      ProducersWoken(cap, p, c, t - 1);
      var s := Then(cap, p, c, QueueEmptied(cap, p, c, t - 1), CallPop(0));
      s := Then(cap, p, c, s, Pop(0, WakeP(t - 1)));
      assert s == QueueEmptied(cap, p, c, t);
    }
  }

  lemma TooManyProducers(cap: nat, p: nat, c: nat) returns (s: State)
    requires c > 0 && cap < p
    ensures Reachable(cap, p, c, s) && BothAsleep(s)
  {
    ProducersWoken(cap, p, c, cap);
    s := Then(cap, p, c, QueueEmptied(cap, p, c, cap), CallPop(0));
    s := Then(cap, p, c, s, SleepC(0));
    assert s.producers[cap].AsleepP? && s.consumers[0].AsleepC?;
  }

  // ---------------------------------------------------------------- too many consumers

  function ConsumersDown(p: nat, c: nat, k: nat): State {
    Init(p, c).(consumers := Split(c, k, AsleepC, OutC))
  }

  lemma {:induction false} ConsumersAsleep(cap: nat, p: nat, c: nat, k: nat)
    requires k <= c
    ensures Reachable(cap, p, c, ConsumersDown(p, c, k))
  {
    if k == 0 {
      assert Run(cap, Init(p, c), [], Init(p, c));
      assert ConsumersDown(p, c, 0) == Init(p, c);
    } else {
      ConsumersAsleep(cap, p, c, k - 1);
      var s := Then(cap, p, c, ConsumersDown(p, c, k - 1), CallPop(k - 1));
      s := Then(cap, p, c, s, SleepC(k - 1));
      assert s == ConsumersDown(p, c, k);
    }
  }

  function QueueRefilled(p: nat, c: nat, t: nat): State {
    Init(p, c).(consumers := Split(c, t, TryC, AsleepC), queue := Zeros(t), pushed := Zeros(t))
  }

  lemma {:induction false} ConsumersWoken(cap: nat, p: nat, c: nat, t: nat)
    requires p > 0 && t <= cap < c
    ensures Reachable(cap, p, c, QueueRefilled(p, c, t))
  {
    if t == 0 {
      ConsumersAsleep(cap, p, c, c);
      assert QueueRefilled(p, c, 0) == ConsumersDown(p, c, c);
    } else {
      ConsumersWoken(cap, p, c, t - 1);
      var s := Then(cap, p, c, QueueRefilled(p, c, t - 1), CallPush(0, 0));
      s := Then(cap, p, c, s, Push(0, WakeC(t - 1)));
      assert s == QueueRefilled(p, c, t);
    }
  }

  lemma TooManyConsumers(cap: nat, p: nat, c: nat) returns (s: State)
    requires p > 0 && cap < c
    ensures Reachable(cap, p, c, s) && BothAsleep(s)
  {
    ConsumersWoken(cap, p, c, cap);
    s := Then(cap, p, c, QueueRefilled(p, c, cap), CallPush(0, 0));
    s := Then(cap, p, c, s, SleepP(0));
    assert s.producers[0].AsleepP? && s.consumers[cap].AsleepC?;
  }

  // ---------------------------------------------------------------- the exact condition

  lemma {:induction false} SameThreads(cap: nat, s: State, steps: seq<Step>, t: State)
    requires Run(cap, s, steps, t)
    ensures |t.producers| == |s.producers| && |t.consumers| == |s.consumers|
    decreases |steps|
  {
    if steps != [] { SameThreads(cap, Next(cap, s, steps[0]), steps[1..], t); }
  }

  /**
   One condition variable for both kinds of thread is enough, in all runs, exactly when there are no
   producers, or no consumers, or no more of either than the channel has places. Otherwise a signal
   can reach the wrong kind.
   */
  lemma CapacityNeeded(cap: nat, p: nat, c: nat)
    ensures (forall s :: Reachable(cap, p, c, s) ==> !BothAsleep(s))
       <==> p == 0 || c == 0 || (p <= cap && c <= cap)
  {
    if p > 0 && c > 0 && cap < p {
      var s := TooManyProducers(cap, p, c);
    } else if p > 0 && c > 0 && cap < c {
      var s := TooManyConsumers(cap, p, c);
    } else {
      forall s | Reachable(cap, p, c, s) ensures !BothAsleep(s) {
        if p == 0 || c == 0 {
          var steps :| Run(cap, Init(p, c), steps, s);
          SameThreads(cap, Init(p, c), steps, s);
        } else {
          NoLostWakeups(cap, p, c, s);
        }
      }
    }
  }

  /** With two producers, one consumer and one place, everybody can end up asleep over a queued item. */
  lemma EverybodyAsleep() returns (s: State)
    ensures Reachable(1, 2, 1, s) && s.queue == [0]
    ensures s.producers == [AsleepP(0), AsleepP(0)] && s.consumers == [AsleepC]
  {
    ProducersWoken(1, 2, 1, 1);
    s := QueueEmptied(1, 2, 1, 1);
    assert s.producers == [TryP(0), AsleepP(0)] && s.consumers == [OutC] && s.queue == [];
    s := Then(1, 2, 1, s, CallPop(0));
    s := Then(1, 2, 1, s, SleepC(0));
    assert s.producers == [TryP(0), AsleepP(0)] && s.consumers == [AsleepC] && s.queue == [];
    s := Then(1, 2, 1, s, Push(0, WakeP(1)));
    assert s.producers == [OutP, TryP(0)] && s.consumers == [AsleepC] && s.queue == [0];
    s := Then(1, 2, 1, s, SleepP(1));
    s := Then(1, 2, 1, s, CallPush(0, 0));
    s := Then(1, 2, 1, s, SleepP(0));
  }
}
