/**
 The waiting protocol of channel.cpp: producers and consumers share one condition variable, and
 every push and every successful pop signals it once. A signal wakes any one sleeper, of either kind.
 */
module ChannelProtocol {
  import opened Counting

  /** A thread that calls channel_push: elsewhere, awake inside the call, or asleep inside it. */
  datatype Producer = OutP | TryP(item: int) | AsleepP(item: int)
  datatype Consumer = OutC | TryC | AsleepC

  datatype State = State(
    producers: seq<Producer>, consumers: seq<Consumer>, queue: seq<int>,
    pushed: seq<int>, popped: seq<int>)

  /** Whom a signal wakes. */
  datatype Wake = Nobody | WakeP(i: nat) | WakeC(j: nat)

  datatype Step =
    | CallPush(i: nat, item: int)
    | SleepP(i: nat)
    | Push(i: nat, wake: Wake)
    | CallPop(j: nat)
    | SleepC(j: nat)
    | Pop(j: nat, wake: Wake)
    | PopNowait(wake: Wake)
    | SpuriousP(i: nat)
    | SpuriousC(j: nat)

  predicate IsAsleepP(p: Producer) { p.AsleepP? }
  predicate IsTryP(p: Producer) { p.TryP? }
  predicate IsAsleepC(c: Consumer) { c.AsleepC? }
  predicate IsTryC(c: Consumer) { c.TryC? }

  function Init(producers: nat, consumers: nat): State {
    State(seq(producers, _ => OutP), seq(consumers, _ => OutC), [], [], [])
  }

  predicate LegalWake(s: State, wake: Wake) {
    match wake
    case Nobody =>
      && (forall i :: 0 <= i < |s.producers| ==> !s.producers[i].AsleepP?)
      && (forall j :: 0 <= j < |s.consumers| ==> !s.consumers[j].AsleepC?)
    case WakeP(i) => i < |s.producers| && s.producers[i].AsleepP?
    case WakeC(j) => j < |s.consumers| && s.consumers[j].AsleepC?
  }

  /** The effect of uv_cond_signal. */
  function Signalled(s: State, wake: Wake): (t: State)
    requires LegalWake(s, wake)
  {
    match wake
    case Nobody => s
    case WakeP(i) => s.(producers := s.producers[i := TryP(s.producers[i].item)])
    case WakeC(j) => s.(consumers := s.consumers[j := TryC])
  }

  predicate Enabled(cap: nat, s: State, step: Step) {
    match step
    case CallPush(i, _) => i < |s.producers| && s.producers[i].OutP?
    case SleepP(i) => i < |s.producers| && s.producers[i].TryP? && |s.queue| >= cap
    case Push(i, wake) => i < |s.producers| && s.producers[i].TryP? && |s.queue| < cap && LegalWake(s, wake)
    case CallPop(j) => j < |s.consumers| && s.consumers[j].OutC?
    case SleepC(j) => j < |s.consumers| && s.consumers[j].TryC? && s.queue == []
    case Pop(j, wake) => j < |s.consumers| && s.consumers[j].TryC? && s.queue != [] && LegalWake(s, wake)
    case PopNowait(wake) => s.queue != [] && LegalWake(s, wake)
    case SpuriousP(i) => i < |s.producers| && s.producers[i].AsleepP?
    case SpuriousC(j) => j < |s.consumers| && s.consumers[j].AsleepC?
  }

  function Dequeued(s: State): State
    requires s.queue != []
  {
    s.(queue := s.queue[1..], popped := s.popped + [s.queue[0]])
  }

  function Next(cap: nat, s: State, step: Step): State
    requires Enabled(cap, s, step)
  {
    match step
    case CallPush(i, item) => s.(producers := s.producers[i := TryP(item)])
    case SleepP(i) => s.(producers := s.producers[i := AsleepP(s.producers[i].item)])
    case Push(i, wake) =>
      var item := s.producers[i].item;
      Signalled(s, wake).(producers := Signalled(s, wake).producers[i := OutP],
                          queue := s.queue + [item], pushed := s.pushed + [item])
    case CallPop(j) => s.(consumers := s.consumers[j := TryC])
    case SleepC(j) => s.(consumers := s.consumers[j := AsleepC])
    case Pop(j, wake) =>
      Dequeued(Signalled(s, wake)).(consumers := Signalled(s, wake).consumers[j := OutC])
    case PopNowait(wake) => Dequeued(Signalled(s, wake))
    case SpuriousP(i) => s.(producers := s.producers[i := TryP(s.producers[i].item)])
    case SpuriousC(j) => s.(consumers := s.consumers[j := TryC])
  }

  ghost predicate Run(cap: nat, s: State, steps: seq<Step>, t: State)
    decreases |steps|
  {
    if steps == [] then s == t
    else Enabled(cap, s, steps[0]) && Run(cap, Next(cap, s, steps[0]), steps[1..], t)
  }

  ghost predicate Reachable(cap: nat, producers: nat, consumers: nat, s: State) {
    exists steps :: Run(cap, Init(producers, consumers), steps, s)
  }

  predicate SomeProducerAsleep(s: State) {
    exists i :: 0 <= i < |s.producers| && s.producers[i].AsleepP?
  }

  predicate SomeConsumerAsleep(s: State) {
    exists j :: 0 <= j < |s.consumers| && s.consumers[j].AsleepC?
  }

  predicate BothAsleep(s: State) { SomeProducerAsleep(s) && SomeConsumerAsleep(s) }

  // ---------------------------------------------------------------- the invariant

  /** A sleeping producer leaves an awake one per free place, a sleeping consumer one per item. */
  predicate Watched(cap: nat, s: State) {
    && (Count(s.producers, IsAsleepP) > 0 ==> Count(s.producers, IsTryP) + |s.queue| >= cap)
    && (Count(s.consumers, IsAsleepC) > 0 ==> Count(s.consumers, IsTryC) >= |s.queue|)
    && !(Count(s.producers, IsAsleepP) > 0 && Count(s.consumers, IsAsleepC) > 0)
  }

  predicate Inv(cap: nat, s: State) {
    && Watched(cap, s)
    && |s.queue| <= cap
    && s.pushed == s.popped + s.queue
  }

  lemma ProducerMoves(ps: seq<Producer>, i: nat, x: Producer)
    requires i < |ps|
    ensures Count(ps[i := x], IsAsleepP) + Bit(ps[i].AsleepP?) == Count(ps, IsAsleepP) + Bit(x.AsleepP?)
    ensures Count(ps[i := x], IsTryP) + Bit(ps[i].TryP?) == Count(ps, IsTryP) + Bit(x.TryP?)
    ensures Count(ps, IsAsleepP) + Count(ps, IsTryP) <= |ps|
  {
    CountUpdate(ps, i, x, IsAsleepP);
    CountUpdate(ps, i, x, IsTryP);
    CountDisjoint(ps, IsAsleepP, IsTryP);
  }

  lemma ConsumerMoves(cs: seq<Consumer>, j: nat, x: Consumer)
    requires j < |cs|
    ensures Count(cs[j := x], IsAsleepC) + Bit(cs[j].AsleepC?) == Count(cs, IsAsleepC) + Bit(x.AsleepC?)
    ensures Count(cs[j := x], IsTryC) + Bit(cs[j].TryC?) == Count(cs, IsTryC) + Bit(x.TryC?)
    ensures Count(cs, IsAsleepC) + Count(cs, IsTryC) <= |cs|
  {
    CountUpdate(cs, j, x, IsAsleepC);
    CountUpdate(cs, j, x, IsTryC);
    CountDisjoint(cs, IsAsleepC, IsTryC);
  }

  /** A signal wakes a producer, or a consumer, or finds no sleeper of either kind. */
  lemma SignalCounts(s: State, wake: Wake)
    requires LegalWake(s, wake)
    ensures var t := Signalled(s, wake);
            var ps, qs, cs, ds := s.producers, t.producers, s.consumers, t.consumers;
            match wake
            case Nobody => t == s && Count(ps, IsAsleepP) == 0 && Count(cs, IsAsleepC) == 0
            case WakeP(_) =>
              && ds == cs && Count(ps, IsAsleepP) == Count(qs, IsAsleepP) + 1
              && Count(qs, IsTryP) == Count(ps, IsTryP) + 1
            case WakeC(_) =>
              && qs == ps && Count(cs, IsAsleepC) == Count(ds, IsAsleepC) + 1
              && Count(ds, IsTryC) == Count(cs, IsTryC) + 1
  {
    match wake
    case Nobody =>
      CountPositive(s.producers, IsAsleepP);
      CountPositive(s.consumers, IsAsleepC);
    case WakeP(i) => ProducerMoves(s.producers, i, TryP(s.producers[i].item));
    case WakeC(j) => ConsumerMoves(s.consumers, j, TryC);
  }

  lemma PushInv(cap: nat, s: State, i: nat, wake: Wake)
    requires Inv(cap, s) && Enabled(cap, s, Push(i, wake))
    ensures Inv(cap, Next(cap, s, Push(i, wake)))
  {
    SignalCounts(s, wake);
    ProducerMoves(Signalled(s, wake).producers, i, OutP);
  }

  lemma PopInv(cap: nat, s: State, j: nat, wake: Wake)
    requires Inv(cap, s) && Enabled(cap, s, Pop(j, wake))
    ensures Inv(cap, Next(cap, s, Pop(j, wake)))
  {
    SignalCounts(s, wake);
    ConsumerMoves(Signalled(s, wake).consumers, j, OutC);
  }

  lemma PopNowaitInv(cap: nat, s: State, wake: Wake)
    requires Inv(cap, s) && Enabled(cap, s, PopNowait(wake))
    ensures Inv(cap, Next(cap, s, PopNowait(wake)))
  {
    SignalCounts(s, wake);
  }

  lemma SleepPInv(cap: nat, s: State, i: nat)
    requires Inv(cap, s) && Enabled(cap, s, SleepP(i)) && |s.consumers| <= cap
    ensures Inv(cap, Next(cap, s, SleepP(i)))
  {
    ProducerMoves(s.producers, i, AsleepP(s.producers[i].item));
    if Count(s.consumers, IsAsleepC) > 0 { CountDisjoint(s.consumers, IsAsleepC, IsTryC); }
  }

  lemma SleepCInv(cap: nat, s: State, j: nat)
    requires Inv(cap, s) && Enabled(cap, s, SleepC(j)) && |s.producers| <= cap && cap > 0
    ensures Inv(cap, Next(cap, s, SleepC(j)))
  {
    ConsumerMoves(s.consumers, j, AsleepC);
    if Count(s.producers, IsAsleepP) > 0 { CountDisjoint(s.producers, IsAsleepP, IsTryP); }
  }

  lemma StepInv(cap: nat, s: State, step: Step)
    requires Inv(cap, s) && Enabled(cap, s, step)
    requires |s.producers| <= cap && |s.consumers| <= cap
    ensures Inv(cap, Next(cap, s, step))
    ensures |Next(cap, s, step).producers| == |s.producers| && |Next(cap, s, step).consumers| == |s.consumers|
  {
    match step
    case CallPush(i, item) => ProducerMoves(s.producers, i, TryP(item));
    case SleepP(i) => SleepPInv(cap, s, i);
    case Push(i, wake) => PushInv(cap, s, i, wake);
    case CallPop(j) => ConsumerMoves(s.consumers, j, TryC);
    case SleepC(j) => SleepCInv(cap, s, j);
    case Pop(j, wake) => PopInv(cap, s, j, wake);
    case PopNowait(wake) => PopNowaitInv(cap, s, wake);
    case SpuriousP(i) => ProducerMoves(s.producers, i, TryP(s.producers[i].item));
    case SpuriousC(j) => ConsumerMoves(s.consumers, j, TryC);
  }

  lemma {:induction false} RunInv(cap: nat, s: State, steps: seq<Step>, t: State)
    requires Inv(cap, s) && Run(cap, s, steps, t)
    requires |s.producers| <= cap && |s.consumers| <= cap
    ensures Inv(cap, t)
    decreases |steps|
  {
    if steps != [] {
      StepInv(cap, s, steps[0]);
      RunInv(cap, Next(cap, s, steps[0]), steps[1..], t);
    }
  }

  /** The queue is a bounded FIFO for any number of threads and any wake-ups. */
  lemma {:induction false} BoundedFifo(cap: nat, s: State, steps: seq<Step>, t: State)
    requires Run(cap, s, steps, t) && s.pushed == s.popped + s.queue && |s.queue| <= cap
    ensures t.pushed == t.popped + t.queue && |t.queue| <= cap
    decreases |steps|
  {
    if steps != [] {
      StepFifo(cap, s, steps[0]);
      BoundedFifo(cap, Next(cap, s, steps[0]), steps[1..], t);
    }
  }

  lemma StepFifo(cap: nat, s: State, step: Step)
    requires Enabled(cap, s, step) && s.pushed == s.popped + s.queue && |s.queue| <= cap
    ensures var t := Next(cap, s, step); t.pushed == t.popped + t.queue && |t.queue| <= cap
  {
    if step.Push? {
      var item := s.producers[step.i].item;
      assert s.popped + s.queue + [item] == s.popped + (s.queue + [item]);
    } else if step.Pop? || step.PopNowait? {
      assert s.queue == [s.queue[0]] + s.queue[1..];
      assert s.popped + s.queue == s.popped + [s.queue[0]] + s.queue[1..];
    }
  }

  /**
   No wake-up is lost while the queue has a place for every thread: sleepers of the two kinds never
   coexist, a sleeping consumer leaves an awake one for each queued item, and a sleeping producer
   leaves an awake one for each free place.
   */
  lemma NoLostWakeups(cap: nat, producers: nat, consumers: nat, s: State)
    requires producers <= cap && consumers <= cap && Reachable(cap, producers, consumers, s)
    ensures !BothAsleep(s)
    ensures SomeConsumerAsleep(s) ==> Count(s.consumers, IsTryC) >= |s.queue|
    ensures SomeProducerAsleep(s) ==> Count(s.producers, IsTryP) >= cap - |s.queue|
  {
    var steps :| Run(cap, Init(producers, consumers), steps, s);
    var s0 := Init(producers, consumers);
    CountPositive(s0.producers, IsAsleepP);
    CountPositive(s0.consumers, IsAsleepC);
    RunInv(cap, s0, steps, s);
    CountPositive(s.producers, IsAsleepP);
    CountPositive(s.consumers, IsAsleepC);
    if i :| 0 <= i < |s.producers| && s.producers[i].AsleepP? { assert IsAsleepP(s.producers[i]); }
    if j :| 0 <= j < |s.consumers| && s.consumers[j].AsleepC? { assert IsAsleepC(s.consumers[j]); }
  }
}
