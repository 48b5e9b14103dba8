/**
 The channel with the threads that use it: each method is one pass of a thread through channel_push,
 channel_pop or channel_pop_nowait on the linked nodes, and is shown to be a step of ChannelProtocol.
 */
module SharedChannels {
  import opened ChannelProtocol
  import opened Channels

  class SharedChannel {
    const channel: Channel<int>
    var producers: seq<Producer>
    var consumers: seq<Consumer>

    ghost predicate Valid()
      reads this, channel, channel.data, channel.next
    {
      channel.Valid()
    }

    ghost function Abs(): State
      requires Valid()
      reads this, channel, channel.data, channel.next
    {
      State(producers, consumers, channel.Queue(), channel.pushed, channel.popped)
    }

    twostate predicate Performs(step: Step)
      requires old(Valid())
      reads this, channel, channel.data, channel.next
    {
      Valid() && Enabled(channel.capacity, old(Abs()), step) && Abs() == Next(channel.capacity, old(Abs()), step)
    }

    constructor (capacity: nat, nProducers: nat, nConsumers: nat)
      requires capacity > 0
      ensures Valid() && channel.capacity == capacity && Abs() == Init(nProducers, nConsumers)
      ensures fresh(channel) && fresh(channel.data) && fresh(channel.next)
    {
      channel := new Channel<int>(capacity, 0);
      producers := seq(nProducers, _ => OutP);
      consumers := seq(nConsumers, _ => OutC);
      new;
      assert channel.pushed == channel.popped + channel.Queue();
    }

    method Signal(wake: Wake)
      requires wake.WakeP? ==> wake.i < |producers| && producers[wake.i].AsleepP?
      requires wake.WakeC? ==> wake.j < |consumers| && consumers[wake.j].AsleepC?
      modifies this`producers, this`consumers
      ensures producers == if wake.WakeP? then old(producers)[wake.i := TryP(old(producers)[wake.i].item)]
                           else old(producers)
      ensures consumers == if wake.WakeC? then old(consumers)[wake.j := TryC] else old(consumers)
    {
      match wake
      case Nobody =>
      case WakeP(i) => producers := producers[i := TryP(producers[i].item)];
      case WakeC(j) => consumers := consumers[j := TryC];
    }

    /** A producer inside channel_push gets the mutex: it pushes and signals, or waits. */
    method PushPass(i: nat, wake: Wake) returns (ghost step: Step)
      requires Valid() && i < |producers| && producers[i].TryP? && LegalWake(Abs(), wake)
      modifies this, channel, channel.data, channel.next
      ensures Performs(step)
      ensures var q, item := old(channel.Queue()), old(producers)[i].item;
              if |q| == channel.capacity then
                step == Step.SleepP(i) && channel.Queue() == q && producers == old(producers)[i := AsleepP(item)]
              else step == Step.Push(i, wake) && channel.Queue() == q + [item] && producers[i] == OutP
    {
      var item := producers[i].item;
      var waits := channel.Push(item);
      if waits {
        producers := producers[i := AsleepP(item)];
        step := Step.SleepP(i);
      } else {
        Signal(wake);
        producers := producers[i := OutP];
        step := Step.Push(i, wake);
      }
    }

    /** A consumer inside channel_pop gets the mutex: it pops and signals, or waits. */
    method PopPass(j: nat, wake: Wake) returns (x: int, ghost step: Step)
      requires Valid() && j < |consumers| && consumers[j].TryC? && LegalWake(Abs(), wake)
      modifies this, channel, channel.next
      ensures Performs(step)
      ensures var q := old(channel.Queue());
              if q == [] then step == Step.SleepC(j) && channel.Queue() == []
              else step == Step.Pop(j, wake) && x == q[0] && channel.Queue() == q[1..]
    {
      ghost var q := channel.Queue();
      var waits;
      waits, x := channel.Pop(0);
      if waits {
        consumers := consumers[j := AsleepC];
        step := Step.SleepC(j);
      } else {
        assert channel.Queue() == q[1..];
        Signal(wake);
        consumers := consumers[j := OutC];
        step := Step.Pop(j, wake);
      }
    }

    method PopNowaitPass(wake: Wake) returns (none: bool, x: int)
      requires Valid() && LegalWake(Abs(), wake)
      modifies this, channel, channel.next
      ensures Valid() && none == (old(Abs()).queue == [])
      ensures var q := old(channel.Queue());
              if none then Abs() == old(Abs())
              else Performs(Step.PopNowait(wake)) && x == q[0] && channel.Queue() == q[1..]
    {
      ghost var q := channel.Queue();
      none, x := channel.PopNowait(0);
      if !none {
        assert channel.Queue() == q[1..];
        Signal(wake);
      }
    }
  }
}
