/**
 What the steps of a run say by themselves about the channel: which items its producers were called with, in what
 order these went in, and how many came out. The state that a run leads to is shown to be just that.
 */
module ChannelTrace {
  import opened Basics
  import opened Counting
  import opened ChannelProtocol

  datatype Sent = Sent(producer: nat, item: int)

  /** The item of producer i's last call of channel_push, until it is pushed. */
  function ItemIn(steps: seq<Step>, i: nat): Option<int> {
    if steps == [] then None
    else
      var before, step := steps[..|steps| - 1], steps[|steps| - 1];
      match step
      case CallPush(j, item) => if j == i then Some(item) else ItemIn(before, i)
      case Push(j, _) => if j == i then None else ItemIn(before, i)
      case _ => ItemIn(before, i)
  }

  /** What goes into the channel: at each push, the item of that producer's last call. */
  function SentIn(steps: seq<Step>): seq<Sent> {
    if steps == [] then []
    else
      var before, step := steps[..|steps| - 1], steps[|steps| - 1];
      var item := if step.Push? then ItemIn(before, step.i) else None;
      SentIn(before) + if item.Some? then [Sent(step.i, item.value)] else []
  }

  /** The items that producer i was called with, in order. */
  function CallsIn(steps: seq<Step>, i: nat): seq<int> {
    if steps == [] then []
    else
      var before, step := steps[..|steps| - 1], steps[|steps| - 1];
      CallsIn(before, i) + if step.CallPush? && step.i == i then [step.item] else []
  }

  /** Whether consumer j is inside channel_pop. */
  predicate PoppingIn(steps: seq<Step>, j: nat) {
    steps != [] &&
    var before, step := steps[..|steps| - 1], steps[|steps| - 1];
    match step
    case CallPop(k) => k == j || PoppingIn(before, j)
    case Pop(k, _) => k != j && PoppingIn(before, j)
    case _ => PoppingIn(before, j)
  }

  predicate IsPop(step: Step) { step.Pop? || step.PopNowait? }

  function PopsIn(steps: seq<Step>): nat { Count(steps, IsPop) }

  function Items(sent: seq<Sent>): (items: seq<int>)
    ensures |items| == |sent| && forall k :: 0 <= k < |sent| ==> items[k] == sent[k].item
  {
    seq(|sent|, k requires 0 <= k < |sent| => sent[k].item)
  }

  /** The items of producer i among those sent. */
  function ItemsOf(sent: seq<Sent>, i: nat): seq<int> {
    if sent == [] then []
    else
      var before, last := sent[..|sent| - 1], sent[|sent| - 1];
      ItemsOf(before, i) + if last.producer == i then [last.item] else []
  }

  // ---------------------------------------------------------------- a run ends in what its steps tell

  function CalledWith(p: Producer): Option<int> { if p.OutP? then None else Some(p.item) }

  predicate ThreadsTold(steps: seq<Step>, s: State) {
    && (forall i :: 0 <= i < |s.producers| ==> CalledWith(s.producers[i]) == ItemIn(steps, i))
    && (forall j :: 0 <= j < |s.consumers| ==> (s.consumers[j].OutC? <==> !PoppingIn(steps, j)))
  }

  predicate ItemsTold(steps: seq<Step>, s: State) {
    s.pushed == Items(SentIn(steps)) && |s.popped| == PopsIn(steps)
  }

  lemma NextThreadsTold(cap: nat, before: seq<Step>, s: State, step: Step)
    requires Enabled(cap, s, step) && ThreadsTold(before, s)
    ensures ThreadsTold(before + [step], Next(cap, s, step))
  {
    assert (before + [step])[..|before|] == before;
  }

  lemma NextItemsTold(cap: nat, before: seq<Step>, s: State, step: Step)
    requires Enabled(cap, s, step) && ThreadsTold(before, s) && ItemsTold(before, s)
    ensures ItemsTold(before + [step], Next(cap, s, step))
  {
    assert (before + [step])[..|before|] == before;
    CountConcat(before, [step], IsPop);
    CountOne(step, IsPop);
    if step.Push? {
      assert CalledWith(s.producers[step.i]) == ItemIn(before, step.i);
    }
  }

  /** A run is a shorter one and a last step. */
  lemma {:induction false} RunLast(cap: nat, s: State, before: seq<Step>, step: Step, t: State) returns (u: State)
    requires Run(cap, s, before + [step], t)
    ensures Run(cap, s, before, u) && Enabled(cap, u, step) && t == Next(cap, u, step)
    decreases |before|
  {
    var steps := before + [step];
    if before == [] {
      u := s;
      assert steps[1..] == [];
    } else {
      assert steps[0] == before[0] && steps[1..] == before[1..] + [step];
      u := RunLast(cap, Next(cap, s, before[0]), before[1..], step, t);
    }
  }

  lemma {:induction false} RunTold(cap: nat, n: nat, m: nat, steps: seq<Step>, s: State)
    requires Run(cap, Init(n, m), steps, s)
    ensures ThreadsTold(steps, s) && ItemsTold(steps, s)
    decreases |steps|
  {
    if steps != [] {
      var before, step := steps[..|steps| - 1], steps[|steps| - 1];
      assert steps == before + [step];
      var u := RunLast(cap, Init(n, m), before, step, s);
      RunTold(cap, n, m, before, u);
      NextThreadsTold(cap, before, u, step);
      NextItemsTold(cap, before, u, step);
    }
  }

  /**
   However the threads interleave, sleep and wake: what comes out of the channel are the first of the items sent,
   as many as there were pops, and what it holds are the others, in order.
   */
  lemma ChannelHoldsWhatWasSent(cap: nat, n: nat, m: nat, steps: seq<Step>, s: State)
    requires Run(cap, Init(n, m), steps, s)
    ensures PopsIn(steps) <= |SentIn(steps)| <= PopsIn(steps) + cap
    ensures s.popped == Items(SentIn(steps))[..PopsIn(steps)]
    ensures s.queue == Items(SentIn(steps))[PopsIn(steps)..]
  {
    RunTold(cap, n, m, steps, s);
    BoundedFifo(cap, Init(n, m), steps, s);
    var all := Items(SentIn(steps));
    assert all == s.popped + s.queue && |all| == |SentIn(steps)|;
    assert all[..|s.popped|] == s.popped && all[|s.popped|..] == s.queue;
  }

  lemma ItemsOfSnoc(sent: seq<Sent>, last: Sent, i: nat)
    ensures ItemsOf(sent + [last], i) == ItemsOf(sent, i) + if last.producer == i then [last.item] else []
  {
    assert (sent + [last])[..|sent|] == sent;
  }

  lemma CallThenPush(steps: seq<Step>, step: Step, i: nat)
    requires CallsIn(steps, i) == ItemsOf(SentIn(steps), i) + Pending(ItemIn(steps, i))
    requires step.CallPush? && step.i == i ==> ItemIn(steps, i).None?
    ensures var more := steps + [step];
            CallsIn(more, i) == ItemsOf(SentIn(more), i) + Pending(ItemIn(more, i))
  {
    var more := steps + [step];
    assert more[..|steps|] == steps;
    assert CallsIn(more, i) == CallsIn(steps, i) + if step.CallPush? && step.i == i then [step.item] else [];
    if step.Push? && ItemIn(steps, step.i).Some? {
      var last := Sent(step.i, ItemIn(steps, step.i).value);
      ItemsOfSnoc(SentIn(steps), last, i);
      assert SentIn(more) == SentIn(steps) + [last];
    } else {
      assert SentIn(more) == SentIn(steps);
    }
  }

  function Pending(item: Option<int>): seq<int> { match item case None => [] case Some(x) => [x] }

  /** Each producer's items go in in the order of its calls, each once, but for that of the call it is in. */
  lemma {:induction false} EachProducerInOrder(cap: nat, n: nat, m: nat, steps: seq<Step>, s: State, i: nat)
    requires Run(cap, Init(n, m), steps, s) && i < n
    ensures |s.producers| == n && CallsIn(steps, i) == ItemsOf(SentIn(steps), i) + Pending(ItemIn(steps, i))
    decreases |steps|
  {
    if steps != [] {
      var before, step := steps[..|steps| - 1], steps[|steps| - 1];
      assert steps == before + [step];
      var u := RunLast(cap, Init(n, m), before, step, s);
      EachProducerInOrder(cap, n, m, before, u, i);
      RunTold(cap, n, m, before, u);
      assert CalledWith(u.producers[i]) == ItemIn(before, i);
      CallThenPush(before, step, i);
    }
  }
}
