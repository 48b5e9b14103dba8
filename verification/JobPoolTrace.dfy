/**
 What the steps of a run say by themselves about the worker pool: which jobs were submitted, who has which of
 them, which results a channel has had. The state that a run leads to is shown to be just that.
 */
module JobPoolTrace {
  import opened Basics
  import opened Counting
  import opened JobPool
  import opened JobPoolInvariant
  import opened JobPoolTheorems

  // ---------------------------------------------------------------- told from the steps alone

  function SubmittedIn(steps: seq<Step>): seq<Job> {
    if steps == [] then []
    else
      var before, step := steps[..|steps| - 1], steps[|steps| - 1];
      SubmittedIn(before) + if step.Submit? then [step.job] else []
  }

  predicate IsTake(step: Step) { step.Take? }

  function TakesIn(steps: seq<Step>): nat { Count(steps, IsTake) }

  /** The argument of the stop, if there was one. */
  function StopIn(steps: seq<Step>): Option<bool> {
    if steps == [] then None
    else
      var before, step := steps[..|steps| - 1], steps[|steps| - 1];
      if step.Stop? then Some(step.drains) else StopIn(before)
  }

  /** A stop that does not drain discards all submitted jobs but those already taken. */
  function DroppedIn(steps: seq<Step>): seq<Job> {
    if steps == [] then []
    else
      var before, step := steps[..|steps| - 1], steps[|steps| - 1];
      if step == Stop(false) && TakesIn(before) <= |SubmittedIn(before)| then SubmittedIn(before)[TakesIn(before)..]
      else DroppedIn(before)
  }

  /** The job that worker w took last, until it delivers: the first submitted one that nobody had taken. */
  function HeldIn(steps: seq<Step>, w: nat): Option<Job> {
    if steps == [] then None
    else
      var before, step := steps[..|steps| - 1], steps[|steps| - 1];
      match step
      case Take(v) =>
        if v == w && TakesIn(before) < |SubmittedIn(before)| then Some(SubmittedIn(before)[TakesIn(before)])
        else HeldIn(before, w)
      case Deliver(v, _) => if v == w then None else HeldIn(before, w)
      case _ => HeldIn(before, w)
  }

  /** The jobs of channel c in the order in which their workers delivered them. */
  function ResultsIn(steps: seq<Step>, c: nat): seq<Job> {
    if steps == [] then []
    else
      var before, step := steps[..|steps| - 1], steps[|steps| - 1];
      var delivered := if step.Deliver? then HeldIn(before, step.w) else None;
      ResultsIn(before, c) + if delivered.Some? && delivered.value.channel == c then [delivered.value] else []
  }

  /** The channel that consumer k has asked for, until it gets a result or is told that none will come. */
  function AskedIn(steps: seq<Step>, k: nat): Option<nat> {
    if steps == [] then None
    else
      var before, step := steps[..|steps| - 1], steps[|steps| - 1];
      match step
      case Ask(j, c) => if j == k then Some(c) else AskedIn(before, k)
      case ConsumerPop(j, _) => if j == k then None else AskedIn(before, k)
      case GiveUp(j) => if j == k then None else AskedIn(before, k)
      case _ => AskedIn(before, k)
  }

  /** How many results of channel c were popped. */
  function PopsIn(steps: seq<Step>, c: nat): nat {
    if steps == [] then 0
    else
      var before, step := steps[..|steps| - 1], steps[|steps| - 1];
      var here := (step.PopNow? && step.c == c) || (step.ConsumerPop? && AskedIn(before, step.k) == Some(c));
      PopsIn(before, c) + Bit(here)
  }

  // ---------------------------------------------------------------- a run ends in what its steps tell

  predicate JobsTold(steps: seq<Step>, s: State) {
    && s.accepted == SubmittedIn(steps) && |s.started| == TakesIn(steps) && s.dropped == DroppedIn(steps)
    && (s.stopping <==> StopIn(steps).Some?) && s.drain == (StopIn(steps) != Some(false))
  }

  function InHandOf(w: Worker): Option<Job> { if HoldsJob(w) then Some(w.job) else None }

  function HandedOn(cfg: Config, held: Option<Job>): Option<Job> {
    match held case None => None case Some(job) => Some(cfg.Handed(job))
  }

  predicate HandsTold(cfg: Config, steps: seq<Step>, s: State) {
    forall w :: 0 <= w < |s.workers| ==> InHandOf(s.workers[w]) == HandedOn(cfg, HeldIn(steps, w))
  }

  function ChannelOf(k: Consumer): Option<nat> { if k.Away? then None else Some(k.channel) }

  predicate ConsumersTold(steps: seq<Step>, s: State) {
    forall k :: 0 <= k < |s.consumers| ==> ChannelOf(s.consumers[k]) == AskedIn(steps, k)
  }

  predicate ResultsTold(cfg: Config, steps: seq<Step>, s: State, c: nat)
    requires c < |s.popped| == |s.completed|
  {
    s.popped[c] + s.completed[c] == cfg.HandAll(ResultsIn(steps, c)) && |s.popped[c]| == PopsIn(steps, c)
  }

  lemma TakesSnoc(before: seq<Step>, step: Step)
    ensures TakesIn(before + [step]) == TakesIn(before) + Bit(step.Take?)
  {
    CountConcat(before, [step], IsTake);
    CountOne(step, IsTake);
  }

  lemma NextJobsTold(cfg: Config, before: seq<Step>, s: State, step: Step)
    requires Shaped(cfg, s) && Enabled(cfg, s, step) && InOrder(s) && StopRespected(s) && JobsTold(before, s)
    ensures JobsTold(before + [step], Next(cfg, s, step))
  {
    TakesSnoc(before, step);
    assert (before + [step])[..|before|] == before;
    if step == Stop(false) { assert s.pending == s.accepted[|s.started|..]; }
  }

  lemma NextHandsTold(cfg: Config, before: seq<Step>, s: State, step: Step)
    requires Shaped(cfg, s) && Enabled(cfg, s, step) && InOrder(s) && JobsTold(before, s) && HandsTold(cfg, before, s)
    ensures HandsTold(cfg, before + [step], Next(cfg, s, step))
  {
    assert (before + [step])[..|before|] == before;
    if step.Take? { assert s.pending[0] == s.accepted[|s.started|]; }
  }

  lemma NextConsumersTold(cfg: Config, before: seq<Step>, s: State, step: Step)
    requires Shaped(cfg, s) && Enabled(cfg, s, step) && ConsumersTold(before, s)
    ensures ConsumersTold(before + [step], Next(cfg, s, step))
  {
    assert (before + [step])[..|before|] == before;
  }

  lemma DeliveryTold(cfg: Config, before: seq<Step>, s: State, w: nat, wake: int, c: nat)
    requires Shaped(cfg, s) && Enabled(cfg, s, Deliver(w, wake)) && c < cfg.Channels()
    requires HandsTold(cfg, before, s) && ResultsTold(cfg, before, s, c)
    ensures Shaped(cfg, Delivered(s, w, wake))
    ensures ResultsTold(cfg, before + [Deliver(w, wake)], Delivered(s, w, wake), c)
  {
    var steps, t := before + [Deliver(w, wake)], Delivered(s, w, wake);
    DeliveredShaped(cfg, s, w, wake);
    assert steps[..|before|] == before;
    assert InHandOf(s.workers[w]) == HandedOn(cfg, HeldIn(before, w));
    var job := HeldIn(before, w).value;
    HandAllConcat(cfg, ResultsIn(before, c), [job]);
    assert cfg.HandAll([job]) == [cfg.Handed(job)];
    if job.channel == c {
      assert t.popped[c] + t.completed[c] == s.popped[c] + s.completed[c] + [cfg.Handed(job)];
    } else {
      assert ResultsIn(steps, c) == ResultsIn(before, c);
    }
  }

  lemma PopTold(cfg: Config, before: seq<Step>, s: State, step: Step, d: nat, wake: int, c: nat)
    requires Shaped(cfg, s) && c < cfg.Channels() && ResultsTold(cfg, before, s, c)
    requires d < cfg.Channels() && s.completed[d] != [] && wake < |s.workers|
    requires if step.PopNow? then step.c == d else step.ConsumerPop? && AskedIn(before, step.k) == Some(d)
    ensures Shaped(cfg, PopResult(cfg, s, d, wake))
    ensures ResultsTold(cfg, before + [step], PopResult(cfg, s, d, wake), c)
  {
    PopShaped(cfg, s, d, wake);
    assert (before + [step])[..|before|] == before;
    assert ResultsIn(before + [step], c) == ResultsIn(before, c);
    assert PopsIn(before + [step], c) == PopsIn(before, c) + Bit(d == c);
    var t := PopResult(cfg, s, d, wake);
    assert t.popped[c] + t.completed[c] == s.popped[c] + s.completed[c];
  }

  lemma NoResultTold(cfg: Config, before: seq<Step>, s: State, step: Step, c: nat)
    requires Shaped(cfg, s) && Enabled(cfg, s, step) && c < cfg.Channels() && ResultsTold(cfg, before, s, c)
    requires !step.Deliver? && !step.ConsumerPop? && !step.PopNow?
    ensures Shaped(cfg, Next(cfg, s, step)) && ResultsTold(cfg, before + [step], Next(cfg, s, step), c)
  {
    StepShaped(cfg, s, step);
    assert (before + [step])[..|before|] == before;
    assert ResultsIn(before + [step], c) == ResultsIn(before, c) && PopsIn(before + [step], c) == PopsIn(before, c);
    var t := Next(cfg, s, step);
    assert t.popped == s.popped && t.completed == s.completed;
  }

  lemma NextResultsTold(cfg: Config, before: seq<Step>, s: State, step: Step, c: nat)
    requires Shaped(cfg, s) && Enabled(cfg, s, step) && c < cfg.Channels()
    requires HandsTold(cfg, before, s) && ConsumersTold(before, s) && ResultsTold(cfg, before, s, c)
    ensures Shaped(cfg, Next(cfg, s, step)) && ResultsTold(cfg, before + [step], Next(cfg, s, step), c)
  {
    StepShaped(cfg, s, step);
    match step
    case Deliver(w, wake) => DeliveryTold(cfg, before, s, w, wake, c);
    case ConsumerPop(k, wake) =>
      assert ChannelOf(s.consumers[k]) == AskedIn(before, k);
      PopTold(cfg, before, s, step, s.consumers[k].channel, wake, c);
    case PopNow(d, wake) => PopTold(cfg, before, s, step, d, wake, c);
    case _ => NoResultTold(cfg, before, s, step, c);
  }

  /** A run is a shorter one and a last step. */
  lemma {:induction false} RunLast(cfg: Config, s: State, before: seq<Step>, step: Step, t: State) returns (u: State)
    requires Run(cfg, s, before + [step], t)
    ensures Run(cfg, s, before, u) && Shaped(cfg, u) && Enabled(cfg, u, step) && t == Next(cfg, u, step)
    decreases |before|
  {
    var steps := before + [step];
    if before == [] {
      u := s;
      assert steps[1..] == [];
    } else {
      assert steps[0] == before[0] && steps[1..] == before[1..] + [step];
      u := RunLast(cfg, Next(cfg, s, before[0]), before[1..], step, t);
    }
  }

  ghost predicate Told(cfg: Config, steps: seq<Step>, s: State) {
    && Shaped(cfg, s) && JobsTold(steps, s) && HandsTold(cfg, steps, s) && ConsumersTold(steps, s)
    && forall c :: 0 <= c < cfg.Channels() ==> ResultsTold(cfg, steps, s, c)
  }

  lemma NextTold(cfg: Config, before: seq<Step>, s: State, step: Step)
    requires Inv(cfg, s) && Enabled(cfg, s, step) && Told(cfg, before, s)
    ensures Told(cfg, before + [step], Next(cfg, s, step))
  {
    StepShaped(cfg, s, step);
    NextJobsTold(cfg, before, s, step);
    NextHandsTold(cfg, before, s, step);
    NextConsumersTold(cfg, before, s, step);
    forall c | 0 <= c < cfg.Channels() ensures ResultsTold(cfg, before + [step], Next(cfg, s, step), c) {
      NextResultsTold(cfg, before, s, step, c);
    }
  }

  /**
   Whatever the interleaving: what was accepted, started and dropped, which job each worker holds, what each
   consumer waits for, and what each channel has had and given out, is what the steps tell.
   */
  lemma {:induction false} RunTold(cfg: Config, n: nat, m: nat, steps: seq<Step>, s: State)
    requires cfg.Valid() && Run(cfg, Init(cfg, n, m), steps, s)
    ensures Told(cfg, steps, s)
    decreases |steps|
  {
    if steps == [] {
      InitShaped(cfg, n, m);
    } else {
      var before, step := steps[..|steps| - 1], steps[|steps| - 1];
      assert steps == before + [step];
      var u := RunLast(cfg, Init(cfg, n, m), before, step, s);
      RunTold(cfg, n, m, before, u);
      InitInv(cfg, n, m);
      RunInv(cfg, Init(cfg, n, m), before, u);
      NextTold(cfg, before, u, step);
    }
  }

  // ---------------------------------------------------------------- the submitted jobs

  /** The jobs of the submit steps, in order, are the started, the pending and the dropped ones, in this order. */
  lemma SubmittedAre(cfg: Config, n: nat, m: nat, steps: seq<Step>, s: State)
    requires cfg.Valid() && Run(cfg, Init(cfg, n, m), steps, s)
    ensures SubmittedIn(steps) == s.started + s.pending + s.dropped && |s.started| == TakesIn(steps)
  {
    RunTold(cfg, n, m, steps, s);
    ReachableInv(cfg, n, m, s);
  }

  /** With one worker each channel gets its submitted jobs in order, none skipped. */
  lemma OneWorkerKeepsSubmissionOrder(cfg: Config, m: nat, steps: seq<Step>, s: State, c: nat)
    requires cfg.Valid() && Run(cfg, Init(cfg, 1, m), steps, s) && c < cfg.Channels()
    ensures Shaped(cfg, s)
    ensures Filter(cfg.HandAll(SubmittedIn(steps)), OnChannel(c))
         == s.popped[c] + s.completed[c] + InHand(s.workers, c)
            + Filter(cfg.HandAll(s.pending), OnChannel(c)) + Filter(cfg.HandAll(s.dropped), OnChannel(c))
  {
    RunTold(cfg, 1, m, steps, s);
    OneWorkerKeepsChannelOrder(cfg, m, s, c);
  }

  /** The results of channel c come in the order in which its jobs were submitted, with none skipped. */
  ghost predicate InSubmissionOrder(cfg: Config, steps: seq<Step>, c: nat) {
    cfg.HandAll(ResultsIn(steps, c)) <= Filter(cfg.HandAll(SubmittedIn(steps)), OnChannel(c))
  }

  ghost predicate AlwaysInOrder(cfg: Config, n: nat, m: nat) {
    forall steps, s, c: nat | Run(cfg, Init(cfg, n, m), steps, s) && c < cfg.Channels() ::
      InSubmissionOrder(cfg, steps, c)
  }

  lemma OneWorkerInSubmissionOrder(cfg: Config, m: nat, steps: seq<Step>, s: State, c: nat)
    requires cfg.Valid() && Run(cfg, Init(cfg, 1, m), steps, s) && c < cfg.Channels()
    ensures InSubmissionOrder(cfg, steps, c)
  {
    RunTold(cfg, 1, m, steps, s);
    OneWorkerChannelOrder(cfg, m, s, c);
    assert ResultsTold(cfg, steps, s, c);
  }

  lemma TwoWorkersOutOfOrder(cfg: Config, n: nat, m: nat) returns (steps: seq<Step>, s: State)
    requires cfg.Valid() && cfg.Channels() > 0 && n >= 2
    ensures Run(cfg, Init(cfg, n, m), steps, s) && !InSubmissionOrder(cfg, steps, 0)
  {
    s := TwoWorkersReorder(cfg, n, m);
    steps :| Run(cfg, Init(cfg, n, m), steps, s);
    RunTold(cfg, n, m, steps, s);
    assert ResultsTold(cfg, steps, s, 0);
  }

  /** In every run the results of every channel come in the order of submission just if there is one worker. */
  lemma SubmissionOrderNeedsOneWorker(cfg: Config, n: nat, m: nat)
    requires cfg.Valid() && cfg.Channels() > 0 && n > 0
    ensures AlwaysInOrder(cfg, n, m) <==> n == 1
  {
    if n >= 2 {
      var steps, s := TwoWorkersOutOfOrder(cfg, n, m);
    } else {
      forall steps, s, c: nat | Run(cfg, Init(cfg, n, m), steps, s) && c < cfg.Channels()
        ensures InSubmissionOrder(cfg, steps, c)
      {
        OneWorkerInSubmissionOrder(cfg, m, steps, s, c);
      }
    }
  }

  // ---------------------------------------------------------------- stopping

  predicate AllExited(s: State) { forall w :: 0 <= w < |s.workers| ==> s.workers[w].Exited? }

  /** What a stop has decided when it came in state s. */
  predicate StopKept(s: State, drains: bool, t: State) {
    && t.stopping && t.drain == drains && t.accepted == s.accepted
    && if drains then t.dropped == s.dropped && t.started + t.pending == s.started + s.pending
       else t.started == s.started && t.pending == [] && t.dropped == s.dropped + s.pending
  }

  lemma NextStopKept(cfg: Config, s: State, drains: bool, t: State, step: Step)
    requires Shaped(cfg, t) && Enabled(cfg, t, step) && StopKept(s, drains, t)
    ensures StopKept(s, drains, Next(cfg, t, step))
  {
    if step.Take? { assert t.pending == [t.pending[0]] + t.pending[1..]; }
  }

  lemma {:induction false} RunStopKept(cfg: Config, s: State, drains: bool, t: State, steps: seq<Step>, u: State)
    requires Run(cfg, t, steps, u) && StopKept(s, drains, t)
    ensures StopKept(s, drains, u)
    decreases |steps|
  {
    if steps != [] {
      NextStopKept(cfg, s, drains, t, steps[0]);
      RunStopKept(cfg, s, drains, Next(cfg, t, steps[0]), steps[1..], u);
    }
  }

  /**
   A stop is final and does what its argument says, in every run from there: one that drains drops nothing, and
   all that was pending is started or still is; one that does not drain starts nothing any more.
   */
  lemma StopDecides(cfg: Config, s: State, drains: bool, steps: seq<Step>, t: State)
    requires Shaped(cfg, s) && Enabled(cfg, s, Stop(drains)) && Run(cfg, Next(cfg, s, Stop(drains)), steps, t)
    ensures StopKept(s, drains, t)
  {
    RunStopKept(cfg, s, drains, Next(cfg, s, Stop(drains)), steps, t);
  }

  lemma {:induction false} StopInIs(steps: seq<Step>, drains: bool)
    requires StopIn(steps) == Some(drains)
    ensures Stop(drains) in steps
  {
    var before, step := steps[..|steps| - 1], steps[|steps| - 1];
    if !step.Stop? { StopInIs(before, drains); }
  }

  lemma NothingDropped(cfg: Config, n: nat, m: nat, steps: seq<Step>, s: State)
    requires cfg.Valid() && Run(cfg, Init(cfg, n, m), steps, s) && Stop(false) !in steps
    ensures s.dropped == [] && s.drain
  {
    RunTold(cfg, n, m, steps, s);
    ReachableInv(cfg, n, m, s);
    if StopIn(steps) == Some(false) { StopInIs(steps, false); }
  }

  /**
   A run in which nobody stops without draining loses no job: the submitted ones are started or pending, and when
   all workers have left, all of them were started and are in the completed rings or popped.
   */
  lemma DrainLosesNothing(cfg: Config, n: nat, m: nat, steps: seq<Step>, s: State)
    requires cfg.Valid() && Run(cfg, Init(cfg, n, m), steps, s) && Stop(false) !in steps
    ensures s.dropped == [] && SubmittedIn(steps) == s.started + s.pending
    ensures s.workers != [] && AllExited(s) ==>
              && SubmittedIn(steps) == s.started
              && forall job :: Times(cfg.HandAll(SubmittedIn(steps)), job)
                               == TimesAll(s.completed, job) + TimesAll(s.popped, job)
  {
    NothingDropped(cfg, n, m, steps, s);
    SubmittedAre(cfg, n, m, steps, s);
    assert s.started + s.pending + [] == s.started + s.pending;
    if s.workers != [] && AllExited(s) {
      forall job ensures Times(cfg.HandAll(s.started), job) == TimesAll(s.completed, job) + TimesAll(s.popped, job)
      {
        ExitedAccounted(cfg, n, m, s, job);
      }
      ExitedAccounted(cfg, n, m, s, FIRST_JOB);
      assert s.started + [] == s.started;
    }
  }

  lemma ExitedAccounted(cfg: Config, n: nat, m: nat, s: State, job: Job)
    requires cfg.Valid() && Reachable(cfg, n, m, s) && s.workers != [] && AllExited(s)
    ensures s.pending == []
    ensures Times(cfg.HandAll(s.started), job) == TimesAll(s.completed, job) + TimesAll(s.popped, job)
  {
    ReachableInv(cfg, n, m, s);
    assert s.workers[0].Exited? && Accounted(cfg, s, job);
    NobodyAsleep(s.workers, Holding(job));
  }

  /** A stop that does not drain discards just what nobody had taken by then, and nothing is started after it. */
  lemma HardStopDropsTheRest(cfg: Config, n: nat, m: nat, before: seq<Step>, after: seq<Step>, s: State, t: State)
    requires cfg.Valid() && Run(cfg, Init(cfg, n, m), before, s) && Shaped(cfg, s) && Enabled(cfg, s, Stop(false))
    requires Run(cfg, Next(cfg, s, Stop(false)), after, t)
    ensures TakesIn(before) <= |SubmittedIn(before)|
    ensures t.started == SubmittedIn(before)[..TakesIn(before)] && t.pending == []
    ensures t.dropped == SubmittedIn(before)[TakesIn(before)..] && t.accepted == SubmittedIn(before)
  {
    StopDecides(cfg, s, false, after, t);
    SubmittedAre(cfg, n, m, before, s);
    NothingDroppedYet(cfg, n, m, before, s);
    PrefixAndRest(s.started, s.pending, SubmittedIn(before));
  }

  lemma NothingDroppedYet(cfg: Config, n: nat, m: nat, steps: seq<Step>, s: State)
    requires cfg.Valid() && Run(cfg, Init(cfg, n, m), steps, s) && !s.stopping
    ensures s.dropped == [] && s.accepted == SubmittedIn(steps)
  {
    RunTold(cfg, n, m, steps, s);
    ReachableInv(cfg, n, m, s);
  }

  lemma PrefixAndRest(a: seq<Job>, b: seq<Job>, all: seq<Job>)
    requires all == a + b + []
    ensures |a| <= |all| && a == all[..|a|] && b == all[|a|..]
  {
  }
}
