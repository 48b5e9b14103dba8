/** The thread of stream_manager.cpp that answers stream requests once their id has a mapping. */
module RequestLoop {
  import opened Basics
  import opened Counting

  datatype Request = Request(userId: nat, streamId: nat, fileSize: nat)

  /** A slot of the array: a request, and the stream file made for its answer, which is 0 if there is none. */
  datatype Cell = Cell(request: Request, file: nat)

  datatype Answer = Answer(request: Request, mapping: Mapping)

  /** What a successful pop_known_request found: the slot its out-pointer refers to, and what that then shows. */
  datatype Found = Found(slot: nat, answer: Answer, shown: Request)

  // ---------------------------------------------------------------- the loop as a function

  predicate Known(ms: seq<Mapping>, r: Request) { exists m :: m in ms && m.id == r.userId }

  /** The first mapping of an id, or |ms|. */
  function FirstMapping(ms: seq<Mapping>, id: nat): (j: nat)
    ensures j <= |ms|
  {
    if ms == [] || ms[0].id == id then 0 else 1 + FirstMapping(ms[1..], id)
  }

  /** The first request that has a mapping, or |active|. */
  function FirstKnown(active: seq<Request>, ms: seq<Mapping>): (i: nat)
    ensures i <= |active|
  {
    if active == [] || FirstMapping(ms, active[0].userId) < |ms| then 0 else 1 + FirstKnown(active[1..], ms)
  }

  function AnswerTo(r: Request, ms: seq<Mapping>): Answer
    requires FirstMapping(ms, r.userId) < |ms|
  {
    Answer(r, ms[FirstMapping(ms, r.userId)])
  }

  /** The answers that the loop gives, in order. */
  function Answers(active: seq<Request>, ms: seq<Mapping>): seq<Answer>
    decreases |active|
  {
    FirstKnownFits(active, ms);
    var i := FirstKnown(active, ms);
    if i == |active| then [] else [AnswerTo(active[i], ms)] + Answers(SwapRemove(active, i), ms)
  }

  /** The requests that the loop leaves active. */
  function Rest(active: seq<Request>, ms: seq<Mapping>): seq<Request>
    decreases |active|
  {
    var i := FirstKnown(active, ms);
    if i == |active| then active else Rest(SwapRemove(active, i), ms)
  }

  /** What the pointers that the loop pushes show: each refers to a slot just overwritten by the last one. */
  function Shown(active: seq<Request>, ms: seq<Mapping>): seq<Request>
    decreases |active|
  {
    var i := FirstKnown(active, ms);
    if i == |active| then []
    else [active[i := active[|active| - 1]][i]] + Shown(SwapRemove(active, i), ms)
  }

  function Requests(answers: seq<Answer>): (rs: seq<Request>)
  {
    if answers == [] then [] else [answers[0].request] + Requests(answers[1..])
  }

  // ---------------------------------------------------------------- searching

  lemma {:induction false} FirstMappingIsFirst(ms: seq<Mapping>, r: Request)
    ensures var j := FirstMapping(ms, r.userId);
            && (j < |ms| <==> Known(ms, r))
            && (j < |ms| ==> ms[j].id == r.userId)
            && forall i :: 0 <= i < j ==> ms[i].id != r.userId
  {
    if ms != [] && ms[0].id != r.userId {
      FirstMappingIsFirst(ms[1..], r);
      assert forall m :: m in ms ==> m == ms[0] || m in ms[1..];
    }
  }

  lemma {:induction false} FirstKnownFits(active: seq<Request>, ms: seq<Mapping>)
    ensures var i := FirstKnown(active, ms);
            && (i < |active| ==> FirstMapping(ms, active[i].userId) < |ms|)
            && forall k :: 0 <= k < i ==> FirstMapping(ms, active[k].userId) == |ms|
  {
    if active != [] && FirstMapping(ms, active[0].userId) == |ms| { FirstKnownFits(active[1..], ms); }
  }

  // ---------------------------------------------------------------- what the loop achieves

  /**
   The loop answers each active request that has a mapping once, leaves each other one active, and answers
   with the first mapping of the id.
   */
  lemma {:induction false} LoopReachesFixpoint(active: seq<Request>, ms: seq<Mapping>, r: Request)
    ensures Times(Requests(Answers(active, ms)), r) == if Known(ms, r) then Times(active, r) else 0
    ensures Times(Rest(active, ms), r) == if Known(ms, r) then 0 else Times(active, r)
    ensures forall answer :: answer in Answers(active, ms) ==>
              FirstMapping(ms, answer.request.userId) < |ms| && answer == AnswerTo(answer.request, ms)
    decreases |active|
  {
    var i := FirstKnown(active, ms);
    FirstKnownFits(active, ms);
    FirstMappingIsFirst(ms, r);
    if i == |active| {
      if Known(ms, r) { NoneKnown(active, ms, r); }
    } else {
      FirstMappingIsFirst(ms, active[i]);
      CountSwapRemove(active, i, Is(r));
      var answers := Answers(SwapRemove(active, i), ms);
      LoopReachesFixpoint(SwapRemove(active, i), ms, r);
      assert Answers(active, ms)[1..] == answers;
    }
  }

  lemma NoneKnown(active: seq<Request>, ms: seq<Mapping>, r: Request)
    requires Known(ms, r) && FirstKnown(active, ms) == |active|
    ensures Times(active, r) == 0
  {
    FirstMappingIsFirst(ms, r);
    FirstKnownFits(active, ms);
    CountPositive(active, Is(r));
  }

  /**
   The pushed pointers show the requests they are meant to, if and only if all requests from the first
   one with a mapping on are alike.
   */
  lemma {:induction false} PointersShowAnswers(active: seq<Request>, ms: seq<Mapping>)
    ensures var i := FirstKnown(active, ms);
            Shown(active, ms) == Requests(Answers(active, ms))
            <==> forall k :: i <= k < |active| ==> active[k] == active[i]
    decreases |active|
  {
    var i, last := FirstKnown(active, ms), |active| - 1;
    FirstKnownFits(active, ms);
    if i < |active| {
      var next := SwapRemove(active, i);
      var answers := Answers(active, ms);
      assert answers[0].request == active[i] && answers[1..] == Answers(next, ms);
      ConsEqual(active[last], Shown(next, ms), active[i], Requests(Answers(next, ms)));
      PointersShowAnswers(next, ms);
      if active[last] == active[i] {
        assert next == active[..last];
        FirstKnownOfPrefix(active, ms);
        if i < last { assert forall k :: i <= k < last ==> next[k] == active[k]; }
      }
    }
  }

  lemma ConsEqual<T>(x: T, xs: seq<T>, y: T, ys: seq<T>)
    ensures [x] + xs == [y] + ys <==> x == y && xs == ys
  {
    assert ([x] + xs)[0] == x && ([y] + ys)[0] == y && ([x] + xs)[1..] == xs && ([y] + ys)[1..] == ys;
  }

  lemma {:induction false} FirstKnownOfPrefix(active: seq<Request>, ms: seq<Mapping>)
    requires active != []
    ensures var i, last := FirstKnown(active, ms), |active| - 1;
            FirstKnown(active[..last], ms) == if i < last then i else last
  {
    if |active| > 1 && FirstMapping(ms, active[0].userId) == |ms| {
      assert active[1..][..|active| - 2] == active[..|active| - 1][1..];
      FirstKnownOfPrefix(active[1..], ms);
    }
  }

  /** Two requests, the first with a mapping: its answer goes out with the second request's data. */
  lemma PointerShowsAnother(a: Request, b: Request, m: Mapping)
    requires a.userId == m.id != b.userId
    ensures Requests(Answers([a, b], [m])) == [a] && Shown([a, b], [m]) == [b]
  {
    assert SwapRemove([a, b], 0) == [b];
    assert Answers([a, b], [m]) == [Answer(a, m)];
  }

  // ---------------------------------------------------------------- runs of the thread

  /**
   One turn of the thread: what it took from the request channel, the mappings then in force, and the files that
   are made for its answers, in order; where there are none left, making one fails.
   */
  datatype Round = Round(arrived: Option<Cell>, mappings: seq<Mapping>, files: seq<nat>)

  function ArrivedCells(round: Round): seq<Cell> {
    match round.arrived case None => [] case Some(cell) => [cell]
  }

  function Arrived(round: Round): seq<Request> { Reqs(ArrivedCells(round)) }

  /** The requests in the slots. */
  function Reqs(cells: seq<Cell>): (rs: seq<Request>)
    ensures |rs| == |cells| && forall i :: 0 <= i < |cells| ==> rs[i] == cells[i].request
  {
    seq(|cells|, i requires 0 <= i < |cells| => cells[i].request)
  }

  function AllArrived(rounds: seq<Round>): seq<Request> {
    if rounds == [] then [] else AllArrived(rounds[..|rounds| - 1]) + Arrived(rounds[|rounds| - 1])
  }

  function ActiveAfter(rounds: seq<Round>): seq<Request> {
    if rounds == [] then []
    else
      var round := rounds[|rounds| - 1];
      Rest(ActiveAfter(rounds[..|rounds| - 1]) + Arrived(round), round.mappings)
  }

  function AnsweredIn(rounds: seq<Round>): seq<Answer> {
    if rounds == [] then []
    else
      var round, before := rounds[|rounds| - 1], rounds[..|rounds| - 1];
      AnsweredIn(before) + Answers(ActiveAfter(before) + Arrived(round), round.mappings)
  }

  lemma {:induction false} RequestsConcat(a: seq<Answer>, b: seq<Answer>)
    ensures Requests(a + b) == Requests(a) + Requests(b)
  {
    if a == [] {
      assert a + b == b;
    } else {
      assert (a + b)[1..] == a[1..] + b;
      RequestsConcat(a[1..], b);
    }
  }

  /** Over any run of the thread: what arrived is what was answered and what is still active. */
  lemma {:induction false} RunConserves(rounds: seq<Round>, r: Request)
    ensures Times(AllArrived(rounds), r)
         == Times(Requests(AnsweredIn(rounds)), r) + Times(ActiveAfter(rounds), r)
  {
    if rounds != [] {
      var round, before := rounds[|rounds| - 1], rounds[..|rounds| - 1];
      var active := ActiveAfter(before) + Arrived(round);
      RunConserves(before, r);
      LoopReachesFixpoint(active, round.mappings, r);
      CountConcat(ActiveAfter(before), Arrived(round), Is(r));
      CountConcat(AllArrived(before), Arrived(round), Is(r));
      RequestsConcat(AnsweredIn(before), Answers(active, round.mappings));
      CountConcat(Requests(AnsweredIn(before)), Requests(Answers(active, round.mappings)), Is(r));
    }
  }

  /** A request whose id has a mapping in the last round has been answered as often as it arrived. */
  lemma RunAnswersKnown(rounds: seq<Round>, r: Request)
    requires rounds != [] && Known(rounds[|rounds| - 1].mappings, r)
    ensures Times(Requests(AnsweredIn(rounds)), r) == Times(AllArrived(rounds), r)
  {
    var round := rounds[|rounds| - 1];
    RunConserves(rounds, r);
    LoopReachesFixpoint(ActiveAfter(rounds[..|rounds| - 1]) + Arrived(round), round.mappings, r);
  }

  // ---------------------------------------------------------------- what the pushed pointers show later

  /** A pointer that was pushed: its slot, and the answered request with the file made for it. */
  datatype Pushed = Pushed(slot: nat, cell: Cell)

  function FileAt(files: seq<nat>, k: nat): nat { if k < |files| then files[k] else 0 }

  /** The slots of the pointers that the loop pushes from its answer k on, with what they are meant to show. */
  function Pushes(active: seq<Request>, ms: seq<Mapping>, files: seq<nat>, k: nat): seq<Pushed>
    decreases |active|
  {
    var i := FirstKnown(active, ms);
    if i == |active| then []
    else [Pushed(i, Cell(active[i], FileAt(files, k)))] + Pushes(SwapRemove(active, i), ms, files, k + 1)
  }

  /** One answer: the last active request moves to slot i, and the file is written there. */
  function Answered(slots: seq<Cell>, n: nat, i: nat, file: nat): (r: seq<Cell>)
    requires i < n <= |slots|
    ensures |r| == |slots| && Reqs(r)[..n - 1] == SwapRemove(Reqs(slots)[..n], i)
  {
    slots[i := Cell(slots[n - 1].request, file)]
  }

  /** The slots after the loop: those of the first n are active, and each answer overwrites one of these. */
  function LoopSlots(slots: seq<Cell>, n: nat, ms: seq<Mapping>, files: seq<nat>, k: nat): (r: seq<Cell>)
    requires n <= |slots|
    ensures |r| == |slots|
    decreases n
  {
    var i := FirstKnown(Reqs(slots)[..n], ms);
    if i == n then slots else LoopSlots(Answered(slots, n, i, FileAt(files, k)), n - 1, ms, files, k + 1)
  }

  /** An arrival is stored behind the first n, over what was answered or moved away from there. */
  function Stored(slots: seq<Cell>, n: nat, arrived: seq<Cell>): seq<Cell>
    requires n <= |slots|
  {
    if arrived == [] then slots
    else if n < |slots| then slots[n := arrived[0]] else slots + [arrived[0]]
  }

  lemma StoredActive(slots: seq<Cell>, n: nat, arrived: seq<Cell>)
    requires n <= |slots| && |arrived| <= 1
    ensures var stored := Stored(slots, n, arrived);
            n + |arrived| <= |stored| && Reqs(stored)[..n + |arrived|] == Reqs(slots)[..n] + Reqs(arrived)
  {
    var stored := Stored(slots, n, arrived);
    assert forall k :: 0 <= k < n ==> stored[k] == slots[k];
  }

  lemma {:induction false} LoopSlotsActive(slots: seq<Cell>, n: nat, ms: seq<Mapping>, files: seq<nat>, k: nat)
    requires n <= |slots|
    ensures var rest := Rest(Reqs(slots)[..n], ms);
            |rest| <= n && Reqs(LoopSlots(slots, n, ms, files, k))[..|rest|] == rest
    decreases n
  {
    var i := FirstKnown(Reqs(slots)[..n], ms);
    if i < n { LoopSlotsActive(Answered(slots, n, i, FileAt(files, k)), n - 1, ms, files, k + 1); }
  }

  /** The array's slots that were ever used, after a run. */
  function SlotsAfter(rounds: seq<Round>): (r: seq<Cell>)
    ensures |ActiveAfter(rounds)| <= |r| && Reqs(r)[..|ActiveAfter(rounds)|] == ActiveAfter(rounds)
  {
    if rounds == [] then []
    else
      var round, before := rounds[|rounds| - 1], rounds[..|rounds| - 1];
      var was := ActiveAfter(before);
      StoredActive(SlotsAfter(before), |was|, ArrivedCells(round));
      var stored := Stored(SlotsAfter(before), |was|, ArrivedCells(round));
      LoopSlotsActive(stored, |was + Arrived(round)|, round.mappings, round.files, 0);
      LoopSlots(stored, |was + Arrived(round)|, round.mappings, round.files, 0)
  }

  function PushedIn(rounds: seq<Round>): seq<Pushed> {
    if rounds == [] then []
    else
      var round, before := rounds[|rounds| - 1], rounds[..|rounds| - 1];
      PushedIn(before) + Pushes(ActiveAfter(before) + Arrived(round), round.mappings, round.files, 0)
  }

  predicate ShowsRight(slots: seq<Cell>, pushed: seq<Pushed>) {
    forall p :: p in pushed ==> p.slot < |slots| && slots[p.slot] == p.cell
  }

  /** Whoever reads a pushed pointer, at the end of whatever later round, finds the request answered, and its file. */
  predicate LateReadsRight(rounds: seq<Round>) {
    rounds != [] ==> LateReadsRight(rounds[..|rounds| - 1]) && ShowsRight(SlotsAfter(rounds), PushedIn(rounds))
  }

  predicate AlikeFrom(active: seq<Request>, i: nat) { forall k :: i <= k < |active| ==> active[k] == active[i] }

  /** The m files made from answer k on are the same, as when making each of them fails. */
  predicate SameFiles(files: seq<nat>, k: nat, m: nat) {
    forall x :: k <= x < k + m ==> FileAt(files, x) == FileAt(files, k)
  }

  /** All that the loop answers is alike, from its answer k on. */
  predicate AlikeAnswers(active: seq<Request>, ms: seq<Mapping>, files: seq<nat>, k: nat) {
    var i := FirstKnown(active, ms);
    AlikeFrom(active, i) && SameFiles(files, k, |active| - i)
  }

  /** Everything answered from slot n before was this. */
  predicate OnlyHeld(pushed: seq<Pushed>, n: nat, cell: Cell) {
    forall p :: p in pushed && p.slot == n ==> p.cell == cell
  }

  /**
   Where the loop answers a request, all earlier answers from that slot were that request with the same file; and
   so for what arrives, if it stays where it is stored.
   */
  predicate KeepsPushed(pushed: seq<Pushed>, was: seq<Request>, round: Round) {
    var active := was + Arrived(round);
    var i := FirstKnown(active, round.mappings);
    && (i < |active| ==> OnlyHeld(pushed, i, Cell(active[i], FileAt(round.files, 0))))
    && (round.arrived.Some? && i != |was| ==> OnlyHeld(pushed, |was|, round.arrived.value))
  }

  /** The active requests are alike from the first known one on, get the same file, and keep what was pushed. */
  predicate SteadyRound(was: seq<Request>, round: Round, pushed: seq<Pushed>) {
    AlikeAnswers(was + Arrived(round), round.mappings, round.files, 0) && KeepsPushed(pushed, was, round)
  }

  predicate Steady(rounds: seq<Round>) {
    rounds != [] ==>
      var round, before := rounds[|rounds| - 1], rounds[..|rounds| - 1];
      Steady(before) && SteadyRound(ActiveAfter(before), round, PushedIn(before))
  }

  /** While all answers are alike, the slot of the first keeps its request and gets its file; no other changes. */
  function AlikeSlots(slots: seq<Cell>, n: nat, i: nat, file: nat): seq<Cell>
    requires n <= |slots|
  {
    if i < n then slots[i := Cell(slots[i].request, file)] else slots
  }

  lemma FirstKnownWithout(active: seq<Request>, ms: seq<Mapping>)
    requires active != [] && FirstKnown(active, ms) < |active| && AlikeFrom(active, FirstKnown(active, ms))
    ensures var i, last := FirstKnown(active, ms), |active| - 1;
            && SwapRemove(active, i) == active[..last] && AlikeFrom(active[..last], FirstKnown(active[..last], ms))
            && FirstKnown(active[..last], ms) == if i < last then i else last
  {
    FirstKnownOfPrefix(active, ms);
  }

  lemma {:induction false} AlikeLoop(slots: seq<Cell>, n: nat, ms: seq<Mapping>, files: seq<nat>, k: nat)
    requires n <= |slots| && AlikeAnswers(Reqs(slots)[..n], ms, files, k)
    ensures var active := Reqs(slots)[..n];
            var after := AlikeSlots(slots, n, FirstKnown(active, ms), FileAt(files, k));
            LoopSlots(slots, n, ms, files, k) == after && ShowsRight(after, Pushes(active, ms, files, k))
    decreases n
  {
    var active := Reqs(slots)[..n];
    var i := FirstKnown(active, ms);
    if i < n {
      var next := Answered(slots, n, i, FileAt(files, k));
      assert active[n - 1] == active[i];
      FirstKnownWithout(active, ms);
      assert i < n - 1 ==> FileAt(files, k + 1) == FileAt(files, k);
      AlikeLoop(next, n - 1, ms, files, k + 1);
      assert AlikeSlots(next, n - 1, FirstKnown(Reqs(next)[..n - 1], ms), FileAt(files, k + 1)) == next;
    }
  }

  lemma AlikeExtends(active: seq<Request>, ms: seq<Mapping>)
    requires active != [] && FirstKnown(active, ms) < |active|
    requires active[|active| - 1] == active[FirstKnown(active, ms)]
    requires var before := active[..|active| - 1]; AlikeFrom(before, FirstKnown(before, ms))
    ensures AlikeFrom(active, FirstKnown(active, ms))
  {
    var i, last := FirstKnown(active, ms), |active| - 1;
    FirstKnownOfPrefix(active, ms);
    forall k | i <= k < |active| ensures active[k] == active[i] {
      if k < last { assert active[..last][k] == active[..last][i]; }
    }
  }

  /** If all the loop pushes shows right behind it, so does the first; and so does what the rest of the loop pushes. */
  lemma FirstShowsRight(slots: seq<Cell>, n: nat, next: seq<Cell>, ms: seq<Mapping>, files: seq<nat>, k: nat)
    requires n <= |slots| && FirstKnown(Reqs(slots)[..n], ms) < n
    requires next == Answered(slots, n, FirstKnown(Reqs(slots)[..n], ms), FileAt(files, k))
    requires ShowsRight(LoopSlots(slots, n, ms, files, k), Pushes(Reqs(slots)[..n], ms, files, k))
    ensures var i := FirstKnown(Reqs(slots)[..n], ms);
            LoopSlots(next, n - 1, ms, files, k + 1)[i] == Cell(slots[i].request, FileAt(files, k))
  {
    var active := Reqs(slots)[..n];
    var i, pushes := FirstKnown(active, ms), Pushes(active, ms, files, k);
    assert pushes[0] == Pushed(i, Cell(active[i], FileAt(files, k))) && pushes[0] in pushes;
  }

  lemma RestShowsRight(slots: seq<Cell>, n: nat, next: seq<Cell>, ms: seq<Mapping>, files: seq<nat>, k: nat)
    requires n <= |slots| && FirstKnown(Reqs(slots)[..n], ms) < n
    requires next == Answered(slots, n, FirstKnown(Reqs(slots)[..n], ms), FileAt(files, k))
    requires ShowsRight(LoopSlots(slots, n, ms, files, k), Pushes(Reqs(slots)[..n], ms, files, k))
    ensures ShowsRight(LoopSlots(next, n - 1, ms, files, k + 1), Pushes(Reqs(next)[..n - 1], ms, files, k + 1))
  {
    var pushes := Pushes(Reqs(slots)[..n], ms, files, k);
    assert pushes[1..] == Pushes(Reqs(next)[..n - 1], ms, files, k + 1);
    assert forall p :: p in pushes[1..] ==> p in pushes;
  }

  lemma AlikeSlotsAt(slots: seq<Cell>, n: nat, i: nat, file: nat, at: nat)
    requires n <= |slots| && at < |slots|
    ensures var after := AlikeSlots(slots, n, i, file);
            after[at].request == slots[at].request && (at == i < n ==> after[at].file == file)
  {
  }

  /** One more answer is like the others, if it is the same request and gets the file that the next one gets. */
  lemma AnswersExtend(active: seq<Request>, ms: seq<Mapping>, files: seq<nat>, k: nat)
    requires active != [] && FirstKnown(active, ms) < |active|
    requires active[|active| - 1] == active[FirstKnown(active, ms)]
    requires AlikeAnswers(SwapRemove(active, FirstKnown(active, ms)), ms, files, k + 1)
    requires FirstKnown(active, ms) < |active| - 1 ==> FileAt(files, k) == FileAt(files, k + 1)
    ensures AlikeAnswers(active, ms, files, k)
  {
    assert SwapRemove(active, FirstKnown(active, ms)) == active[..|active| - 1];
    AlikeExtends(active, ms);
    FirstKnownOfPrefix(active, ms);
  }

  /** If the rest of the answers are alike, and all show right behind them, then all answers are alike. */
  lemma LikeTheRest(slots: seq<Cell>, n: nat, next: seq<Cell>, ms: seq<Mapping>, files: seq<nat>, k: nat)
    requires n <= |slots| && FirstKnown(Reqs(slots)[..n], ms) < n
    requires next == Answered(slots, n, FirstKnown(Reqs(slots)[..n], ms), FileAt(files, k))
    requires AlikeAnswers(Reqs(next)[..n - 1], ms, files, k + 1)
    requires ShowsRight(LoopSlots(slots, n, ms, files, k), Pushes(Reqs(slots)[..n], ms, files, k))
    ensures AlikeAnswers(Reqs(slots)[..n], ms, files, k)
  {
    var active, rest := Reqs(slots)[..n], Reqs(next)[..n - 1];
    var i := FirstKnown(active, ms);
    FirstShowsRight(slots, n, next, ms, files, k);
    AlikeLoop(next, n - 1, ms, files, k + 1);
    AlikeSlotsAt(next, n - 1, FirstKnown(rest, ms), FileAt(files, k + 1), i);
    assert active[n - 1] == active[i];
    assert rest == active[..n - 1];
    FirstKnownOfPrefix(active, ms);
    AnswersExtend(active, ms, files, k);
  }

  /** And if what the loop pushes shows right behind it, the answers are alike. */
  lemma {:induction false} LoopNeedsAlike(slots: seq<Cell>, n: nat, ms: seq<Mapping>, files: seq<nat>, k: nat)
    requires n <= |slots|
    requires ShowsRight(LoopSlots(slots, n, ms, files, k), Pushes(Reqs(slots)[..n], ms, files, k))
    ensures AlikeAnswers(Reqs(slots)[..n], ms, files, k)
    decreases n
  {
    var active := Reqs(slots)[..n];
    var i := FirstKnown(active, ms);
    if i < n {
      var next := Answered(slots, n, i, FileAt(files, k));
      RestShowsRight(slots, n, next, ms, files, k);
      LoopNeedsAlike(next, n - 1, ms, files, k + 1);
      LikeTheRest(slots, n, next, ms, files, k);
    }
  }

  /** What is pushed shows right after the loop if and only if the answers are alike; then one slot got its file. */
  lemma LoopShows(slots: seq<Cell>, n: nat, ms: seq<Mapping>, files: seq<nat>)
    requires n <= |slots|
    ensures var active := Reqs(slots)[..n];
            && (ShowsRight(LoopSlots(slots, n, ms, files, 0), Pushes(active, ms, files, 0))
                <==> AlikeAnswers(active, ms, files, 0))
            && (AlikeAnswers(active, ms, files, 0) ==>
                  LoopSlots(slots, n, ms, files, 0) == AlikeSlots(slots, n, FirstKnown(active, ms), FileAt(files, 0)))
  {
    if AlikeAnswers(Reqs(slots)[..n], ms, files, 0) {
      AlikeLoop(slots, n, ms, files, 0);
    } else if ShowsRight(LoopSlots(slots, n, ms, files, 0), Pushes(Reqs(slots)[..n], ms, files, 0)) {
      LoopNeedsAlike(slots, n, ms, files, 0);
    }
  }

  /**
   Pushed pointers show the answered requests and their files to readers at the end of every later round, however
   late, if and only if the run is steady.
   */
  lemma {:induction false} LateReadsNeedSteady(rounds: seq<Round>)
    ensures LateReadsRight(rounds) <==> Steady(rounds)
  {
    if rounds != [] {
      LateReadsNeedSteady(rounds[..|rounds| - 1]);
      if LateReadsRight(rounds[..|rounds| - 1]) { LastRoundShows(rounds); }
    }
  }

  lemma ShowsRightBoth(slots: seq<Cell>, a: seq<Pushed>, b: seq<Pushed>)
    ensures ShowsRight(slots, a + b) <==> ShowsRight(slots, a) && ShowsRight(slots, b)
  {
    assert forall p :: p in a + b <==> p in a || p in b;
  }

  /** What earlier pointers show, when all of the round's answers are alike. */
  lemma EarlierShow(slots: seq<Cell>, was: seq<Request>, round: Round, pushed: seq<Pushed>, after: seq<Cell>)
    requires |was| <= |slots| && Reqs(slots)[..|was|] == was && ShowsRight(slots, pushed)
    requires var active, stored := was + Arrived(round), Stored(slots, |was|, ArrivedCells(round));
             && |active| <= |stored| && Reqs(stored)[..|active|] == active
             && after == AlikeSlots(stored, |active|, FirstKnown(active, round.mappings), FileAt(round.files, 0))
    ensures ShowsRight(after, pushed) <==> KeepsPushed(pushed, was, round)
  {
    var active := was + Arrived(round);
    var i := FirstKnown(active, round.mappings);
    assert i < |active| ==> after[i] == Cell(active[i], FileAt(round.files, 0));
    assert round.arrived.Some? && i != |was| ==> after[|was|] == round.arrived.value;
    assert forall k :: 0 <= k < |slots| && (k != i || i == |active|) && (k != |was| || round.arrived.None?) ==>
              after[k] == slots[k];
  }

  lemma RoundShows(slots: seq<Cell>, was: seq<Request>, round: Round, pushed: seq<Pushed>, after: seq<Cell>)
    requires |was| <= |slots| && Reqs(slots)[..|was|] == was && ShowsRight(slots, pushed)
    requires var active, stored := was + Arrived(round), Stored(slots, |was|, ArrivedCells(round));
             && |active| <= |stored| && Reqs(stored)[..|active|] == active
             && after == LoopSlots(stored, |active|, round.mappings, round.files, 0)
    ensures ShowsRight(after, pushed + Pushes(was + Arrived(round), round.mappings, round.files, 0))
            <==> SteadyRound(was, round, pushed)
  {
    var active, stored := was + Arrived(round), Stored(slots, |was|, ArrivedCells(round));
    LoopShows(stored, |active|, round.mappings, round.files);
    ShowsRightBoth(after, pushed, Pushes(active, round.mappings, round.files, 0));
    if AlikeAnswers(active, round.mappings, round.files, 0) { EarlierShow(slots, was, round, pushed, after); }
  }

  /** What the last round makes of the run before it. */
  lemma RunUnfolds(rounds: seq<Round>)
    requires rounds != []
    ensures var round, before := rounds[|rounds| - 1], rounds[..|rounds| - 1];
            var was := ActiveAfter(before);
            var active, stored := was + Arrived(round), Stored(SlotsAfter(before), |was|, ArrivedCells(round));
            && |active| <= |stored| && Reqs(stored)[..|active|] == active
            && ActiveAfter(rounds) == Rest(active, round.mappings)
            && SlotsAfter(rounds) == LoopSlots(stored, |active|, round.mappings, round.files, 0)
            && AnsweredIn(rounds) == AnsweredIn(before) + Answers(active, round.mappings)
            && PushedIn(rounds) == PushedIn(before) + Pushes(active, round.mappings, round.files, 0)
  {
    var round, before := rounds[|rounds| - 1], rounds[..|rounds| - 1];
    StoredActive(SlotsAfter(before), |ActiveAfter(before)|, ArrivedCells(round));
  }

  lemma ShowsSoFar(rounds: seq<Round>)
    requires LateReadsRight(rounds)
    ensures ShowsRight(SlotsAfter(rounds), PushedIn(rounds))
  {
    if rounds == [] { assert PushedIn(rounds) == []; }
  }

  lemma LastRoundShows(rounds: seq<Round>)
    requires rounds != [] && LateReadsRight(rounds[..|rounds| - 1])
    ensures var round, before := rounds[|rounds| - 1], rounds[..|rounds| - 1];
            ShowsRight(SlotsAfter(rounds), PushedIn(rounds))
            <==> SteadyRound(ActiveAfter(before), round, PushedIn(before))
  {
    var round, before := rounds[|rounds| - 1], rounds[..|rounds| - 1];
    ShowsSoFar(before);
    RunUnfolds(rounds);
    RoundShows(SlotsAfter(before), ActiveAfter(before), round, PushedIn(before), SlotsAfter(rounds));
  }

  lemma OneAnswered(a: Request, ms: seq<Mapping>, files: seq<nat>)
    requires Known(ms, a)
    ensures FirstKnown([a], ms) == 0 && Rest([a], ms) == []
    ensures Pushes([a], ms, files, 0) == [Pushed(0, Cell(a, FileAt(files, 0)))]
  {
    FirstMappingIsFirst(ms, a);
    assert SwapRemove([a], 0) == [] && Pushes([], ms, files, 1) == [];
  }

  lemma RoundAnswers(one: seq<Round>, round: Round)
    requires round.arrived.Some? && Known(round.mappings, round.arrived.value.request) && one == [round]
    ensures ActiveAfter(one) == [] && LateReadsRight(one)
    ensures PushedIn(one) == [Pushed(0, Cell(round.arrived.value.request, FileAt(round.files, 0)))]
  {
    var a := round.arrived.value.request;
    assert one[..0] == [] && Arrived(round) == [a] && [] + [a] == [a];
    OneAnswered(a, round.mappings, round.files);
    LateReadsNeedSteady(one[..0]);
    LateReadsNeedSteady(one);
  }

  /** Whatever was answered from slot 0 before must be what a round does that answers its arrival there. */
  lemma NextIsHeld(pushed: seq<Pushed>, cell: Cell, round: Round)
    requires round.arrived.Some? && Known(round.mappings, round.arrived.value.request)
    requires Pushed(0, cell) in pushed && KeepsPushed(pushed, [], round)
    ensures cell == Cell(round.arrived.value.request, FileAt(round.files, 0))
  {
    var b := round.arrived.value.request;
    assert Arrived(round) == [b] && [] + [b] == [b];
    OneAnswered(b, round.mappings, round.files);
  }

  /**
   A request alone is answered, and the next arrives before the answer is read: what is read is the next one, and
   be that the same request again, it is its file.
   */
  lemma LateReaderSeesNext(first: Round, second: Round, one: seq<Round>, two: seq<Round>)
    requires one == [first] && two == one + [second] && first.arrived.Some? && second.arrived.Some?
    requires var a, b := first.arrived.value.request, second.arrived.value.request;
             && Known(first.mappings, a) && Known(second.mappings, b)
             && Cell(a, FileAt(first.files, 0)) != Cell(b, FileAt(second.files, 0))
    ensures LateReadsRight(one) && !LateReadsRight(two)
  {
    RoundAnswers(one, first);
    assert two[..1] == one;
    LateReadsNeedSteady(two);
    if Steady(two) {
      NextIsHeld(PushedIn(one), Cell(first.arrived.value.request, FileAt(first.files, 0)), second);
      assert false;
    }
  }

  /** An earlier request that becomes known below a later, different one: its pointer comes to show that one. */
  lemma KnownBelowAnother(before: seq<Round>, a: Request, round: Round)
    requires ActiveAfter(before) == [a] && Known(round.mappings, a)
    requires round.arrived.Some? && round.arrived.value.request != a
    ensures !LateReadsRight(before + [round])
  {
    var rounds, b := before + [round], round.arrived.value.request;
    assert rounds[..|before|] == before;
    FirstMappingIsFirst(round.mappings, a);
    LateReadsNeedSteady(rounds);
    assert Arrived(round) == [b] && [a] + [b] == [a, b] && FirstKnown([a, b], round.mappings) == 0;
  }

  /** The same request active twice when it becomes known: both pointers show the file that was made second. */
  lemma SecondFileForBoth(before: seq<Round>, a: Request, round: Round)
    requires ActiveAfter(before) == [a] && Known(round.mappings, a)
    requires round.arrived.Some? && round.arrived.value.request == a
    requires FileAt(round.files, 0) != FileAt(round.files, 1)
    ensures !LateReadsRight(before + [round])
  {
    var rounds := before + [round];
    assert rounds[..|before|] == before;
    FirstMappingIsFirst(round.mappings, a);
    LateReadsNeedSteady(rounds);
    assert Arrived(round) == [a] && [a] + [a] == [a, a] && FirstKnown([a, a], round.mappings) == 0;
  }

  // ---------------------------------------------------------------- the thread

  /** All that the loop finds, in order. */
  function Founds(active: seq<Request>, ms: seq<Mapping>): seq<Found>
    decreases |active|
  {
    FirstKnownFits(active, ms);
    var i := FirstKnown(active, ms);
    if i == |active| then []
    else
      [Found(i, AnswerTo(active[i], ms), active[i := active[|active| - 1]][i])] + Founds(SwapRemove(active, i), ms)
  }

  function AnswersOf(founds: seq<Found>): seq<Answer> {
    if founds == [] then [] else [founds[0].answer] + AnswersOf(founds[1..])
  }

  function ShownBy(founds: seq<Found>): seq<Request> {
    if founds == [] then [] else [founds[0].shown] + ShownBy(founds[1..])
  }

  /** The pointers pushed for what was found, from answer k on. */
  function PushesOf(founds: seq<Found>, files: seq<nat>, k: nat): seq<Pushed> {
    if founds == [] then []
    else
      var cell := Cell(founds[0].answer.request, FileAt(files, k));
      [Pushed(founds[0].slot, cell)] + PushesOf(founds[1..], files, k + 1)
  }

  lemma {:induction false} FoundsAre(active: seq<Request>, ms: seq<Mapping>, files: seq<nat>, k: nat)
    ensures AnswersOf(Founds(active, ms)) == Answers(active, ms)
    ensures ShownBy(Founds(active, ms)) == Shown(active, ms)
    ensures PushesOf(Founds(active, ms), files, k) == Pushes(active, ms, files, k)
    decreases |active|
  {
    var i := FirstKnown(active, ms);
    if i < |active| {
      FoundsAre(SwapRemove(active, i), ms, files, k + 1);
      assert Founds(active, ms)[1..] == Founds(SwapRemove(active, i), ms);
    }
  }

  /** With these found, what is left of the loop is the loop from slots now, of which n are active. */
  predicate LoopAt(slots: seq<Cell>, was: nat, ms: seq<Mapping>, files: seq<nat>, now: seq<Cell>, n: nat,
                   founds: seq<Found>)
    requires was <= |slots|
  {
    var all := Founds(Reqs(slots)[..was], ms);
    && n <= was && |now| == |slots| && founds <= all && Founds(Reqs(now)[..n], ms) == all[|founds|..]
    && LoopSlots(now, n, ms, files, |founds|) == LoopSlots(slots, was, ms, files, 0)
    && Rest(Reqs(now)[..n], ms) == Rest(Reqs(slots)[..was], ms)
  }

  /** What a turn of the loop leaves of the first n slots, and what it finds, if anything. */
  predicate AnswersOne(slots: seq<Cell>, n: nat, ms: seq<Mapping>, file: nat, after: seq<Cell>, m: nat,
                       found: Option<Found>)
    requires n <= |slots|
  {
    var i := FirstKnown(Reqs(slots)[..n], ms);
    if i == n then found.None? && m == n && after == slots
    else
      && FirstMapping(ms, slots[i].request.userId) < |ms| && m == n - 1 && after == Answered(slots, n, i, file)
      && found == Some(Found(i, AnswerTo(slots[i].request, ms), slots[n - 1].request))
  }

  lemma LoopStep(slots: seq<Cell>, was: nat, ms: seq<Mapping>, files: seq<nat>, now: seq<Cell>, n: nat,
                 founds: seq<Found>, next: seq<Cell>, m: nat, found: Found)
    requires was <= |slots| && LoopAt(slots, was, ms, files, now, n, founds)
    requires AnswersOne(now, n, ms, FileAt(files, |founds|), next, m, Some(found))
    ensures LoopAt(slots, was, ms, files, next, m, founds + [found]) && m < n
  {
    var active, all := Reqs(now)[..n], Founds(Reqs(slots)[..was], ms);
    assert found == Founds(active, ms)[0] == all[|founds|..][0] == all[|founds|];
    assert all[|founds| + 1..] == all[|founds|..][1..] == Founds(SwapRemove(active, found.slot), ms);
  }

  lemma LoopEnds(slots: seq<Cell>, was: nat, ms: seq<Mapping>, files: seq<nat>, now: seq<Cell>, n: nat,
                 founds: seq<Found>, next: seq<Cell>, m: nat)
    requires was <= |slots| && LoopAt(slots, was, ms, files, now, n, founds)
    requires AnswersOne(now, n, ms, FileAt(files, |founds|), next, m, None)
    ensures founds == Founds(Reqs(slots)[..was], ms) && LoopSlots(slots, was, ms, files, 0) == next
    ensures m == |Rest(Reqs(slots)[..was], ms)| && m <= was
  {
    assert Founds(Reqs(now)[..n], ms) == [];
  }

  /** What a turn of the thread leaves of the slots, of which those of was were active, and what it finds. */
  predicate Turned(slots: seq<Cell>, was: seq<Request>, round: Round, after: seq<Cell>, n: nat, founds: seq<Found>)
    requires |was| <= |slots|
  {
    var now, stored := was + Arrived(round), Stored(slots, |was|, ArrivedCells(round));
    && |now| <= |stored| && founds == Founds(now, round.mappings) && n == |Rest(now, round.mappings)|
    && after == LoopSlots(stored, |now|, round.mappings, round.files, 0)
  }

  /**
   What a turn does: each request that was active or arrives is answered, as often as it is there, if its id has a
   mapping now, and else it is active behind the turn.
   */
  ghost predicate Served(was: seq<Request>, round: Round, answers: seq<Answer>, now: seq<Request>) {
    forall r ::
      var all := Times(was, r) + Bit(round.arrived.Some? && round.arrived.value.request == r);
      && Times(Requests(answers), r) == (if Known(round.mappings, r) then all else 0)
      && Times(now, r) == if Known(round.mappings, r) then 0 else all
  }

  lemma TimesArrived(was: seq<Request>, round: Round, r: Request)
    ensures Times(was + Arrived(round), r)
         == Times(was, r) + Bit(round.arrived.Some? && round.arrived.value.request == r)
  {
    CountConcat(was, Arrived(round), Is(r));
    if round.arrived.Some? {
      assert Arrived(round) == [round.arrived.value.request];
      CountOne(round.arrived.value.request, Is(r));
    }
  }

  lemma TurnServes(was: seq<Request>, round: Round)
    ensures var active := was + Arrived(round);
            Served(was, round, Answers(active, round.mappings), Rest(active, round.mappings))
  {
    forall r
      ensures var active := was + Arrived(round);
              var all := Times(was, r) + Bit(round.arrived.Some? && round.arrived.value.request == r);
              && Times(Requests(Answers(active, round.mappings)), r)
                 == (if Known(round.mappings, r) then all else 0)
              && Times(Rest(active, round.mappings), r) == if Known(round.mappings, r) then 0 else all
    {
      TimesArrived(was, round, r);
      LoopReachesFixpoint(was + Arrived(round), round.mappings, r);
    }
  }

  /** The slots, how many of them are active, the answers and the pushed pointers are those of the run. */
  ghost predicate RunIs(rounds: seq<Round>, slots: seq<Cell>, n: nat, answered: seq<Answer>, pushed: seq<Pushed>) {
    && slots == SlotsAfter(rounds) && n == |ActiveAfter(rounds)|
    && answered == AnsweredIn(rounds) && pushed == PushedIn(rounds)
  }

  lemma TurnedRun(before: seq<Round>, round: Round, rounds: seq<Round>, slots: seq<Cell>, n: nat, answered: seq<Answer>,
                  pushed: seq<Pushed>, after: seq<Cell>, m: nat, founds: seq<Found>)
    requires RunIs(before, slots, n, answered, pushed) && n <= |slots| && rounds == before + [round]
    requires Turned(slots, Reqs(slots)[..n], round, after, m, founds)
    ensures RunIs(rounds, after, m, answered + AnswersOf(founds), pushed + PushesOf(founds, round.files, 0))
  {
    assert rounds[..|rounds| - 1] == before;
    RunUnfolds(rounds);
    FoundsAre(ActiveAfter(before) + Arrived(round), round.mappings, round.files, 0);
  }

  lemma TurnedServes(slots: seq<Cell>, was: seq<Request>, round: Round, after: seq<Cell>, m: nat, founds: seq<Found>)
    requires |was| <= |slots| && Reqs(slots)[..|was|] == was && Turned(slots, was, round, after, m, founds)
    ensures m <= |after| && Served(was, round, AnswersOf(founds), Reqs(after)[..m])
  {
    var now, stored := was + Arrived(round), Stored(slots, |was|, ArrivedCells(round));
    StoredActive(slots, |was|, ArrivedCells(round));
    LoopSlotsActive(stored, |now|, round.mappings, round.files, 0);
    TurnServes(was, round);
    FoundsAre(now, round.mappings, round.files, 0);
  }

  /** The pointer pushed for the i-th found is to its slot, which is to show the request and its file, if any. */
  lemma {:induction false} PushedAt(founds: seq<Found>, files: seq<nat>, k: nat, i: nat)
    requires i < |founds|
    ensures var pushes, file := PushesOf(founds, files, k), if k + i < |files| then files[k + i] else 0;
            |pushes| == |founds| && pushes[i] == Pushed(founds[i].slot, Cell(founds[i].answer.request, file))
  {
    if i > 0 { PushedAt(founds[1..], files, k + 1, i - 1); } else { PushedSize(founds, files, k); }
  }

  lemma {:induction false} PushedSize(founds: seq<Found>, files: seq<nat>, k: nat)
    ensures |PushesOf(founds, files, k)| == |founds|
  {
    if founds != [] { PushedSize(founds[1..], files, k + 1); }
  }

  class StreamThread {
    const active: array<Cell>
    var activeSize: nat
    var mappings: seq<Mapping>
    ghost var used: nat              // how many slots of the array were ever used
    ghost var rounds: seq<Round>
    ghost var answered: seq<Answer>
    ghost var pushed: seq<Pushed>

    ghost predicate Valid()
      reads this, active
    {
      && activeSize <= used <= active.Length
      && RunIs(rounds, active[..used], activeSize, answered, pushed)
    }

    function Active(): seq<Request>
      reads this`activeSize, active
      requires activeSize <= active.Length
    {
      Reqs(active[..activeSize])
    }

    lemma ActiveIs(used: nat)
      requires activeSize <= used <= active.Length
      ensures Active() == Reqs(active[..used])[..activeSize]
    {
    }

    constructor (capacity: nat, none: Cell)
      ensures Valid() && rounds == [] && fresh(active) && active.Length == capacity
    {
      active := new Cell[capacity](_ => none);
      activeSize, mappings, used, rounds, answered, pushed := 0, [], 0, [], [], [];
    }

    method FindMapping(id: nat) returns (j: nat)
      ensures j == FirstMapping(mappings, id)
    {
      j := 0;
      while j < |mappings| && mappings[j].id != id
        invariant j <= |mappings| && FirstMapping(mappings, id) == j + FirstMapping(mappings[j..], id)
      {
        j := j + 1;
      }
    }

    /** The search of pop_known_request: the first active request that has a mapping, and its mapping. */
    method FindKnown() returns (i: nat, j: nat)
      requires activeSize <= active.Length
      ensures i == FirstKnown(Active(), mappings)
      ensures i < activeSize ==> j < |mappings| && j == FirstMapping(mappings, active[i].request.userId)
    {
      ghost var was := Active();
      i, j := 0, 0;
      while i < activeSize
        invariant i <= activeSize && FirstKnown(was, mappings) == i + FirstKnown(was[i..], mappings)
      {
        j := FindMapping(active[i].request.userId);
        assert was[i..][0] == active[i].request && was[i..][1..] == was[i + 1..];
        if j < |mappings| { return; }
        i := i + 1;
      }
    }

    /** pop_known_request: removes the first active request that has a mapping. */
    method PopKnownRequest() returns (found: Option<Found>)
      requires activeSize <= active.Length
      modifies this`activeSize, active
      ensures activeSize <= active.Length
      ensures var was, i := old(Active()), FirstKnown(old(Active()), mappings);
              if i == |was| then found.None? && activeSize == old(activeSize) && active[..] == old(active[..])
              else
                && FirstMapping(mappings, was[i].userId) < |mappings| && activeSize == |was| - 1
                && found == Some(Found(i, AnswerTo(was[i], mappings), was[i := was[|was| - 1]][i]))
                && active[..] == old(active[..])[i := old(active[activeSize - 1])]
    {
      var i, j := FindKnown();
      if i == activeSize { return None; }
      var request := active[i].request;
      active[i] := active[activeSize - 1];
      activeSize := activeSize - 1;
      return Some(Found(i, Answer(request, mappings[j]), active[i].request));
    }

    /** A turn of the loop: the file that was made for the request found is written to the slot it was found in. */
    method AnswerOne(ghost used: nat, file: nat) returns (found: Option<Found>)
      requires activeSize <= used <= active.Length
      modifies this`activeSize, active
      ensures activeSize <= old(activeSize)
      ensures AnswersOne(old(active[..used]), old(activeSize), mappings, file, active[..used], activeSize, found)
      ensures found.Some? ==> active[found.value.slot] == Cell(old(active[activeSize - 1]).request, file)
    {
      ghost var slots := active[..used];
      ActiveIs(used);
      found := PopKnownRequest();
      if found.Some? {
        assert active[..used] == slots[found.value.slot := slots[activeSize]];
        active[found.value.slot] := active[found.value.slot].(file := file);
      }
    }

    /** The answering loop: for all that it finds, in order, the file is written to the slot whose pointer is pushed. */
    method AnswerKnown(ghost used: nat, files: seq<nat>) returns (founds: seq<Found>)
      requires activeSize <= used <= active.Length
      modifies this`activeSize, active
      ensures activeSize <= old(activeSize) && founds == Founds(old(Active()), mappings)
      ensures active[..used] == LoopSlots(old(active[..used]), old(activeSize), mappings, files, 0)
      ensures activeSize == |Rest(old(Active()), mappings)|
    {
      ghost var slots, was := active[..used], activeSize;
      ghost var now := slots;
      ActiveIs(used);
      founds := [];
      while true
        invariant activeSize <= was && now == active[..used]
        invariant LoopAt(slots, was, mappings, files, now, activeSize, founds)
        decreases activeSize
      {
        ghost var n, before := activeSize, now;
        var found := AnswerOne(used, FileAt(files, |founds|));
        now := active[..used];
        if found.None? {
          LoopEnds(slots, was, mappings, files, before, n, founds, now, activeSize);
          return;
        }
        LoopStep(slots, was, mappings, files, before, n, founds, now, activeSize, found.value);
        founds := founds + [found.value];
      }
    }

    /** A turn of stream_thread_function: an arrival if there was one, the mappings, then the answers. */
    method Turn(round: Round) returns (founds: seq<Found>)
      requires Valid() && (round.arrived.Some? ==> activeSize < active.Length)
      modifies this, active
      ensures Valid() && rounds == old(rounds) + [round] && answered == old(answered) + AnswersOf(founds)
      ensures pushed == old(pushed) + PushesOf(founds, round.files, 0)
      ensures Served(old(Active()), round, AnswersOf(founds), Active())
    {
      ghost var slots, n := active[..used], activeSize;
      ActiveIs(used);
      founds := Serve(round);
      ghost var longer, after := rounds + [round], active[..used];
      TurnedRun(rounds, round, longer, slots, n, answered, pushed, after, activeSize, founds);
      rounds, answered := longer, answered + AnswersOf(founds);
      pushed := pushed + PushesOf(founds, round.files, 0);
      assert active[..used] == after;
    }

    method Serve(round: Round) returns (founds: seq<Found>)
      requires activeSize <= used <= active.Length && (round.arrived.Some? ==> activeSize < active.Length)
      modifies this`activeSize, this`used, this`mappings, active
      ensures activeSize <= used <= active.Length
      ensures Turned(old(active[..used]), old(Active()), round, active[..used], activeSize, founds)
      ensures Served(old(Active()), round, AnswersOf(founds), Active())
    {
      ghost var slots, was := active[..used], Active();
      ActiveIs(used);
      Store(round);
      mappings := round.mappings;
      founds := AnswerKnown(used, round.files);
      TurnedServes(slots, was, round, active[..used], activeSize, founds);
      ActiveIs(used);
    }

    /** Takes in what came over the request channel. */
    method Store(round: Round)
      requires activeSize <= used <= active.Length && (round.arrived.Some? ==> activeSize < active.Length)
      modifies this`activeSize, this`used, active
      ensures activeSize <= used <= active.Length
      ensures active[..used] == Stored(old(active[..used]), old(activeSize), ArrivedCells(round))
      ensures Active() == old(Active()) + Arrived(round)
      ensures match round.arrived
              case None => active[..] == old(active[..]) && activeSize == old(activeSize)
              case Some(cell) => activeSize == old(activeSize) + 1
                                 && active[..] == old(active[..])[old(activeSize) := cell]
    {
      if round.arrived.Some? {
        active[activeSize] := round.arrived.value;
        activeSize := activeSize + 1;
        used := if activeSize > used then activeSize else used;
      }
    }
  }
}
