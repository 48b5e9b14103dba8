/** ring_t of job_manager.cpp: a fixed buffer with wrap-around head and tail. */
module Rings {
  import opened JobPool

  function Wrap(i: nat, capacity: nat): nat {
    if i < capacity then i else i - capacity
  }

  lemma WrapIsRemainder(i: nat, capacity: nat)
    requires i < 2 * capacity
    ensures i % capacity == Wrap(i, capacity)
  {
    if i >= capacity { assert i == capacity * 1 + (i - capacity); }
  }

  /** The count elements from head on, continuing at the front of b past its end. */
  function Segment(b: seq<Job>, head: nat, count: nat): (s: seq<Job>)
    requires head < |b| && count <= |b|
    ensures |s| == count
  {
    if head + count <= |b| then b[head..head + count] else b[head..] + b[..head + count - |b|]
  }

  lemma SegmentSnoc(b: seq<Job>, head: nat, count: nat, job: Job)
    requires head < |b| && count < |b|
    ensures Segment(b[Wrap(head + count, |b|) := job], head, count + 1) == Segment(b, head, count) + [job]
  {
  }

  lemma SegmentTail(b: seq<Job>, head: nat, count: nat)
    requires head < |b| && 0 < count <= |b|
    ensures Segment(b, head, count)[0] == b[head]
    ensures Segment(b, Wrap(head + 1, |b|), count - 1) == Segment(b, head, count)[1..]
  {
  }

  class Ring {
    const buf: array<Job>
    const capacity: nat
    const copiesData1: bool
    var head: nat
    var tail: nat
    var count: nat

    ghost predicate Valid()
      reads this
    {
      && 0 < capacity == buf.Length
      && head < capacity && count <= capacity
      && tail == Wrap(head + count, capacity)
    }

    /** The queued jobs, oldest first. */
    ghost function Contents(): (jobs: seq<Job>)
      requires Valid()
      reads this, buf
    {
      Segment(buf[..], head, count)
    }

    constructor (cap: nat, copies: bool)
      requires cap > 0
      ensures Valid() && Contents() == [] && capacity == cap && copiesData1 == copies && fresh(buf)
    {
      buf := new Job[cap];
      capacity := cap;
      copiesData1 := copies;
      head, tail, count := 0, 0, 0;
    }

    method Push(channel: nat, fn: Ptr, data0: Ptr, data1: Ptr) returns (rc: int)
      requires Valid()
      modifies this, buf
      ensures Valid()
      ensures rc == if |old(Contents())| == capacity then -1 else 0
      ensures Contents() == if rc == 0 then old(Contents()) + [Job(channel, fn, data0, data1)] else old(Contents())
    {
      if count == capacity { return -1; }
      ghost var was := buf[..];
      SegmentSnoc(was, head, count, Job(channel, fn, data0, data1));
      buf[tail] := Job(channel, fn, data0, data1);
      assert buf[..] == was[tail := Job(channel, fn, data0, data1)];
      WrapIsRemainder(tail + 1, capacity);
      tail := (tail + 1) % capacity;
      count := count + 1;
      return 0;
    }

    /** data1In is what the caller's variable for the second argument held before the call. */
    method Pop(data1In: Ptr) returns (rc: int, channel: nat, fn: Ptr, data0: Ptr, data1: Ptr)
      requires Valid()
      modifies this
      ensures Valid()
      ensures rc == if old(Contents()) == [] then -1 else 0
      ensures rc == 0 ==>
                && Contents() == old(Contents())[1..]
                && var job := old(Contents())[0];
                   && (channel, fn, data0) == (job.channel, job.fn, job.data0)
                   && data1 == if copiesData1 then job.data1 else data1In
      ensures rc != 0 ==> Contents() == old(Contents()) && data1 == data1In
    {
      channel, fn, data0, data1 := 0, 0, 0, data1In;
      if count == 0 { return -1, channel, fn, data0, data1; }
      SegmentTail(buf[..], head, count);
      channel := buf[head].channel;
      fn := buf[head].fn;
      data0 := buf[head].data0;
      if copiesData1 { data1 := buf[head].data1; }
      WrapIsRemainder(head + 1, capacity);
      head := (head + 1) % capacity;
      count := count - 1;
      rc := 0;
    }

    /** What stop(0) does to the pending ring. */
    method Reset()
      requires Valid()
      modifies this
      ensures Valid() && Contents() == []
    {
      head, tail, count := 0, 0, 0;
    }
  }
}
