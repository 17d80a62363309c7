/**
  base/pending_task.cc and base/pending_task.h: the tasks a message loop queues, and the comparison
  its priority queue of delayed tasks is built on.
 */
module PendingTasks {
  /**
    A posted task. `id` numbers the tasks in the order of their posting, `closure` is the closure as
    far as Closure::Equals can tell, and a `runTime` of 0 is the null TimeTicks of an immediate task.
   */
  datatype Task = Task(id: nat, closure: nat, runTime: nat, nestable: bool) {
    predicate Immediate() { runTime == 0 }
  }

  /**
    A task in the delayed queue. `order` counts the tasks put there; what the program keeps of it
    is the 32-bit `sequence_num`.
   */
  datatype DelayedTask = DelayedTask(task: Task, order: nat) {
    function SequenceNum(): int { Wrap32(order) }
  }

  const TWO_31: int := 0x8000_0000
  const TWO_32: int := 0x1_0000_0000

  /** Two's complement: the value of the low 32 bits of `n`. */
  function Wrap32(n: int): int {
    (n + TWO_31) % TWO_32 - TWO_31
  }

  /** PendingTask::operator<, with the subtraction of two `int`s as the machine performs it. */
  predicate Less(a: DelayedTask, b: DelayedTask) {
    if a.task.runTime < b.task.runTime then false
    else if a.task.runTime > b.task.runTime then true
    else Wrap32(a.SequenceNum() - b.SequenceNum()) > 0
  }

  /** The order meant: `a` is to run after `b`. */
  predicate RunsAfter(a: DelayedTask, b: DelayedTask) {
    a.task.runTime > b.task.runTime || (a.task.runTime == b.task.runTime && a.order > b.order)
  }

  lemma WrapOfDifference(m: int, n: int)
    ensures Wrap32(Wrap32(m) - Wrap32(n)) == Wrap32(m - n)
  {
    var p, q := (m + TWO_31) / TWO_32, (n + TWO_31) / TWO_32;
    assert Wrap32(m) == m - p * TWO_32 && Wrap32(n) == n - q * TWO_32;
    WrapIsPeriodic(m - n, q - p);
  }

  lemma WrapIsPeriodic(n: int, k: int)
    ensures Wrap32(n + k * TWO_32) == Wrap32(n)
  {
    var a := n + TWO_31;
    ModIsPeriodic(a, k);
  }

  lemma {:induction false} ModIsPeriodic(a: int, k: int)
    ensures (a + k * TWO_32) % TWO_32 == a % TWO_32
    decreases if k < 0 then -k else k
  {
    if k > 0 {
      ModIsPeriodic(a, k - 1);
      assert a + k * TWO_32 == (a + (k - 1) * TWO_32) + TWO_32;
    } else if k < 0 {
      ModIsPeriodic(a, k + 1);
      assert a + (k + 1) * TWO_32 == (a + k * TWO_32) + TWO_32;
    }
  }

  /** `Less` is `RunsAfter` as long as the two sequence numbers are less than 2^31 apart. */
  lemma LessIsRunsAfter(a: DelayedTask, b: DelayedTask)
    requires -TWO_31 < a.order - b.order < TWO_31
    ensures Less(a, b) <==> RunsAfter(a, b)
  {
    WrapOfDifference(a.order, b.order);
  }

  /** At a distance of exactly 2^31 neither task comes first: the bound cannot be relaxed. */
  lemma LessFailsAtTheBound(a: DelayedTask, b: DelayedTask)
    requires a.task.runTime == b.task.runTime && a.order == b.order + TWO_31
    ensures !Less(a, b) && !Less(b, a) && RunsAfter(a, b)
  {
    WrapOfDifference(a.order, b.order);
    WrapOfDifference(b.order, a.order);
  }

  /**
    For two tasks due at the same time the comparison gives the posting order if and only if their
    distance, taken modulo 2^32, falls into the half of the circle that matches its sign.
   */
  lemma LessAgreesExactlyWhen(a: DelayedTask, b: DelayedTask)
    requires a.task.runTime == b.task.runTime && a.order > b.order
    ensures Less(a, b) <==> 0 < (a.order - b.order) % TWO_32 < TWO_31
  {
    WrapOfDifference(a.order, b.order);
    var d := a.order - b.order;
    if d % TWO_32 < TWO_31 {
      assert (d + TWO_31) % TWO_32 == d % TWO_32 + TWO_31;
    } else {
      assert (d + TWO_31) % TWO_32 == d % TWO_32 - TWO_31;
    }
  }

  /** The live tasks: pairwise different numbers, less than 2^31 apart. */
  ghost predicate NarrowSpan(live: set<DelayedTask>) {
    forall a, b :: a in live && b in live ==>
      && -TWO_31 < a.order - b.order < TWO_31
      && (a.order == b.order ==> a == b)
  }

  /** What std::priority_queue asks of its comparison: on the live tasks it is a strict total order. */
  lemma LessIsStrictTotalOrder(live: set<DelayedTask>, a: DelayedTask, b: DelayedTask, c: DelayedTask)
    requires NarrowSpan(live) && a in live && b in live && c in live
    ensures !Less(a, a)
    ensures Less(a, b) ==> !Less(b, a)
    ensures Less(a, b) && Less(b, c) ==> Less(a, c)
    ensures a != b ==> Less(a, b) || Less(b, a)
  {
    LessIsRunsAfter(a, a);
    LessIsRunsAfter(a, b);
    LessIsRunsAfter(b, a);
    LessIsRunsAfter(b, c);
    LessIsRunsAfter(a, c);
  }

  /** base/pending_task.cc: a queue of tasks that can exchange its contents with another one. */
  class TaskQueue {
    var c: seq<Task>

    constructor ()
      ensures c == []
    {
      c := [];
    }

    method Push(task: Task)
      modifies this
      ensures c == old(c) + [task]
    {
      c := c + [task];
    }

    method Pop() returns (task: Task)
      requires c != []
      modifies this
      ensures [task] + c == old(c)
    {
      task, c := c[0], c[1..];
    }

    method Swap(queue: TaskQueue)
      modifies this, queue
      ensures c == old(queue.c) && queue.c == old(c)
    {
      c, queue.c := queue.c, c;
    }
  }
}
