/** The job queue of src/thpool.c: a linked list with its binary semaphore. The callers hold
    `rwmutex`, so a method is one step. */
module JobQueue {
  import P = ThreadPool

  /** What others see of a queue: the work queued, oldest first, and whether the semaphore is up. */
  datatype Seen<T> = Seen(work: seq<T>, up: bool)

  function Pushed<T>(q: Seen<T>, x: T): Seen<T> { Seen(q.work + [x], true) }

  /** The oldest work is taken; the semaphore goes up when there is more. */
  function Pulled<T>(q: Seen<T>): Seen<T>
  {
    if q.work == [] then q else Seen(q.work[1..], q.up || |q.work| > 1)
  }

  /** `struct job`; `work` stands for the function and its argument. */
  class Job<T> {
    var prev: Job?<T>
    const work: T

    constructor (work: T)
      ensures this.work == work && prev == null
    {
      this.work, prev := work, null;
    }
  }

  /** `struct jobqueue`, with the value of its semaphore. */
  class Queue<T> {
    var front: Job?<T>
    var rear: Job?<T>
    var len: nat
    var v: nat
    /** The jobs from `front` to `rear`. */
    ghost var jobs: seq<Job<T>>

    ghost predicate Valid()
      reads this, jobs
    {
      && len == |jobs|
      && (if len == 0 then front == null && rear == null
          else front == jobs[0] && rear == jobs[len - 1] && jobs[len - 1].prev == null)
      && (forall i, j | 0 <= i < j < len :: jobs[i] != jobs[j])
      && (forall i, j | 0 <= i < j == i + 1 < len :: jobs[i].prev == jobs[j])
      && v <= 1
    }

    ghost function State(): Seen<T>
      reads this, jobs
    {
      var js := jobs;
      Seen(seq(|js|, i requires 0 <= i < |js| => js[i].work), v == 1)
    }

    /** `jobqueue_init` */
    constructor ()
      ensures Valid() && State() == Seen([], false)
    {
      front, rear, len, v, jobs := null, null, 0, 0, [];
    }

    /** `bsem_post` */
    method Post()
      modifies this`v
      ensures v == 1
    {
      v := 1;
    }

    /** The end of `bsem_wait`, once `v` is not zero. */
    method Take()
      requires Valid() && v != 0
      modifies this`v
      ensures Valid() && v == 0
    {
      v := v - 1;
    }

    /** `jobqueue_push`: the job comes last, and the semaphore is up. */
    method Push(newjob: Job<T>)
      requires Valid() && newjob !in jobs
      modifies this, newjob, rear
      ensures Valid() && jobs == old(jobs) + [newjob] && State() == Pushed(old(State()), newjob.work)
      ensures v == 1
    {
      ghost var was := State().work;
      newjob.prev := null;
      if len == 0 {
        front, rear := newjob, newjob;
      } else {
        rear.prev := newjob;
        rear := newjob;
      }
      jobs := jobs + [newjob];
      len := len + 1;
      Post();
      assert State().work == was + [newjob.work];
    }

    /** `jobqueue_pull`: the oldest job, or null when there is none; the semaphore goes up when jobs
        are left. */
    method Pull() returns (job: Job?<T>)
      requires Valid()
      modifies this
      ensures Valid() && State() == Pulled(old(State()))
      ensures job == (if old(jobs) == [] then null else old(jobs)[0])
      ensures jobs == if old(jobs) == [] then [] else old(jobs)[1..]
      ensures v == if |old(jobs)| >= 2 then 1 else old(v)
    {
      ghost var was, all := State().work, jobs;
      job := front;
      if len == 1 {
        front, rear, len, jobs := null, null, 0, [];
      } else if len > 1 {
        front, len, jobs := job.prev, len - 1, jobs[1..];
        Post();
        assert forall i | 0 <= i < len :: jobs[i] == all[i + 1];
        assert State().work == was[1..];
      }
    }

    /** `jobqueue_clear` */
    method Clear()
      requires Valid()
      modifies this
      ensures Valid() && State() == Seen([], false)
    {
      while len != 0
        invariant Valid()
      {
        var _ := Pull();
      }
      front, rear := null, null;
      v := 0;
    }
  }

  // ---------------------------------------------------------------- the queue of the pool

  /** The queue that the thread pool is described with. */
  function InPool(p: P.Pool): Seen<nat> { Seen(p.queue, p.sem) }

  /** What `thpool_add_work` does in two steps of the pool is `jobqueue_push`. */
  lemma PushInPool(p: P.Pool, woken: nat)
    requires P.Enabled(p, P.Enqueue) && P.Enabled(P.Apply(p, P.Enqueue), P.MainPost(woken))
    ensures InPool(P.Apply(P.Apply(p, P.Enqueue), P.MainPost(woken))) == Pushed(InPool(p), p.pushed)
  { }

  /** What a worker does in its one or two steps with the queue's lock is `jobqueue_pull`. */
  lemma PullInPool(p: P.Pool, i: nat, woken: nat)
    requires P.Enabled(p, P.Pull(i))
    ensures var q := P.Apply(p, P.Pull(i));
            if |p.queue| > 1 then
              q.workers[i] == P.Posting(p.queue[0])
              && (P.Enabled(q, P.Post(i, woken)) ==> InPool(P.Apply(q, P.Post(i, woken))) == Pulled(InPool(p)))
            else
              InPool(q) == Pulled(InPool(p))
              && q.workers[i] == if p.queue == [] then P.Leaving else P.Busy(p.queue[0])
  { }
}
