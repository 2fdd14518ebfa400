/**
 The rate-limited work queue the controller drains (the client-go queue the source uses).

 An item is `dirty` while it needs processing and `processing` between `Get` and `Done`.  An
 item added while it is processed is queued again by `Done`.  `AddRateLimited` defers the add;
 deferred items wait in `delayed` until a timer adds them, which is not part of a drain.  A queue
 that is shutting down drops what is added or deferred, but still hands out what waits.
 */
module WorkQueue {
  /** The queue holds untyped objects; the controller expects strings. */
  datatype Item = Key(key: string) | Other(id: nat)

  datatype Call = Got(item: Item) | Forgot(item: Item) | Finished(item: Item) | Deferred(item: Item)

  class Queue {
    var queue: seq<Item>
    var dirty: set<Item>
    var processing: set<Item>
    var delayed: seq<Item>
    var log: seq<Call>
    var shuttingDown: bool

    /** No item waits twice, what waits is dirty and not in process, and every dirty item either
        waits or is in process. */
    ghost predicate Valid()
      reads this
    {
      && (forall i, j :: 0 <= i < j < |queue| ==> queue[i] != queue[j])
      && (forall x :: x in queue ==> x in dirty && x !in processing)
      && (forall x :: x in dirty ==> x in queue || x in processing)
    }

    constructor ()
      ensures Valid() && queue == [] && dirty == {} && processing == {} && delayed == [] && log == [] && !shuttingDown
    {
      queue, dirty, processing, delayed, log, shuttingDown := [], {}, {}, [], [], false;
    }

    method Add(x: Item)
      requires Valid()
      modifies `queue, `dirty
      ensures Valid()
      ensures dirty == if shuttingDown then old(dirty) else old(dirty) + {x}
      ensures queue ==
              if shuttingDown || x in old(dirty) || x in processing then old(queue) else old(queue) + [x]
    {
      if shuttingDown {
        return;
      }
      if x in dirty {
        return;
      }
      dirty := dirty + {x};
      if x in processing {
        return;
      }
      queue := queue + [x];
    }

    /** Adds from outside while an item is processed. */
    method AddAll(xs: seq<Item>)
      requires Valid()
      modifies `queue, `dirty
      ensures Valid()
      ensures old(dirty) <= dirty && |dirty| <= |old(dirty)| + |xs|
      ensures !shuttingDown ==> forall i :: 0 <= i < |xs| ==> xs[i] in dirty
      ensures old(queue) <= queue
    {
      for i := 0 to |xs|
        invariant Valid()
        invariant old(queue) <= queue
        invariant old(dirty) <= dirty && |dirty| <= |old(dirty)| + i
        invariant !shuttingDown ==> forall j :: 0 <= j < i ==> xs[j] in dirty
      {
        Add(xs[i]);
      }
    }

    /** What happens outside while an item is processed: maybe a shutdown, then adds. */
    method Arrive(shutDown: bool, xs: seq<Item>)
      requires Valid()
      modifies `queue, `dirty, `shuttingDown
      ensures Valid()
      ensures shuttingDown == (old(shuttingDown) || shutDown)
      ensures old(dirty) <= dirty && |dirty| <= |old(dirty)| + |xs|
      ensures !shuttingDown ==> forall i :: 0 <= i < |xs| ==> xs[i] in dirty
    {
      if shutDown {
        ShutDown();
      }
      AddAll(xs);
    }

    /** `Get` would block on an empty queue; it reports a shutdown only when the queue is empty. */
    method Get() returns (x: Item, shutdown: bool)
      requires Valid() && (queue != [] || shuttingDown)
      modifies `queue, `dirty, `processing, `log
      ensures Valid()
      ensures shutdown <==> old(queue) == []
      ensures shutdown ==> unchanged(this)
      ensures !shutdown ==>
                && x == old(queue)[0] && queue == old(queue)[1..]
                && dirty == old(dirty) - {x} && processing == old(processing) + {x}
                && log == old(log) + [Got(x)]
    {
      if queue == [] {
        return Other(0), true;
      }
      x, shutdown := queue[0], false;
      queue := queue[1..];
      dirty := dirty - {x};
      processing := processing + {x};
      log := log + [Got(x)];
      assert forall i :: 0 < i < |old(queue)| ==> old(queue)[i] == queue[i - 1];
    }

    method ShutDown()
      modifies `shuttingDown
      ensures shuttingDown
    {
      shuttingDown := true;
    }

    method Forget(x: Item)
      modifies `log
      ensures log == old(log) + [Forgot(x)]
    {
      log := log + [Forgot(x)];
    }

    method Done(x: Item)
      requires Valid() && x in processing
      modifies `queue, `processing, `log
      ensures Valid()
      ensures processing == old(processing) - {x}
      ensures queue == if x in dirty then old(queue) + [x] else old(queue)
      ensures log == old(log) + [Finished(x)]
    {
      processing := processing - {x};
      if x in dirty {
        queue := queue + [x];
      }
      log := log + [Finished(x)];
    }

    method AddRateLimited(x: Item)
      modifies `delayed, `log
      ensures delayed == if shuttingDown then old(delayed) else old(delayed) + [x]
      ensures log == old(log) + [Deferred(x)]
    {
      if !shuttingDown {
        delayed := delayed + [x];
      }
      log := log + [Deferred(x)];
    }
  }
}
