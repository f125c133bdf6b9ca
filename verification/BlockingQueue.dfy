/**
 The queue object itself. Each method is what one thread does in one step: it holds the
 mutex for a section, or issues a notification. `View` is the protocol state, and each
 method is proved to be the protocol's step, so that everything QueueTheorems says about
 runs is about these bodies.
 */
module BlockingQueues {
  import opened Common
  import opened QueueProtocol

  datatype CreateError = CapacityMustBePositive

  class BlockingQueue<T> {
    const capacity: nat
    var queue: seq<T>
    var closed: bool
    var threads: map<Tid, Pc<T>>
    ghost var accepted: seq<T>
    ghost var taken: seq<T>

    ghost function View(): State<T>
      reads this
    {
      State(capacity, queue, closed, threads, accepted, taken)
    }

    ghost predicate Valid()
      reads this
    {
      Inv(View())
    }

    constructor (capacity: nat)
      requires capacity > 0
      ensures Init(View()) && Valid() && this.capacity == capacity
    {
      this.capacity := capacity;
      queue, closed, threads := [], false, map[];
      accepted, taken := [], [];
      new;
      InitEstablishesInv(View());
    }

    /** The throwing constructor: a capacity of zero is refused. */
    static method Create(capacity: nat) returns (r: Result<BlockingQueue<T>, CreateError>)
      ensures r.Err? <==> capacity == 0
      ensures r.Ok? ==> fresh(r.value) && r.value.Valid() && Init(r.value.View()) && r.value.capacity == capacity
    {
      if capacity == 0 {
        return Err(CapacityMustBePositive);
      }
      var q := new BlockingQueue<T>(capacity);
      r := Ok(q);
    }

    /** Thread `t` calls an operation and goes for the mutex. */
    method Enter(t: Tid, op: Op<T>)
      requires Valid() && PcOf(View(), t).Idle?
      modifies this`threads
      ensures Valid() && View() == Apply(old(View()), Call(t, op))
    {
      StepKeepsInv(View(), Call(t, op));
      threads := threads[t := Calling(op)];
    }

    /** The mutex section shared by push and push_for. None: the thread went to sleep. */
    method EmplaceSection(t: Tid, value: T, timedOut: bool) returns (stored: Option<bool>)
      requires Valid() && AtMutex(PcOf(View(), t)) && PcOf(View(), t).op.Produces()
      requires value == PcOf(View(), t).op.value
      requires timedOut == (PcOf(View(), t).Awake? && PcOf(View(), t).timedOut)
      modifies this
      ensures Valid() && View() == Apply(old(View()), Lock(t))
      ensures stored == match SectionOf(old(View()), PcOf(old(View()), t))
        case Blocked => None
        case o => Some(o.Stored?)
    {
      StepKeepsInv(View(), Lock(t));
      if closed || |queue| < capacity {
        if closed {
          threads := threads[t := Idle];
          return Some(false);
        }
        queue := queue + [value];
        accepted := accepted + [value];
        threads := threads[t := OwesNotEmpty];
        return Some(true);
      }
      if timedOut {
        threads := threads[t := Idle];
        return Some(false);
      }
      threads := threads[t := Asleep(threads[t].op)];
      return None;
    }

    /** The mutex section shared by pop and pop_for. */
    method PopSection(t: Tid, timedOut: bool) returns (result: Outcome<T>)
      requires Valid() && AtMutex(PcOf(View(), t)) && PcOf(View(), t).op.Consumes()
      requires timedOut == (PcOf(View(), t).Awake? && PcOf(View(), t).timedOut)
      modifies this
      ensures Valid() && View() == Apply(old(View()), Lock(t))
      ensures result == SectionOf(old(View()), PcOf(old(View()), t))
    {
      StepKeepsInv(View(), Lock(t));
      if closed || |queue| > 0 {
        if |queue| == 0 {
          threads := threads[t := Idle];
          return Nothing;
        }
        var value := queue[0];
        queue := queue[1..];
        taken := taken + [value];
        threads := threads[t := OwesNotFull];
        return Took(value);
      }
      if timedOut {
        threads := threads[t := Idle];
        return Nothing;
      }
      threads := threads[t := Asleep(threads[t].op)];
      return Blocked;
    }

    method CloseSection(t: Tid)
      requires Valid() && AtMutex(PcOf(View(), t)) && PcOf(View(), t).op.Close?
      modifies this
      ensures Valid() && View() == Apply(old(View()), Lock(t))
    {
      StepKeepsInv(View(), Lock(t));
      closed := true;
      threads := threads[t := OwesAll];
    }

    /** The notify_one that ends a push or a pop; `woken` is the scheduler's choice. */
    method NotifyWaiter(t: Tid, woken: Option<Tid>)
      requires Valid() && Enabled(View(), NotifyOne(t, woken))
      modifies this`threads
      ensures Valid() && View() == Apply(old(View()), NotifyOne(t, woken))
    {
      StepKeepsInv(View(), NotifyOne(t, woken));
      if woken.Some? {
        threads := threads[woken.value := Awake(threads[woken.value].op, false)];
      }
      threads := threads[t := Idle];
    }

    /** One of the two notify_all of close(): first not_empty_, then not_full_. */
    method NotifyWaiters(t: Tid)
      requires Valid() && Enabled(View(), NotifyAll(t))
      modifies this`threads
      ensures Valid() && View() == Apply(old(View()), NotifyAll(t))
    {
      StepKeepsInv(View(), NotifyAll(t));
      if threads[t].OwesAll? {
        threads := WakeAll(threads, true)[t := OwesAllNotFull];
      } else {
        threads := WakeAll(threads, false)[t := Idle];
      }
    }

    /** The runtime unblocks a waiter unasked, or reports its deadline as passed. */
    method Unblock(t: Tid, timedOut: bool)
      requires Valid() && Enabled(View(), if timedOut then Timer(t) else Spurious(t))
      modifies this`threads
      ensures Valid() && View() == Apply(old(View()), if timedOut then Timer(t) else Spurious(t))
    {
      StepKeepsInv(View(), if timedOut then Timer(t) else Spurious(t));
      threads := threads[t := Awake(threads[t].op, timedOut)];
    }
  }
}
