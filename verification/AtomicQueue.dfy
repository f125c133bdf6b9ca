/**
 The queue as its users see it: a bounded FIFO whose push and pop happen in one
 step as soon as their wait predicate holds. QueueProtocol proves that the real
 queue, with its waits and notifications, behaves like this one.
 */
module AtomicQueue {
  import opened Common

  datatype Queue<+T> = Queue(items: seq<T>, closed: bool)

  /** The wait predicate of `push`: closed, or room left. */
  predicate PushReady<T>(q: Queue<T>, cap: nat) {
    q.closed || |q.items| < cap
  }

  /** The wait predicate of `pop`: closed, or something to take. */
  predicate PopReady<T>(q: Queue<T>) {
    q.closed || |q.items| > 0
  }

  /** A push on a closed queue is refused and changes nothing. */
  function Push<T>(q: Queue<T>, x: T): Queue<T> {
    if q.closed then q else Queue(q.items + [x], false)
  }

  function Front<T>(q: Queue<T>): Option<T> {
    if |q.items| > 0 then Some(q.items[0]) else None
  }

  function Pop<T>(q: Queue<T>): Queue<T> {
    if |q.items| > 0 then Queue(q.items[1..], q.closed) else q
  }

  function Close<T>(q: Queue<T>): Queue<T> {
    Queue(q.items, true)
  }

  /** What a finished call reports. The flag tells the timed variant, which may give up. */
  datatype Effect<T> =
    | Stored(value: T)
    | NotStored(value: T, timed: bool)
    | Took(value: T)
    | NothingTaken(timed: bool)
    | Closed

  /** The queue after a report, or None where an atomic queue could not have reported it. */
  ghost function After<T>(cap: nat, q: Queue<T>, e: Effect<T>): Option<Queue<T>> {
    match e
    case Stored(v) => if !q.closed && |q.items| < cap then Some(Push(q, v)) else None
    case NotStored(_, timed) => if q.closed || (timed && |q.items| == cap) then Some(q) else None
    case Took(v) => if Front(q) == Some(v) then Some(Pop(q)) else None
    case NothingTaken(timed) => if |q.items| == 0 && (q.closed || timed) then Some(q) else None
    case Closed => Some(Close(q))
  }

  /** An empty open queue after a list of reports, or None where one of them is illegal. */
  ghost function Replay<T>(cap: nat, effects: seq<Effect<T>>): Option<Queue<T>> {
    if |effects| == 0 then Some(Queue([], false))
    else
      match Replay(cap, effects[..|effects| - 1])
      case None => None
      case Some(q) => After(cap, q, effects[|effects| - 1])
  }
}
