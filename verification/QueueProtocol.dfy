/**
 The bounded blocking queue as a protocol of threads, one mutex and two condition
 variables, with the condition-variable semantics of [thread.condition.condvar] in
 ISO C++17: a waiter may wake spuriously, `notify_one` wakes some waiter if there is
 one, and every notification is issued after the mutex has been released.

 What a thread does while it holds the mutex is one step (`Lock`): nothing else reads
 or writes the queue without the mutex. Going to sleep releases the mutex atomically,
 so it belongs to that step.
 */
module QueueProtocol {
  import opened Common
  import AtomicQueue

  type Tid = nat

  datatype Op<T> = Push(value: T) | PushFor(value: T) | Pop | PopFor | Close
  {
    predicate Produces() { Push? || PushFor? }
    predicate Consumes() { Pop? || PopFor? }
    predicate Timed() { PushFor? || PopFor? }
  }

  /** Where a thread is inside a queue operation. */
  datatype Pc<T> =
    | Idle
    | Calling(op: Op<T>)                 // called, mutex not yet taken
    | Asleep(op: Op<T>)                  // blocked on not_empty_ (Pop*) or not_full_ (Push*)
    | Awake(op: Op<T>, timedOut: bool)   // unblocked, predicate not yet tested again
    | OwesNotEmpty                       // pushed; not_empty_.notify_one() outstanding
    | OwesNotFull                        // popped; not_full_.notify_one() outstanding
    | OwesAll                            // closed; both notify_all() outstanding
    | OwesAllNotFull                     // closed; not_full_.notify_all() outstanding

  datatype State<T> = State(
    cap: nat,
    items: seq<T>,
    closed: bool,
    pcs: map<Tid, Pc<T>>,
    accepted: seq<T>,     // every value ever stored, in the order stored
    taken: seq<T>)        // every value ever popped, in the order popped

  datatype Event<T> =
    | Call(t: Tid, op: Op<T>)
    | Lock(t: Tid)
    | NotifyOne(t: Tid, woken: Option<Tid>)
    | NotifyAll(t: Tid)
    | Spurious(t: Tid)
    | Timer(t: Tid)

  function PcOf<T>(s: State<T>, t: Tid): Pc<T> {
    if t in s.pcs then s.pcs[t] else Idle
  }

  // ----- thread classes -----

  predicate SleepsOnNotEmpty<T>(p: Pc<T>) { p.Asleep? && p.op.Consumes() }
  predicate SleepsOnNotFull<T>(p: Pc<T>) { p.Asleep? && p.op.Produces() }
  predicate AwakeConsumer<T>(p: Pc<T>) { p.Awake? && p.op.Consumes() }
  predicate AwakeProducer<T>(p: Pc<T>) { p.Awake? && p.op.Produces() }
  predicate PushUnnotified<T>(p: Pc<T>) { p.OwesNotEmpty? }
  predicate PopUnnotified<T>(p: Pc<T>) { p.OwesNotFull? }
  predicate CloserOwesNotEmpty<T>(p: Pc<T>) { p.OwesAll? }
  predicate CloserOwesNotFull<T>(p: Pc<T>) { p.OwesAll? || p.OwesAllNotFull? }

  ghost function Members<T>(pcs: map<Tid, Pc<T>>, f: Pc<T> -> bool): set<Tid> {
    set t | t in pcs && f(pcs[t])
  }

  ghost function Count<T>(pcs: map<Tid, Pc<T>>, f: Pc<T> -> bool): nat {
    |Members(pcs, f)|
  }

  // ----- the section executed under the mutex -----

  datatype Outcome<T> = Blocked | Stored | Refused | Took(value: T) | Nothing | Closed

  /** The decision a thread takes once it holds the mutex. `timedOut` is true when
      wait_for reports that the deadline has passed, after which the predicate is
      tested one last time. */
  function Section<T>(s: State<T>, op: Op<T>, timedOut: bool): Outcome<T> {
    if op.Close? then Closed
    else if op.Consumes() then
      if |s.items| > 0 then Took(s.items[0])
      else if s.closed || timedOut then Nothing
      else Blocked
    else
      if s.closed then Refused
      else if |s.items| < s.cap then Stored
      else if timedOut then Refused
      else Blocked
  }

  predicate AtMutex<T>(p: Pc<T>) { p.Calling? || p.Awake? }

  function SectionOf<T>(s: State<T>, p: Pc<T>): Outcome<T>
    requires AtMutex(p)
  {
    Section(s, p.op, p.Awake? && p.timedOut)
  }

  predicate Enabled<T>(s: State<T>, e: Event<T>) {
    match e
    case Call(t, _) => PcOf(s, t).Idle?
    case Lock(t) => AtMutex(PcOf(s, t))
    case NotifyOne(t, woken) =>
      (match PcOf(s, t)
       case OwesNotEmpty => WakesOne(s, SleepsOnNotEmpty, woken)
       case OwesNotFull => WakesOne(s, SleepsOnNotFull, woken)
       case _ => false)
    case NotifyAll(t) => PcOf(s, t).OwesAll? || PcOf(s, t).OwesAllNotFull?
    case Spurious(t) => PcOf(s, t).Asleep?
    case Timer(t) => (PcOf(s, t).Asleep? || PcOf(s, t).Awake?) && PcOf(s, t).op.Timed()
  }

  /** notify_one unblocks one waiter if there is any, and is lost otherwise. */
  predicate WakesOne<T>(s: State<T>, waits: Pc<T> -> bool, woken: Option<Tid>) {
    match woken
    case Some(w) => w in s.pcs && waits(s.pcs[w])
    case None => forall w :: w in s.pcs ==> !waits(s.pcs[w])
  }

  function Wake<T>(p: Pc<T>): Pc<T>
    requires p.Asleep?
  {
    Awake(p.op, false)
  }

  function WakeAll<T>(pcs: map<Tid, Pc<T>>, onNotEmpty: bool): map<Tid, Pc<T>> {
    map t | t in pcs ::
      if (if onNotEmpty then SleepsOnNotEmpty(pcs[t]) else SleepsOnNotFull(pcs[t])) then Wake(pcs[t])
      else pcs[t]
  }

  function ApplyLock<T>(s: State<T>, t: Tid): State<T>
    requires AtMutex(PcOf(s, t))
  {
    var op := PcOf(s, t).op;
    match SectionOf(s, PcOf(s, t))
    case Blocked => s.(pcs := s.pcs[t := Asleep(op)])
    case Stored => s.(items := s.items + [op.value], accepted := s.accepted + [op.value],
                      pcs := s.pcs[t := OwesNotEmpty])
    case Took(v) => s.(items := s.items[1..], taken := s.taken + [v], pcs := s.pcs[t := OwesNotFull])
    case Closed => s.(closed := true, pcs := s.pcs[t := OwesAll])
    case _ => s.(pcs := s.pcs[t := Idle])
  }

  function ApplyNotifyOne<T>(s: State<T>, t: Tid, woken: Option<Tid>): State<T>
    requires woken.Some? ==> woken.value in s.pcs && s.pcs[woken.value].Asleep?
  {
    var pcs := if woken.Some? then s.pcs[woken.value := Wake(s.pcs[woken.value])] else s.pcs;
    s.(pcs := pcs[t := Idle])
  }

  function Apply<T>(s: State<T>, e: Event<T>): State<T>
    requires Enabled(s, e)
  {
    match e
    case Call(t, op) => s.(pcs := s.pcs[t := Calling(op)])
    case Lock(t) => ApplyLock(s, t)
    case NotifyOne(t, woken) => ApplyNotifyOne(s, t, woken)
    case NotifyAll(t) =>
      if PcOf(s, t).OwesAll? then s.(pcs := WakeAll(s.pcs, true)[t := OwesAllNotFull])
      else s.(pcs := WakeAll(s.pcs, false)[t := Idle])
    case Spurious(t) => s.(pcs := s.pcs[t := Awake(PcOf(s, t).op, false)])
    case Timer(t) => s.(pcs := s.pcs[t := Awake(PcOf(s, t).op, true)])
  }

  ghost predicate Init<T>(s: State<T>) {
    && s.cap > 0 && s.items == [] && !s.closed
    && s.accepted == [] && s.taken == []
    && forall t :: t in s.pcs ==> s.pcs[t].Idle?
  }

  // ----- the invariant -----

  /** A consumer sleeps only while every stored value is already promised to somebody. */
  ghost predicate ConsumersCovered<T>(s: State<T>) {
    Count(s.pcs, SleepsOnNotEmpty) > 0 ==>
      |s.items| <= Count(s.pcs, AwakeConsumer) + Count(s.pcs, PushUnnotified)
  }

  /** While the queue is open, a producer sleeps only while every free slot is promised. */
  ghost predicate ProducersCovered<T>(s: State<T>) {
    Count(s.pcs, SleepsOnNotFull) > 0 && !s.closed ==>
      s.cap - |s.items| <= Count(s.pcs, AwakeProducer) + Count(s.pcs, PopUnnotified)
  }

  /** Whoever sleeps on a closed queue is owed a notify_all. */
  ghost predicate SleepersOwed<T>(s: State<T>) {
    && (s.closed && Count(s.pcs, SleepsOnNotEmpty) > 0 ==> Count(s.pcs, CloserOwesNotEmpty) > 0)
    && (s.closed && Count(s.pcs, SleepsOnNotFull) > 0 ==> Count(s.pcs, CloserOwesNotFull) > 0)
  }

  ghost predicate Fifo<T>(s: State<T>) {
    && s.accepted == s.taken + s.items
    && |s.items| <= s.cap
  }

  /** Only pop_for and push_for can see their deadline pass. */
  ghost predicate OnlyTimedTimeOut<T>(s: State<T>) {
    forall t :: t in s.pcs && s.pcs[t].Awake? && s.pcs[t].timedOut ==> s.pcs[t].op.Timed()
  }

  ghost predicate Inv<T>(s: State<T>) {
    && s.cap > 0
    && OnlyTimedTimeOut(s)
    && Fifo(s)
    && ConsumersCovered(s)
    && ProducersCovered(s)
    && SleepersOwed(s)
  }

  // ----- counting -----

  lemma CardinalityWithout(a: set<Tid>, t: Tid)
    ensures |a| == |a - {t}| + (if t in a then 1 else 0)
  {
    if t !in a {
      assert a - {t} == a;
    }
  }

  lemma CountUpdate<T>(pcs: map<Tid, Pc<T>>, t: Tid, p: Pc<T>, f: Pc<T> -> bool)
    ensures Count(pcs[t := p], f)
         == Count(pcs, f) - (if t in pcs && f(pcs[t]) then 1 else 0) + (if f(p) then 1 else 0)
  {
    var before, after := Members(pcs, f), Members(pcs[t := p], f);
    assert t in before <==> t in pcs && f(pcs[t]);
    assert t in after <==> f(p);
    assert after - {t} == before - {t} by {
      forall u: Tid ensures u in after - {t} <==> u in before - {t} {
      }
    }
    CardinalityWithout(before, t);
    CardinalityWithout(after, t);
  }

  lemma CountPositive<T>(pcs: map<Tid, Pc<T>>, f: Pc<T> -> bool)
    ensures Count(pcs, f) > 0 <==> exists t :: t in pcs && f(pcs[t])
  {
    if t :| t in pcs && f(pcs[t]) {
      assert t in Members(pcs, f);
    }
    if Count(pcs, f) > 0 {
      var t :| t in Members(pcs, f);
    }
  }

  /** Every class at once, for the step that moves one thread. */
  lemma CountsUpdate<T>(pcs: map<Tid, Pc<T>>, t: Tid, p: Pc<T>)
    ensures Count(pcs[t := p], SleepsOnNotEmpty) == Count(pcs, SleepsOnNotEmpty)
            - (if t in pcs && SleepsOnNotEmpty(pcs[t]) then 1 else 0) + (if SleepsOnNotEmpty(p) then 1 else 0)
    ensures Count(pcs[t := p], SleepsOnNotFull) == Count(pcs, SleepsOnNotFull)
            - (if t in pcs && SleepsOnNotFull(pcs[t]) then 1 else 0) + (if SleepsOnNotFull(p) then 1 else 0)
    ensures Count(pcs[t := p], AwakeConsumer) == Count(pcs, AwakeConsumer)
            - (if t in pcs && AwakeConsumer(pcs[t]) then 1 else 0) + (if AwakeConsumer(p) then 1 else 0)
    ensures Count(pcs[t := p], AwakeProducer) == Count(pcs, AwakeProducer)
            - (if t in pcs && AwakeProducer(pcs[t]) then 1 else 0) + (if AwakeProducer(p) then 1 else 0)
    ensures Count(pcs[t := p], PushUnnotified) == Count(pcs, PushUnnotified)
            - (if t in pcs && PushUnnotified(pcs[t]) then 1 else 0) + (if PushUnnotified(p) then 1 else 0)
    ensures Count(pcs[t := p], PopUnnotified) == Count(pcs, PopUnnotified)
            - (if t in pcs && PopUnnotified(pcs[t]) then 1 else 0) + (if PopUnnotified(p) then 1 else 0)
    ensures Count(pcs[t := p], CloserOwesNotEmpty) == Count(pcs, CloserOwesNotEmpty)
            - (if t in pcs && CloserOwesNotEmpty(pcs[t]) then 1 else 0) + (if CloserOwesNotEmpty(p) then 1 else 0)
    ensures Count(pcs[t := p], CloserOwesNotFull) == Count(pcs, CloserOwesNotFull)
            - (if t in pcs && CloserOwesNotFull(pcs[t]) then 1 else 0) + (if CloserOwesNotFull(p) then 1 else 0)
  {
    CountUpdate(pcs, t, p, SleepsOnNotEmpty);
    CountUpdate(pcs, t, p, SleepsOnNotFull);
    CountUpdate(pcs, t, p, AwakeConsumer);
    CountUpdate(pcs, t, p, AwakeProducer);
    CountUpdate(pcs, t, p, PushUnnotified);
    CountUpdate(pcs, t, p, PopUnnotified);
    CountUpdate(pcs, t, p, CloserOwesNotEmpty);
    CountUpdate(pcs, t, p, CloserOwesNotFull);
  }

  /** notify_all empties its own wait set and touches no other class but the woken ones. */
  lemma CountsWakeAll<T>(pcs: map<Tid, Pc<T>>, onNotEmpty: bool)
    ensures var after := WakeAll(pcs, onNotEmpty);
      && Count(after, SleepsOnNotEmpty) == (if onNotEmpty then 0 else Count(pcs, SleepsOnNotEmpty))
      && Count(after, SleepsOnNotFull) == (if onNotEmpty then Count(pcs, SleepsOnNotFull) else 0)
      && (!onNotEmpty ==> Count(after, AwakeConsumer) == Count(pcs, AwakeConsumer))
      && (onNotEmpty ==> Count(after, AwakeProducer) == Count(pcs, AwakeProducer))
      && Count(after, PushUnnotified) == Count(pcs, PushUnnotified)
      && Count(after, PopUnnotified) == Count(pcs, PopUnnotified)
      && Count(after, CloserOwesNotEmpty) == Count(pcs, CloserOwesNotEmpty)
      && Count(after, CloserOwesNotFull) == Count(pcs, CloserOwesNotFull)
  {
    var after := WakeAll(pcs, onNotEmpty);
    if onNotEmpty {
      assert Members(after, SleepsOnNotEmpty) == {};
      assert Members(after, SleepsOnNotFull) == Members(pcs, SleepsOnNotFull);
      assert Members(after, AwakeProducer) == Members(pcs, AwakeProducer);
    } else {
      assert Members(after, SleepsOnNotFull) == {};
      assert Members(after, SleepsOnNotEmpty) == Members(pcs, SleepsOnNotEmpty);
      assert Members(after, AwakeConsumer) == Members(pcs, AwakeConsumer);
    }
    assert Members(after, PushUnnotified) == Members(pcs, PushUnnotified);
    assert Members(after, PopUnnotified) == Members(pcs, PopUnnotified);
    assert Members(after, CloserOwesNotEmpty) == Members(pcs, CloserOwesNotEmpty);
    assert Members(after, CloserOwesNotFull) == Members(pcs, CloserOwesNotFull);
  }

  // ----- every step keeps the invariant -----

  lemma InitEstablishesInv<T>(s: State<T>)
    requires Init(s)
    ensures Inv(s)
  {
    assert Members(s.pcs, SleepsOnNotEmpty) == {};
    assert Members(s.pcs, SleepsOnNotFull) == {};
  }

  lemma StoringKeepsInv<T>(s: State<T>, t: Tid, v: T)
    requires Inv(s) && AtMutex(PcOf(s, t)) && PcOf(s, t).op.Produces() && |s.items| < s.cap && !s.closed
    ensures Inv(s.(items := s.items + [v], accepted := s.accepted + [v], pcs := s.pcs[t := OwesNotEmpty]))
  {
    CountsUpdate(s.pcs, t, OwesNotEmpty);
    assert s.accepted + [v] == s.taken + (s.items + [v]);
  }

  lemma TakingKeepsInv<T>(s: State<T>, t: Tid)
    requires Inv(s) && AtMutex(PcOf(s, t)) && PcOf(s, t).op.Consumes() && |s.items| > 0
    ensures Inv(s.(items := s.items[1..], taken := s.taken + [s.items[0]], pcs := s.pcs[t := OwesNotFull]))
  {
    CountsUpdate(s.pcs, t, OwesNotFull);
    assert s.taken + [s.items[0]] + s.items[1..] == s.taken + s.items;
  }

  /** Leaving without a value: a refused producer, or a consumer that finds nothing. */
  lemma LeavingKeepsInv<T>(s: State<T>, t: Tid)
    requires Inv(s) && AtMutex(PcOf(s, t)) && !PcOf(s, t).op.Close?
    requires if PcOf(s, t).op.Consumes() then s.items == [] else s.closed || |s.items| == s.cap
    ensures Inv(s.(pcs := s.pcs[t := Idle]))
  {
    CountsUpdate(s.pcs, t, Idle);
  }

  lemma BlockingKeepsInv<T>(s: State<T>, t: Tid)
    requires Inv(s) && AtMutex(PcOf(s, t)) && !s.closed
    requires if PcOf(s, t).op.Consumes() then s.items == [] else |s.items| == s.cap
    ensures Inv(s.(pcs := s.pcs[t := Asleep(PcOf(s, t).op)]))
  {
    CountsUpdate(s.pcs, t, Asleep(PcOf(s, t).op));
  }

  lemma ClosingKeepsInv<T>(s: State<T>, t: Tid)
    requires Inv(s) && AtMutex(PcOf(s, t)) && PcOf(s, t).op.Close?
    ensures Inv(s.(closed := true, pcs := s.pcs[t := OwesAll]))
  {
    CountsUpdate(s.pcs, t, OwesAll);
  }

  lemma LockKeepsInv<T>(s: State<T>, t: Tid)
    requires Inv(s) && AtMutex(PcOf(s, t))
    ensures Inv(ApplyLock(s, t))
  {
    match SectionOf(s, PcOf(s, t))
    case Blocked => BlockingKeepsInv(s, t);
    case Stored => StoringKeepsInv(s, t, PcOf(s, t).op.value);
    case Took(v) => TakingKeepsInv(s, t);
    case Closed => ClosingKeepsInv(s, t);
    case _ => LeavingKeepsInv(s, t);
  }

  /** One waiter is woken for the one notification that is no longer outstanding. */
  lemma NotifyWakingKeepsInv<T>(s: State<T>, t: Tid, w: Tid)
    requires Inv(s) && Enabled(s, NotifyOne(t, Some(w)))
    ensures Inv(ApplyNotifyOne(s, t, Some(w)))
  {
    CountsUpdate(s.pcs, w, Wake(s.pcs[w]));
    CountsUpdate(s.pcs[w := Wake(s.pcs[w])], t, Idle);
    assert s.pcs[w := Wake(s.pcs[w])][t] == s.pcs[t];
  }

  /** The notification is lost, but then nobody was waiting for it. */
  lemma NotifyLostKeepsInv<T>(s: State<T>, t: Tid)
    requires Inv(s) && Enabled(s, NotifyOne(t, None))
    ensures Inv(ApplyNotifyOne(s, t, None))
  {
    CountsUpdate(s.pcs, t, Idle);
    CountPositive(s.pcs, SleepsOnNotEmpty);
    CountPositive(s.pcs, SleepsOnNotFull);
  }

  lemma NotifyAllKeepsInv<T>(s: State<T>, t: Tid)
    requires Inv(s) && Enabled(s, NotifyAll(t))
    ensures Inv(Apply(s, NotifyAll(t)))
  {
    var onNotEmpty := PcOf(s, t).OwesAll?;
    CountsWakeAll(s.pcs, onNotEmpty);
    CountsUpdate(WakeAll(s.pcs, onNotEmpty), t, if onNotEmpty then OwesAllNotFull else Idle);
  }

  lemma CallKeepsInv<T>(s: State<T>, t: Tid, op: Op<T>)
    requires Inv(s) && PcOf(s, t).Idle?
    ensures Inv(s.(pcs := s.pcs[t := Calling(op)]))
  {
    CountsUpdate(s.pcs, t, Calling(op));
  }

  /** A waiter that leaves its sleep unasked is as good as a woken one. */
  lemma UnblockingKeepsInv<T>(s: State<T>, t: Tid, timedOut: bool)
    requires Inv(s) && (PcOf(s, t).Asleep? || PcOf(s, t).Awake?) && (timedOut ==> PcOf(s, t).op.Timed())
    ensures Inv(s.(pcs := s.pcs[t := Awake(PcOf(s, t).op, timedOut)]))
  {
    CountsUpdate(s.pcs, t, Awake(PcOf(s, t).op, timedOut));
  }

  lemma StepKeepsInv<T>(s: State<T>, e: Event<T>)
    requires Inv(s) && Enabled(s, e)
    ensures Inv(Apply(s, e))
  {
    match e
    case Call(t, op) => CallKeepsInv(s, t, op);
    case Lock(t) => LockKeepsInv(s, t);
    case NotifyOne(t, woken) =>
      if woken.Some? {
        NotifyWakingKeepsInv(s, t, woken.value);
      } else {
        NotifyLostKeepsInv(s, t);
      }
    case NotifyAll(t) => NotifyAllKeepsInv(s, t);
    case Spurious(t) => UnblockingKeepsInv(s, t, false);
    case Timer(t) => UnblockingKeepsInv(s, t, true);
  }
}
