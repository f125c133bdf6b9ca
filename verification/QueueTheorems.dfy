/** What the blocking-queue protocol guarantees in every state of every run. */
module QueueTheorems {
  import opened Common
  import opened QueueProtocol
  import AtomicQueue

  datatype Run<T> = Run(states: seq<State<T>>, events: seq<Event<T>>)

  ghost predicate StepAt<T>(r: Run<T>, i: nat)
    requires i < |r.events| && |r.states| == |r.events| + 1
  {
    Enabled(r.states[i], r.events[i]) && r.states[i + 1] == Apply(r.states[i], r.events[i])
  }

  /** A path through the protocol: consecutive states linked by enabled steps. */
  ghost predicate IsPath<T>(r: Run<T>) {
    && |r.states| == |r.events| + 1
    && forall i: nat :: i < |r.events| ==> StepAt(r, i)
  }

  /** A run: a path from an empty open queue that nobody uses yet. */
  ghost predicate IsRun<T>(r: Run<T>) {
    IsPath(r) && Init(r.states[0])
  }

  lemma {:induction false} RunKeepsInv<T>(r: Run<T>, i: nat)
    requires IsRun(r) && i < |r.states|
    ensures Inv(r.states[i])
  {
    if i == 0 {
      InitEstablishesInv(r.states[0]);
    } else {
      RunKeepsInv(r, i - 1);
      assert StepAt(r, i - 1);
      StepKeepsInv(r.states[i - 1], r.events[i - 1]);
    }
  }

  // ----- no lost wake-up -----

  /** Nobody is on the way: no thread is awake and no notification is outstanding. */
  ghost predicate Quiet<T>(s: State<T>) {
    forall t :: t in s.pcs ==> s.pcs[t].Idle? || s.pcs[t].Calling? || s.pcs[t].Asleep?
  }

  ghost predicate SomeoneIs<T>(s: State<T>, f: Pc<T> -> bool) {
    exists t :: t in s.pcs && f(s.pcs[t])
  }

  /** The wake-up accounting, in every reachable state, for any number of threads. */
  lemma NoLostWakeup<T>(r: Run<T>, i: nat)
    requires IsRun(r) && i < |r.states|
    ensures var s := r.states[i];
      && (SomeoneIs(s, SleepsOnNotEmpty) ==>
            |s.items| <= Count(s.pcs, AwakeConsumer) + Count(s.pcs, PushUnnotified))
      && (SomeoneIs(s, SleepsOnNotFull) && !s.closed ==>
            s.cap - |s.items| <= Count(s.pcs, AwakeProducer) + Count(s.pcs, PopUnnotified))
      && (s.closed && SomeoneIs(s, SleepsOnNotEmpty) ==> SomeoneIs(s, CloserOwesNotEmpty))
      && (s.closed && SomeoneIs(s, SleepsOnNotFull) ==> SomeoneIs(s, CloserOwesNotFull))
  {
    var s := r.states[i];
    RunKeepsInv(r, i);
    CountPositive(s.pcs, SleepsOnNotEmpty);
    CountPositive(s.pcs, SleepsOnNotFull);
    CountPositive(s.pcs, CloserOwesNotEmpty);
    CountPositive(s.pcs, CloserOwesNotFull);
  }

  function Last<T>(r: Run<T>): State<T>
    requires |r.states| > 0
  {
    r.states[|r.states| - 1]
  }

  lemma Extended<T>(r: Run<T>, e: Event<T>) returns (longer: Run<T>)
    requires IsRun(r) && Enabled(Last(r), e)
    ensures IsRun(longer) && Last(longer) == Apply(Last(r), e)
  {
    longer := Run(r.states + [Apply(Last(r), e)], r.events + [e]);
    forall i: nat | i < |longer.events| ensures StepAt(longer, i) {
      if i < |r.events| {
        assert StepAt(r, i);
      }
    }
  }

  lemma CalledAndLocked<T>(r: Run<T>, t: Tid, op: Op<T>, s: State<T>) returns (longer: Run<T>)
    requires IsRun(r) && PcOf(Last(r), t).Idle?
    requires s == ApplyLock(Last(r).(pcs := Last(r).pcs[t := Calling(op)]), t)
    ensures IsRun(longer) && Last(longer) == s
  {
    longer := Extended(r, Call(t, op));
    longer := Extended(longer, Lock(t));
  }

  function Copies<T>(v: T, k: nat): (s: seq<T>)
    ensures |s| == k
  {
    seq(k, _ => v)
  }

  /** Thread 1 pushes the same value k times. */
  lemma {:induction false} Filled<T>(cap: nat, v: T, k: nat) returns (r: Run<T>)
    requires k <= cap && cap > 0
    ensures IsRun(r) && Last(r) == State(cap, Copies(v, k), false, map[1 := Idle], Copies(v, k), [])
  {
    if k == 0 {
      r := Run([State(cap, [], false, map[1 := Idle], [], [])], []);
      assert Copies(v, 0) == [];
    } else {
      var shorter := Filled(cap, v, k - 1);
      assert Copies(v, k - 1) + [v] == Copies(v, k);
      r := CalledAndLocked(shorter, 1, Push(v),
        State(cap, Copies(v, k), false, map[1 := OwesNotEmpty], Copies(v, k), []));
      r := Extended(r, NotifyOne(1, None));
    }
  }

  /** Thread 1 fills the queue; threads 2 and 3 go to sleep pushing. */
  lemma TwoSleepingProducers<T>(cap: nat, v: T) returns (r: Run<T>)
    requires cap > 0
    ensures IsRun(r)
    ensures Last(r) == State(cap, Copies(v, cap), false,
      map[1 := Idle, 2 := Asleep(Push(v)), 3 := Asleep(Push(v))], Copies(v, cap), [])
  {
    var full := Copies(v, cap);
    r := Filled(cap, v, cap);
    r := CalledAndLocked(r, 2, Push(v), State(cap, full, false, map[1 := Idle, 2 := Asleep(Push(v))], full, []));
    r := CalledAndLocked(r, 3, Push(v),
      State(cap, full, false, map[1 := Idle, 2 := Asleep(Push(v)), 3 := Asleep(Push(v))], full, []));
  }

  /** The bound on free slots does need the queue open, at every capacity: a producer woken
      after close() leaves without passing its wake-up on. After close() thread 5 pops and
      wakes thread 2, which is refused. Thread 3 still sleeps beside a free slot, and only the
      notify_all that the closer owes will wake it. */
  lemma ClosedQueueCanStrandProducer<T>(cap: nat, v: T) returns (r: Run<T>)
    requires cap > 0
    ensures IsRun(r) && Last(r).closed && PcOf(Last(r), 3) == Asleep(Push(v)) && PcOf(Last(r), 4).OwesAll?
    ensures Last(r).cap == cap && cap - |Last(r).items| == 1
    ensures Count(Last(r).pcs, AwakeProducer) == 0 && Count(Last(r).pcs, PopUnnotified) == 0
  {
    var p: Pc<T> := Asleep(Push(v));
    var full := Copies(v, cap);
    r := TwoSleepingProducers(cap, v);
    r := CalledAndLocked(r, 4, Close, State(cap, full, true, map[1 := Idle, 2 := p, 3 := p, 4 := OwesAll], full, []));
    r := CalledAndLocked(r, 5, Pop,
      State(cap, full[1..], true, map[1 := Idle, 2 := p, 3 := p, 4 := OwesAll, 5 := OwesNotFull], full, [v]));
    r := WokenAndRefused(r, v);
    assert Members(Last(r).pcs, AwakeProducer) == {};
    assert Members(Last(r).pcs, PopUnnotified) == {};
  }

  lemma WokenAndRefused<T>(r: Run<T>, v: T) returns (longer: Run<T>)
    requires IsRun(r) && Last(r).closed
    requires Last(r).pcs
      == map[1 := Idle, 2 := Asleep(Push(v)), 3 := Asleep(Push(v)), 4 := OwesAll, 5 := OwesNotFull]
    ensures IsRun(longer)
    ensures Last(longer)
      == Last(r).(pcs := map[1 := Idle, 2 := Idle, 3 := Asleep(Push(v)), 4 := OwesAll, 5 := Idle])
  {
    longer := Extended(r, NotifyOne(5, Some(2)));
    longer := Extended(longer, Lock(2));
  }

  lemma NoneOfThem<T>(s: State<T>, f: Pc<T> -> bool)
    requires !SomeoneIs(s, f)
    ensures Count(s.pcs, f) == 0
  {
    CountPositive(s.pcs, f);
  }

  /** Once everything has settled, whoever sleeps has a reason to: a consumer only on an
      empty open queue, a producer only on a full open queue, hence never both. */
  lemma SettledSleepersAreJustified<T>(r: Run<T>, i: nat)
    requires IsRun(r) && i < |r.states| && Quiet(r.states[i])
    ensures var s := r.states[i];
      && (SomeoneIs(s, SleepsOnNotEmpty) ==> s.items == [] && !s.closed)
      && (SomeoneIs(s, SleepsOnNotFull) ==> |s.items| == s.cap && !s.closed)
      && !(SomeoneIs(s, SleepsOnNotEmpty) && SomeoneIs(s, SleepsOnNotFull))
  {
    var s := r.states[i];
    RunKeepsInv(r, i);
    NoLostWakeup(r, i);
    NoneOfThem(s, AwakeConsumer);
    NoneOfThem(s, PushUnnotified);
    NoneOfThem(s, AwakeProducer);
    NoneOfThem(s, PopUnnotified);
  }

  // ----- bounded FIFO -----

  lemma StepOnlyAppends<T>(s: State<T>, e: Event<T>)
    requires Enabled(s, e)
    ensures s.accepted <= Apply(s, e).accepted && s.taken <= Apply(s, e).taken
    ensures s.closed ==> Apply(s, e).closed && Apply(s, e).accepted == s.accepted
    ensures Apply(s, e).cap == s.cap
  {
  }

  /** Popped values followed by the contents are the accepted values in acceptance order;
      both logs only grow, and closing freezes the accepted one. */
  lemma {:induction false} FifoOverRuns<T>(r: Run<T>, i: nat, j: nat)
    requires IsRun(r) && i <= j < |r.states|
    ensures r.states[j].accepted == r.states[j].taken + r.states[j].items
    ensures |r.states[j].items| <= r.states[j].cap == r.states[0].cap
    ensures r.states[i].accepted <= r.states[j].accepted
    ensures r.states[i].taken <= r.states[j].taken
    ensures r.states[i].closed ==> r.states[j].closed && r.states[j].accepted == r.states[i].accepted
  {
    RunKeepsInv(r, j);
    if j > 0 {
      assert StepAt(r, j - 1);
      StepOnlyAppends(r.states[j - 1], r.events[j - 1]);
      FifoOverRuns(r, if i < j then i else j - 1, j - 1);
    }
  }

  /** What a call reports back once it stops blocking, in every reachable state. */
  lemma WhatCallsReturn<T>(r: Run<T>, i: nat, t: Tid)
    requires IsRun(r) && i < |r.states| && AtMutex(PcOf(r.states[i], t))
    ensures var s, op := r.states[i], PcOf(r.states[i], t).op;
      match SectionOf(s, PcOf(s, t))
      case Took(v) => |s.taken| < |s.accepted| && v == s.accepted[|s.taken|] && op.Consumes()
      case Nothing => s.taken == s.accepted && op.Consumes() && (s.closed || op.PopFor?)
      case Refused => op.Produces() && (s.closed || (op.PushFor? && |s.items| == s.cap))
      case Stored => op.Produces() && !s.closed && |s.items| < s.cap
      case Blocked => !s.closed && (if op.Consumes() then s.items == [] else |s.items| == s.cap)
      case Closed => op.Close?
  {
    RunKeepsInv(r, i);
  }

  /** On a closed queue an idle thread can pop every remaining value, in order, and the
      next pop reports the end. */
  lemma {:induction false} DrainAfterClose<T>(s: State<T>, t: Tid) returns (p: Run<T>)
    requires Inv(s) && s.closed && PcOf(s, t).Idle?
    ensures IsPath(p) && p.states[0] == s
    ensures var end := p.states[|p.states| - 1];
      && end.items == [] && end.taken == s.taken + s.items && end.accepted == s.accepted
      && PcOf(end, t).Idle? && Section(end, Pop, false) == Nothing
    decreases |s.items|
  {
    if s.items == [] {
      p := Run([s], []);
      assert s.taken + s.items == s.taken;
    } else {
      var s1 := Apply(s, Call(t, Pop));
      var s2 := Apply(s1, Lock(t));
      var woken := if w :| w in s2.pcs && SleepsOnNotFull(s2.pcs[w]) then Some(w) else None;
      var s3 := Apply(s2, NotifyOne(t, woken));
      StepKeepsInv(s, Call(t, Pop));
      StepKeepsInv(s1, Lock(t));
      StepKeepsInv(s2, NotifyOne(t, woken));
      assert [s.items[0]] + s.items[1..] == s.items;
      var rest := DrainAfterClose(s3, t);
      p := Run([s, s1, s2] + rest.states, [Call(t, Pop), Lock(t), NotifyOne(t, woken)] + rest.events);
      forall i: nat | i < |p.events| ensures StepAt(p, i) {
        if i >= 3 {
          assert StepAt(rest, i - 3);
        }
      }
    }
  }

  // ----- refinement of the atomic queue -----

  function Abstract<T>(s: State<T>): AtomicQueue.Queue<T> {
    AtomicQueue.Queue(s.items, s.closed)
  }

  /** Seen from outside, the only step with an effect is the section under the mutex, and
      it is the atomic operation: it blocks exactly while the atomic operation is not ready. */
  lemma RefinesAtomicQueue<T>(s: State<T>, e: Event<T>)
    requires Inv(s) && Enabled(s, e)
    ensures !e.Lock? ==> Abstract(Apply(s, e)) == Abstract(s)
    ensures e.Lock? ==>
      var pc, q, after := PcOf(s, e.t), Abstract(s), Abstract(Apply(s, e));
      var late := pc.Awake? && pc.timedOut;
      match pc.op
      case Push(v) =>
        if AtomicQueue.PushReady(q, s.cap) then after == AtomicQueue.Push(q, v)
          && (SectionOf(s, pc).Stored? <==> !q.closed)
        else after == q && SectionOf(s, pc).Blocked?
      case PushFor(v) =>
        if AtomicQueue.PushReady(q, s.cap) then after == AtomicQueue.Push(q, v)
          && (SectionOf(s, pc).Stored? <==> !q.closed)
        else after == q && (SectionOf(s, pc).Blocked? <==> !late)
      case Pop =>
        if AtomicQueue.PopReady(q) then
          after == AtomicQueue.Pop(q)
          && (SectionOf(s, pc) == match AtomicQueue.Front(q) case Some(v) => Took(v) case None => Nothing)
        else after == q && SectionOf(s, pc).Blocked?
      case PopFor =>
        if AtomicQueue.PopReady(q) then
          after == AtomicQueue.Pop(q)
          && (SectionOf(s, pc) == match AtomicQueue.Front(q) case Some(v) => Took(v) case None => Nothing)
        else after == q && (SectionOf(s, pc).Blocked? <==> !late)
      case Close => after == AtomicQueue.Close(q)
  {
  }

  /** What the thread that took the mutex in this step reports to its caller, if anything. */
  function EffectOf<T>(s: State<T>, e: Event<T>): seq<AtomicQueue.Effect<T>>
  {
    if !e.Lock? || !AtMutex(PcOf(s, e.t)) then []
    else match SectionOf(s, PcOf(s, e.t))
      case Blocked => []
      case Stored => [AtomicQueue.Stored(PcOf(s, e.t).op.value)]
      case Refused => [AtomicQueue.NotStored(PcOf(s, e.t).op.value, PcOf(s, e.t).op.PushFor?)]
      case Took(v) => [AtomicQueue.Took(v)]
      case Nothing => [AtomicQueue.NothingTaken(PcOf(s, e.t).op.PopFor?)]
      case Closed => [AtomicQueue.Closed]
  }

  /** Every report made during the first `i` steps of a run, in order. */
  ghost function History<T>(r: Run<T>, i: nat): seq<AtomicQueue.Effect<T>>
    requires i < |r.states| == |r.events| + 1
  {
    if i == 0 then []
    else History(r, i - 1) + EffectOf(r.states[i - 1], r.events[i - 1])
  }

  lemma ReportIsLegal<T>(s: State<T>, e: Event<T>)
    requires Inv(s) && Enabled(s, e)
    ensures |EffectOf(s, e)| <= 1
    ensures EffectOf(s, e) == [] ==> Abstract(Apply(s, e)) == Abstract(s)
    ensures EffectOf(s, e) != [] ==>
      AtomicQueue.After(s.cap, Abstract(s), EffectOf(s, e)[0]) == Some(Abstract(Apply(s, e)))
  {
  }

  lemma ReplayAppend<T>(cap: nat, effects: seq<AtomicQueue.Effect<T>>, e: AtomicQueue.Effect<T>)
    requires AtomicQueue.Replay(cap, effects).Some?
    ensures AtomicQueue.Replay(cap, effects + [e])
         == AtomicQueue.After(cap, AtomicQueue.Replay(cap, effects).value, e)
  {
    assert (effects + [e])[..|effects|] == effects;
  }

  lemma NothingReplayed<T>(r: Run<T>)
    requires IsRun(r)
    ensures AtomicQueue.Replay(r.states[0].cap, History(r, 0)) == Some(Abstract(r.states[0]))
  {
  }

  lemma ReplayStep<T>(cap: nat, before: seq<AtomicQueue.Effect<T>>, step: seq<AtomicQueue.Effect<T>>,
      q: AtomicQueue.Queue<T>, q': AtomicQueue.Queue<T>)
    requires AtomicQueue.Replay(cap, before) == Some(q) && |step| <= 1
    requires step == [] ==> q' == q
    requires step != [] ==> AtomicQueue.After(cap, q, step[0]) == Some(q')
    ensures AtomicQueue.Replay(cap, before + step) == Some(q')
  {
    if step == [] {
      assert before + step == before;
    } else {
      assert step == [step[0]];
      ReplayAppend(cap, before, step[0]);
    }
  }

  lemma StepReportIsLegal<T>(r: Run<T>, i: nat)
    requires IsRun(r) && i < |r.events|
    ensures r.states[i].cap == r.states[0].cap
    ensures var effect := EffectOf(r.states[i], r.events[i]);
      && |effect| <= 1
      && (effect == [] ==> Abstract(r.states[i + 1]) == Abstract(r.states[i]))
      && (effect != [] ==>
            AtomicQueue.After(r.states[0].cap, Abstract(r.states[i]), effect[0]) == Some(Abstract(r.states[i + 1])))
  {
    RunKeepsInv(r, i);
    FifoOverRuns(r, 0, i);
    assert StepAt(r, i);
    ReportIsLegal(r.states[i], r.events[i]);
  }

  lemma OneMoreReport<T>(r: Run<T>, i: nat, before: seq<AtomicQueue.Effect<T>>)
    requires IsRun(r) && i < |r.events|
    requires AtomicQueue.Replay(r.states[0].cap, before) == Some(Abstract(r.states[i]))
    ensures AtomicQueue.Replay(r.states[0].cap, before + EffectOf(r.states[i], r.events[i]))
      == Some(Abstract(r.states[i + 1]))
  {
    StepReportIsLegal(r, i);
    ReplayStep(r.states[0].cap, before, EffectOf(r.states[i], r.events[i]), Abstract(r.states[i]),
      Abstract(r.states[i + 1]));
  }

  /** The queue is linearizable: in every run the reports, in the order in which the mutex
      was held, are legal for the atomic queue and lead it to the very contents reached. */
  lemma {:induction false} Linearizable<T>(r: Run<T>, i: nat)
    requires IsRun(r) && i < |r.states|
    ensures AtomicQueue.Replay(r.states[0].cap, History(r, i)) == Some(Abstract(r.states[i]))
  {
    if i == 0 {
      NothingReplayed(r);
    } else {
      Linearizable(r, i - 1);
      OneMoreReport(r, i - 1, History(r, i - 1));
    }
  }

  // ----- one report per call -----

  /** Thread t reports to its caller in step k. */
  ghost predicate Reports<T>(r: Run<T>, k: nat, t: Tid)
    requires k < |r.events| < |r.states|
  {
    r.events[k] == Lock(t) && EffectOf(r.states[k], r.events[k]) != []
  }

  /** The report is one the called operation may make. */
  ghost predicate Answers<T>(op: Op<T>, effect: AtomicQueue.Effect<T>) {
    match effect
    case Stored(v) => op.Produces() && v == op.value
    case NotStored(v, timed) => op.Produces() && v == op.value && timed == op.PushFor?
    case Took(_) => op.Consumes()
    case NothingTaken(timed) => op.Consumes() && timed == op.PopFor?
    case Closed => op.Close?
  }

  /** Of the steps after i and before j, thread t reports in step k, in answer to op, and in
      no other. */
  ghost predicate OnlyReport<T>(r: Run<T>, t: Tid, op: Op<T>, i: nat, j: nat, k: nat)
    requires |r.events| < |r.states| && j <= |r.events|
  {
    && i < k < j && Reports(r, k, t)
    && (forall x: nat :: i < x < j && Reports(r, x, t) ==> x == k)
    && EffectOf(r.states[k], r.events[k]) != [] && Answers(op, EffectOf(r.states[k], r.events[k])[0])
  }

  /** Called, and not yet through with the mutex section that decides. */
  predicate Undecided<T>(p: Pc<T>) { AtMutex(p) || p.Asleep? }

  /** What one step does to a thread inside a call: while it is undecided it keeps its
      operation and has not reported; it decides by reporting; after that it never reports. */
  lemma StepOfCall<T>(s: State<T>, e: Event<T>, t: Tid)
    requires Enabled(s, e) && !PcOf(s, t).Idle?
    ensures var p, p' := PcOf(s, t), PcOf(Apply(s, e), t);
      if e == Lock(t) && EffectOf(s, e) != [] then
        Undecided(p) && !Undecided(p') && Answers(p.op, EffectOf(s, e)[0])
      else Undecided(p') == Undecided(p) && (Undecided(p) ==> p'.op == p.op)
  {
  }

  /** From its call in step i up to any later state j before it has returned again, a thread
      has reported not at all while undecided, and exactly once from then on. */
  lemma {:induction false} ReportedSoFar<T>(r: Run<T>, t: Tid, op: Op<T>, i: nat, j: nat) returns (k: nat)
    requires IsPath(r) && i < j < |r.states| && r.events[i] == Call(t, op)
    requires forall x :: i < x < j ==> !PcOf(r.states[x], t).Idle?
    ensures Undecided(PcOf(r.states[j], t)) ==>
      PcOf(r.states[j], t).op == op && forall x: nat :: i < x < j ==> !Reports(r, x, t)
    ensures !Undecided(PcOf(r.states[j], t)) ==> OnlyReport(r, t, op, i, j, k)
    decreases j
  {
    assert StepAt(r, j - 1);
    if i + 1 < j {
      k := ReportedSoFar(r, t, op, i, j - 1);
      StepOfCall(r.states[j - 1], r.events[j - 1], t);
      if Reports(r, j - 1, t) {
        k := j - 1;
      }
    } else {
      k := 0;
    }
  }

  /** Every finished call has exactly one report, made after it was called and before it
      returned. Together with Linearizable: the reports replay on an atomic queue in an order
      that respects which calls returned before which others began. */
  lemma OneReportPerCall<T>(r: Run<T>, t: Tid, op: Op<T>, i: nat, j: nat) returns (k: nat)
    requires IsRun(r) && i < j < |r.states| && r.events[i] == Call(t, op)
    requires forall x :: i < x < j ==> !PcOf(r.states[x], t).Idle?
    requires PcOf(r.states[j], t).Idle?
    ensures OnlyReport(r, t, op, i, j, k)
  {
    k := ReportedSoFar(r, t, op, i, j);
  }
}
