/**
 Delivery. While stop() does not begin, every complete window of accepted samples reaches the
 callback in every weakly fair behaviour, however many samples keep arriving.
 */
module PipelineDelivery {
  import opened Common
  import opened PipelineModel
  import opened PipelineInvariant
  import opened PipelineTheorems
  import opened PipelineShutdown

  predicate IsWorker(e: Event) { e.Pre? || e.Inf? || e.Post? }

  ghost predicate FairToWorkers(env: Env, st: nat -> State, ev: nat -> Option<Event>) {
    Fair(env, st, ev, Pre) && Fair(env, st, ev, Inf) && Fair(env, st, ev, Post)
  }

  ghost predicate NeverStops(st: nat -> State) {
    forall n: nat :: !Stopping(st(n))
  }

  /** The work done on the accepted samples: what they came in with less what is left. */
  function Done(s: State): int {
    3 * |s.accepted| - Measure(s)
  }

  /** What can have been done with at most k windows delivered: the queues are bounded. */
  function DoneAtMost(cap: nat, k: nat): int {
    3 * (128 + 128 * (2 * cap + 4 + k))
  }

  lemma DoneIsBounded(env: Env, s: State, k: nat)
    requires ValidEnv(env) && Inv(env, s) && s.owner == Started && |s.callbacks| <= k
    ensures Done(s) <= DoneAtMost(env.cap, k)
  {
    AccountFor(env, s);
    assert WindowsInTransit(s) <= 2 * env.cap + 4;
    assert Measure(s) >= 3 * |s.raw.items|;
  }

  /** While the pipeline runs, a worker step does work and no step undoes any. */
  lemma StepsDoWork(env: Env, s: State, e: Event)
    requires ValidEnv(env) && Inv(env, s) && s.owner == Started && Enabled(env, s, e)
    requires !Stopping(Apply(env, s, e))
    ensures Apply(env, s, e).owner == Started && s.accepted <= Apply(env, s, e).accepted
    ensures Done(Apply(env, s, e)) >= Done(s)
    ensures IsWorker(e) ==> Done(Apply(env, s, e)) > Done(s)
  {
    StepOnlyAppends(env, s, e);
    if IsWorker(e) {
      WorkersDoBoundedWork(env, s, e);
      WorkerDecreases(env, s, e);
      WorkerAcceptsNothing(env, s, e);
    }
  }

  lemma WorkerAcceptsNothing(env: Env, s: State, e: Event)
    requires Enabled(env, s, e) && IsWorker(e)
    ensures Apply(env, s, e).accepted == s.accepted
  {
    match e
    case Pre => assert ApplyPre(env, s).accepted == s.accepted;
    case Inf => assert ApplyInf(env, s).accepted == s.accepted;
    case Post => assert ApplyPost(env, s).accepted == s.accepted;
  }

  /** A worker that can step still can after anybody else's step: it alone pops from its
      queue and pushes to the next one. */
  lemma StaysAble(env: Env, s: State, e: Event, w: Event)
    requires ValidEnv(env) && Inv(env, s) && s.owner == Started
    requires IsWorker(w) && Enabled(env, s, w) && Enabled(env, s, e) && e != w && !Stopping(Apply(env, s, e))
    ensures Enabled(env, Apply(env, s, e), w)
  {
    match e
    case Submit(_) =>
    case Pre => assert ApplyPre(env, s).inf == s.inf && ApplyPre(env, s).post == s.post;
    case Inf => assert ApplyInf(env, s).pre == s.pre && ApplyInf(env, s).post == s.post;
    case Post => assert ApplyPost(env, s).pre == s.pre && ApplyPost(env, s).inf == s.inf;
    case Stop =>
  }

  /** One moment of a running pipeline. */
  lemma MomentDoesWork(env: Env, st: nat -> State, ev: nat -> Option<Event>, m: nat)
    requires ValidEnv(env) && Behaviour(env, st, ev) && NeverStops(st) && st(m).owner == Started
    ensures st(m + 1).owner == Started && Done(st(m + 1)) >= Done(st(m))
    ensures ev(m).Some? && IsWorker(ev(m).value) ==> Done(st(m + 1)) > Done(st(m))
  {
    assert StepOf(env, st, ev, m);
    assert !Stopping(st(m + 1));
    if ev(m).Some? {
      BehaviourKeepsInv(env, st, ev, m);
      StepsDoWork(env, st(m), ev(m).value);
    }
  }

  lemma MomentKeepsAble(env: Env, st: nat -> State, ev: nat -> Option<Event>, m: nat, w: Event)
    requires ValidEnv(env) && Behaviour(env, st, ev) && NeverStops(st) && st(m).owner == Started
    requires IsWorker(w) && Enabled(env, st(m), w) && ev(m) != Some(w)
    ensures Enabled(env, st(m + 1), w)
  {
    assert StepOf(env, st, ev, m);
    assert !Stopping(st(m + 1));
    if ev(m).Some? {
      BehaviourKeepsInv(env, st, ev, m);
      StaysAble(env, st(m), ev(m).value, w);
    }
  }

  /** Until some work is done, a worker that can step stays able to. */
  lemma {:induction false} AbleUntilWork(env: Env, st: nat -> State, ev: nat -> Option<Event>, n: nat, m: nat, w: Event)
      returns (work: bool, j: nat)
    requires ValidEnv(env) && Behaviour(env, st, ev) && NeverStops(st) && n <= m
    requires st(n).owner == Started && IsWorker(w) && Enabled(env, st(n), w)
    ensures work ==> n < j <= m && st(j).owner == Started && Done(st(j)) > Done(st(n))
    ensures !work ==> st(m).owner == Started && Enabled(env, st(m), w) && Done(st(m)) >= Done(st(n))
    decreases m - n
  {
    work, j := false, n;
    if n < m {
      work, j := AbleUntilWork(env, st, ev, n, m - 1, w);
      if !work {
        MomentDoesWork(env, st, ev, m - 1);
        if ev(m - 1) == Some(w) {
          work, j := true, m;
        } else {
          MomentKeepsAble(env, st, ev, m - 1, w);
        }
      }
    }
  }

  lemma WorkHappens(env: Env, st: nat -> State, ev: nat -> Option<Event>, n: nat) returns (j: nat)
    requires ValidEnv(env) && Behaviour(env, st, ev) && NeverStops(st) && FairToWorkers(env, st, ev)
    requires st(n).owner == Started && WorkerCanStep(env, st(n))
    ensures n < j && st(j).owner == Started && Done(st(j)) > Done(st(n))
  {
    var w := if Enabled(env, st(n), Pre) then Pre else if Enabled(env, st(n), Inf) then Inf else Post;
    assert ServedFrom(env, st, ev, w, n);
    var m: nat :| n <= m && Served(env, st, ev, w, m);
    var work;
    work, j := AbleUntilWork(env, st, ev, n, m, w);
    if !work {
      MomentDoesWork(env, st, ev, m);
      j := m + 1;
    }
  }

  lemma {:induction false} AcceptedOnlyGrows(env: Env, st: nat -> State, ev: nat -> Option<Event>, n: nat, m: nat)
    requires Behaviour(env, st, ev) && n <= m
    ensures st(n).accepted <= st(m).accepted
    decreases m - n
  {
    if n < m {
      AcceptedOnlyGrows(env, st, ev, n, m - 1);
      assert StepOf(env, st, ev, m - 1);
      if ev(m - 1).Some? {
        StepOnlyAppends(env, st(m - 1), ev(m - 1).value);
      }
    }
  }

  lemma {:induction false} Delivered(env: Env, st: nat -> State, ev: nat -> Option<Event>, n: nat,
      k: nat) returns (m: nat)
    requires ValidEnv(env) && Behaviour(env, st, ev) && NeverStops(st) && FairToWorkers(env, st, ev)
    requires st(n).owner == Started && k < WindowCount(st(n).accepted)
    ensures n <= m && k < |st(m).callbacks|
    decreases DoneAtMost(env.cap, k) - Done(st(n))
  {
    BehaviourKeepsInv(env, st, ev, n);
    m := n;
    if |st(n).callbacks| <= k {
      DoneIsBounded(env, st(n), k);
      if !WorkerCanStep(env, st(n)) {
        AllDelivered(env, st(n));
        assert false;
      }
      var j := WorkHappens(env, st, ev, n);
      AcceptedOnlyGrows(env, st, ev, n, j);
      m := Delivered(env, st, ev, j, k);
    }
  }

  /** Every complete window is delivered: once window k has been accepted by a running
      pipeline that is never told to stop, its own result reaches the callback. */
  lemma EveryWindowIsDelivered(env: Env, st: nat -> State, ev: nat -> Option<Event>, n: nat, k: nat) returns (m: nat)
    requires ValidEnv(env) && Behaviour(env, st, ev) && NeverStops(st) && FairToWorkers(env, st, ev)
    requires st(n).owner == Started && k < WindowCount(st(n).accepted)
    ensures n <= m && k < |st(m).callbacks|
    ensures st(m).callbacks[k] == Expected(env, st(n).accepted, k)
  {
    m := Delivered(env, st, ev, n, k);
    BehaviourKeepsInv(env, st, ev, m);
    CallbackIsExpected(env, st(m), k);
    AcceptedOnlyGrows(env, st, ev, n, m);
    assert st(m).accepted[128 * k..128 * k + 128] == st(n).accepted[128 * k..128 * k + 128];
  }
}
