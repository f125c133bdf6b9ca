/**
 Shutdown terminates. From the moment stop() has closed the first queue there is a measure
 that no step increases; the only steps that do not decrease it are refused submits and a
 running worker spinning on its closed, empty queue. Under weak fairness stop() returns.
 */
module PipelineShutdown {
  import opened Common
  import opened PipelineModel
  import opened PipelineInvariant
  import Q = AtomicQueue

  /** stop() has begun: the first queue is closed. */
  predicate Stopping(s: State) {
    Rank(s.owner) >= 4
  }

  function WorkerWeight<A, B>(pc: Pc<A, B>, running: bool, got: nat, sending: nat): nat {
    match pc
    case NotStarted => 0
    case Exited(_) => 0
    case Check(entered) => if !running then 1 else if entered then 2 else 3
    case Popping => 2
    case Got(_) => 2 + got
    case Sending(_) => 2 + sending
  }

  function ItemWeight(s: State): nat {
    3 * |s.raw.items| + |s.windowBuffer| + 7 * |s.tensor.items| + 4 * |s.result.items|
  }

  function PreWeight(s: State): nat { WorkerWeight(s.pre, s.preRunning, 2, 8) }
  function InfWeight(s: State): nat { WorkerWeight(s.inf, s.infRunning, 6, 5) }
  function PostWeight(s: State): nat { WorkerWeight(s.post, s.postRunning, 3, 0) }

  function Measure(s: State): nat {
    12 - Rank(s.owner) + ItemWeight(s) + PreWeight(s) + InfWeight(s) + PostWeight(s)
  }

  /** A worker that is still told to run finds its queue closed and empty, leaves its loop,
      and enters it again. */
  predicate WorkerSpins<A, B>(pc: Pc<A, B>, running: bool, q: Q.Queue<A>) {
    running && ((pc.Check? && pc.entered) || (pc.Popping? && q.closed && q.items == []))
  }

  predicate Spins(s: State, e: Event) {
    match e
    case Submit(_) => true
    case Pre => WorkerSpins(s.pre, s.preRunning, s.raw)
    case Inf => WorkerSpins(s.inf, s.infRunning, s.tensor)
    case Post => WorkerSpins(s.post, s.postRunning, s.result)
    case _ => false
  }

  // ----- every step against the measure -----

  lemma PreHeadDecreases(env: Env, s: State)
    requires ControlInv(s) && Enabled(env, s, Pre) && (s.pre.Check? || s.pre.Popping?)
    ensures ApplyPre(env, s).owner == s.owner
    ensures Spins(s, Pre) ==> Measure(ApplyPre(env, s)) == Measure(s)
    ensures !Spins(s, Pre) ==> Measure(ApplyPre(env, s)) < Measure(s)
  {
  }

  lemma PreItemDecreases(env: Env, s: State)
    requires ControlInv(s) && |s.windowBuffer| < TARGET_LENGTH && Enabled(env, s, Pre)
    requires s.pre.Got? || s.pre.Sending?
    ensures ApplyPre(env, s).owner == s.owner
    ensures Measure(ApplyPre(env, s)) < Measure(s)
  {
  }

  lemma InfHeadDecreases(env: Env, s: State)
    requires ControlInv(s) && Enabled(env, s, Inf) && (s.inf.Check? || s.inf.Popping?)
    ensures ApplyInf(env, s).owner == s.owner
    ensures Spins(s, Inf) ==> Measure(ApplyInf(env, s)) == Measure(s)
    ensures !Spins(s, Inf) ==> Measure(ApplyInf(env, s)) < Measure(s)
  {
  }

  lemma InfItemDecreases(env: Env, s: State)
    requires ControlInv(s) && Enabled(env, s, Inf) && (s.inf.Got? || s.inf.Sending?)
    ensures ApplyInf(env, s).owner == s.owner
    ensures Measure(ApplyInf(env, s)) < Measure(s)
  {
  }

  lemma PostDecreases(env: Env, s: State)
    requires ControlInv(s) && Enabled(env, s, Post)
    ensures ApplyPost(env, s).owner == s.owner
    ensures Spins(s, Post) ==> Measure(ApplyPost(env, s)) == Measure(s)
    ensures !Spins(s, Post) ==> Measure(ApplyPost(env, s)) < Measure(s)
  {
  }

  lemma StopDecreases(s: State)
    requires ControlInv(s) && StopEnabled(s) && Stopping(s)
    ensures Stopping(ApplyStop(s)) && Measure(ApplyStop(s)) < Measure(s)
  {
  }

  lemma WorkerDecreases(env: Env, s: State, e: Event)
    requires ControlInv(s) && |s.windowBuffer| < TARGET_LENGTH && Enabled(env, s, e) && (e.Pre? || e.Inf? || e.Post?)
    ensures Apply(env, s, e).owner == s.owner
    ensures Spins(s, e) ==> Measure(Apply(env, s, e)) == Measure(s)
    ensures !Spins(s, e) ==> Measure(Apply(env, s, e)) < Measure(s)
  {
    match e
    case Pre =>
      if s.pre.Check? || s.pre.Popping? {
        PreHeadDecreases(env, s);
      } else {
        PreItemDecreases(env, s);
      }
    case Inf =>
      if s.inf.Check? || s.inf.Popping? {
        InfHeadDecreases(env, s);
      } else {
        InfItemDecreases(env, s);
      }
    case Post => PostDecreases(env, s);
  }

  /** While stop() runs, every step but a spin strictly decreases the measure. */
  lemma StepsDecrease(env: Env, s: State, e: Event)
    requires ValidEnv(env) && Inv(env, s) && Enabled(env, s, e) && Stopping(s)
    ensures Stopping(Apply(env, s, e))
    ensures Spins(s, e) ==> Measure(Apply(env, s, e)) == Measure(s)
    ensures !Spins(s, e) ==> Measure(Apply(env, s, e)) < Measure(s)
  {
    if e.Submit? {
      assert Apply(env, s, e) == s;
    } else if e.Stop? {
      StopDecreases(s);
    } else {
      WorkerDecreases(env, s, e);
    }
  }

  /** Before stop() the workers never spin, so without new samples they do bounded work. */
  lemma WorkersDoBoundedWork(env: Env, s: State, e: Event)
    requires ValidEnv(env) && Inv(env, s) && Enabled(env, s, e) && (e.Pre? || e.Inf? || e.Post?)
    requires !s.raw.closed
    ensures Measure(Apply(env, s, e)) < Measure(s)
  {
    WorkerDecreases(env, s, e);
  }

  // ----- somebody can always make progress -----

  /** The owner if it can move, otherwise the worker it is waiting for. */
  function Helpful(s: State): Event {
    if StopEnabled(s) then Stop
    else match s.owner
      case JoiningPre => Pre
      case JoiningInf => Inf
      case _ => Post
  }

  lemma HelpfulCanStep(env: Env, s: State)
    requires ValidEnv(env) && Inv(env, s) && Stopping(s) && s.owner != Stopped
    ensures Enabled(env, s, Helpful(s)) && !Spins(s, Helpful(s))
  {
  }

  lemma SpinsKeepHelpful(env: Env, s: State, e: Event)
    requires ValidEnv(env) && Inv(env, s) && Enabled(env, s, e) && Stopping(s) && Spins(s, e)
    ensures Helpful(Apply(env, s, e)) == Helpful(s) && Apply(env, s, e).owner == s.owner
  {
  }

  // ----- infinite behaviours -----

  /** At any moment something happens, or nothing: a behaviour may come to rest. */
  ghost predicate StepOf(env: Env, st: nat -> State, ev: nat -> Option<Event>, n: nat) {
    match ev(n)
    case None => st(n + 1) == st(n)
    case Some(e) => Enabled(env, st(n), e) && st(n + 1) == Apply(env, st(n), e)
  }

  ghost predicate Behaviour(env: Env, st: nat -> State, ev: nat -> Option<Event>) {
    Init(st(0)) && forall n: nat :: StepOf(env, st, ev, n)
  }

  ghost predicate Served(env: Env, st: nat -> State, ev: nat -> Option<Event>, a: Event, m: nat) {
    ev(m) == Some(a) || !Enabled(env, st(m), a)
  }

  ghost predicate ServedFrom(env: Env, st: nat -> State, ev: nat -> Option<Event>, a: Event, n: nat) {
    exists m: nat :: n <= m && Served(env, st, ev, a, m)
  }

  /** Weak fairness: an actor that stays able to step does step. */
  ghost predicate Fair(env: Env, st: nat -> State, ev: nat -> Option<Event>, a: Event) {
    forall n: nat :: ServedFrom(env, st, ev, a, n)
  }

  ghost predicate FairToAll(env: Env, st: nat -> State, ev: nat -> Option<Event>) {
    Fair(env, st, ev, Stop) && Fair(env, st, ev, Pre) && Fair(env, st, ev, Inf) && Fair(env, st, ev, Post)
  }

  lemma {:induction false} BehaviourKeepsInv(env: Env, st: nat -> State, ev: nat -> Option<Event>, n: nat)
    requires ValidEnv(env) && Behaviour(env, st, ev)
    ensures Inv(env, st(n))
  {
    if n == 0 {
      InitEstablishesInv(env, st(0));
    } else {
      BehaviourKeepsInv(env, st, ev, n - 1);
      assert StepOf(env, st, ev, n - 1);
      if ev(n - 1).Some? {
        StepKeepsInv(env, st(n - 1), ev(n - 1).value);
      }
    }
  }

  lemma StepKeepsHelpful(env: Env, st: nat -> State, ev: nat -> Option<Event>, m: nat)
    requires ValidEnv(env) && Behaviour(env, st, ev) && Stopping(st(m))
    ensures Stopping(st(m + 1)) && Measure(st(m + 1)) <= Measure(st(m))
    ensures Measure(st(m + 1)) == Measure(st(m)) ==>
      Helpful(st(m + 1)) == Helpful(st(m)) && st(m + 1).owner == st(m).owner
  {
    assert StepOf(env, st, ev, m);
    BehaviourKeepsInv(env, st, ev, m);
    if ev(m).Some? {
      StepsDecrease(env, st(m), ev(m).value);
      if Spins(st(m), ev(m).value) {
        SpinsKeepHelpful(env, st(m), ev(m).value);
      }
    }
  }

  /** Until the measure drops, the helpful actor stays the same. */
  lemma {:induction false} HelpfulUntilProgress(env: Env, st: nat -> State, ev: nat -> Option<Event>, n: nat, m: nat)
      returns (progress: bool, j: nat)
    requires ValidEnv(env) && Behaviour(env, st, ev)
    requires n <= m && Stopping(st(n)) && st(n).owner != Stopped
    ensures progress ==> n < j <= m && Stopping(st(j)) && Measure(st(j)) < Measure(st(n))
    ensures !progress ==>
      && Stopping(st(m)) && st(m).owner == st(n).owner
      && Helpful(st(m)) == Helpful(st(n)) && Measure(st(m)) == Measure(st(n))
    decreases m - n
  {
    progress, j := false, n;
    if n < m {
      progress, j := HelpfulUntilProgress(env, st, ev, n, m - 1);
      if !progress {
        StepKeepsHelpful(env, st, ev, m - 1);
        if Measure(st(m)) < Measure(st(m - 1)) {
          progress, j := true, m;
        }
      }
    }
  }

  /** A helpful actor that is served makes progress: it is able to step, so it has stepped. */
  lemma ServedHelpfulProgresses(env: Env, st: nat -> State, ev: nat -> Option<Event>, m: nat)
    requires ValidEnv(env) && Behaviour(env, st, ev)
    requires Stopping(st(m)) && st(m).owner != Stopped && Served(env, st, ev, Helpful(st(m)), m)
    ensures Stopping(st(m + 1)) && Measure(st(m + 1)) < Measure(st(m))
  {
    BehaviourKeepsInv(env, st, ev, m);
    HelpfulCanStep(env, st(m));
    assert StepOf(env, st, ev, m);
    StepsDecrease(env, st(m), Helpful(st(m)));
  }

  /** From any state inside stop(), the measure drops later on. */
  lemma ProgressHappens(env: Env, st: nat -> State, ev: nat -> Option<Event>, n: nat) returns (j: nat)
    requires ValidEnv(env) && Behaviour(env, st, ev) && FairToAll(env, st, ev)
    requires Stopping(st(n)) && st(n).owner != Stopped
    ensures n < j && Stopping(st(j)) && Measure(st(j)) < Measure(st(n))
  {
    var a := Helpful(st(n));
    assert Fair(env, st, ev, a);
    assert ServedFrom(env, st, ev, a, n);
    var m: nat :| n <= m && Served(env, st, ev, a, m);
    var progress;
    progress, j := HelpfulUntilProgress(env, st, ev, n, m);
    if !progress {
      ServedHelpfulProgresses(env, st, ev, m);
      j := m + 1;
    }
  }

  /** stop() returns: in every fair behaviour, once it has begun it ends, whatever is still
      queued or in hand, and however many submitters keep calling. */
  lemma {:induction false} StopReturns(env: Env, st: nat -> State, ev: nat -> Option<Event>, n: nat) returns (end: nat)
    requires ValidEnv(env) && Behaviour(env, st, ev) && FairToAll(env, st, ev)
    requires Stopping(st(n))
    ensures n <= end && st(end).owner == Stopped
    decreases Measure(st(n))
  {
    if st(n).owner == Stopped {
      end := n;
    } else {
      var j := ProgressHappens(env, st, ev, n);
      end := StopReturns(env, st, ev, j);
    }
  }
}
