/** What holds in every state of every run of the pipeline, whatever stop() interleaves with. */
module PipelineTheorems {
  import opened Common
  import opened PipelineModel
  import opened PipelineInvariant
  import Q = AtomicQueue

  /** The callback for window k (from zero), as a function of its own 128 samples only. */
  ghost function Expected(env: Env, accepted: seq<RawSample>, k: nat): InferenceResult
    requires ValidEnv(env) && k < WindowCount(accepted)
  {
    env.classify(ResultFor(env, k + 1, env.preprocess(accepted[128 * k..128 * k + 128]).value))
  }

  /** The five logits are the engine's output, cut to five or padded with zeros. */
  lemma LogitsAreTheOutput(output: Option<seq<real>>)
    ensures var logits := LogitsFrom(output);
      && |logits| == 5
      && (output.None? ==> logits == [0.0, 0.0, 0.0, 0.0, 0.0])
      && (output.Some? && |output.value| >= 5 ==> logits == output.value[..5])
      && (output.Some? && |output.value| < 5 ==>
            output.value <= logits && forall i :: |output.value| <= i < 5 ==> logits[i] == 0.0)
  {
  }

  lemma CallbackIsExpected(env: Env, s: State, k: nat)
    requires ValidEnv(env) && Inv(env, s) && k < |s.callbacks|
    ensures |s.callbacks| <= WindowCount(s.accepted)
    ensures s.callbacks[k] == Expected(env, s.accepted, k)
  {
    assert s.callbacks[k] == Classified(env, s.accepted)[0 + k];
    assert Window(s.accepted, k) == s.accepted[128 * k..128 * k + 128];
  }

  /** Order and prefix safety. The k-th callback is the classified result number k + 1 of
      samples 128k .. 128k + 127: no gap, no repeat, no reordering, in every reachable state. */
  lemma CallbacksArePrefix(env: Env, r: Run, i: nat)
    requires ValidEnv(env) && IsRun(env, r) && i < |r.states|
    ensures var s := r.states[i];
      && |s.callbacks| <= WindowCount(s.accepted)
      && forall k: nat :: k < |s.callbacks| ==> s.callbacks[k] == Expected(env, s.accepted, k)
  {
    var s := r.states[i];
    RunKeepsInv(env, r, i);
    forall k: nat | k < |s.callbacks| ensures s.callbacks[k] == Expected(env, s.accepted, k) {
      CallbackIsExpected(env, s, k);
    }
  }

  lemma StepOnlyAppends(env: Env, s: State, e: Event)
    requires Enabled(env, s, e)
    ensures s.accepted <= Apply(env, s, e).accepted && s.callbacks <= Apply(env, s, e).callbacks
    ensures s.raw.closed ==> Apply(env, s, e).raw.closed && Apply(env, s, e).accepted == s.accepted
  {
    match e
    case Submit(_) =>
    case Start => assert ApplyStart(s).raw == s.raw;
    case Stop => assert ApplyStop(s).raw in {s.raw, Q.Close(s.raw)};
    case Pre => assert ApplyPre(env, s).raw in {s.raw, Q.Pop(s.raw)};
    case Inf => assert ApplyInf(env, s).raw == s.raw;
    case Post => assert ApplyPost(env, s).raw == s.raw;
  }

  /** Later states only extend what was accepted and delivered; once stop() has closed the
      first queue, nothing more is accepted. */
  lemma {:induction false} LogsOnlyGrow(env: Env, r: Run, i: nat, j: nat)
    requires ValidEnv(env) && IsRun(env, r) && i <= j < |r.states|
    ensures r.states[i].accepted <= r.states[j].accepted
    ensures r.states[i].callbacks <= r.states[j].callbacks
    ensures r.states[i].raw.closed ==> r.states[j].raw.closed && r.states[j].accepted == r.states[i].accepted
  {
    if i < j {
      LogsOnlyGrow(env, r, i, j - 1);
      assert StepAt(env, r, j - 1);
      StepOnlyAppends(env, r.states[j - 1], r.events[j - 1]);
    }
  }

  /** Windows whose tensor is still on its way to a callback. */
  function WindowsInTransit(s: State): nat {
    |Outgoing(s.pre)| + |s.tensor.items| + |InHand(s.inf)| + |Outgoing(s.inf)| + |s.result.items| + |InHand(s.post)|
  }

  /** Where the accepted samples are, and what has been dropped. */
  ghost predicate Accounted(cap: nat, s: State) {
    && |s.accepted| == |s.raw.items| + |InHand(s.pre)| + |s.windowBuffer|
         + 128 * (WindowsInTransit(s) + |s.callbacks| + s.droppedTensors + s.droppedResults)
    && (!s.tensor.closed ==> s.droppedTensors == 0)
    && (!s.result.closed ==> s.droppedResults == 0)
    && |s.windowBuffer| < 128
    && |s.raw.items| <= cap && |s.tensor.items| <= cap && |s.result.items| <= cap
  }

  lemma AccountFor(env: Env, s: State)
    requires ValidEnv(env) && Inv(env, s)
    ensures Accounted(env.cap, s)
  {
  }

  /** Conservation. Every accepted sample is queued, in hand, in the window buffer, or part
      of exactly one window, and nothing is dropped while its queue is open. */
  lemma SamplesAreConserved(env: Env, r: Run, i: nat)
    requires ValidEnv(env) && IsRun(env, r) && i < |r.states|
    ensures Accounted(env.cap, r.states[i])
  {
    RunKeepsInv(env, r, i);
    AccountFor(env, r.states[i]);
  }

  // ----- progress -----

  predicate WorkerCanStep(env: Env, s: State) {
    Enabled(env, s, Pre) || Enabled(env, s, Inf) || Enabled(env, s, Post)
  }

  /** Every queue is empty, every worker waits for input and every window is delivered. */
  predicate NothingLeft(s: State) {
    && s.raw.items == [] && s.tensor.items == [] && s.result.items == []
    && s.pre.Popping? && s.inf.Popping? && s.post.Popping?
    && |s.callbacks| == WindowCount(s.accepted)
    && s.windowBuffer == s.accepted[128 * WindowCount(s.accepted)..]
  }

  lemma AllDelivered(env: Env, s: State)
    requires ValidEnv(env) && Inv(env, s) && s.owner == Started && !WorkerCanStep(env, s)
    ensures NothingLeft(s)
  {
    assert s.post.Popping?;
    assert s.inf.Popping?;
    assert s.pre.Popping?;
    assert TARGET_LENGTH * WindowsCut(s) == 128 * |s.callbacks|;
    assert |s.accepted| == 128 * |s.callbacks| + |s.windowBuffer|;
    assert WindowCount(s.accepted) == |s.callbacks|;
  }

  /** Deadlock freedom. While the pipeline runs, the workers can only all be blocked when
      every queue is empty and every complete window has been delivered. */
  lemma BlockedMeansDelivered(env: Env, r: Run, i: nat)
    requires ValidEnv(env) && IsRun(env, r) && i < |r.states|
    requires r.states[i].owner == Started && !WorkerCanStep(env, r.states[i])
    ensures NothingLeft(r.states[i])
  {
    RunKeepsInv(env, r, i);
    AllDelivered(env, r.states[i]);
  }

  // ----- the order of stop() -----

  /** The queues are closed from the front, no worker is told to stop before all are closed,
      and none before the worker in front of it has ended. */
  lemma StopInOrder(env: Env, r: Run, i: nat)
    requires ValidEnv(env) && IsRun(env, r) && i < |r.states|
    ensures var s := r.states[i];
      && (s.result.closed ==> s.tensor.closed) && (s.tensor.closed ==> s.raw.closed)
      && (!s.pre.NotStarted? && !s.preRunning ==> s.result.closed)
      && (!s.inf.NotStarted? && !s.infRunning ==> s.result.closed && (s.pre.Exited? || s.pre.NotStarted?))
      && (!s.post.NotStarted? && !s.postRunning ==> s.result.closed && (s.inf.Exited? || s.inf.NotStarted?))
  {
    RunKeepsInv(env, r, i);
  }

  // ----- after stop() -----

  ghost predicate AllEntered(s: State) {
    && s.pre.Exited? && s.pre.entered
    && s.inf.Exited? && s.inf.entered
    && s.post.Exited? && s.post.entered
  }

  /** When stop() has returned, no worker is left running, and the queue of every worker that
      ever entered its loop is empty. If all three did, the complete windows are exactly the
      delivered and the dropped ones, so everything was delivered if and only if nothing was
      dropped at a closed queue. */
  lemma StoppedMeansDrained(env: Env, r: Run, i: nat)
    requires ValidEnv(env) && IsRun(env, r) && i < |r.states| && r.states[i].owner == Stopped
    ensures var s := r.states[i];
      && (s.pre.Exited? || s.pre.NotStarted?) && (s.inf.Exited? || s.inf.NotStarted?)
        && (s.post.Exited? || s.post.NotStarted?)
      && (s.pre.Exited? && s.pre.entered ==> s.raw.items == [])
      && (s.inf.Exited? && s.inf.entered ==> s.tensor.items == [])
      && (s.post.Exited? && s.post.entered ==> s.result.items == [])
      && (AllEntered(s) ==>
            && WindowCount(s.accepted) == |s.callbacks| + s.droppedTensors + s.droppedResults
            && (|s.callbacks| == WindowCount(s.accepted) <==> s.droppedTensors == 0 && s.droppedResults == 0))
  {
    var s := r.states[i];
    RunKeepsInv(env, r, i);
    if AllEntered(s) {
      var windows := |s.callbacks| + s.droppedTensors + s.droppedResults;
      assert WindowsCut(s) == windows;
      assert |s.accepted| == 128 * windows + |s.windowBuffer|;
    }
  }
}
