/**
 The three-stage pipeline as a transition system: one owner calling start() and stop(),
 any number of threads calling submit(), and three workers that run
 `while (running_) loop()`. Queue operations are the atomic ones of AtomicQueue, which
 QueueTheorems justifies. `accepted`, `callbacks` and the two drop counters are logs.
 */
module PipelineModel {
  import opened Common
  import Q = AtomicQueue

  /** What the pipeline is built from. Inference is foreign code: it may fail, and it may
      answer differently on every call, hence the call number. */
  datatype Env = Env(
    cap: nat,
    preprocess: seq<RawSample> -> Option<ModelInput>,
    infer: (nat, ModelInput) -> Option<seq<real>>,
    classify: InferenceResult -> InferenceResult)

  /** Where a worker thread is. `entered` remembers whether it ever called its loop. */
  datatype Pc<+A, +B> =
    | NotStarted
    | Check(entered: bool)    // at `while (running_)`
    | Popping
    | Got(item: A)            // popped an item, has not used it yet
    | Sending(output: B)      // at the push into the next queue
    | Exited(entered: bool)

  /** How far the owner is with start() and stop(). */
  datatype Owner =
    | Created | StartedPre | StartedInf | Started
    | ClosedRaw | ClosedTensor | ClosedAll
    | JoiningPre | PreDone | JoiningInf | InfDone | JoiningPost | Stopped

  datatype State = State(
    raw: Q.Queue<RawSample>,
    tensor: Q.Queue<ModelInput>,
    result: Q.Queue<InferenceResult>,
    pre: Pc<RawSample, ModelInput>,
    inf: Pc<ModelInput, InferenceResult>,
    post: Pc<InferenceResult, ()>,
    preRunning: bool,
    infRunning: bool,
    postRunning: bool,
    windowBuffer: seq<RawSample>,
    windowId: nat,
    owner: Owner,
    accepted: seq<RawSample>,
    callbacks: seq<InferenceResult>,
    droppedTensors: nat,
    droppedResults: nat)

  datatype Event = Submit(sample: RawSample) | Start | Stop | Pre | Inf | Post

  // ----- the data the stages compute -----

  /** The logits array: what the engine wrote, cut or zero-padded to the class count. */
  function LogitsFrom(output: Option<seq<real>>): seq<real> {
    seq(CLASS_COUNT, i => if output.Some? && 0 <= i < |output.value| then output.value[i] else 0.0)
  }

  function ResultFor(env: Env, id: nat, input: ModelInput): InferenceResult {
    InferenceResult(id, LogitsFrom(env.infer(id, input)), seq(CLASS_COUNT, _ => 0.0), -1, 0.0)
  }

  // ----- steps -----

  predicate Enabled(env: Env, s: State, e: Event) {
    match e
    case Submit(_) => Q.PushReady(s.raw, env.cap)
    case Start => s.owner in {Created, StartedPre, StartedInf}
    case Stop => StopEnabled(s)
    case Pre => WorkerEnabled(s.pre, Q.PopReady(s.raw), Q.PushReady(s.tensor, env.cap))
    case Inf => WorkerEnabled(s.inf, Q.PopReady(s.tensor), Q.PushReady(s.result, env.cap))
    case Post => WorkerEnabled(s.post, Q.PopReady(s.result), false)
  }

  predicate WorkerEnabled<A, B>(pc: Pc<A, B>, popReady: bool, pushReady: bool) {
    match pc
    case Check(_) => true
    case Popping => popReady
    case Got(_) => true
    case Sending(_) => pushReady
    case _ => false
  }

  /** stop() may begin before start() or after it; a join waits for its thread. */
  predicate StopEnabled(s: State) {
    match s.owner
    case StartedPre => false
    case StartedInf => false
    case JoiningPre => s.pre.Exited?
    case JoiningInf => s.inf.Exited?
    case JoiningPost => s.post.Exited?
    case Stopped => false
    case _ => true
  }

  function Apply(env: Env, s: State, e: Event): State
    requires Enabled(env, s, e)
  {
    match e
    case Submit(x) => if s.raw.closed then s else s.(raw := Q.Push(s.raw, x), accepted := s.accepted + [x])
    case Start => ApplyStart(s)
    case Stop => ApplyStop(s)
    case Pre => ApplyPre(env, s)
    case Inf => ApplyInf(env, s)
    case Post => ApplyPost(env, s)
  }

  /** Worker::start spawns a thread unless the flag was already up. */
  function Spawned<A, B>(pc: Pc<A, B>, running: bool): Pc<A, B> {
    if running then pc else Check(false)
  }

  function ApplyStart(s: State): State
    requires s.owner in {Created, StartedPre, StartedInf}
  {
    match s.owner
    case Created => s.(preRunning := true, pre := Spawned(s.pre, s.preRunning), owner := StartedPre)
    case StartedPre => s.(infRunning := true, inf := Spawned(s.inf, s.infRunning), owner := StartedInf)
    case _ => s.(postRunning := true, post := Spawned(s.post, s.postRunning), owner := Started)
  }

  /** Close the queues from the front, then stop and join the workers in the same order.
      A worker that is not running is skipped. */
  function ApplyStop(s: State): State
    requires StopEnabled(s)
  {
    match s.owner
    case Created => s.(raw := Q.Close(s.raw), owner := ClosedRaw)
    case Started => s.(raw := Q.Close(s.raw), owner := ClosedRaw)
    case ClosedRaw => s.(tensor := Q.Close(s.tensor), owner := ClosedTensor)
    case ClosedTensor => s.(result := Q.Close(s.result), owner := ClosedAll)
    case ClosedAll => if s.preRunning then s.(preRunning := false, owner := JoiningPre) else s.(owner := PreDone)
    case JoiningPre => s.(owner := PreDone)
    case PreDone => if s.infRunning then s.(infRunning := false, owner := JoiningInf) else s.(owner := InfDone)
    case JoiningInf => s.(owner := InfDone)
    case InfDone => if s.postRunning then s.(postRunning := false, owner := JoiningPost) else s.(owner := Stopped)
    case JoiningPost => s.(owner := Stopped)
  }

  /** The head of every worker: the loop guard and the pop. A pop that finds the queue
      closed and empty leaves the loop function and returns to the guard. */
  function Head<A, B>(pc: Pc<A, B>, running: bool, q: Q.Queue<A>): Pc<A, B>
    requires pc.Check? || pc.Popping?
  {
    if pc.Check? then (if running then Popping else Exited(pc.entered))
    else match Q.Front(q)
      case Some(x) => Got(x)
      case None => Check(true)
  }

  function ApplyPre(env: Env, s: State): State
    requires Enabled(env, s, Pre)
  {
    match s.pre
    case Check(_) => s.(pre := Head(s.pre, s.preRunning, s.raw))
    case Popping => s.(pre := Head(s.pre, s.preRunning, s.raw), raw := Q.Pop(s.raw))
    case Got(x) =>
      var window := s.windowBuffer + [x];
      if |window| < TARGET_LENGTH then s.(windowBuffer := window, pre := Popping)
      else
        (match env.preprocess(window)
         case Some(input) => s.(windowBuffer := [], pre := Sending(input))
         case None => s.(windowBuffer := [], pre := Popping))
    case Sending(input) =>
      s.(tensor := Q.Push(s.tensor, input), pre := Popping,
         droppedTensors := s.droppedTensors + if s.tensor.closed then 1 else 0)
  }

  function ApplyInf(env: Env, s: State): State
    requires Enabled(env, s, Inf)
  {
    match s.inf
    case Check(_) => s.(inf := Head(s.inf, s.infRunning, s.tensor))
    case Popping => s.(inf := Head(s.inf, s.infRunning, s.tensor), tensor := Q.Pop(s.tensor))
    case Got(input) =>
      s.(windowId := s.windowId + 1, inf := Sending(ResultFor(env, s.windowId + 1, input)))
    case Sending(r) =>
      s.(result := Q.Push(s.result, r), inf := Popping,
         droppedResults := s.droppedResults + if s.result.closed then 1 else 0)
  }

  function ApplyPost(env: Env, s: State): State
    requires Enabled(env, s, Post)
  {
    match s.post
    case Check(_) => s.(post := Head(s.post, s.postRunning, s.result))
    case Popping => s.(post := Head(s.post, s.postRunning, s.result), result := Q.Pop(s.result))
    case Got(r) => s.(callbacks := s.callbacks + [env.classify(r)], post := Popping)
  }

  predicate Init(s: State) {
    && s.raw == Q.Queue([], false)
    && s.tensor == Q.Queue([], false)
    && s.result == Q.Queue([], false)
    && s.pre.NotStarted? && s.inf.NotStarted? && s.post.NotStarted?
    && !s.preRunning && !s.infRunning && !s.postRunning
    && s.windowBuffer == [] && s.windowId == 0 && s.owner == Created
    && s.accepted == [] && s.callbacks == []
    && s.droppedTensors == 0 && s.droppedResults == 0
  }

  // ----- runs -----

  datatype Run = Run(states: seq<State>, events: seq<Event>)

  ghost predicate StepAt(env: Env, r: Run, i: nat)
    requires |r.states| == |r.events| + 1 && i < |r.events|
  {
    Enabled(env, r.states[i], r.events[i]) && r.states[i + 1] == Apply(env, r.states[i], r.events[i])
  }

  ghost predicate IsRun(env: Env, r: Run) {
    && |r.states| == |r.events| + 1
    && Init(r.states[0])
    && forall i: nat :: i < |r.events| ==> StepAt(env, r, i)
  }
}
