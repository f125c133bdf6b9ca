/**
 The invariant of the pipeline. Every place an item can be in holds a contiguous slice of
 one of four sequences that are functions of the accepted samples alone: the samples, the
 tensors of their 128-sample windows, the numbered results, and the classified results.
 */
module PipelineInvariant {
  import opened Common
  import opened PipelineModel
  import Q = AtomicQueue

  /** Preprocessing succeeds on full windows. EndToEnd proves this of the real chain. */
  ghost predicate PreprocessTotal(env: Env) {
    forall w: seq<RawSample> :: |w| == TARGET_LENGTH ==> env.preprocess(w).Some?
  }

  ghost predicate ValidEnv(env: Env) {
    env.cap > 0 && PreprocessTotal(env)
  }

  // ----- the four sequences -----

  function WindowCount(accepted: seq<RawSample>): nat {
    |accepted| / TARGET_LENGTH
  }

  /** Window k, counted from zero: samples 128k .. 128k + 127. */
  function Window(accepted: seq<RawSample>, k: nat): seq<RawSample>
    requires k < WindowCount(accepted)
  {
    accepted[TARGET_LENGTH * k..TARGET_LENGTH * (k + 1)]
  }

  ghost function Tensors(env: Env, accepted: seq<RawSample>): seq<ModelInput>
    requires ValidEnv(env)
  {
    seq(WindowCount(accepted), k requires 0 <= k < WindowCount(accepted) =>
      env.preprocess(Window(accepted, k)).value)
  }

  ghost function Results(env: Env, accepted: seq<RawSample>): seq<InferenceResult>
    requires ValidEnv(env)
  {
    seq(WindowCount(accepted), k requires 0 <= k < WindowCount(accepted) =>
      ResultFor(env, k + 1, Tensors(env, accepted)[k]))
  }

  ghost function Classified(env: Env, accepted: seq<RawSample>): seq<InferenceResult>
    requires ValidEnv(env)
  {
    seq(WindowCount(accepted), k requires 0 <= k < WindowCount(accepted) =>
      env.classify(Results(env, accepted)[k]))
  }

  // ----- slices and stages -----

  ghost predicate Slice<T>(part: seq<T>, whole: seq<T>, from: nat) {
    from + |part| <= |whole| && forall i :: 0 <= i < |part| ==> part[i] == whole[from + i]
  }

  /** One stage between a producer and a consumer. Of the items of `whole`, the first `used`
      have been consumed, then come the one in the consumer's hand, the stored ones, the
      dropped ones and the one its producer is about to push. */
  ghost predicate Stage<T>(whole: seq<T>, used: nat, inHand: seq<T>, stored: seq<T>, dropped: nat, outgoing: seq<T>) {
    && Slice(inHand, whole, used)
    && Slice(stored, whole, used + |inHand|)
    && Slice(outgoing, whole, used + |inHand| + |stored| + dropped)
  }

  lemma StageGrows<T>(whole: seq<T>, longer: seq<T>, used: nat, inHand: seq<T>, stored: seq<T>, dropped: nat,
      outgoing: seq<T>)
    requires Stage(whole, used, inHand, stored, dropped, outgoing) && whole <= longer
    ensures Stage(longer, used, inHand, stored, dropped, outgoing)
  {
  }

  lemma StagePops<T>(whole: seq<T>, used: nat, stored: seq<T>, dropped: nat, outgoing: seq<T>)
    requires Stage(whole, used, [], stored, dropped, outgoing) && |stored| > 0
    ensures Stage(whole, used, [stored[0]], stored[1..], dropped, outgoing)
  {
  }

  lemma StageUses<T>(whole: seq<T>, used: nat, x: T, stored: seq<T>, dropped: nat, outgoing: seq<T>)
    requires Stage(whole, used, [x], stored, dropped, outgoing)
    ensures used < |whole| && x == whole[used]
    ensures Stage(whole, used + 1, [], stored, dropped, outgoing)
  {
    assert [x][0] == whole[used];
  }

  lemma StageStores<T>(whole: seq<T>, used: nat, inHand: seq<T>, stored: seq<T>, x: T)
    requires Stage(whole, used, inHand, stored, 0, [x])
    ensures Stage(whole, used, inHand, stored + [x], 0, [])
  {
    assert [x][0] == whole[used + |inHand| + |stored|];
  }

  lemma StageDrops<T>(whole: seq<T>, used: nat, inHand: seq<T>, stored: seq<T>, dropped: nat, x: T)
    requires Stage(whole, used, inHand, stored, dropped, [x])
    ensures Stage(whole, used, inHand, stored, dropped + 1, [])
  {
  }

  lemma StageProduces<T>(whole: seq<T>, used: nat, inHand: seq<T>, stored: seq<T>, dropped: nat, x: T)
    requires Stage(whole, used, inHand, stored, dropped, [])
    requires var next := used + |inHand| + |stored| + dropped; next < |whole| && whole[next] == x
    ensures Stage(whole, used, inHand, stored, dropped, [x])
  {
  }

  lemma AcceptingGrows(env: Env, accepted: seq<RawSample>, x: RawSample)
    requires ValidEnv(env)
    ensures Tensors(env, accepted) <= Tensors(env, accepted + [x])
    ensures Results(env, accepted) <= Results(env, accepted + [x])
    ensures Classified(env, accepted) <= Classified(env, accepted + [x])
  {
    forall k: nat | k < WindowCount(accepted)
      ensures Window(accepted + [x], k) == Window(accepted, k)
    {
    }
  }

  // ----- where the items are -----

  function InHand<A, B>(pc: Pc<A, B>): seq<A> {
    if pc.Got? then [pc.item] else []
  }

  function Outgoing<A, B>(pc: Pc<A, B>): seq<B> {
    if pc.Sending? then [pc.output] else []
  }

  /** Results numbered so far, by where they are. */
  function ResultsMade(s: State): nat {
    |s.callbacks| + |InHand(s.post)| + |s.result.items| + s.droppedResults + |Outgoing(s.inf)|
  }

  /** Windows cut so far, by where their tensors are. */
  function WindowsCut(s: State): nat {
    s.windowId + |InHand(s.inf)| + |s.tensor.items| + s.droppedTensors + |Outgoing(s.pre)|
  }

  /** Samples that have been appended to the window buffer so far. */
  function SamplesBuffered(s: State): nat {
    TARGET_LENGTH * WindowsCut(s) + |s.windowBuffer|
  }

  ghost predicate SamplesInPlace(accepted: seq<RawSample>, cut: nat, buffer: seq<RawSample>,
      inHand: seq<RawSample>, stored: seq<RawSample>) {
    && |buffer| < TARGET_LENGTH
    && TARGET_LENGTH * cut + |buffer| + |inHand| + |stored| == |accepted|
    && Slice(buffer, accepted, TARGET_LENGTH * cut)
    && Stage(accepted, TARGET_LENGTH * cut + |buffer|, inHand, stored, 0, [])
  }

  /** The data invariant over any candidates for the three derived sequences. */
  ghost predicate Placed(cap: nat, tensors: seq<ModelInput>, results: seq<InferenceResult>,
                         classified: seq<InferenceResult>, s: State) {
    && SamplesInPlace(s.accepted, WindowsCut(s), s.windowBuffer, InHand(s.pre), s.raw.items)
    && Stage(tensors, s.windowId, InHand(s.inf), s.tensor.items, s.droppedTensors, Outgoing(s.pre))
    && Stage(results, |s.callbacks|, InHand(s.post), s.result.items, s.droppedResults, Outgoing(s.inf))
    && Slice(s.callbacks, classified, 0)
    && s.windowId == ResultsMade(s)
    && (s.droppedTensors > 0 ==> s.tensor.closed)
    && (s.droppedResults > 0 ==> s.result.closed)
    && |s.raw.items| <= cap && |s.tensor.items| <= cap && |s.result.items| <= cap
  }

  ghost predicate DataInv(env: Env, s: State)
    requires ValidEnv(env)
  {
    Placed(env.cap, Tensors(env, s.accepted), Results(env, s.accepted), Classified(env, s.accepted), s)
  }

  // ----- what start() and stop() have established -----

  function Rank(o: Owner): nat {
    match o
    case Created => 0
    case StartedPre => 1
    case StartedInf => 2
    case Started => 3
    case ClosedRaw => 4
    case ClosedTensor => 5
    case ClosedAll => 6
    case JoiningPre => 7
    case PreDone => 8
    case JoiningInf => 9
    case InfDone => 10
    case JoiningPost => 11
    case Stopped => 12
  }

  /** A worker that is started at rank `up`, told to stop at `down` and joined right after. */
  ghost predicate WorkerInv<A, B>(pc: Pc<A, B>, running: bool, q: Q.Queue<A>, rank: nat, up: nat, down: nat) {
    && (rank <= 3 ==> (pc.NotStarted? <==> rank < up))
    && running == (rank < down && !pc.NotStarted?)
    && (pc.Exited? ==> !running)
    && (rank == down ==> !pc.NotStarted?)
    && (rank > down ==> pc.Exited? || pc.NotStarted?)
    && ((pc.Check? || pc.Exited?) && pc.entered ==> q.closed && q.items == [])
  }

  ghost predicate ControlInv(s: State) {
    var rank := Rank(s.owner);
    && (s.raw.closed <==> rank >= 4)
    && (s.tensor.closed <==> rank >= 5)
    && (s.result.closed <==> rank >= 6)
    && WorkerInv(s.pre, s.preRunning, s.raw, rank, 1, 7)
    && WorkerInv(s.inf, s.infRunning, s.tensor, rank, 2, 9)
    && WorkerInv(s.post, s.postRunning, s.result, rank, 3, 11)
    && !s.post.Sending?
  }

  ghost predicate Inv(env: Env, s: State)
    requires ValidEnv(env)
  {
    DataInv(env, s) && ControlInv(s)
  }

  // ----- every step keeps it -----

  lemma InitEstablishesInv(env: Env, s: State)
    requires ValidEnv(env) && Init(s)
    ensures Inv(env, s)
  {
  }

  lemma AcceptKeepsSamples(accepted: seq<RawSample>, cut: nat, buffer: seq<RawSample>, inHand: seq<RawSample>,
      stored: seq<RawSample>, x: RawSample)
    requires SamplesInPlace(accepted, cut, buffer, inHand, stored)
    ensures SamplesInPlace(accepted + [x], cut, buffer, inHand, stored + [x])
  {
  }

  lemma SubmitKeepsData(env: Env, s: State, x: RawSample)
    requires ValidEnv(env) && DataInv(env, s) && Enabled(env, s, Submit(x))
    ensures DataInv(env, Apply(env, s, Submit(x)))
  {
    if !s.raw.closed {
      var longer := s.accepted + [x];
      AcceptingGrows(env, s.accepted, x);
      AcceptKeepsSamples(s.accepted, WindowsCut(s), s.windowBuffer, InHand(s.pre), s.raw.items, x);
      StageGrows(Tensors(env, s.accepted), Tensors(env, longer),
        s.windowId, InHand(s.inf), s.tensor.items, s.droppedTensors, Outgoing(s.pre));
      StageGrows(Results(env, s.accepted), Results(env, longer),
        |s.callbacks|, InHand(s.post), s.result.items, s.droppedResults, Outgoing(s.inf));
    }
  }

  lemma BufferKeepsSamples(accepted: seq<RawSample>, cut: nat, buffer: seq<RawSample>, x: RawSample,
      stored: seq<RawSample>)
    requires SamplesInPlace(accepted, cut, buffer, [x], stored)
    ensures |buffer| + 1 < TARGET_LENGTH ==> SamplesInPlace(accepted, cut, buffer + [x], [], stored)
    ensures |buffer| + 1 == TARGET_LENGTH ==>
      && SamplesInPlace(accepted, cut + 1, [], [], stored)
      && cut < WindowCount(accepted)
      && Window(accepted, cut) == buffer + [x]
  {
    StageUses(accepted, TARGET_LENGTH * cut + |buffer|, x, stored, 0, []);
    if |buffer| + 1 == TARGET_LENGTH {
      assert TARGET_LENGTH * (cut + 1) == TARGET_LENGTH * cut + |buffer| + 1;
    }
  }

  /** Nothing moved: the same items in the same places, and no queue was reopened. */
  ghost predicate NothingMoved(s: State, t: State) {
    && t.accepted == s.accepted && t.callbacks == s.callbacks
    && t.windowBuffer == s.windowBuffer && t.windowId == s.windowId
    && t.raw.items == s.raw.items && t.tensor.items == s.tensor.items && t.result.items == s.result.items
    && InHand(t.pre) == InHand(s.pre) && InHand(t.inf) == InHand(s.inf) && InHand(t.post) == InHand(s.post)
    && Outgoing(t.pre) == Outgoing(s.pre) && Outgoing(t.inf) == Outgoing(s.inf)
    && t.droppedTensors == s.droppedTensors && t.droppedResults == s.droppedResults
    && (s.tensor.closed ==> t.tensor.closed) && (s.result.closed ==> t.result.closed)
  }

  lemma NothingMovedKeepsPlaces(cap: nat, tensors: seq<ModelInput>, results: seq<InferenceResult>,
      classified: seq<InferenceResult>, s: State, t: State)
    requires Placed(cap, tensors, results, classified, s) && NothingMoved(s, t)
    ensures Placed(cap, tensors, results, classified, t)
  {
  }

  /** The owner's steps and the workers' steps that find nothing to pop move no item. */
  ghost predicate MovesNothing(s: State, e: Event) {
    match e
    case Submit(_) => s.raw.closed
    case Start => true
    case Stop => true
    case Pre => s.pre.Check? || (s.pre.Popping? && s.raw.items == [])
    case Inf => s.inf.Check? || (s.inf.Popping? && s.tensor.items == [])
    case Post => s.post.Check? || (s.post.Popping? && s.result.items == [])
  }

  lemma StartMovesNothing(s: State)
    requires ControlInv(s) && s.owner in {Created, StartedPre, StartedInf}
    ensures NothingMoved(s, ApplyStart(s))
  {
  }

  lemma StopMovesNothing(s: State)
    requires StopEnabled(s)
    ensures NothingMoved(s, ApplyStop(s))
  {
  }

  lemma WorkerMovesNothing(env: Env, s: State, e: Event)
    requires Enabled(env, s, e) && MovesNothing(s, e) && !e.Start? && !e.Stop?
    ensures NothingMoved(s, Apply(env, s, e))
  {
  }

  lemma PrePopKeepsPlaces(env: Env, tensors: seq<ModelInput>, results: seq<InferenceResult>,
      classified: seq<InferenceResult>, s: State)
    requires Placed(env.cap, tensors, results, classified, s) && s.pre.Popping? && |s.raw.items| > 0
    ensures Placed(env.cap, tensors, results, classified, s.(pre := Got(s.raw.items[0]), raw := Q.Pop(s.raw)))
  {
    StagePops(s.accepted, SamplesBuffered(s), s.raw.items, 0, []);
  }

  lemma PreBufferKeepsPlaces(env: Env, tensors: seq<ModelInput>, results: seq<InferenceResult>,
      classified: seq<InferenceResult>, s: State)
    requires Placed(env.cap, tensors, results, classified, s) && s.pre.Got? && |s.windowBuffer| + 1 < TARGET_LENGTH
    ensures Placed(env.cap, tensors, results, classified,
      s.(windowBuffer := s.windowBuffer + [s.pre.item], pre := Popping))
  {
    BufferKeepsSamples(s.accepted, WindowsCut(s), s.windowBuffer, s.pre.item, s.raw.items);
  }

  lemma PreWindowKeepsPlaces(env: Env, tensors: seq<ModelInput>, results: seq<InferenceResult>,
      classified: seq<InferenceResult>, s: State)
    requires Placed(env.cap, tensors, results, classified, s) && s.pre.Got? && |s.windowBuffer| + 1 == TARGET_LENGTH
    requires WindowsCut(s) < WindowCount(s.accepted) ==> WindowsCut(s) < |tensors|
    ensures WindowsCut(s) < WindowCount(s.accepted)
      && Window(s.accepted, WindowsCut(s)) == s.windowBuffer + [s.pre.item]
    ensures Placed(env.cap, tensors, results, classified,
      s.(windowBuffer := [], pre := Sending(tensors[WindowsCut(s)])))
  {
    BufferKeepsSamples(s.accepted, WindowsCut(s), s.windowBuffer, s.pre.item, s.raw.items);
    StageProduces(tensors, s.windowId, InHand(s.inf), s.tensor.items, s.droppedTensors, tensors[WindowsCut(s)]);
  }

  lemma PreDropKeepsPlaces(env: Env, tensors: seq<ModelInput>, results: seq<InferenceResult>,
      classified: seq<InferenceResult>, s: State)
    requires Placed(env.cap, tensors, results, classified, s) && s.pre.Sending? && s.tensor.closed
    ensures Placed(env.cap, tensors, results, classified, s.(pre := Popping, droppedTensors := s.droppedTensors + 1))
  {
    StageDrops(tensors, s.windowId, InHand(s.inf), s.tensor.items, s.droppedTensors, s.pre.output);
  }

  lemma PreStoreKeepsPlaces(env: Env, tensors: seq<ModelInput>, results: seq<InferenceResult>,
      classified: seq<InferenceResult>, s: State)
    requires Placed(env.cap, tensors, results, classified, s) && s.pre.Sending? && !s.tensor.closed
      && |s.tensor.items| < env.cap
    ensures Placed(env.cap, tensors, results, classified, s.(pre := Popping, tensor := Q.Push(s.tensor, s.pre.output)))
  {
    StageStores(tensors, s.windowId, InHand(s.inf), s.tensor.items, s.pre.output);
  }

  lemma InfPopKeepsPlaces(env: Env, tensors: seq<ModelInput>, results: seq<InferenceResult>,
      classified: seq<InferenceResult>, s: State)
    requires Placed(env.cap, tensors, results, classified, s) && s.inf.Popping? && |s.tensor.items| > 0
    ensures Placed(env.cap, tensors, results, classified, s.(inf := Got(s.tensor.items[0]), tensor := Q.Pop(s.tensor)))
  {
    StagePops(tensors, s.windowId, s.tensor.items, s.droppedTensors, Outgoing(s.pre));
  }

  lemma InfNumberKeepsPlaces(env: Env, tensors: seq<ModelInput>, results: seq<InferenceResult>,
      classified: seq<InferenceResult>, s: State)
    requires Placed(env.cap, tensors, results, classified, s) && s.inf.Got? && s.windowId < |results|
    ensures Placed(env.cap, tensors, results, classified,
      s.(windowId := s.windowId + 1, inf := Sending(results[s.windowId])))
  {
    StageUses(tensors, s.windowId, s.inf.item, s.tensor.items, s.droppedTensors, Outgoing(s.pre));
    StageProduces(results, |s.callbacks|, InHand(s.post), s.result.items, s.droppedResults, results[s.windowId]);
  }

  lemma InfDropKeepsPlaces(env: Env, tensors: seq<ModelInput>, results: seq<InferenceResult>,
      classified: seq<InferenceResult>, s: State)
    requires Placed(env.cap, tensors, results, classified, s) && s.inf.Sending? && s.result.closed
    ensures Placed(env.cap, tensors, results, classified, s.(inf := Popping, droppedResults := s.droppedResults + 1))
  {
    StageDrops(results, |s.callbacks|, InHand(s.post), s.result.items, s.droppedResults, s.inf.output);
  }

  lemma InfStoreKeepsPlaces(env: Env, tensors: seq<ModelInput>, results: seq<InferenceResult>,
      classified: seq<InferenceResult>, s: State)
    requires Placed(env.cap, tensors, results, classified, s) && s.inf.Sending? && !s.result.closed
      && |s.result.items| < env.cap
    ensures Placed(env.cap, tensors, results, classified, s.(inf := Popping, result := Q.Push(s.result, s.inf.output)))
  {
    StageStores(results, |s.callbacks|, InHand(s.post), s.result.items, s.inf.output);
  }

  lemma PostPopKeepsPlaces(env: Env, tensors: seq<ModelInput>, results: seq<InferenceResult>,
      classified: seq<InferenceResult>, s: State)
    requires Placed(env.cap, tensors, results, classified, s) && s.post.Popping? && |s.result.items| > 0
    ensures Placed(env.cap, tensors, results, classified, s.(post := Got(s.result.items[0]), result := Q.Pop(s.result)))
  {
    StagePops(results, |s.callbacks|, s.result.items, s.droppedResults, Outgoing(s.inf));
  }

  lemma PostCallbackKeepsPlaces(env: Env, tensors: seq<ModelInput>, results: seq<InferenceResult>,
      classified: seq<InferenceResult>, s: State)
    requires Placed(env.cap, tensors, results, classified, s) && s.post.Got? && |s.callbacks| < |classified|
    ensures Placed(env.cap, tensors, results, classified,
      s.(post := Popping, callbacks := s.callbacks + [classified[|s.callbacks|]]))
  {
    StageUses(results, |s.callbacks|, s.post.item, s.result.items, s.droppedResults, Outgoing(s.inf));
  }

  lemma PreKeepsPlaces(env: Env, tensors: seq<ModelInput>, results: seq<InferenceResult>,
      classified: seq<InferenceResult>, s: State)
    requires Placed(env.cap, tensors, results, classified, s) && Enabled(env, s, Pre) && !MovesNothing(s, Pre)
    requires s.pre.Got? && |s.windowBuffer| + 1 == TARGET_LENGTH && WindowsCut(s) < WindowCount(s.accepted) ==>
      WindowsCut(s) < |tensors|
      && env.preprocess(Window(s.accepted, WindowsCut(s))) == Some(tensors[WindowsCut(s)])
    ensures Placed(env.cap, tensors, results, classified, ApplyPre(env, s))
  {
    match s.pre
    case Popping =>
      PrePopKeepsPlaces(env, tensors, results, classified, s);
      assert ApplyPre(env, s) == s.(pre := Got(s.raw.items[0]), raw := Q.Pop(s.raw));
    case Got(x) =>
      if |s.windowBuffer| + 1 < TARGET_LENGTH {
        PreBufferKeepsPlaces(env, tensors, results, classified, s);
        assert ApplyPre(env, s) == s.(windowBuffer := s.windowBuffer + [x], pre := Popping);
      } else {
        PreWindowKeepsPlaces(env, tensors, results, classified, s);
        assert ApplyPre(env, s) == s.(windowBuffer := [], pre := Sending(tensors[WindowsCut(s)]));
      }
    case Sending(input) =>
      if s.tensor.closed {
        PreDropKeepsPlaces(env, tensors, results, classified, s);
        assert ApplyPre(env, s) == s.(pre := Popping, droppedTensors := s.droppedTensors + 1);
      } else {
        PreStoreKeepsPlaces(env, tensors, results, classified, s);
        assert ApplyPre(env, s) == s.(pre := Popping, tensor := Q.Push(s.tensor, input));
      }
  }

  lemma InfKeepsPlaces(env: Env, tensors: seq<ModelInput>, results: seq<InferenceResult>,
      classified: seq<InferenceResult>, s: State)
    requires Placed(env.cap, tensors, results, classified, s) && Enabled(env, s, Inf) && !MovesNothing(s, Inf)
    requires s.inf.Got? ==>
      s.windowId < |results| && results[s.windowId] == ResultFor(env, s.windowId + 1, s.inf.item)
    ensures Placed(env.cap, tensors, results, classified, ApplyInf(env, s))
  {
    match s.inf
    case Popping =>
      InfPopKeepsPlaces(env, tensors, results, classified, s);
      assert ApplyInf(env, s) == s.(inf := Got(s.tensor.items[0]), tensor := Q.Pop(s.tensor));
    case Got(_) =>
      InfNumberKeepsPlaces(env, tensors, results, classified, s);
      assert ApplyInf(env, s) == s.(windowId := s.windowId + 1, inf := Sending(results[s.windowId]));
    case Sending(r) =>
      if s.result.closed {
        InfDropKeepsPlaces(env, tensors, results, classified, s);
        assert ApplyInf(env, s) == s.(inf := Popping, droppedResults := s.droppedResults + 1);
      } else {
        InfStoreKeepsPlaces(env, tensors, results, classified, s);
        assert ApplyInf(env, s) == s.(inf := Popping, result := Q.Push(s.result, r));
      }
  }

  lemma PostKeepsPlaces(env: Env, tensors: seq<ModelInput>, results: seq<InferenceResult>,
      classified: seq<InferenceResult>, s: State)
    requires Placed(env.cap, tensors, results, classified, s) && Enabled(env, s, Post) && !MovesNothing(s, Post)
    requires s.post.Got? ==>
      |s.callbacks| < |classified| && classified[|s.callbacks|] == env.classify(s.post.item)
    ensures Placed(env.cap, tensors, results, classified, ApplyPost(env, s))
  {
    match s.post
    case Popping =>
      PostPopKeepsPlaces(env, tensors, results, classified, s);
      assert ApplyPost(env, s) == s.(post := Got(s.result.items[0]), result := Q.Pop(s.result));
    case Got(_) =>
      PostCallbackKeepsPlaces(env, tensors, results, classified, s);
      assert ApplyPost(env, s) == s.(post := Popping, callbacks := s.callbacks + [classified[|s.callbacks|]]);
  }

  lemma PreKeepsData(env: Env, s: State)
    requires ValidEnv(env) && DataInv(env, s) && Enabled(env, s, Pre) && !MovesNothing(s, Pre)
    ensures DataInv(env, ApplyPre(env, s))
  {
    if WindowsCut(s) < WindowCount(s.accepted) {
      TensorAt(env, s.accepted, WindowsCut(s));
    }
    PreKeepsPlaces(env, Tensors(env, s.accepted), Results(env, s.accepted), Classified(env, s.accepted), s);
    assert ApplyPre(env, s).accepted == s.accepted;
  }

  lemma TensorAt(env: Env, accepted: seq<RawSample>, k: nat)
    requires ValidEnv(env) && k < WindowCount(accepted)
    ensures k < |Tensors(env, accepted)|
    ensures env.preprocess(Window(accepted, k)) == Some(Tensors(env, accepted)[k])
  {
  }

  lemma InfKeepsData(env: Env, s: State)
    requires ValidEnv(env) && DataInv(env, s) && Enabled(env, s, Inf) && !MovesNothing(s, Inf)
    ensures DataInv(env, ApplyInf(env, s))
  {
    if s.inf.Got? {
      StageUses(Tensors(env, s.accepted), s.windowId, s.inf.item, s.tensor.items, s.droppedTensors, Outgoing(s.pre));
    }
    InfKeepsPlaces(env, Tensors(env, s.accepted), Results(env, s.accepted), Classified(env, s.accepted), s);
    assert ApplyInf(env, s).accepted == s.accepted;
  }

  lemma PostKeepsData(env: Env, s: State)
    requires ValidEnv(env) && DataInv(env, s) && Enabled(env, s, Post) && !MovesNothing(s, Post)
    ensures DataInv(env, ApplyPost(env, s))
  {
    if s.post.Got? {
      StageUses(Results(env, s.accepted), |s.callbacks|, s.post.item, s.result.items, s.droppedResults,
        Outgoing(s.inf));
    }
    PostKeepsPlaces(env, Tensors(env, s.accepted), Results(env, s.accepted), Classified(env, s.accepted), s);
    assert ApplyPost(env, s).accepted == s.accepted;
  }

  lemma StepKeepsData(env: Env, s: State, e: Event)
    requires ValidEnv(env) && Inv(env, s) && Enabled(env, s, e)
    ensures DataInv(env, Apply(env, s, e))
  {
    if MovesNothing(s, e) {
      if e.Start? {
        StartMovesNothing(s);
      } else if e.Stop? {
        StopMovesNothing(s);
      } else {
        WorkerMovesNothing(env, s, e);
      }
      NothingMovedKeepsPlaces(env.cap, Tensors(env, s.accepted), Results(env, s.accepted),
        Classified(env, s.accepted), s, Apply(env, s, e));
    } else {
      match e
      case Submit(x) => SubmitKeepsData(env, s, x);
      case Pre => PreKeepsData(env, s);
      case Inf => InfKeepsData(env, s);
      case Post => PostKeepsData(env, s);
    }
  }

  lemma HeadKeepsWorker<A, B>(pc: Pc<A, B>, running: bool, q: Q.Queue<A>, rank: nat, up: nat, down: nat)
    requires WorkerInv(pc, running, q, rank, up, down) && up <= down
    requires pc.Check? || (pc.Popping? && Q.PopReady(q))
    ensures WorkerInv(Head(pc, running, q), running, if pc.Popping? then Q.Pop(q) else q, rank, up, down)
  {
  }

  lemma StartKeepsControl(s: State)
    requires ControlInv(s) && s.owner in {Created, StartedPre, StartedInf}
    ensures ControlInv(ApplyStart(s))
  {
  }

  lemma StopKeepsControl(s: State)
    requires ControlInv(s) && StopEnabled(s)
    ensures ControlInv(ApplyStop(s))
  {
  }

  lemma PreKeepsControl(env: Env, s: State)
    requires ControlInv(s) && Enabled(env, s, Pre)
    ensures ControlInv(ApplyPre(env, s))
  {
    if s.pre.Check? || s.pre.Popping? {
      HeadKeepsWorker(s.pre, s.preRunning, s.raw, Rank(s.owner), 1, 7);
    }
  }

  lemma InfKeepsControl(env: Env, s: State)
    requires ControlInv(s) && Enabled(env, s, Inf)
    ensures ControlInv(ApplyInf(env, s))
  {
    if s.inf.Check? || s.inf.Popping? {
      HeadKeepsWorker(s.inf, s.infRunning, s.tensor, Rank(s.owner), 2, 9);
    }
  }

  lemma PostKeepsControl(env: Env, s: State)
    requires ControlInv(s) && Enabled(env, s, Post)
    ensures ControlInv(ApplyPost(env, s))
  {
    if s.post.Check? || s.post.Popping? {
      HeadKeepsWorker(s.post, s.postRunning, s.result, Rank(s.owner), 3, 11);
    }
  }

  lemma StepKeepsInv(env: Env, s: State, e: Event)
    requires ValidEnv(env) && Inv(env, s) && Enabled(env, s, e)
    ensures Inv(env, Apply(env, s, e))
  {
    StepKeepsData(env, s, e);
    match e
    case Submit(_) =>
    case Start => StartKeepsControl(s);
    case Stop => StopKeepsControl(s);
    case Pre => PreKeepsControl(env, s);
    case Inf => InfKeepsControl(env, s);
    case Post => PostKeepsControl(env, s);
  }

  lemma {:induction false} RunKeepsInv(env: Env, r: Run, i: nat)
    requires ValidEnv(env) && IsRun(env, r) && i < |r.states|
    ensures Inv(env, r.states[i])
  {
    if i == 0 {
      InitEstablishesInv(env, r.states[0]);
    } else {
      RunKeepsInv(env, r, i - 1);
      assert StepAt(env, r, i - 1);
      StepKeepsInv(env, r.states[i - 1], r.events[i - 1]);
    }
  }
}
