/**
 The pipeline object: one method for each step one of its threads takes. Each is proved to
 be the step of PipelineModel, so the invariant and the theorems about runs are about these
 bodies.
 */
module Pipelines {
  import opened Common
  import opened PipelineModel
  import opened Workers
  import Q = AtomicQueue

  class Pipeline {
    const env: Env
    const callbackSet: bool
    var rawQueue: Q.Queue<RawSample>
    var tensorQueue: Q.Queue<ModelInput>
    var resultQueue: Q.Queue<InferenceResult>
    const preprocessWorker: Worker<RawSample, ModelInput>
    const inferenceWorker: Worker<ModelInput, InferenceResult>
    const postWorker: Worker<InferenceResult, ()>
    var windowBuffer: seq<RawSample>
    var windowId: nat
    var owner: Owner
    ghost var accepted: seq<RawSample>
    ghost var callbacks: seq<InferenceResult>
    ghost var called: seq<InferenceResult>
    ghost var droppedTensors: nat
    ghost var droppedResults: nat

    /** The three workers are three objects, and a callback that is set has been called once
        for every result that reached it, in order. */
    ghost predicate Valid()
      reads this
    {
      && (preprocessWorker as object) != inferenceWorker
      && (preprocessWorker as object) != postWorker
      && (inferenceWorker as object) != postWorker
      && (this as object) != preprocessWorker
      && (this as object) != inferenceWorker
      && (this as object) != postWorker
      && called == if callbackSet then callbacks else []
    }

    ghost function View(): State
      reads this, preprocessWorker, inferenceWorker, postWorker
    {
      State(rawQueue, tensorQueue, resultQueue, preprocessWorker.at, inferenceWorker.at, postWorker.at,
        preprocessWorker.running, inferenceWorker.running, postWorker.running, windowBuffer, windowId, owner,
        accepted, callbacks, droppedTensors, droppedResults)
    }

    constructor (env: Env, callbackSet: bool)
      ensures Valid() && Init(View()) && this.env == env && this.callbackSet == callbackSet
      ensures fresh(preprocessWorker) && fresh(inferenceWorker) && fresh(postWorker)
    {
      this.env, this.callbackSet := env, callbackSet;
      rawQueue, tensorQueue, resultQueue := Q.Queue([], false), Q.Queue([], false), Q.Queue([], false);
      preprocessWorker := new Worker<RawSample, ModelInput>();
      inferenceWorker := new Worker<ModelInput, InferenceResult>();
      postWorker := new Worker<InferenceResult, ()>();
      windowBuffer, windowId, owner := [], 0, Created;
      accepted, callbacks, called, droppedTensors, droppedResults := [], [], [], 0, 0;
    }

    /** submit(): a blocking push, refused once the queue is closed. */
    method Submit(sample: RawSample) returns (ok: bool)
      requires Valid() && Enabled(env, View(), Event.Submit(sample))
      modifies this
      ensures Valid() && View() == Apply(env, old(View()), Event.Submit(sample))
      ensures ok == !old(rawQueue.closed)
    {
      ok := !rawQueue.closed;
      if ok {
        rawQueue := Q.Push(rawQueue, sample);
        accepted := accepted + [sample];
      }
    }

    /** One Worker::start of start(). */
    method StartNext() returns (ok: bool)
      requires Valid() && Enabled(env, View(), Start)
      modifies this`owner, preprocessWorker, inferenceWorker, postWorker
      ensures Valid() && View() == Apply(env, old(View()), Start)
      ensures ok == match old(owner)
        case Created => !old(preprocessWorker.running)
        case StartedPre => !old(inferenceWorker.running)
        case _ => !old(postWorker.running)
    {
      match owner
      case Created =>
        ok := preprocessWorker.Start();
        owner := StartedPre;
      case StartedPre =>
        ok := inferenceWorker.Start();
        owner := StartedInf;
      case StartedInf =>
        ok := postWorker.Start();
        owner := Started;
    }

    /** The first half of stop(): close the next queue. */
    method CloseNext()
      requires Valid() && owner in {Created, Started, ClosedRaw, ClosedTensor}
      modifies this
      ensures Valid() && View() == Apply(env, old(View()), Stop)
    {
      match owner
      case Created => rawQueue, owner := Q.Close(rawQueue), ClosedRaw;
      case Started => rawQueue, owner := Q.Close(rawQueue), ClosedRaw;
      case ClosedRaw => tensorQueue, owner := Q.Close(tensorQueue), ClosedTensor;
      case ClosedTensor => resultQueue, owner := Q.Close(resultQueue), ClosedAll;
    }

    /** The second half: lower the next worker's flag, or join its thread. */
    method JoinNext()
      requires Valid() && Enabled(env, View(), Stop) && owner !in {Created, Started, ClosedRaw, ClosedTensor}
      modifies this`owner, preprocessWorker, inferenceWorker, postWorker
      ensures Valid() && View() == Apply(env, old(View()), Stop)
    {
      match owner
      case ClosedAll =>
        var mustJoin := preprocessWorker.LowerFlag();
        owner := if mustJoin then JoiningPre else PreDone;
      case JoiningPre => owner := PreDone;
      case PreDone =>
        var mustJoin := inferenceWorker.LowerFlag();
        owner := if mustJoin then JoiningInf else InfDone;
      case JoiningInf => owner := InfDone;
      case InfDone =>
        var mustJoin := postWorker.LowerFlag();
        owner := if mustJoin then JoiningPost else Stopped;
      case JoiningPost => owner := Stopped;
    }

    /** The guard `while (running_)` and the pop of preprocess_loop. */
    method PreprocessHead()
      requires Valid() && Enabled(env, View(), Pre) && (preprocessWorker.at.Check? || preprocessWorker.at.Popping?)
      modifies this, preprocessWorker
      ensures Valid() && View() == Apply(env, old(View()), Pre)
    {
      if preprocessWorker.at.Check? {
        preprocessWorker.Guard();
      } else if |rawQueue.items| == 0 {
        preprocessWorker.at := Check(true);
      } else {
        preprocessWorker.at := Got(rawQueue.items[0]);
        rawQueue := Q.Pop(rawQueue);
      }
    }

    /** Append to the window buffer; at the target length take the window and preprocess it. */
    method PreprocessSample()
      requires Valid() && preprocessWorker.at.Got?
      modifies this, preprocessWorker
      ensures Valid() && View() == Apply(env, old(View()), Pre)
    {
      windowBuffer := windowBuffer + [preprocessWorker.at.item];
      preprocessWorker.at := Popping;
      if |windowBuffer| >= TARGET_LENGTH {
        var localWindow := windowBuffer;
        windowBuffer := [];
        var input := env.preprocess(localWindow);
        if input.Some? {
          preprocessWorker.at := Sending(input.value);
        }
      }
    }

    method PreprocessPush()
      requires Valid() && preprocessWorker.at.Sending? && Q.PushReady(tensorQueue, env.cap)
      modifies this, preprocessWorker
      ensures Valid() && View() == Apply(env, old(View()), Pre)
    {
      if tensorQueue.closed {
        droppedTensors := droppedTensors + 1;
      } else {
        tensorQueue := Q.Push(tensorQueue, preprocessWorker.at.output);
      }
      preprocessWorker.at := Popping;
    }

    method InferenceHead()
      requires Valid() && Enabled(env, View(), Inf) && (inferenceWorker.at.Check? || inferenceWorker.at.Popping?)
      modifies this, inferenceWorker
      ensures Valid() && View() == Apply(env, old(View()), Inf)
    {
      if inferenceWorker.at.Check? {
        inferenceWorker.Guard();
      } else if |tensorQueue.items| == 0 {
        inferenceWorker.at := Check(true);
      } else {
        inferenceWorker.at := Got(tensorQueue.items[0]);
        tensorQueue := Q.Pop(tensorQueue);
      }
    }

    /** Number the window and run the engine; a failed inference leaves the logits zero. */
    method Infer()
      requires Valid() && inferenceWorker.at.Got?
      modifies this, inferenceWorker
      ensures inferenceWorker.at.Sending? && inferenceWorker.at.output.windowId == old(windowId) + 1 == windowId
      ensures var logits, v := inferenceWorker.at.output.logits, env.infer(windowId, old(inferenceWorker.at.item));
        && |logits| == 5
        && (v.None? ==> logits == [0.0, 0.0, 0.0, 0.0, 0.0])
        && (v.Some? && |v.value| >= 5 ==> logits == v.value[..5])
        && (v.Some? && |v.value| < 5 ==>
              v.value <= logits && forall i :: |v.value| <= i < 5 ==> logits[i] == 0.0)
      ensures Valid() && View() == Apply(env, old(View()), Inf)
    {
      windowId := windowId + 1;
      inferenceWorker.at := Sending(ResultFor(env, windowId, inferenceWorker.at.item));
    }

    method InferencePush()
      requires Valid() && inferenceWorker.at.Sending? && Q.PushReady(resultQueue, env.cap)
      modifies this, inferenceWorker
      ensures Valid() && View() == Apply(env, old(View()), Inf)
    {
      if resultQueue.closed {
        droppedResults := droppedResults + 1;
      } else {
        resultQueue := Q.Push(resultQueue, inferenceWorker.at.output);
      }
      inferenceWorker.at := Popping;
    }

    method PostHead()
      requires Valid() && Enabled(env, View(), Post) && (postWorker.at.Check? || postWorker.at.Popping?)
      modifies this, postWorker
      ensures Valid() && View() == Apply(env, old(View()), Post)
    {
      if postWorker.at.Check? {
        postWorker.Guard();
      } else if |resultQueue.items| == 0 {
        postWorker.at := Check(true);
      } else {
        postWorker.at := Got(resultQueue.items[0]);
        resultQueue := Q.Pop(resultQueue);
      }
    }

    /** Classify the result and hand it to the callback, if one is set. */
    method Deliver()
      requires Valid() && postWorker.at.Got?
      modifies this, postWorker
      ensures called == if callbackSet then old(called) + [env.classify(old(postWorker.at.item))] else old(called)
      ensures Valid() && View() == Apply(env, old(View()), Post)
    {
      var result := env.classify(postWorker.at.item);
      if callbackSet {
        called := called + [result];
      }
      callbacks := callbacks + [result];
      postWorker.at := Popping;
    }
  }
}
