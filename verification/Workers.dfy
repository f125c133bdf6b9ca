/** A worker: the running flag, and where its thread is. */
module Workers {
  import opened PipelineModel

  class Worker<A, B> {
    var running: bool
    var at: Pc<A, B>

    constructor ()
      ensures !running && at.NotStarted?
    {
      running, at := false, NotStarted;
    }

    /** Exchange the flag; only the call that raises it spawns a thread, at its loop guard. */
    method Start() returns (ok: bool)
      modifies this
      ensures ok == !old(running) && running
      ensures at == if ok then Check(false) else old(at)
    {
      ok := !running;
      running := true;
      if ok {
        at := Check(false);
      }
    }

    /** `while (running_)`: enter the loop function once more, or let the thread end. */
    method Guard()
      requires at.Check?
      modifies this`at
      ensures at == if running then Popping else Exited(old(at).entered)
    {
      at := if running then Popping else Exited(at.entered);
    }

    /** The exchange that begins stop(): only the call that lowers the flag goes on to join. */
    method LowerFlag() returns (mustJoin: bool)
      modifies this`running
      ensures mustJoin == old(running) && !running
    {
      mustJoin := running;
      running := false;
    }
  }
}
