/** The background sampler of worker.js (also inlined verbatim in script.js):
    a two-field state machine driven by `start`, `stop` and `update_batch`
    commands, and a batch loop that counts in-disk draws and posts
    `{inside, total}`. Math.random is replaced by the batch's draws, passed
    in; `postMessage` becomes the returned message and `setTimeout(loop, 0)`
    the returned `reschedule` flag. */
module Worker {
  import opened Options
  import opened Sampling

  /** The `cmd` field of a message the page posts to a worker. */
  datatype Command =
    | Start(batchSize: int)
    | Stop
    | UpdateBatch(batchSize: int)
    | Unrecognised

  /** The initial value of the worker's `batchSize`. */
  const DefaultBatchSize := 10000

  class PiWorker {
    var isRunning: bool
    var batchSize: int

    constructor ()
      ensures !isRunning && batchSize == DefaultBatchSize
    {
      isRunning := false;
      batchSize := DefaultBatchSize;
    }

    /** `onmessage`: `start` sets both fields and runs a batch at once, even if
        a batch chain is already running; `stop` and `update_batch` each change
        one field; any other command is ignored. */
    method OnMessage(cmd: Command, draws: seq<Point>) returns (posted: Option<BatchResult>, reschedule: bool)
      requires cmd.Start? ==> cmd.batchSize <= |draws|
      modifies this
      ensures cmd.Start? ==> isRunning && batchSize == cmd.batchSize
      ensures cmd.Start? ==> posted == Some(Batch(draws, cmd.batchSize)) && reschedule
      ensures cmd.Stop? ==> !isRunning && batchSize == old(batchSize)
      ensures cmd.UpdateBatch? ==> isRunning == old(isRunning) && batchSize == cmd.batchSize
      ensures cmd.Unrecognised? ==> isRunning == old(isRunning) && batchSize == old(batchSize)
      ensures !cmd.Start? ==> posted == None && !reschedule
    {
      posted, reschedule := None, false;
      match cmd
      case Start(n) =>
        isRunning := true;
        batchSize := n;
        posted, reschedule := Loop(draws);
      case Stop =>
        isRunning := false;
      case UpdateBatch(n) =>
        batchSize := n;
      case Unrecognised =>
    }

    /** `loop`: when stopped, posts nothing and schedules nothing; otherwise
        counts the in-disk draws among the first `batchSize` ones, posts one
        message whose `total` is the batch size captured at the start, and
        reschedules exactly when the worker is still running. */
    method Loop(draws: seq<Point>) returns (posted: Option<BatchResult>, reschedule: bool)
      requires batchSize <= |draws|
      ensures !isRunning ==> posted == None && !reschedule
      ensures isRunning ==> posted.Some? && posted.value.total == batchSize
      ensures isRunning ==> posted.value.inside == CountInside(draws[..Max0(batchSize)])
      ensures reschedule == isRunning
    {
      if !isRunning {
        return None, false;
      }
      var inside := 0;
      var total := batchSize;
      var i := 0;
      while i < total
        invariant 0 <= i <= Max0(total)
        invariant inside == CountInside(draws[..i])
      {
        if InDisk(draws[i]) {
          inside := inside + 1;
        }
        CountInsidePrefix(draws, i);
        i := i + 1;
      }
      posted := Some(BatchResult(inside, total));
      reschedule := isRunning;
    }
  }
}
