# π benchmark: run controller, aggregator, worker and timer in Dafny

This project models the sequential bookkeeping of a browser Monte Carlo π
benchmark. Background workers each run batches of random draws in
[-1, 1]² and post `{inside, total}` for every batch. The page merges those
results into running totals. The page also samples 5000 draws per animation
frame itself, counting them and plotting them into a pixel buffer. It
starts, stops, resets and times the run.

Randomness, timestamps and the page's inputs are parameters. Worker
messages arrive one event at a time, as JavaScript delivers them.

Modules:

- `Sampling`: a draw (`Point`), the closed unit disk (`InDisk`), the
  in-disk count (`CountInside`), the posted message (`BatchResult`), and
  the sum of a sequence of results (`Combine`).
- `Worker`: worker.js (and its identical inlined copy at script.js:66-110),
  as class `PiWorker` with fields `isRunning` and `batchSize`.
  - `OnMessage` handles `start`, `stop` and `update_batch`.
  - `Loop` runs one batch. It returns the posted message and whether the
    next batch is scheduled.
- `TimeFormat`: `formatTime` as a pure function, plus a reader for
  `h:mm:ss` that the round-trip lemma uses.
- `PixelBuffer`: the 32-bit pixel type, the colour constants, the draw to
  pixel-index mapping, and `Paint`, which gives the buffer after a frame's
  bounds-guarded writes.
- `RunState`: script.js's module-level state as a datatype.
  - One function per handler gives the state after that handler
    (`AfterMessage`, `AfterStart`, `AfterStop`, `AfterReset`,
    `AfterBatchInput`, `AfterSampling`, `AfterStatsCheck`, `AfterFinish`,
    `AfterFrame`).
  - `Step` and `Run` cover any sequence of events.
  - The lemmas state what the handlers promise.
- `Controller`: class `Benchmark`, whose fields are the same variables and
  whose pixel buffer is an `array`. Each handler is a method. Each method's
  postcondition ties the new fields to the matching `RunState` function,
  and the buffer to `Paint`.

A worker handle on the page side is the list of commands posted to it.
Terminating the workers empties the page's `workers` list.

Behaviour of the code worth knowing (modelled as written):

- No input is validated. A negative thread count spawns no workers. A
  negative batch size makes a worker post `{inside: 0, total: n}` with
  `n < 0`.
- A fresh start (`startTime == 0 && totalPoints == 0`) does not zero
  `pointsThisSecond`. Only a resumed start does.
- The page never posts `stop` to a worker. Stop, reset and the timed
  finish all terminate the workers.
- A worker's `start` has no already-running guard. A second `start` runs
  another batch and reschedules again.
- A timed run that has finished and is started again without a reset keeps
  its old start time. Start re-reads the duration input. Unless that input
  was set to 0 or raised past the time already elapsed, the next stats check
  finishes the run at once (`RestartAfterTimeoutFinishesAgain`).
- `updateStats` does nothing while `totalPoints` is 0. So the final
  statistics, which divide by `totalPoints`, are only computed with at least
  one point (`AutoFinishIff`).

## Model

| member | source | states |
|---|---|---|
| `Sampling.CountInside` | worker.js:27-37 | the number of in-disk draws of a batch never exceeds the number of draws |
| `Sampling.CountInsideAll` | worker.js:34-36 | every draw is counted iff every draw lies in the disk |
| `Sampling.CountInsideNone` | worker.js:34-36 | no draw is counted iff no draw lies in the disk |
| `Sampling.BoundaryCountsAsInside` | worker.js:34 | draws exactly on the unit circle are counted as inside (x²+y² ≤ 1, closed disk) |
| `Sampling.BatchBounds` | worker.js:24-44 | a batch of size n ≥ 0 posts total = n and 0 ≤ inside ≤ total; size 0 posts {0, 0} |
| `Sampling.CombinePermutation` | script.js:119-121 | the summed (inside, total) of a set of results does not depend on their order |
| `Sampling.CombineWellFormed` | script.js:119-120 | a sum of results with 0 ≤ inside ≤ total has 0 ≤ inside ≤ total |
| `Worker.PiWorker.constructor` | worker.js:2-3 | a new worker is not running and has batch size 10000 |
| `Worker.PiWorker.OnMessage` | worker.js:5-18 | start sets isRunning and batchSize, with no running guard, and runs a batch at once; stop clears isRunning only; update_batch sets batchSize only; other commands change nothing and post nothing |
| `Worker.PiWorker.Loop` | worker.js:20-52 | stopped: posts nothing, schedules nothing; running: posts exactly one message whose total is the batch size at batch start and whose inside is the in-disk count of the draws made, and reschedules iff still running |
| `TimeFormat.DecimalRoundTrip` | script.js:151 | an integer's decimal `toString` reads back as that integer |
| `TimeFormat.FieldRoundTrip` | script.js:151 | a padded field has at least two digits, exactly two below 100, is never truncated and reads back as its value |
| `TimeFormat.FormatTimeRoundTrip` | script.js:144-152 | formatTime's output parses as h:mm:ss with mm, ss < 60 and h·3600 + mm·60 + ss = ⌊ms/1000⌋, or 0 for negative ms |
| `TimeFormat.ClockDeterminedBySeconds` | script.js:146-150 | fields with minutes and seconds below 60 are fixed by their total seconds, so formatTime's fields are the only possible ones |
| `PixelBuffer.Paint` | script.js:171-193 | a frame's writes never change the buffer's length |
| `PixelBuffer.PaintUntouched` | script.js:184-192 | a cell no draw maps to keeps its value; out-of-range indices write nothing |
| `PixelBuffer.PaintLastWrite` | script.js:187-192 | an in-range cell ends with the colour (inside or outside) of the last draw mapped to it |
| `PixelBuffer.PaintCellOrigin` | script.js:187-192 | every cell ends with its old value or the colour of a draw mapped to it |
| `RunState.Broadcast` | script.js:446-448 | posting a command to every worker appends it to each worker's commands and keeps the worker count |
| `RunState.AfterMessagesIsSum` | script.js:115-124 | delivering results one by one adds their summed total to totalPoints and pointsThisSecond and their summed inside to insidePoints while running, and changes nothing while stopped |
| `RunState.MessageOrderIrrelevant` | script.js:115-124 | the state after a set of worker results does not depend on their arrival order |
| `RunState.MessagesCommute` | script.js:115-124 | any two worker results commute |
| `RunState.MessagesKeepInv` | script.js:119-120 | merging results with inside ≤ total keeps 0 ≤ insidePoints ≤ totalPoints |
| `RunState.LateResultIgnored` | script.js:116 | a result arriving after stop, reset or finish changes nothing |
| `RunState.StartEffect` | script.js:355-386 | start is a no-op while running; otherwise it runs with the duration input and spawns max(0, threads) workers, each sent start with the current batch size; a fresh start sets startTime and lastPpsCheck and zeroes ppsSum and ppsSamples; a resumed one keeps totals and startTime, sets lastPpsCheck and zeroes pointsThisSecond |
| `RunState.ResumeKeepsTotals` | script.js:367-376 | stop followed by start of a non-fresh run (startTime set or points counted) keeps totalPoints, insidePoints and startTime |
| `RunState.ResetEffect` | script.js:402-416 | reset stops, empties the workers, zeroes the counters, startTime and pps sums, keeps the batch size, and is idempotent |
| `RunState.StopEffect` | script.js:392-400 | stop clears isRunning and the workers and touches nothing else |
| `RunState.BatchInputEffect` | script.js:444-448 | the batch size always changes; update_batch reaches every worker iff running; nothing else changes |
| `RunState.AutoFinishIff` | script.js:310-319 | a running stats check finishes iff totalPoints ≠ 0, durationSeconds > 0 and elapsed ≥ durationSeconds·1000, so the final division never sees 0 points |
| `RunState.UnboundedRunNeverFinishes` | script.js:316 | with duration 0 the stats check never finishes a run |
| `RunState.RestartAfterTimeoutFinishesAgain` | script.js:310-317 | restarting a run with counted points without reset, with a duration input d > 0 that the time since the old start already reaches, finishes it at the next stats check (not so if the input is 0 or was raised past the elapsed time) |
| `RunState.RestartWithLongerDurationKeepsRunning` | script.js:359 | the same restart with a duration input of 0, or one exceeding the time since the old start, is not finished by the stats check |
| `RunState.FrameEffect` | script.js:155-221 | a stopped frame changes nothing; a running frame adds its draws to totalPoints and its in-disk count to insidePoints, and ends the run iff its stats check fires with points counted and the duration elapsed |
| `RunState.FrameKeepsInv` | script.js:179-180 | a frame keeps 0 ≤ insidePoints ≤ totalPoints and no workers while stopped |
| `RunState.StepKeepsInv` | script.js:115-448 | every single handler keeps the invariant, given a well-formed worker result |
| `RunState.RunKeepsInv` | script.js:115-448 | any sequence of handler events with well-formed worker results keeps 0 ≤ insidePoints ≤ totalPoints and no workers while stopped |
| `RunState.CountersNeverDecreaseWithoutReset` | script.js:115-448 | without a reset, neither counter ever goes down |
| `Controller.Benchmark.constructor` | script.js:39-62 | page load: zeroed counters, not running, no workers, batch size from the input, buffer filled with opaque black |
| `Controller.Benchmark.HandleWorkerMessage` | script.js:115-124 | the fields change exactly as AfterMessage says |
| `Controller.Benchmark.StartClicked` | script.js:355-390 | the fields change exactly as AfterStart says, the workers spawned in a loop; an animation frame is requested iff the click was not ignored |
| `Controller.Benchmark.StopClicked` | script.js:392-400 | the fields change exactly as AfterStop says |
| `Controller.Benchmark.ResetClicked` | script.js:402-429 | the fields change exactly as AfterReset says, and every buffer cell is black |
| `Controller.Benchmark.ClearCanvas` | script.js:429 | fills every buffer cell with opaque black |
| `Controller.Benchmark.BatchInput` | script.js:444-448 | the fields change exactly as AfterBatchInput says, update_batch posted to each worker in a loop |
| `Controller.Benchmark.SampleFrame` | script.js:165-193 | adds exactly 5000 to totalPoints and pointsThisSecond and the in-disk count to insidePoints; the buffer becomes Paint of its old contents, so only in-range cells are written |
| `Controller.Benchmark.FinishBenchmark` | script.js:275-285 | clears isRunning and the workers; reports the worker count, or the thread input when there are no workers |
| `Controller.Benchmark.UpdateStats` | script.js:310-352 | the fields change as AfterStatsCheck says; reports nothing while no point is counted, otherwise formatTime(elapsed) and, on a finish, the thread count |
| `Controller.Benchmark.Loop` | script.js:155-221 | the fields change as AfterFrame says; the buffer is painted only when running; the next frame is requested iff the frame ran |

## Left out

- DOM and canvas presentation: element texts, `putImageData`, the circle outline, colour coding, the results modal, the slider displays, button enabling, the duration and thread input handlers, and the modal close handlers (script.js:456-479).
- Reset's redraw of the circle and its re-capture of `buf` from the canvas (script.js:432-440): the model keeps the same buffer, filled with black. `init()`'s outline (script.js:131-140) is left out the same way.
- Floating-point statistics: the π estimate, error, accuracy, points and frames per second, the final results (script.js:207-217, 288-300, 322-348), and the batch-size label (script.js:450-453). The integer state those blocks update (resetting `pointsThisSecond` and `lastPpsCheck`) is modelled.
- `lastFrameTime` and `dt`: they only feed the frames-per-second figure.
- `Math.random`: each batch's and frame's draws are a `seq<Point>` parameter of real coordinates.
- `PixelBuffer.PixelIndex`: uses exact real arithmetic and `Floor`, not IEEE double rounding.
- `Sampling.InDisk`: the closed-disk test x²+y² ≤ 1 is evaluated exactly over reals, not with IEEE double rounding, so a draw within about 1e-16 of the circle may be classified differently than in JavaScript; "exactly on the unit circle" in `Sampling.BoundaryCountsAsInside` means exact arithmetic.
- Worker creation and termination, Blob URLs, the `postMessage` transport, `setTimeout` and `requestAnimationFrame`. Messages are sequential method calls, a posted message is a returned value, and rescheduling is a returned flag.
- `Worker.PiWorker.OnMessage`: a `start` sent to a running worker starts a second concurrent batch chain in JavaScript; the model shows its first batch and rescheduling, not the interleaving of the two chains.
- `performance.now()`, the animation-frame timestamp and `navigator.hardwareConcurrency`: integer parameters. Fractional milliseconds are not modelled.
- `parseInt` returning `NaN`, and JavaScript numbers beyond exact integers: every count is an unbounded `int`.
- `TimeFormat.DecimalString`: JavaScript's `toString` switches to exponent notation at 10²¹, which this model does not follow (hours that large do not occur).
- `getHardwareInfo` (script.js:252-273): a WebGL call whose only output is a display string.
- `averagePPS`: declared and never updated.
