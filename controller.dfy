/** The page of script.js as an object: its module-level variables become
    fields, its event handlers methods, and the canvas pixel buffer an array
    the visual loop writes in place. Each method is proved to move the fields
    exactly as the matching function of RunState says. Timestamps
    (`performance.now()`, the animation-frame time), the thread and duration
    inputs and the random draws are parameters. */
module Controller {
  import opened Options
  import opened Sampling
  import opened Worker
  import opened TimeFormat
  import opened PixelBuffer
  import opened RunState

  /** Draws the visual loop makes per frame. */
  const VisualBatch := 5000

  class Benchmark {
    var isRunning: bool
    var totalPoints: int
    var insidePoints: int
    var startTime: int
    var pointsThisSecond: int
    var lastPpsCheck: int
    var lastUiUpdateTime: int
    var batchSize: int
    var durationSeconds: int
    var ppsSum: int
    var ppsSamples: int
    var workers: seq<Handle>

    /** Canvas width, used to map a draw to a pixel. */
    const width: nat
    /** The canvas image as 32-bit pixels. */
    const buf: array<Pixel>

    function Snapshot(): State
      reads this
    {
      State(isRunning, totalPoints, insidePoints, startTime, pointsThisSecond,
            lastPpsCheck, lastUiUpdateTime, batchSize, durationSeconds,
            ppsSum, ppsSamples, workers)
    }

    /** Page load: zeroed state, the batch size from its input, and `init()`
        filling the buffer with opaque black. */
    constructor (w: nat, h: nat, initialBatch: int)
      ensures Snapshot() == Initial(initialBatch)
      ensures width == w && fresh(buf) && buf.Length == w * h
      ensures forall k :: 0 <= k < buf.Length ==> buf[k] == Black
    {
      isRunning, totalPoints, insidePoints, startTime := false, 0, 0, 0;
      pointsThisSecond, lastPpsCheck, lastUiUpdateTime := 0, 0, 0;
      batchSize, durationSeconds, ppsSum, ppsSamples := initialBatch, 0, 0, 0;
      workers := [];
      width := w;
      buf := new Pixel[w * h](_ => Black);
    }

    /** `handleWorkerMessage`. */
    method HandleWorkerMessage(r: BatchResult)
      modifies this
      ensures Snapshot() == AfterMessage(old(Snapshot()), r)
    {
      if !isRunning {
        return;
      }
      totalPoints := totalPoints + r.total;
      insidePoints := insidePoints + r.inside;
      pointsThisSecond := pointsThisSecond + r.total;
    }

    /** The start button's click handler; returns whether the first animation
        frame is requested. */
    method StartClicked(now: int, numThreads: int, duration: int) returns (scheduled: bool)
      modifies this
      ensures Snapshot() == AfterStart(old(Snapshot()), now, numThreads, duration)
      ensures scheduled == !old(isRunning)
    {
      if isRunning {
        return false;
      }
      durationSeconds := duration;
      isRunning := true;
      if startTime == 0 && totalPoints == 0 {
        startTime := now;
        lastPpsCheck := startTime;
        ppsSum := 0;
        ppsSamples := 0;
      } else {
        lastPpsCheck := now;
        pointsThisSecond := 0;
      }
      var spawned: seq<Handle> := [];
      var i := 0;
      while i < numThreads
        invariant 0 <= i <= Max0(numThreads)
        invariant spawned == Spawn(i, batchSize)
      {
        spawned := spawned + [Handle([Start(batchSize)])];
        i := i + 1;
      }
      workers := spawned;
      scheduled := true;
    }

    /** The stop button's click handler. */
    method StopClicked()
      modifies this
      ensures Snapshot() == AfterStop(old(Snapshot()))
    {
      isRunning := false;
      workers := [];
    }

    /** The reset button's click handler: a stop, the counters zeroed, and the
        buffer filled with black. */
    method ResetClicked()
      modifies this, buf
      ensures Snapshot() == AfterReset(old(Snapshot()))
      ensures forall k :: 0 <= k < buf.Length ==> buf[k] == Black
    {
      isRunning := false;
      workers := [];
      totalPoints := 0;
      insidePoints := 0;
      startTime := 0;
      pointsThisSecond := 0;
      ppsSum := 0;
      ppsSamples := 0;
      ClearCanvas();
    }

    /** `buf.fill(0xFF000000)`. */
    method ClearCanvas()
      modifies buf
      ensures forall k :: 0 <= k < buf.Length ==> buf[k] == Black
    {
      var i := 0;
      while i < buf.Length
        invariant 0 <= i <= buf.Length
        invariant forall k :: 0 <= k < i ==> buf[k] == Black
      {
        buf[i] := Black;
        i := i + 1;
      }
    }

    /** The batch-size input handler. */
    method BatchInput(v: int)
      modifies this
      ensures Snapshot() == AfterBatchInput(old(Snapshot()), v)
    {
      batchSize := v;
      if isRunning {
        var ws := workers;
        var i := 0;
        while i < |ws|
          invariant 0 <= i <= |ws| && |ws| == |workers|
          invariant forall k :: 0 <= k < i ==> ws[k].sent == workers[k].sent + [UpdateBatch(v)]
          invariant forall k :: i <= k < |ws| ==> ws[k] == workers[k]
        {
          ws := ws[i := Handle(ws[i].sent + [UpdateBatch(v)])];
          i := i + 1;
        }
        assert ws == Broadcast(workers, UpdateBatch(v));
        workers := ws;
      }
    }

    /** The sampling for-loop of the visual `loop`: every draw is counted, and
        plotted when its pixel index lies inside the buffer. */
    method SampleFrame(draws: seq<Point>)
      requires |draws| == VisualBatch
      modifies this, buf
      ensures Snapshot() == AfterSampling(old(Snapshot()), draws)
      ensures buf[..] == Paint(old(buf[..]), draws, width)
    {
      var data := buf;
      var w := width;
      var i := 0;
      while i < VisualBatch
        invariant 0 <= i <= VisualBatch
        invariant Snapshot() == AfterSampling(old(Snapshot()), draws[..i])
        invariant data[..] == Paint(old(buf[..]), draws[..i], w)
      {
        var p := draws[i];
        var isInside := InDisk(p);
        totalPoints := totalPoints + 1;
        if isInside {
          insidePoints := insidePoints + 1;
        }
        pointsThisSecond := pointsThisSecond + 1;
        var index := PixelIndex(p, w);
        if 0 <= index < data.Length {
          data[index] := if isInside then ColorInside else ColorOutside;
        }
        CountInsidePrefix(draws, i);
        PaintPrefix(old(buf[..]), draws, w, i);
        i := i + 1;
      }
      assert draws[..VisualBatch] == draws;
    }

    /** `finishBenchmark`'s state changes; returns the thread count it shows. */
    method FinishBenchmark(threadSetting: int) returns (usedThreads: int)
      modifies this
      ensures Snapshot() == AfterFinish(old(Snapshot()))
      ensures usedThreads == UsedThreads(old(Snapshot()), threadSetting)
    {
      isRunning := false;
      usedThreads := if |workers| > 0 then |workers| else threadSetting;
      workers := [];
    }

    /** `updateStats`: the duration check, and the timer text it shows. */
    method UpdateStats(timestamp: int, threadSetting: int) returns (report: Option<Report>)
      modifies this
      ensures Snapshot() == AfterStatsCheck(old(Snapshot()), timestamp)
      ensures report == StatsReport(old(Snapshot()), timestamp, threadSetting)
    {
      if totalPoints == 0 {
        return None;
      }
      var elapsed := timestamp - startTime;
      var used: Option<int> := None;
      if durationSeconds > 0 && elapsed >= durationSeconds * 1000 {
        var n := FinishBenchmark(threadSetting);
        used := Some(n);
      }
      report := Some(Report(FormatTime(elapsed), used));
    }

    /** The visual `loop` for one animation frame at `timestamp`; returns
        whether the next frame is requested. */
    method Loop(timestamp: int, draws: seq<Point>, threadSetting: int) returns (scheduled: bool, report: Option<Report>)
      requires |draws| == VisualBatch
      modifies this, buf
      ensures Snapshot() == AfterFrame(old(Snapshot()), timestamp, draws)
      ensures report == FrameReport(old(Snapshot()), timestamp, draws, threadSetting)
      ensures scheduled == old(isRunning)
      ensures buf[..] == if old(isRunning) then Paint(old(buf[..]), draws, width) else old(buf[..])
    {
      if !isRunning {
        return false, None;
      }
      SampleFrame(draws);
      report := None;
      if timestamp - lastUiUpdateTime > 100 {
        report := UpdateStats(timestamp, threadSetting);
        lastUiUpdateTime := timestamp;
      }
      if timestamp - lastPpsCheck > 1000 {
        pointsThisSecond := 0;
        lastPpsCheck := timestamp;
      }
      scheduled := true;
    }
  }
}
