/** The page's run controller and aggregator (script.js) as a pure state
    machine: one function per event handler, giving the module-level state
    after the handler. The class in controller.dfy is proved against these
    functions; the lemmas here state what the handlers promise. */
module RunState {
  import opened Options
  import opened Sampling
  import opened Worker
  import opened TimeFormat

  /** A spawned worker, seen from the page: the commands posted to it. */
  datatype Handle = Handle(sent: seq<Command>)

  /** The module-level variables of script.js that the handlers update. */
  datatype State = State(
    running: bool,
    totalPoints: int,
    insidePoints: int,
    startTime: int,
    pointsThisSecond: int,
    lastPpsCheck: int,
    lastUiUpdate: int,
    batchSize: int,
    durationSeconds: int,
    ppsSum: int,
    ppsSamples: int,
    workers: seq<Handle>)

  /** The state at page load, with the batch size read from its input. */
  function Initial(batchSize: int): State {
    State(false, 0, 0, 0, 0, 0, 0, batchSize, 0, 0, 0, [])
  }

  /** The invariant every handler keeps: the counters are consistent and
      workers exist only during a run. */
  predicate Inv(s: State) {
    && 0 <= s.insidePoints <= s.totalPoints
    && (!s.running ==> s.workers == [])
  }

  /** `handleWorkerMessage`: a result is counted only while running. */
  function AfterMessage(s: State, r: BatchResult): State {
    if !s.running then s
    else s.(totalPoints := s.totalPoints + r.total,
            insidePoints := s.insidePoints + r.inside,
            pointsThisSecond := s.pointsThisSecond + r.total)
  }

  /** Results delivered one event at a time, in the order given. */
  function AfterMessages(s: State, rs: seq<BatchResult>): State
    decreases |rs|
  {
    if rs == [] then s else AfterMessages(AfterMessage(s, rs[0]), rs[1..])
  }

  /** `n` fresh workers, each sent `start` with the batch size `b`. */
  function Spawn(n: nat, b: int): seq<Handle> {
    seq(n, _ => Handle([Start(b)]))
  }

  /** Posts `c` to every worker in `ws`. */
  function Broadcast(ws: seq<Handle>, c: Command): (r: seq<Handle>)
    ensures |r| == |ws|
    ensures forall i :: 0 <= i < |ws| ==> r[i].sent == ws[i].sent + [c]
  {
    if ws == [] then [] else [Handle(ws[0].sent + [c])] + Broadcast(ws[1..], c)
  }

  /** A start with no points and no start time begins a fresh run. */
  predicate IsFresh(s: State) {
    s.startTime == 0 && s.totalPoints == 0
  }

  /** The start button, clicked at time `now` with the thread and duration
      inputs reading `threads` and `duration`. */
  function AfterStart(s: State, now: int, threads: int, duration: int): State {
    if s.running then s
    else
      var s1 := s.(durationSeconds := duration, running := true);
      var s2 :=
        if IsFresh(s) then s1.(startTime := now, lastPpsCheck := now, ppsSum := 0, ppsSamples := 0)
        else s1.(lastPpsCheck := now, pointsThisSecond := 0);
      s2.(workers := Spawn(Max0(threads), s.batchSize))
  }

  /** The stop button: workers are terminated, the counters are kept. */
  function AfterStop(s: State): State {
    s.(running := false, workers := [])
  }

  /** The reset button: a stop that also zeroes the counters and clears the
      start time. */
  function AfterReset(s: State): State {
    s.(running := false, workers := [],
       totalPoints := 0, insidePoints := 0, startTime := 0,
       pointsThisSecond := 0, ppsSum := 0, ppsSamples := 0)
  }

  /** The batch-size input: stored always, forwarded to the workers only
      while running. */
  function AfterBatchInput(s: State, v: int): State {
    s.(batchSize := v,
       workers := if s.running then Broadcast(s.workers, UpdateBatch(v)) else s.workers)
  }

  /** The counting part of one visual frame over the draws `ps`. */
  function AfterSampling(s: State, ps: seq<Point>): State {
    s.(totalPoints := s.totalPoints + |ps|,
       insidePoints := s.insidePoints + CountInside(ps),
       pointsThisSecond := s.pointsThisSecond + |ps|)
  }

  /** The duration test of `updateStats` at time `t`. */
  predicate DurationElapsed(s: State, t: int) {
    s.durationSeconds > 0 && t - s.startTime >= s.durationSeconds * 1000
  }

  /** `finishBenchmark`'s state changes. */
  function AfterFinish(s: State): State {
    s.(running := false, workers := [])
  }

  /** The thread count `finishBenchmark` reports: the live workers, or the
      thread input when there are none. */
  function UsedThreads(s: State, threadSetting: int): int {
    if |s.workers| > 0 then |s.workers| else threadSetting
  }

  /** `updateStats` at time `t`: nothing while no point has been counted,
      otherwise a finish when the duration has elapsed. */
  function AfterStatsCheck(s: State, t: int): State {
    if s.totalPoints == 0 then s
    else if DurationElapsed(s, t) then AfterFinish(s)
    else s
  }

  /** What `updateStats` shows besides the float statistics: the timer text,
      and the thread count when the run finishes. */
  datatype Report = Report(timer: string, usedThreads: Option<int>)

  function StatsReport(s: State, t: int, threadSetting: int): Option<Report> {
    if s.totalPoints == 0 then None
    else Some(Report(FormatTime(t - s.startTime),
                     if DurationElapsed(s, t) then Some(UsedThreads(s, threadSetting)) else None))
  }

  /** One animation frame at time `t`: sample, then every 100 ms check the
      stats (and possibly finish), then every 1000 ms restart the points-per-
      second window. */
  function AfterFrame(s: State, t: int, ps: seq<Point>): State {
    if !s.running then s
    else
      var s1 := AfterSampling(s, ps);
      var s2 := if t - s1.lastUiUpdate > 100 then AfterStatsCheck(s1, t).(lastUiUpdate := t) else s1;
      if t - s2.lastPpsCheck > 1000 then s2.(pointsThisSecond := 0, lastPpsCheck := t) else s2
  }

  function FrameReport(s: State, t: int, ps: seq<Point>, threadSetting: int): Option<Report> {
    if !s.running then None
    else
      var s1 := AfterSampling(s, ps);
      if t - s1.lastUiUpdate > 100 then StatsReport(s1, t, threadSetting) else None
  }

  /** Everything that can happen to the page's state, one event at a time. */
  datatype Event =
    | WorkerMessage(result: BatchResult)
    | StartClick(now: int, threads: int, duration: int)
    | StopClick
    | ResetClick
    | BatchSizeInput(size: int)
    | AnimationFrame(timestamp: int, draws: seq<Point>)

  function Step(s: State, e: Event): State {
    match e
    case WorkerMessage(r) => AfterMessage(s, r)
    case StartClick(now, threads, duration) => AfterStart(s, now, threads, duration)
    case StopClick => AfterStop(s)
    case ResetClick => AfterReset(s)
    case BatchSizeInput(v) => AfterBatchInput(s, v)
    case AnimationFrame(t, ps) => AfterFrame(s, t, ps)
  }

  function Run(s: State, es: seq<Event>): State
    decreases |es|
  {
    if es == [] then s else Run(Step(s, es[0]), es[1..])
  }

  /** Every worker message among `es` carries `0 <= inside <= total`. */
  predicate HonestMessages(es: seq<Event>) {
    forall i :: 0 <= i < |es| ==> es[i].WorkerMessage? ==> WellFormed(es[i].result)
  }

  // ---------------------------------------------------------------------
  // Merging worker results

  /** Delivering results one at a time is the same as delivering their sum
      at once: while running it adds the summed totals and insides, while
      stopped it changes nothing. */
  lemma {:induction false} AfterMessagesIsSum(s: State, rs: seq<BatchResult>)
    ensures AfterMessages(s, rs) == AfterMessage(s, Combine(rs))
    ensures s.running ==>
      AfterMessages(s, rs) == s.(totalPoints := s.totalPoints + Combine(rs).total,
                                 insidePoints := s.insidePoints + Combine(rs).inside,
                                 pointsThisSecond := s.pointsThisSecond + Combine(rs).total)
    ensures !s.running ==> AfterMessages(s, rs) == s
    decreases |rs|
  {
    if rs != [] {
      AfterMessagesIsSum(AfterMessage(s, rs[0]), rs[1..]);
    }
  }

  /** The final counters do not depend on the order results arrive in. */
  lemma MessageOrderIrrelevant(s: State, rs: seq<BatchResult>, qs: seq<BatchResult>)
    requires multiset(rs) == multiset(qs)
    ensures AfterMessages(s, rs) == AfterMessages(s, qs)
  {
    AfterMessagesIsSum(s, rs);
    AfterMessagesIsSum(s, qs);
    CombinePermutation(rs, qs);
  }

  /** Two results commute. */
  lemma MessagesCommute(s: State, a: BatchResult, b: BatchResult)
    ensures AfterMessage(AfterMessage(s, a), b) == AfterMessage(AfterMessage(s, b), a)
  {
  }

  /** A well-formed result keeps the invariant, and so does any sequence of
      them. */
  lemma MessagesKeepInv(s: State, rs: seq<BatchResult>)
    requires Inv(s)
    requires forall i :: 0 <= i < |rs| ==> WellFormed(rs[i])
    ensures Inv(AfterMessages(s, rs))
  {
    AfterMessagesIsSum(s, rs);
    CombineWellFormed(rs);
  }

  /** A result that arrives after stop, reset or a finish is dropped. */
  lemma LateResultIgnored(s: State, r: BatchResult)
    ensures AfterMessage(AfterStop(s), r) == AfterStop(s)
    ensures AfterMessage(AfterReset(s), r) == AfterReset(s)
    ensures AfterMessage(AfterFinish(s), r) == AfterFinish(s)
  {
  }

  // ---------------------------------------------------------------------
  // Start, stop, reset, batch size

  /** Start is a no-op while running. Otherwise it runs with `durationSeconds`
      from the input and one worker per thread, each sent `start` with the
      current batch size; a fresh start sets the start time and the pps
      window to `now`, a resumed one keeps the totals and start time and
      restarts only the pps window. */
  lemma StartEffect(s: State, now: int, threads: int, duration: int)
    ensures s.running ==> AfterStart(s, now, threads, duration) == s
    ensures var t := AfterStart(s, now, threads, duration);
      !s.running ==>
        && t.running && t.durationSeconds == duration && t.lastPpsCheck == now
        && |t.workers| == Max0(threads)
        && (forall i :: 0 <= i < |t.workers| ==> t.workers[i].sent == [Start(s.batchSize)])
        && t.totalPoints == s.totalPoints && t.insidePoints == s.insidePoints
        && t.batchSize == s.batchSize
        && (IsFresh(s) ==> t.startTime == now && t.ppsSum == 0 && t.ppsSamples == 0
                           && t.pointsThisSecond == s.pointsThisSecond)
        && (!IsFresh(s) ==> t.startTime == s.startTime && t.pointsThisSecond == 0
                            && t.ppsSum == s.ppsSum && t.ppsSamples == s.ppsSamples)
  {
  }

  /** Stopping and starting again a run that is not fresh (it has a start
      time or has counted points) keeps the totals and the start time, so
      elapsed time keeps running across the pause. */
  lemma ResumeKeepsTotals(s: State, now: int, threads: int, duration: int)
    requires !IsFresh(s)
    ensures var t := AfterStart(AfterStop(s), now, threads, duration);
      t.running && t.totalPoints == s.totalPoints && t.insidePoints == s.insidePoints
      && t.startTime == s.startTime
  {
  }

  /** Reset zeroes the counters whatever came before, and a second reset
      changes nothing. */
  lemma ResetEffect(s: State)
    ensures var t := AfterReset(s);
      && !t.running && t.workers == []
      && t.totalPoints == 0 && t.insidePoints == 0 && t.startTime == 0
      && t.pointsThisSecond == 0 && t.ppsSum == 0 && t.ppsSamples == 0
      && t.batchSize == s.batchSize && t.durationSeconds == s.durationSeconds
      && IsFresh(t) && Inv(t)
    ensures AfterReset(AfterReset(s)) == AfterReset(s)
  {
  }

  /** Stop touches nothing but the run flag and the workers. */
  lemma StopEffect(s: State)
    ensures var t := AfterStop(s);
      !t.running && t.workers == [] && t == s.(running := false, workers := [])
      && t.totalPoints == s.totalPoints && t.insidePoints == s.insidePoints
  {
  }

  /** The batch size always changes; `update_batch` reaches every worker when
      running and no command is sent otherwise. */
  lemma BatchInputEffect(s: State, v: int)
    ensures var t := AfterBatchInput(s, v);
      && t.batchSize == v && |t.workers| == |s.workers|
      && (s.running ==> forall i :: 0 <= i < |s.workers| ==> t.workers[i].sent == s.workers[i].sent + [UpdateBatch(v)])
      && (!s.running ==> t.workers == s.workers)
      && t.(batchSize := s.batchSize, workers := s.workers) == s
  {
  }

  // ---------------------------------------------------------------------
  // Frames and the timed finish

  /** The stats check finishes the run exactly when a point has been counted
      and the duration has elapsed; so the final statistics never divide by a
      zero point count. */
  lemma AutoFinishIff(s: State, t: int)
    requires s.running
    ensures !AfterStatsCheck(s, t).running <==> s.totalPoints != 0 && DurationElapsed(s, t)
    ensures !AfterStatsCheck(s, t).running ==> AfterStatsCheck(s, t) == AfterFinish(s) && s.totalPoints != 0
    ensures AfterStatsCheck(s, t).running ==> AfterStatsCheck(s, t) == s
  {
  }

  /** A run with an unlimited duration (0) never finishes by itself. */
  lemma UnboundedRunNeverFinishes(s: State, t: int)
    requires s.running && s.durationSeconds == 0
    ensures AfterStatsCheck(s, t) == s
  {
  }

  /** Resuming a timed run without a reset keeps the old start time, so when
      the duration read at the restart, `d`, is already used up, the first
      stats check after the restart finishes the run again. */
  lemma RestartAfterTimeoutFinishesAgain(s: State, now: int, threads: int, d: int, t: int)
    requires !s.running && s.totalPoints > 0
    requires d > 0 && now - s.startTime >= d * 1000 && t >= now
    ensures !AfterStatsCheck(AfterStart(s, now, threads, d), t).running
  {
  }

  /** The same restart with a duration input of 0, or one raised past the
      time elapsed since the old start, keeps running through the check. */
  lemma RestartWithLongerDurationKeepsRunning(s: State, now: int, threads: int, d: int, t: int)
    requires !s.running && s.totalPoints > 0
    requires d <= 0 || t - s.startTime < d * 1000
    ensures AfterStatsCheck(AfterStart(s, now, threads, d), t).running
  {
  }

  /** A frame while running counts its draws (and only a frame can finish a
      run); a frame while stopped changes nothing. */
  lemma FrameEffect(s: State, t: int, ps: seq<Point>)
    ensures !s.running ==> AfterFrame(s, t, ps) == s
    ensures var f := AfterFrame(s, t, ps);
      s.running ==>
        && f.totalPoints == s.totalPoints + |ps|
        && f.insidePoints == s.insidePoints + CountInside(ps)
        && f.batchSize == s.batchSize
        && (f.running <==> !(t - s.lastUiUpdate > 100 && s.totalPoints + |ps| != 0 && DurationElapsed(s, t)))
  {
  }

  /** The invariant holds after any frame. */
  lemma FrameKeepsInv(s: State, t: int, ps: seq<Point>)
    requires Inv(s)
    ensures Inv(AfterFrame(s, t, ps))
  {
  }

  // ---------------------------------------------------------------------
  // Whole runs

  lemma StepKeepsInv(s: State, e: Event)
    requires Inv(s)
    requires e.WorkerMessage? ==> WellFormed(e.result)
    ensures Inv(Step(s, e))
  {
    if e.AnimationFrame? {
      FrameKeepsInv(s, e.timestamp, e.draws);
    }
  }

  /** `0 <= insidePoints <= totalPoints`, and workers only while running,
      hold after any sequence of events in which workers post well-formed
      results. */
  lemma {:induction false} RunKeepsInv(s: State, es: seq<Event>)
    requires Inv(s) && HonestMessages(es)
    ensures Inv(Run(s, es))
    decreases |es|
  {
    if es != [] {
      StepKeepsInv(s, es[0]);
      assert HonestMessages(es[1..]) by {
        forall i | 0 <= i < |es[1..]|
          ensures es[1..][i].WorkerMessage? ==> WellFormed(es[1..][i].result)
        {
          assert es[1..][i] == es[i + 1];
        }
      }
      RunKeepsInv(Step(s, es[0]), es[1..]);
    }
  }

  /** Without a reset, and with well-formed worker results, neither counter
      ever goes down. */
  lemma {:induction false} CountersNeverDecreaseWithoutReset(s: State, es: seq<Event>)
    requires HonestMessages(es)
    requires forall i :: 0 <= i < |es| ==> !es[i].ResetClick?
    ensures Run(s, es).totalPoints >= s.totalPoints
    ensures Run(s, es).insidePoints >= s.insidePoints
    decreases |es|
  {
    if es != [] {
      var rest := es[1..];
      assert HonestMessages(rest) by {
        forall i | 0 <= i < |rest|
          ensures rest[i].WorkerMessage? ==> WellFormed(rest[i].result)
        {
          assert rest[i] == es[i + 1];
        }
      }
      assert forall i :: 0 <= i < |rest| ==> !rest[i].ResetClick? by {
        forall i | 0 <= i < |rest| ensures !rest[i].ResetClick? {
          assert rest[i] == es[i + 1];
        }
      }
      assert !es[0].ResetClick?;
      assert es[0].WorkerMessage? ==> WellFormed(es[0].result);
      CountersNeverDecreaseWithoutReset(Step(s, es[0]), rest);
    }
  }
}
