/**
 * The waterfall stepping test (resources/waterfall_display_optimizer.py):
 * it lowers a 30 dB display window seven times by 7 dB, asks for a
 * screenshot, and restores the default window; on any failure it restores
 * the defaults over a fresh connection.
 */
module DisplayStepping {
  import opened Wrappers
  import WaterfallOptimizer

  type Command = WaterfallOptimizer.Command

  const DefaultMinDb := -85
  const DefaultMaxDb := -55
  const Steps := 7
  const DbStep := 7
  const DbRange := 30
  const BaseMinDb := -70

  /** calculate_db_range: the window for one step, as (min, max). */
  function CalculateDbRange(step: int): (r: (int, int))
    ensures r.1 - r.0 == DbRange
    ensures r.0 == BaseMinDb - DbStep * step
  {
    var minDb := BaseMinDb - step * DbStep;
    (minDb, minDb + DbRange)
  }

  /** Step 0 starts at (-70, -40) and each step lowers both bounds by exactly 7 dB. */
  lemma SteppingDown(step: int)
    ensures CalculateDbRange(0) == (-70, -40)
    ensures CalculateDbRange(step + 1).0 == CalculateDbRange(step).0 - 7
    ensures CalculateDbRange(step + 1).1 == CalculateDbRange(step).1 - 7
  {
  }

  /** The two writes that set one window, minimum first. */
  function SetWindow(minDb: int, maxDb: int): seq<Command>
  {
    [WaterfallOptimizer.Set("WF_MIN_DB", minDb as real), WaterfallOptimizer.Set("WF_MAX_DB", maxDb as real)]
  }

  /** The writes of the first `n` steps. */
  function StepWrites(n: nat): (r: seq<Command>)
    ensures |r| == 2 * n
  {
    if n == 0 then [] else
      var (minDb, maxDb) := CalculateDbRange(n - 1);
      StepWrites(n - 1) + SetWindow(minDb, maxDb)
  }

  const Screenshot: Command := WaterfallOptimizer.Send("SCREENSHOT")

  /** Everything test_stepping sends when nothing fails. */
  function Schedule(): seq<Command>
  {
    StepWrites(Steps) + [Screenshot] + SetWindow(DefaultMinDb, DefaultMaxDb)
  }

  /** The k-th step's two writes sit at positions 2k and 2k+1 of the schedule. */
  lemma {:induction false} StepWritesAt(n: nat, k: nat)
    requires k < n
    ensures StepWrites(n)[2 * k] == WaterfallOptimizer.Set("WF_MIN_DB", CalculateDbRange(k).0 as real)
    ensures StepWrites(n)[2 * k + 1] == WaterfallOptimizer.Set("WF_MAX_DB", CalculateDbRange(k).1 as real)
  {
    if k < n - 1 {
      StepWritesAt(n - 1, k);
    }
  }

  /**
   * The schedule: steps 0..6 as 30 dB windows from (-70, -40) down to
   * (-112, -82), then the screenshot, then the default window (-85, -55).
   */
  lemma ScheduleShape()
    ensures |Schedule()| == 2 * Steps + 3
    ensures forall k :: 0 <= k < Steps ==>
              && Schedule()[2 * k] == WaterfallOptimizer.Set("WF_MIN_DB", CalculateDbRange(k).0 as real)
              && Schedule()[2 * k + 1] == WaterfallOptimizer.Set("WF_MAX_DB", CalculateDbRange(k).1 as real)
    ensures Schedule()[2 * Steps - 2..2 * Steps] == SetWindow(-112, -82)
    ensures Schedule()[2 * Steps] == Screenshot
    ensures Schedule()[2 * Steps + 1..] == SetWindow(-85, -55)
    ensures DefaultMaxDb - DefaultMinDb == DbRange
  {
    forall k | 0 <= k < Steps
      ensures Schedule()[2 * k] == WaterfallOptimizer.Set("WF_MIN_DB", CalculateDbRange(k).0 as real)
      ensures Schedule()[2 * k + 1] == WaterfallOptimizer.Set("WF_MAX_DB", CalculateDbRange(k).1 as real)
    {
      StepWritesAt(Steps, k);
    }
    StepWritesAt(Steps, Steps - 1);
  }

  /** The outcome dictionary: the restored window and, on success, the screenshot path. */
  datatype SteppingResult = SteppingResult(minDb: int, maxDb: int, screenshot: Option<string>)

  /**
   * test_stepping. `failsAt` is the position in the schedule of the first
   * exchange that raises, if any; the restoring writes of the failure path
   * are taken to succeed.
   */
  method TestStepping(screenshotPath: string, failsAt: Option<nat>) returns (sent: seq<Command>, result: SteppingResult)
    ensures failsAt.None? || failsAt.value >= |Schedule()| ==>
              sent == Schedule() && result == SteppingResult(DefaultMinDb, DefaultMaxDb, Some(screenshotPath))
    ensures failsAt.Some? && failsAt.value < |Schedule()| ==>
              sent == Schedule()[..failsAt.value + 1] + SetWindow(DefaultMinDb, DefaultMaxDb)
              && result == SteppingResult(DefaultMinDb, DefaultMaxDb, None)
  {
    var fail := if failsAt.Some? then failsAt.value else |Schedule()|;
    sent := SendSteps(Steps, fail);
    ghost var steps := StepWrites(Steps);
    assert Schedule() == steps + [Screenshot] + SetWindow(DefaultMinDb, DefaultMaxDb);
    if |sent| <= fail {
      sent := sent + [Screenshot];
    }
    if |sent| <= fail {
      sent := sent + [WaterfallOptimizer.Set("WF_MIN_DB", DefaultMinDb as real)];
    }
    if |sent| <= fail {
      sent := sent + [WaterfallOptimizer.Set("WF_MAX_DB", DefaultMaxDb as real)];
    }
    if |sent| <= fail {
      assert sent == Schedule();
      result := SteppingResult(DefaultMinDb, DefaultMaxDb, Some(screenshotPath));
      return;
    }
    sent := sent + SetWindow(DefaultMinDb, DefaultMaxDb);
    result := SteppingResult(DefaultMinDb, DefaultMaxDb, None);
  }

  /**
   * The stepping loop of test_stepping over `n` steps: the writes of each
   * step in order, stopping after the write at position `fail`.
   */
  method SendSteps(n: nat, fail: nat) returns (sent: seq<Command>)
    ensures |sent| == if fail < 2 * n then fail + 1 else 2 * n
    ensures sent == StepWrites(n)[..|sent|]
  {
    sent := [];
    var step := 0;
    while step < n && |sent| <= fail
      invariant 0 <= step <= n
      invariant |sent| <= 2 * step && |sent| <= fail + 1
      invariant sent == StepWrites(n)[..|sent|]
      invariant |sent| <= fail ==> |sent| == 2 * step
    {
      var (minDb, maxDb) := CalculateDbRange(step);
      StepWritesAt(n, step);
      sent := sent + [WaterfallOptimizer.Set("WF_MIN_DB", minDb as real)];
      if |sent| <= fail {
        sent := sent + [WaterfallOptimizer.Set("WF_MAX_DB", maxDb as real)];
      }
      step := step + 1;
    }
  }

  /** Whatever fails, the last thing test_stepping sends is the default 30 dB window. */
  lemma DefaultsAlwaysRestored(sent: seq<Command>, failsAt: Option<nat>)
    requires failsAt.None? || failsAt.value >= |Schedule()| ==> sent == Schedule()
    requires failsAt.Some? && failsAt.value < |Schedule()| ==>
               sent == Schedule()[..failsAt.value + 1] + SetWindow(DefaultMinDb, DefaultMaxDb)
    ensures |sent| >= 2 && sent[|sent| - 2..] == SetWindow(-85, -55)
  {
    ScheduleShape();
  }
}
