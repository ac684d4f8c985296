/**
 * The waterfall dB-range heuristic (resources/waterfall_optimizer.py): from
 * the signal strength and the two gains it picks a display window below a
 * reference level, clamps it into [-110, -10] dB, and sends it to the
 * receiver's remote-control port.
 */
module WaterfallOptimizer {
  import opened Wrappers

  const DefaultMinDb := -100.0
  const DefaultMaxDb := -40.0
  const SignalBuffer := 5.0
  const HighGainThreshold := 40.0
  const HighGainAdjustment := -5.0
  const SnrBuffer := 10.0
  const MinRange := 30.0
  const MaxRange := 48.0
  const AbsoluteMinDb := -110.0
  const AbsoluteMaxDb := -10.0

  /** A remote-control exchange: `l NAME`, `L NAME value`, or a raw command line. */
  datatype Command = Get(name: string) | Set(name: string, value: real) | Send(line: string)

  function Min(a: real, b: real): real { if a <= b then a else b }
  function Max(a: real, b: real): real { if a >= b then a else b }

  /** `d.get(key, default)`. */
  function GetOr(d: map<string, real>, key: string, default: real): real
  {
    if key in d then d[key] else default
  }

  /** The window width: SNR plus a buffer, kept within [MinRange, MaxRange]. */
  function RangeDb(peakSignal: real): real
  {
    var noiseFloor := peakSignal - 30.0;
    var snr := peakSignal - noiseFloor;
    Min(MaxRange, Max(MinRange, snr + SnrBuffer))
  }

  /** The top of the window before clamping: the peak plus a buffer, lowered for high gain. */
  function Reference(peakSignal: real, totalGain: real): real
  {
    var reference := peakSignal + SignalBuffer;
    if totalGain > HighGainThreshold then reference + HighGainAdjustment else reference
  }

  /** calculate_optimal_settings: a dictionary with the keys `max_db` and `min_db`. */
  function CalculateOptimalSettings(current: map<string, real>): (settings: map<string, real>)
    ensures settings.Keys == {"max_db", "min_db"}
  {
    var peakSignal := GetOr(current, "strength", -50.0);
    var lnaGain := GetOr(current, "lna_gain", 20.0);
    var vgaGain := GetOr(current, "vga_gain", 20.0);
    var reference := Reference(peakSignal, lnaGain + vgaGain);
    var rangeDb := RangeDb(peakSignal);
    var (minDb, maxDb) := (reference - rangeDb, reference);
    var (minDb, maxDb) := if maxDb > AbsoluteMaxDb then (AbsoluteMaxDb - rangeDb, AbsoluteMaxDb) else (minDb, maxDb);
    var (minDb, maxDb) := if minDb < AbsoluteMinDb then (AbsoluteMinDb, AbsoluteMinDb + rangeDb) else (minDb, maxDb);
    map["max_db" := maxDb, "min_db" := minDb]
  }

  /** The noise floor is estimated 30 dB below the peak, so the SNR is 30 and the range always 40 dB. */
  lemma RangeIsAlwaysForty(peakSignal: real)
    ensures RangeDb(peakSignal) == 40.0
    ensures MinRange <= RangeDb(peakSignal) <= MaxRange
  {
  }

  /**
   * Every result is a 40 dB window inside [-110, -10] dB; when no clamp is
   * needed its top is the reference level (peak + 5, minus 5 more above
   * 40 dB of total gain).
   */
  lemma OptimalWindow(current: map<string, real>)
    ensures var s := CalculateOptimalSettings(current);
            && s["max_db"] - s["min_db"] == 40.0
            && s["max_db"] <= AbsoluteMaxDb
            && s["min_db"] >= AbsoluteMinDb
    ensures var peak := GetOr(current, "strength", -50.0);
            var gain := GetOr(current, "lna_gain", 20.0) + GetOr(current, "vga_gain", 20.0);
            var reference := Reference(peak, gain);
            AbsoluteMinDb + 40.0 <= reference <= AbsoluteMaxDb ==>
              CalculateOptimalSettings(current)["max_db"] == reference
  {
    RangeIsAlwaysForty(GetOr(current, "strength", -50.0));
  }

  /** A strong peak is clamped at the top, a weak one at the bottom. */
  lemma OptimalWindowClamps(current: map<string, real>)
    ensures var peak := GetOr(current, "strength", -50.0);
            var gain := GetOr(current, "lna_gain", 20.0) + GetOr(current, "vga_gain", 20.0);
            var s := CalculateOptimalSettings(current);
            && (Reference(peak, gain) > AbsoluteMaxDb ==> s == map["max_db" := -10.0, "min_db" := -50.0])
            && (Reference(peak, gain) < AbsoluteMinDb + 40.0 ==> s == map["max_db" := -70.0, "min_db" := -110.0])
  {
  }

  /** Missing readings default to strength -50, LNA 20, VGA 20, which give (-85, -45). */
  lemma DefaultReadings()
    ensures CalculateOptimalSettings(map[]) == map["max_db" := -45.0, "min_db" := -85.0]
  {
  }

  /** The gain adjustment applies only strictly above 40 dB of total gain. */
  lemma HighGainIsStrict(peak: real)
    ensures Reference(peak, 40.0) == peak + 5.0
    ensures Reference(peak, 40.5) == peak
  {
  }

  /** How the three `l` reads turned out: all values, or the first failure. */
  function ReadSettings(remote: string -> Result<real, string>): (seq<Command>, Option<map<string, real>>)
  {
    match remote("STRENGTH")
    case Err(_) => ([Get("STRENGTH")], None)
    case Ok(strength) =>
      match remote("LNA_GAIN")
      case Err(_) => ([Get("STRENGTH"), Get("LNA_GAIN")], None)
      case Ok(lna) =>
        match remote("VGA_GAIN")
        case Err(_) => ([Get("STRENGTH"), Get("LNA_GAIN"), Get("VGA_GAIN")], None)
        case Ok(vga) =>
          ([Get("STRENGTH"), Get("LNA_GAIN"), Get("VGA_GAIN")],
           Some(map["strength" := strength, "lna_gain" := lna, "vga_gain" := vga]))
  }

  /**
   * optimize_waterfall: the window it applies (minimum first, then maximum)
   * and the commands it sends. `remote` answers the `l` reads; every `L`
   * write is taken to be acknowledged.
   */
  function OptimizeWaterfall(minDb: Option<real>, maxDb: Option<real>, remote: string -> Result<real, string>)
    : (r: (seq<Command>, map<string, real>))
    ensures r.1.Keys == {"min_db", "max_db"}
    ensures |r.0| >= 2 && r.0[|r.0| - 2..] == [Set("WF_MIN_DB", r.1["min_db"]), Set("WF_MAX_DB", r.1["max_db"])]
  {
    var (queries, settings) :=
      if minDb.Some? && maxDb.Some? then ([], map["min_db" := minDb.value, "max_db" := maxDb.value])
      else
        var (queries, current) := ReadSettings(remote);
        if current.None? then (queries, map["min_db" := DefaultMinDb, "max_db" := DefaultMaxDb])
        else (queries, CalculateOptimalSettings(current.value));
    (queries + [Set("WF_MIN_DB", settings["min_db"]), Set("WF_MAX_DB", settings["max_db"])], settings)
  }

  /**
   * The caller's window is used untouched when both bounds are given; a
   * failed read falls back to (-100, -40); otherwise the heuristic decides.
   */
  lemma OptimizeWaterfallChoice(minDb: Option<real>, maxDb: Option<real>, remote: string -> Result<real, string>)
    ensures var (commands, s) := OptimizeWaterfall(minDb, maxDb, remote);
            minDb.Some? && maxDb.Some? ==>
              s == map["min_db" := minDb.value, "max_db" := maxDb.value] && |commands| == 2
    ensures var (commands, s) := OptimizeWaterfall(minDb, maxDb, remote);
            !(minDb.Some? && maxDb.Some?) && ReadSettings(remote).1.None? ==>
              s == map["min_db" := DefaultMinDb, "max_db" := DefaultMaxDb]
    ensures var (commands, s) := OptimizeWaterfall(minDb, maxDb, remote);
            !(minDb.Some? && maxDb.Some?) && ReadSettings(remote).1.Some? ==>
              && s["max_db"] - s["min_db"] == 40.0
              && AbsoluteMinDb <= s["min_db"] && s["max_db"] <= AbsoluteMaxDb
              && commands[..3] == [Get("STRENGTH"), Get("LNA_GAIN"), Get("VGA_GAIN")]
  {
    if !(minDb.Some? && maxDb.Some?) {
      var current := ReadSettings(remote).1;
      if current.Some? {
        OptimalWindow(current.value);
      }
    }
  }

  /** The reads stop at the first failure; the reading is complete only when all three succeed. */
  lemma ReadsStopAtFirstFailure(remote: string -> Result<real, string>)
    ensures var (commands, current) := ReadSettings(remote);
            && 1 <= |commands| <= 3
            && (current.Some? <==> remote("STRENGTH").Ok? && remote("LNA_GAIN").Ok? && remote("VGA_GAIN").Ok?)
            && (remote("STRENGTH").Err? ==> commands == [Get("STRENGTH")])
  {
  }

  const NotGreaterMessage := "max-db must be greater than min-db"
  const TooNarrowMessage := "Range must be at least 30 dB"

  /**
   * The command-line checks: when both bounds are given they must form a
   * window of at least 30 dB; when only one is given, neither is used.
   */
  function CliRequest(minDb: Option<real>, maxDb: Option<real>): (r: Result<(Option<real>, Option<real>), string>)
    ensures r.Ok? && r.value.0.Some? ==> r.value.1.Some? && r.value.1.value - r.value.0.value >= MinRange
    ensures r.Err? <==> minDb.Some? && maxDb.Some? && maxDb.value - minDb.value < MinRange
    ensures r.Ok? && !(minDb.Some? && maxDb.Some?) ==> r.value == (None, None)
  {
    if minDb.Some? && maxDb.Some? then
      if maxDb.value <= minDb.value then Err(NotGreaterMessage)
      else if maxDb.value - minDb.value < MinRange then Err(TooNarrowMessage)
      else Ok((minDb, maxDb))
    else Ok((None, None))
  }

  /** The order check comes first: an inverted window reports it, not the width. */
  lemma CliOrderFirst(minDb: real, maxDb: real)
    requires maxDb <= minDb
    ensures CliRequest(Some(minDb), Some(maxDb)) == Err(NotGreaterMessage)
  {
  }
}
