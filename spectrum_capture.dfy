/**
 * One-shot spectrum capture (SpectrumCapture in src/qtgui/spectrum_capture.*).
 *
 * The object is idle or capturing. `CaptureRange` checks, in a fixed order,
 * that a receiver is attached, that no capture is running and that the
 * requested range is acceptable; then it marks itself capturing, pulls the
 * receiver's FFT buffer once to prepare and once to extract the data, and
 * reports the outcome. Qt signals are recorded in the `events` log.
 */
module Capture {
  import opened Wrappers
  import opened Framing

  // ---------------------------------------------------------------------
  // Records

  /** SpectrumCapture::CaptureRange: frequencies and rates in Hz. */
  datatype CaptureRange = CaptureRange(startFreq: real, endFreq: real, fftSize: int, sampleRate: real)
  {
    /** CaptureRange::isValid */
    predicate IsValid()
    {
      startFreq < endFreq && fftSize > 0 && sampleRate > 0.0
    }
  }

  /**
   * SpectrumCapture::CaptureResult. `timestamp` is `None` where the source
   * leaves the field uninitialised (every failed capture).
   */
  datatype CaptureResult = CaptureResult(
    success: bool,
    fftData: seq<real>,
    range: CaptureRange,
    errorMessage: string,
    timestamp: Option<real>)

  /** The Qt signals of SpectrumCapture, in the order they are emitted. */
  datatype Event =
    | CaptureStarted(range: CaptureRange)
    | CaptureComplete(result: CaptureResult)
    | CaptureError(message: string)
    | ProgressUpdate(percent: int)

  /** An exception thrown by the receiver; `isStd` tells whether it derives from std::exception. */
  datatype FftException = FftException(isStd: bool, what: string)

  /** What one call of the receiver's `get_iq_fft_data` does. */
  datatype PullOutcome =
    | Filled(status: int, values: seq<real>)  // writes `values` into the buffer, returns `status`
    | Threw(exception: FftException)

  /** What `captureRange` does to its caller: return a result, or let an exception escape. */
  datatype CaptureOutcome =
    | Returned(result: CaptureResult)
    | Propagated(exception: FftException)

  const NoReceiverMessage := "No receiver available"
  const InProgressMessage := "Capture already in progress"
  const InvalidRangeMessage := "Invalid range parameters"
  const ExceedsCapabilityMessage := "Requested sample rate exceeds receiver capabilities"
  const FftSizeMessage := "FFT size must be a power of 2"
  const PrepareFailedMessage := "Failed to prepare capture parameters"
  const ExtractionPrefix := "FFT data extraction failed: "
  const InvalidFftSizeWhat := "Invalid FFT size"
  const PullFailedWhat := "Failed to get FFT data from receiver"
  const StoppedMessage := "Capture stopped by user"

  // ---------------------------------------------------------------------
  // The power-of-two test `(n & (n - 1)) == 0`

  /** Bitwise AND of two non-negative integers. */
  function BitAnd(a: nat, b: nat): nat
  {
    if a == 0 || b == 0 then 0
    else 2 * BitAnd(a / 2, b / 2) + (if a % 2 == 1 && b % 2 == 1 then 1 else 0)
  }

  /** `n` has exactly one bit set. */
  ghost predicate IsPowerOfTwo(n: int)
  {
    exists k: nat :: Pow2(k) == n
  }

  lemma {:induction false} BitAndSelf(m: nat)
    ensures BitAnd(m, m) == m
  {
    if m > 0 {
      BitAndSelf(m / 2);
    }
  }

  lemma {:induction false} PowerTestSound(k: nat)
    ensures BitAnd(Pow2(k), Pow2(k) - 1) == 0
  {
    if k > 0 {
      PowerTestSound(k - 1);
      assert (Pow2(k) - 1) / 2 == Pow2(k - 1) - 1;
    }
  }

  lemma {:induction false} PowerTestComplete(n: nat)
    requires n > 0 && BitAnd(n, n - 1) == 0
    ensures IsPowerOfTwo(n)
  {
    if n == 1 {
      assert Pow2(0) == n;
    } else if n % 2 == 0 {
      assert (n - 1) / 2 == n / 2 - 1;
      PowerTestComplete(n / 2);
      var k: nat :| Pow2(k) == n / 2;
      assert Pow2(k + 1) == n;
    } else {
      assert (n - 1) / 2 == n / 2;
      BitAndSelf(n / 2);
      assert false;
    }
  }

  /** For a positive size the source's bit test is exactly "is a power of two". */
  lemma PowerOfTwoTest(n: int)
    requires n > 0
    ensures BitAnd(n, n - 1) == 0 <==> IsPowerOfTwo(n)
  {
    if BitAnd(n, n - 1) == 0 {
      PowerTestComplete(n);
    } else if IsPowerOfTwo(n) {
      var k: nat :| Pow2(k) == n;
      PowerTestSound(k);
    }
  }

  // ---------------------------------------------------------------------
  // validateRange

  /**
   * SpectrumCapture::validateRange with the receiver's current input rate:
   * the checks run in the source's order and the first failure is reported.
   */
  function ValidateRange(range: CaptureRange, currentSampleRate: real): (r: Result<(), string>)
    ensures r.Ok? <==>
              range.startFreq < range.endFreq && range.fftSize > 0 && IsPowerOfTwo(range.fftSize)
              && 0.0 < range.sampleRate <= currentSampleRate
    ensures r.Err? ==> r.error in {InvalidRangeMessage, ExceedsCapabilityMessage, FftSizeMessage}
  {
    if !range.IsValid() then Err(InvalidRangeMessage)
    else if range.sampleRate > currentSampleRate then Err(ExceedsCapabilityMessage)
    else
      PowerOfTwoTest(range.fftSize);
      if BitAnd(range.fftSize, range.fftSize - 1) != 0 then Err(FftSizeMessage)
      else Ok(())
  }

  /** The three checks are tried in order; a later one only when the earlier ones pass. */
  lemma ValidationOrder(range: CaptureRange, rate: real)
    ensures !range.IsValid() ==> ValidateRange(range, rate) == Err(InvalidRangeMessage)
    ensures range.IsValid() && range.sampleRate > rate ==>
              ValidateRange(range, rate) == Err(ExceedsCapabilityMessage)
    ensures range.IsValid() && range.sampleRate <= rate && !IsPowerOfTwo(range.fftSize) ==>
              ValidateRange(range, rate) == Err(FftSizeMessage)
  {
    if range.IsValid() && range.sampleRate <= rate {
      PowerOfTwoTest(range.fftSize);
    }
  }

  /** isValid itself does not check the power-of-two rule nor the receiver's rate. */
  lemma IsValidIsStructuralOnly()
    ensures CaptureRange(1.0, 2.0, 3, 5.0).IsValid()
    ensures ValidateRange(CaptureRange(1.0, 2.0, 3, 5.0), 10.0) == Err(FftSizeMessage)
    ensures CaptureRange(1.0, 2.0, 4, 50.0).IsValid()
    ensures ValidateRange(CaptureRange(1.0, 2.0, 4, 50.0), 10.0) == Err(ExceedsCapabilityMessage)
  {
    assert BitAnd(3, 2) == 2;
  }

  // ---------------------------------------------------------------------
  // The receiver's buffer fill and the capture as a state transition

  /** `std::vector::resize`: keeps the prefix, zero-fills new entries. */
  function Resize(buffer: seq<real>, n: nat): (r: seq<real>)
    ensures |r| == n
    ensures forall k :: 0 <= k < n ==> r[k] == if k < |buffer| then buffer[k] else 0.0
  {
    seq(n, k requires 0 <= k < n => if k < |buffer| then buffer[k] else 0.0)
  }

  /** The receiver writes `values` into the caller's buffer, never past its end. */
  function WriteInto(buffer: seq<real>, values: seq<real>): (r: seq<real>)
    ensures |r| == |buffer|
    ensures forall k :: 0 <= k < |r| ==> r[k] == if k < |values| then values[k] else buffer[k]
  {
    seq(|buffer|, k requires 0 <= k < |buffer| => if k < |values| then values[k] else buffer[k])
  }

  /** What the capture code can see of the receiver: its rate, FFT size and scripted pulls. */
  datatype ReceiverView = ReceiverView(inputRate: real, iqFftSize: nat, script: nat -> PullOutcome, pulls: nat)

  /** The fields of SpectrumCapture that captureRange and stop change. */
  datatype CaptureState = CaptureState(
    capturing: bool,
    currentRange: Option<CaptureRange>,
    fftBuffer: seq<real>,
    events: seq<Event>)

  /** The outcome of prepareCaptureParameters: success, the member buffer, receiver pulls used. */
  datatype Prepared = Prepared(ok: bool, buffer: seq<real>, pulls: nat)

  /** SpectrumCapture::prepareCaptureParameters (without its progress signal). */
  function PrepareSpec(rx: ReceiverView, buffer: seq<real>): Prepared
  {
    if rx.iqFftSize == 0 then Prepared(false, buffer, 0)
    else
      var b := Resize(buffer, rx.iqFftSize);
      match rx.script(rx.pulls)
      case Threw(_) => Prepared(false, b, 1)
      case Filled(status, values) => Prepared(status >= 0, WriteInto(b, values), 1)
  }

  /** SpectrumCapture::extractFftData, using the receiver's `pull`-th buffer fill. */
  function ExtractSpec(rx: ReceiverView, pull: nat): Result<seq<real>, FftException>
  {
    if rx.iqFftSize == 0 then Err(FftException(true, InvalidFftSizeWhat))
    else
      match rx.script(pull)
      case Threw(e) => Err(e)
      case Filled(status, values) =>
        if status < 0 then Err(FftException(true, PullFailedWhat))
        else Ok(WriteInto(Resize([], rx.iqFftSize), values))
  }

  function Failed(range: CaptureRange, message: string): CaptureResult
  {
    CaptureResult(false, [], range, message, None)
  }

  /** The outcome of one captureRange call, the new state and the receiver pulls it used. */
  datatype Transition = Transition(outcome: CaptureOutcome, state: CaptureState, pulls: nat)

  /** SpectrumCapture::captureRange as a function of the receiver, the state and the clock. */
  function CaptureSpec(rx: Option<ReceiverView>, s: CaptureState, range: CaptureRange, now: real): Transition
  {
    if rx.None? then
      Transition(Returned(Failed(range, NoReceiverMessage)),
                 s.(events := s.events + [CaptureError(NoReceiverMessage)]), 0)
    else if s.capturing then
      Transition(Returned(Failed(range, InProgressMessage)),
                 s.(events := s.events + [CaptureError(InProgressMessage)]), 0)
    else
      match ValidateRange(range, rx.value.inputRate)
      case Err(message) =>
        Transition(Returned(Failed(range, message)), s.(events := s.events + [CaptureError(message)]), 0)
      case Ok(_) =>
        var started := s.events + [CaptureStarted(range)];
        var p := PrepareSpec(rx.value, s.fftBuffer);
        if !p.ok then
          Transition(Returned(Failed(range, PrepareFailedMessage)),
                     CaptureState(false, Some(range), p.buffer, started + [CaptureError(PrepareFailedMessage)]),
                     p.pulls)
        else
          var prepared := started + [ProgressUpdate(50)];
          match ExtractSpec(rx.value, rx.value.pulls + p.pulls)
          case Ok(data) =>
            var result := CaptureResult(true, data, range, "", Some(now));
            Transition(Returned(result),
                       CaptureState(false, Some(range), p.buffer,
                                    prepared + [ProgressUpdate(100), CaptureComplete(result)]),
                       p.pulls + 1)
          case Err(e) =>
            if e.isStd then
              var result := Failed(range, ExtractionPrefix + e.what);
              Transition(Returned(result),
                         CaptureState(false, Some(range), p.buffer, prepared + [CaptureComplete(result)]),
                         p.pulls + 1)
            else
              Transition(Propagated(e), CaptureState(true, Some(range), p.buffer, prepared), p.pulls + 1)
  }

  // ---------------------------------------------------------------------
  // Properties of captureRange

  /** Every returned result carries the requested range, on every path. */
  lemma ResultEchoesRange(rx: Option<ReceiverView>, s: CaptureState, range: CaptureRange, now: real)
    ensures var t := CaptureSpec(rx, s, range, now);
            t.outcome.Returned? ==> t.outcome.result.range == range
  {
  }

  /** Without a receiver: one captureError, the capturing flag untouched. */
  lemma NoReceiverPath(s: CaptureState, range: CaptureRange, now: real)
    ensures var t := CaptureSpec(None, s, range, now);
            t == Transition(Returned(Failed(range, NoReceiverMessage)),
                            s.(events := s.events + [CaptureError(NoReceiverMessage)]), 0)
  {
  }

  /** A call while capturing: one captureError, still capturing, no receiver pull. */
  lemma AlreadyCapturingPath(rx: ReceiverView, s: CaptureState, range: CaptureRange, now: real)
    requires s.capturing
    ensures var t := CaptureSpec(Some(rx), s, range, now);
            t.outcome == Returned(Failed(range, InProgressMessage))
            && t.state.capturing && t.pulls == 0
            && t.state.events == s.events + [CaptureError(InProgressMessage)]
  {
  }

  /** A rejected range: only captureError, never captureStarted, and the object stays idle. */
  lemma ValidationFailurePath(rx: ReceiverView, s: CaptureState, range: CaptureRange, now: real)
    requires !s.capturing && ValidateRange(range, rx.inputRate).Err?
    ensures var t := CaptureSpec(Some(rx), s, range, now);
            var message := ValidateRange(range, rx.inputRate).error;
            t.outcome == Returned(Failed(range, message))
            && !t.state.capturing && t.pulls == 0
            && t.state.events == s.events + [CaptureError(message)]
  {
  }

  /** The successful capture conditions: a fresh, valid request and two good buffer fills. */
  ghost predicate CaptureSucceeds(rx: ReceiverView, s: CaptureState, range: CaptureRange)
  {
    && !s.capturing
    && ValidateRange(range, rx.inputRate).Ok?
    && rx.iqFftSize > 0
    && rx.script(rx.pulls).Filled? && rx.script(rx.pulls).status >= 0
    && rx.script(rx.pulls + 1).Filled? && rx.script(rx.pulls + 1).status >= 0
  }

  /**
   * A capture succeeds exactly under those conditions; it then emits started,
   * 50 %, 100 % and complete in that order, pulls the receiver twice, returns
   * the receiver's FFT size of values (not the requested size) and ends idle.
   */
  lemma SuccessPath(rx: ReceiverView, s: CaptureState, range: CaptureRange, now: real)
    ensures var t := CaptureSpec(Some(rx), s, range, now);
            t.outcome.Returned? && t.outcome.result.success <==> CaptureSucceeds(rx, s, range)
    ensures var t := CaptureSpec(Some(rx), s, range, now);
            CaptureSucceeds(rx, s, range) ==>
              var result := t.outcome.result;
              && |result.fftData| == rx.iqFftSize
              && result.timestamp == Some(now)
              && t.state.events == s.events + [CaptureStarted(range), ProgressUpdate(50),
                                              ProgressUpdate(100), CaptureComplete(result)]
              && t.pulls == 2
              && !t.state.capturing
              && t.state.currentRange == Some(range)
  {
  }

  /** A failed preparation: started then error, no completion, and the object is idle again. */
  lemma PrepareFailurePath(rx: ReceiverView, s: CaptureState, range: CaptureRange, now: real)
    requires !s.capturing && ValidateRange(range, rx.inputRate).Ok?
    requires rx.iqFftSize == 0 || rx.script(rx.pulls).Threw? || rx.script(rx.pulls).status < 0
    ensures var t := CaptureSpec(Some(rx), s, range, now);
            t.outcome == Returned(Failed(range, PrepareFailedMessage))
            && !t.state.capturing
            && t.state.events == s.events + [CaptureStarted(range), CaptureError(PrepareFailedMessage)]
  {
  }

  /**
   * A failed extraction reported as a std::exception: the result carries the
   * prefixed message, captureComplete is still emitted, captureError is not.
   */
  lemma ExtractionFailurePath(rx: ReceiverView, s: CaptureState, range: CaptureRange, now: real)
    requires !s.capturing && ValidateRange(range, rx.inputRate).Ok?
    requires PrepareSpec(rx, s.fftBuffer).ok
    requires var o := rx.script(rx.pulls + 1);
             (o.Filled? && o.status < 0) || (o.Threw? && o.exception.isStd)
    ensures var t := CaptureSpec(Some(rx), s, range, now);
            var o := rx.script(rx.pulls + 1);
            var what := if o.Threw? then o.exception.what else PullFailedWhat;
            && t.outcome == Returned(Failed(range, ExtractionPrefix + what))
            && !t.state.capturing
            && t.state.events == s.events + [CaptureStarted(range), ProgressUpdate(50),
                                            CaptureComplete(Failed(range, ExtractionPrefix + what))]
  {
  }

  /**
   * An exception that does not derive from std::exception escapes captureRange
   * and leaves the object capturing, so every later call is refused as
   * "Capture already in progress" until stop().
   */
  lemma ForeignExceptionLeavesCapturing(rx: ReceiverView, s: CaptureState, range: CaptureRange,
                                        now: real, next: CaptureRange, later: real)
    requires !s.capturing && ValidateRange(range, rx.inputRate).Ok?
    requires PrepareSpec(rx, s.fftBuffer).ok
    requires rx.script(rx.pulls + 1).Threw? && !rx.script(rx.pulls + 1).exception.isStd
    ensures var t := CaptureSpec(Some(rx), s, range, now);
            && t.outcome == Propagated(rx.script(rx.pulls + 1).exception)
            && t.state.capturing
            && CaptureSpec(Some(rx.(pulls := rx.pulls + 2)), t.state, next, later).outcome
               == Returned(Failed(next, InProgressMessage))
  {
  }

  /**
   * The first signal of a call is captureStarted or captureError, and
   * captureComplete, when emitted, is the last one and comes after captureStarted.
   */
  lemma LifecycleOrder(rx: Option<ReceiverView>, s: CaptureState, range: CaptureRange, now: real)
    ensures var t := CaptureSpec(rx, s, range, now);
            |t.state.events| > |s.events| && t.state.events[..|s.events|] == s.events
    ensures var t := CaptureSpec(rx, s, range, now);
            var emitted := t.state.events[|s.events|..];
            && (emitted[0].CaptureStarted? || emitted[0].CaptureError?)
            && (forall i :: 0 <= i < |emitted| - 1 ==> !emitted[i].CaptureComplete?)
            && (emitted[|emitted| - 1].CaptureComplete? ==> emitted[0] == CaptureStarted(range))
  {
  }

  // ---------------------------------------------------------------------
  // The receiver and the capture object

  /** The receiver, seen through the calls SpectrumCapture makes. */
  class Receiver {
    var rfFreq: real
    var inputRate: real
    var iqFftSize: nat
    /** The outcome of the n-th call of get_iq_fft_data. */
    const script: nat -> PullOutcome
    var pulls: nat

    constructor (rfFreq: real, inputRate: real, iqFftSize: nat, script: nat -> PullOutcome)
      ensures this.rfFreq == rfFreq && this.inputRate == inputRate && this.iqFftSize == iqFftSize
      ensures this.script == script && pulls == 0
    {
      this.rfFreq := rfFreq;
      this.inputRate := inputRate;
      this.iqFftSize := iqFftSize;
      this.script := script;
      pulls := 0;
    }

    function View(): ReceiverView
      reads this
    {
      ReceiverView(inputRate, iqFftSize, script, pulls)
    }

    /** receiver::get_iq_fft_data: fills the buffer and returns a status, or throws. */
    method GetIqFftData(buffer: seq<real>) returns (r: Result<(int, seq<real>), FftException>)
      modifies this`pulls
      ensures pulls == old(pulls) + 1
      ensures match script(old(pulls))
              case Threw(e) => r == Err(e)
              case Filled(status, values) => r == Ok((status, WriteInto(buffer, values)))
    {
      match script(pulls) {
        case Threw(e) => r := Err(e);
        case Filled(status, values) => r := Ok((status, WriteInto(buffer, values)));
      }
      pulls := pulls + 1;
    }
  }

  class SpectrumCapture {
    var capturing: bool
    const rx: Receiver?
    var currentRange: Option<CaptureRange>
    var fftBuffer: seq<real>
    var events: seq<Event>

    constructor (rx: Receiver?)
      ensures this.rx == rx && !capturing && currentRange.None? && fftBuffer == [] && events == []
    {
      this.rx := rx;
      capturing := false;
      currentRange := None;
      fftBuffer := [];
      events := [];
    }

    function State(): CaptureState
      reads this
    {
      CaptureState(capturing, currentRange, fftBuffer, events)
    }

    function Receiver(): Option<ReceiverView>
      reads this, rx
    {
      if rx == null then None else Some(rx.View())
    }

    /** SpectrumCapture::isCapturing: a read of the flag and nothing else. */
    function IsCapturing(): (r: bool)
      reads this
      ensures r == State().capturing
    {
      capturing
    }

    /** getCurrentCenterFreq: the receiver's RF frequency, 0 without a receiver. */
    method GetCurrentCenterFreq() returns (f: real)
      ensures rx == null ==> f == 0.0
      ensures rx != null ==> f == rx.rfFreq
    {
      f := if rx == null then 0.0 else rx.rfFreq;
    }

    /** getCurrentSampleRate: the receiver's input rate, 0 without a receiver. */
    method GetCurrentSampleRate() returns (rate: real)
      ensures rx == null ==> rate == 0.0
      ensures rx != null ==> rate == rx.inputRate
    {
      rate := if rx == null then 0.0 else rx.inputRate;
    }

    /** getCurrentFftSize: the receiver's FFT size, 0 without a receiver. */
    method GetCurrentFftSize() returns (n: nat)
      ensures rx == null ==> n == 0
      ensures rx != null ==> n == rx.iqFftSize
    {
      n := if rx == null then 0 else rx.iqFftSize;
    }

    /** SpectrumCapture::stop: only a running capture is stopped, with an error signal. */
    method Stop()
      modifies this`capturing, this`events
      ensures !capturing
      ensures events == old(events) + (if old(capturing) then [CaptureError(StoppedMessage)] else [])
    {
      if capturing {
        capturing := false;
        events := events + [CaptureError(StoppedMessage)];
      }
    }

    /** SpectrumCapture::prepareCaptureParameters (receiver known to be attached). */
    method PrepareCaptureParameters() returns (ok: bool)
      requires rx != null
      modifies this`fftBuffer, this`events, rx`pulls
      ensures var p := PrepareSpec(old(rx.View()), old(fftBuffer));
              && ok == p.ok && fftBuffer == p.buffer && rx.pulls == old(rx.pulls) + p.pulls
              && events == old(events) + (if ok then [ProgressUpdate(50)] else [])
    {
      var size := rx.iqFftSize;
      if size == 0 {
        return false;
      }
      fftBuffer := Resize(fftBuffer, size);
      var r := rx.GetIqFftData(fftBuffer);
      match r {
        case Err(_) =>
          return false;
        case Ok((status, filled)) =>
          fftBuffer := filled;
          if status < 0 {
            return false;
          }
      }
      events := events + [ProgressUpdate(50)];
      return true;
    }

    /** SpectrumCapture::extractFftData: a fresh buffer of the receiver's size, or an exception. */
    method ExtractFftData() returns (r: Result<seq<real>, FftException>)
      requires rx != null
      modifies this`events, rx`pulls
      ensures rx.iqFftSize > 0 ==> rx.pulls == old(rx.pulls) + 1
      ensures rx.iqFftSize == 0 ==> rx.pulls == old(rx.pulls)
      ensures r == ExtractSpec(old(rx.View()), old(rx.pulls))
      ensures events == old(events) + (if r.Ok? then [ProgressUpdate(100)] else [])
    {
      var size := GetCurrentFftSize();
      if size == 0 {
        return Err(FftException(true, InvalidFftSizeWhat));
      }
      var pulled := rx.GetIqFftData(Resize([], size));
      match pulled {
        case Err(e) =>
          return Err(e);
        case Ok((status, data)) =>
          if status < 0 {
            return Err(FftException(true, PullFailedWhat));
          }
          events := events + [ProgressUpdate(100)];
          return Ok(data);
      }
    }

    /** SpectrumCapture::captureRange, with the wall clock passed in as `now`. */
    method CaptureRange(range: CaptureRange, now: real) returns (outcome: CaptureOutcome)
      modifies this, (if rx == null then {} else {rx})`pulls
      ensures var t := CaptureSpec(old(Receiver()), old(State()), range, now);
              && outcome == t.outcome && State() == t.state
              && (rx != null ==> rx.pulls == old(rx.pulls) + t.pulls)
    {
      var result := Failed(range, "");
      if rx == null {
        result := result.(errorMessage := NoReceiverMessage);
        events := events + [CaptureError(result.errorMessage)];
        return Returned(result);
      }
      if capturing {
        result := result.(errorMessage := InProgressMessage);
        events := events + [CaptureError(result.errorMessage)];
        return Returned(result);
      }
      var rate := GetCurrentSampleRate();
      var valid := ValidateRange(range, rate);
      if valid.Err? {
        result := result.(errorMessage := valid.error);
        events := events + [CaptureError(result.errorMessage)];
        return Returned(result);
      }

      capturing := true;
      currentRange := Some(range);
      events := events + [CaptureStarted(range)];

      var prepared := PrepareCaptureParameters();
      if !prepared {
        result := result.(errorMessage := PrepareFailedMessage);
        capturing := false;
        events := events + [CaptureError(result.errorMessage)];
        return Returned(result);
      }

      var extracted := ExtractFftData();
      match extracted {
        case Ok(data) =>
          result := result.(fftData := data, success := true, timestamp := Some(now));
        case Err(e) =>
          if !e.isStd {
            return Propagated(e);
          }
          result := result.(errorMessage := ExtractionPrefix + e.what, success := false);
      }
      capturing := false;
      events := events + [CaptureComplete(result)];
      return Returned(result);
    }
  }

  /**
   * The capture scenario: a 50 kHz request for 4096 bins against a 200 kHz
   * receiver whose buffer holds 4096 values of -90 dB succeeds with those values;
   * the same request against a 20 kHz receiver is rejected.
   */
  method CaptureScenario()
  {
    var level := seq(4096, _ => -90.0);
    var rx := new Receiver(100_025_000.0, 200_000.0, 4096, _ => Filled(0, level));
    var capture := new SpectrumCapture(rx);
    var request := CaptureRange(100_000_000.0, 100_050_000.0, 4096, 50_000.0);
    assert Pow2(12) == 4096;
    var outcome := capture.CaptureRange(request, 1700000000.0);
    assert outcome.Returned? && outcome.result.success;
    assert |outcome.result.fftData| == 4096;
    assert forall k :: 0 <= k < 4096 ==> outcome.result.fftData[k] == -90.0;
    assert !capture.IsCapturing();

    var slow := new Receiver(100_025_000.0, 20_000.0, 4096, _ => Filled(0, level));
    var rejected := new SpectrumCapture(slow);
    outcome := rejected.CaptureRange(request, 1700000000.0);
    assert outcome == Returned(Failed(request, ExceedsCapabilityMessage));
  }
}
