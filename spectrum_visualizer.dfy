/**
 * The live spectrum widget (SpectrumVisualizer in src/qtgui/spectrum_visualizer.*):
 * it keeps only the latest FFT frame, turns it into one vertex and one colour
 * per bin, draws it as a painter path with a filled area underneath, and
 * overlays a grid and axis labels.
 */
module Visualizer {
  import opened Wrappers
  import Waterfall

  type Vec3 = Waterfall.Vec3

  // ---------------------------------------------------------------------
  // Vertices and colours of a frame

  /** The level a magnitude is drawn at: `mag * scale + offset`. */
  function Level(magnitude: real, scale: real, offset: real): real
  {
    magnitude * scale + offset
  }

  /** Horizontal clip-space position of bin `i` of `n`. */
  function BinX(i: nat, n: nat): real
    requires n > 0
  {
    i as real / n as real * 2.0 - 1.0
  }

  /** The bin's colour: brighter as the level rises, not clamped. */
  function LevelColor(level: real): Vec3
  {
    var intensity := (level + 1.0) / 2.0;
    Waterfall.Vec3(0.2 + intensity * 0.8, 0.5 + intensity * 0.5, 0.8 + intensity * 0.2)
  }

  function LineVertices(magnitudes: seq<real>, scale: real, offset: real): (r: seq<Vec3>)
    ensures |r| == |magnitudes|
  {
    seq(|magnitudes|, i requires 0 <= i < |magnitudes| =>
      Waterfall.Vec3(BinX(i, |magnitudes|), Level(magnitudes[i], scale, offset), 0.0))
  }

  function LineColors(magnitudes: seq<real>, scale: real, offset: real): (r: seq<Vec3>)
    ensures |r| == |magnitudes|
  {
    seq(|magnitudes|, i requires 0 <= i < |magnitudes| => LevelColor(Level(magnitudes[i], scale, offset)))
  }

  /**
   * One vertex per bin, left to right across clip space: x starts at −1, rises
   * strictly and stays below 1; y is the bin's level.
   */
  lemma LineVerticesLayout(magnitudes: seq<real>, scale: real, offset: real)
    requires |magnitudes| > 0
    ensures var vs := LineVertices(magnitudes, scale, offset);
            && vs[0].x == -1.0
            && (forall i :: 0 <= i < |vs| ==>
                  -1.0 <= vs[i].x < 1.0 && vs[i].z == 0.0 && vs[i].y == magnitudes[i] * scale + offset)
            && (forall i, j :: 0 <= i < j < |vs| ==> vs[i].x < vs[j].x)
  {
    var vs := LineVertices(magnitudes, scale, offset);
    var n := |magnitudes| as real;
    forall i | 0 <= i < |vs|
      ensures -1.0 <= vs[i].x < 1.0
    {
      assert i as real / n < 1.0;
    }
    forall i, j | 0 <= i < j < |vs|
      ensures vs[i].x < vs[j].x
    {
      assert i as real / n < j as real / n;
    }
  }

  /**
   * The colour is the level's affine image: level −1 gives (0.2, 0.5, 0.8),
   * level 1 gives white, a higher level never gives a darker channel, and
   * levels above 1 leave the unit cube.
   */
  lemma LevelColorShape(lower: real, higher: real)
    requires lower <= higher
    ensures LevelColor(-1.0) == Waterfall.Vec3(0.2, 0.5, 0.8)
    ensures LevelColor(1.0) == Waterfall.Vec3(1.0, 1.0, 1.0)
    ensures LevelColor(lower).x <= LevelColor(higher).x
    ensures LevelColor(lower).y <= LevelColor(higher).y
    ensures LevelColor(lower).z <= LevelColor(higher).z
    ensures higher > 1.0 ==> !Waterfall.InUnitCube(LevelColor(higher))
  {
  }

  // ---------------------------------------------------------------------
  // The painter path of drawSpectrum

  datatype PathElement = MoveTo(x: real, y: real) | LineTo(x: real, y: real) | CloseSubpath

  /** Bin `i` in widget pixels: x across the width, the level measured down from the bottom edge. */
  function ScreenPoint(i: nat, magnitudes: seq<real>, scale: real, offset: real, width: nat, height: nat): (real, real)
    requires i < |magnitudes|
  {
    (i as real / |magnitudes| as real * width as real,
     height as real - Level(magnitudes[i], scale, offset) * height as real)
  }

  /** The first `n` elements of the spectrum line: a move to bin 0, then a line to each further bin. */
  function LinePath(n: nat, magnitudes: seq<real>, scale: real, offset: real, width: nat, height: nat): (r: seq<PathElement>)
    requires n <= |magnitudes|
    ensures |r| == n
  {
    if n == 0 then []
    else
      var p := ScreenPoint(n - 1, magnitudes, scale, offset, width, height);
      LinePath(n - 1, magnitudes, scale, offset, width, height)
      + [if n == 1 then MoveTo(p.0, p.1) else LineTo(p.0, p.1)]
  }

  /** The area under the line, closed along the bottom edge. */
  function FillPath(line: seq<PathElement>, width: nat, height: nat): seq<PathElement>
  {
    line + [LineTo(width as real, height as real), LineTo(0.0, height as real), CloseSubpath]
  }

  lemma {:induction false} LinePathAt(n: nat, k: nat, magnitudes: seq<real>, scale: real, offset: real, width: nat, height: nat)
    requires k < n <= |magnitudes|
    ensures var p := ScreenPoint(k, magnitudes, scale, offset, width, height);
            LinePath(n, magnitudes, scale, offset, width, height)[k]
            == if k == 0 then MoveTo(p.0, p.1) else LineTo(p.0, p.1)
  {
    if k < n - 1 {
      LinePathAt(n - 1, k, magnitudes, scale, offset, width, height);
    }
  }

  /**
   * The line has one element per bin: exactly one `moveTo`, first, then a
   * `lineTo` to each further bin's screen point.
   */
  lemma LinePathShape(magnitudes: seq<real>, scale: real, offset: real, width: nat, height: nat)
    requires |magnitudes| > 0
    ensures var line := LinePath(|magnitudes|, magnitudes, scale, offset, width, height);
            && |line| == |magnitudes|
            && line[0] == MoveTo(0.0, height as real - Level(magnitudes[0], scale, offset) * height as real)
            && (forall k :: 1 <= k < |line| ==>
                  line[k] == LineTo(ScreenPoint(k, magnitudes, scale, offset, width, height).0,
                                    ScreenPoint(k, magnitudes, scale, offset, width, height).1))
  {
    var n := |magnitudes|;
    LinePathAt(n, 0, magnitudes, scale, offset, width, height);
    forall k | 1 <= k < n
      ensures LinePath(n, magnitudes, scale, offset, width, height)[k]
              == LineTo(ScreenPoint(k, magnitudes, scale, offset, width, height).0,
                        ScreenPoint(k, magnitudes, scale, offset, width, height).1)
    {
      LinePathAt(n, k, magnitudes, scale, offset, width, height);
    }
  }

  /** The screen points run left to right, never going left, inside [0, width). */
  lemma ScreenPointsAcross(magnitudes: seq<real>, scale: real, offset: real, width: nat, height: nat)
    ensures forall k :: 0 <= k < |magnitudes| ==>
              var x := ScreenPoint(k, magnitudes, scale, offset, width, height).0;
              0.0 <= x && (width > 0 ==> x < width as real)
    ensures forall k :: 0 <= k < |magnitudes| - 1 ==>
              ScreenPoint(k, magnitudes, scale, offset, width, height).0
              <= ScreenPoint(k + 1, magnitudes, scale, offset, width, height).0
  {
    var n := |magnitudes|;
    forall k | 0 <= k < n
      ensures 0.0 <= ScreenPoint(k, magnitudes, scale, offset, width, height).0
      ensures width > 0 ==> ScreenPoint(k, magnitudes, scale, offset, width, height).0 < width as real
    {
      FractionOfWidth(k, n, width);
    }
    forall k | 0 <= k < n - 1
      ensures ScreenPoint(k, magnitudes, scale, offset, width, height).0
              <= ScreenPoint(k + 1, magnitudes, scale, offset, width, height).0
    {
      NextFraction(k, n, width);
    }
  }

  /** Bin `k + 1` sits no further left than bin `k`. */
  lemma NextFraction(k: nat, n: nat, width: nat)
    requires k + 1 < n
    ensures k as real / n as real * width as real <= (k + 1) as real / n as real * width as real
  {
    assert k as real / n as real <= (k + 1) as real / n as real;
    Waterfall.ScaleMonotone(k as real / n as real, (k + 1) as real / n as real, width as real);
  }

  lemma FractionOfWidth(k: nat, n: nat, width: nat)
    requires k < n
    ensures 0.0 <= k as real / n as real * width as real
    ensures width > 0 ==> k as real / n as real * width as real < width as real
  {
    var f := k as real / n as real;
    assert 0.0 <= f < 1.0;
    if width > 0 {
      ScaleStrictly(f, 1.0, width as real);
    }
  }

  lemma ScaleStrictly(x: real, y: real, m: real)
    requires x < y && m > 0.0
    ensures x * m < y * m
  {
  }

  // ---------------------------------------------------------------------
  // drawGrid

  /** The outcome of drawGrid: the lines it draws, or a loop that never ends. */
  datatype GridOutcome = Lines(vertical: seq<int>, horizontal: seq<int>) | Hangs

  /** The positions `0, step, 2·step, …` up to and including `limit`. */
  function Ticks(limit: nat, step: nat): (r: seq<int>)
    requires step > 0
    ensures |r| == limit / step + 1
  {
    seq(limit / step + 1, k => k * step)
  }

  /**
   * drawGrid for a widget of the given size. The steps are the integer
   * quotients width/10 and height/8; a zero step never advances the loop.
   */
  function GridSpec(width: nat, height: nat): GridOutcome
  {
    if width / 10 == 0 || height / 8 == 0 then Hangs
    else Lines(Ticks(width, width / 10), Ticks(height, height / 8))
  }

  /** `k` is the quotient when `k·step <= limit < (k + 1)·step`. */
  lemma QuotientUnique(k: nat, step: nat, limit: nat)
    requires step > 0 && k * step <= limit < (k + 1) * step
    ensures k == limit / step
  {
    var q := limit / step;
    assert q * step <= limit < (q + 1) * step;
    if k < q {
      MulMonotone(k + 1, q, step);
    } else if k > q {
      MulMonotone(q + 1, k, step);
    }
  }

  lemma MulMonotone(a: nat, b: nat, c: nat)
    requires a <= b
    ensures a * c <= b * c
  {
  }

  /**
   * The grid hangs exactly when the widget is narrower than 10 or shorter
   * than 8 pixels; otherwise it draws 11 to 20 vertical lines and 9 to 16
   * horizontal lines, the first at 0 and none past the edge.
   */
  lemma GridLineCounts(width: nat, height: nat)
    ensures GridSpec(width, height).Hangs? <==> width < 10 || height < 8
    ensures width >= 10 && height >= 8 ==>
              var g := GridSpec(width, height);
              && 11 <= |g.vertical| <= 20 && 9 <= |g.horizontal| <= 16
              && g.vertical[0] == 0 && g.horizontal[0] == 0
              && (forall x :: x in g.vertical ==> 0 <= x <= width)
              && (forall y :: y in g.horizontal ==> 0 <= y <= height)
  {
    if width >= 10 && height >= 8 {
      TickCount(width, 10);
      TickCount(height, 8);
      TicksWithin(width, width / 10);
      TicksWithin(height, height / 8);
    }
  }

  /** With step = limit / parts, there are parts + 1 to 2·parts ticks. */
  lemma TickCount(limit: nat, parts: nat)
    requires parts > 0 && limit >= parts
    ensures parts + 1 <= limit / (limit / parts) + 1 <= 2 * parts
  {
    var step := limit / parts;
    DivAtLeast(1, parts, limit);
    assert step * parts <= limit < step * parts + parts by {
      assert limit == step * parts + limit % parts;
    }
    DivAtLeast(parts, step, limit);
    MulMonotone(1, step, parts);
    assert limit < (2 * parts) * step;
    DivBelow(2 * parts, step, limit);
  }

  /** A multiple of `b` that fits in `c` gives a lower bound on `c / b`. */
  lemma DivAtLeast(a: nat, b: nat, c: nat)
    requires b > 0 && a * b <= c
    ensures a <= c / b
  {
    var q := c / b;
    assert q * b + c % b == c;
    if q < a {
      assert (q + 1) * b == q * b + b;
      MulMonotone(q + 1, a, b);
    }
  }

  /** A multiple of `b` beyond `c` gives an upper bound on `c / b`. */
  lemma DivBelow(a: nat, b: nat, c: nat)
    requires b > 0 && c < a * b
    ensures c / b < a
  {
    var q := c / b;
    assert q * b + c % b == c;
    if q >= a {
      MulMonotone(a, q, b);
    }
  }

  lemma TicksWithin(limit: nat, step: nat)
    requires step > 0
    ensures forall x :: x in Ticks(limit, step) ==> 0 <= x <= limit
  {
    var t := Ticks(limit, step);
    var q := limit / step;
    assert q * step <= limit by {
      assert q * step + limit % step == limit;
    }
    forall k | 0 <= k < |t|
      ensures 0 <= t[k] <= limit
    {
      MulMonotone(k, q, step);
    }
  }

  // ---------------------------------------------------------------------
  // drawLabels

  /** Power tick `i` of 8, integer arithmetic: −120 + 120·(8 − i)/8. */
  function PowerLabel(i: nat, height: nat): Waterfall.Label
  {
    Waterfall.Label(5, height * i / 8 + 15, (-120 + 120 * (8 - i) / 8) as real)
  }

  function PowerLabels(n: nat, height: nat): (r: seq<Waterfall.Label>)
    ensures |r| == n
  {
    if n == 0 then [] else PowerLabels(n - 1, height) + [PowerLabel(n - 1, height)]
  }

  lemma {:induction false} PowerLabelsAt(n: nat, k: nat, height: nat)
    requires k < n
    ensures PowerLabels(n, height)[k] == PowerLabel(k, height)
  {
    if k < n - 1 {
      PowerLabelsAt(n - 1, k, height);
    }
  }

  /**
   * The nine power labels read 0, −15, …, −120 dB from top to bottom,
   * whatever the data.
   */
  lemma PowerTicks(height: nat)
    ensures var ls := PowerLabels(9, height);
            && (forall i :: 0 <= i < 9 ==> ls[i].value == (-15 * i) as real && ls[i].x == 5)
            && ls[0].y == 15 && ls[8].y == height + 15
            && (forall i :: 0 <= i < 8 ==> ls[i].y <= ls[i + 1].y)
  {
    var ls := PowerLabels(9, height);
    forall i | 0 <= i < 9
      ensures ls[i].value == (-15 * i) as real && ls[i].x == 5
    {
      PowerLabelsAt(9, i, height);
      assert 120 * (8 - i) == 8 * (15 * (8 - i));
    }
    PowerLabelsAt(9, 0, height);
    PowerLabelsAt(9, 8, height);
    forall i | 0 <= i < 8
      ensures ls[i].y <= ls[i + 1].y
    {
      PowerLabelsAt(9, i, height);
      PowerLabelsAt(9, i + 1, height);
      assert height * i <= height * (i + 1);
    }
  }

  // ---------------------------------------------------------------------
  // The widget

  /** QVector::resize on a vector of QVector3D: keeps the prefix, default-constructs the rest. */
  function ResizeVectors(v: seq<Vec3>, n: nat): (r: seq<Vec3>)
    ensures |r| == n
    ensures forall k :: 0 <= k < n ==> r[k] == if k < |v| then v[k] else Waterfall.Vec3(0.0, 0.0, 0.0)
  {
    seq(n, k requires 0 <= k < n => if k < |v| then v[k] else Waterfall.Vec3(0.0, 0.0, 0.0))
  }

  class SpectrumVisualizer {
    var magnitudes: seq<real>
    var centerFreq: real
    var bandwidth: real
    var sampleRate: real
    var timestamp: int
    var vertices: seq<Vec3>
    var colors: seq<Vec3>
    var scale: real
    var offset: real
    var initialized: bool

    constructor ()
      ensures scale == 1.0 && offset == 0.0 && !initialized
      ensures magnitudes == [] && vertices == [] && colors == []
    {
      scale := 1.0;
      offset := 0.0;
      initialized := false;
      magnitudes := [];
      vertices := [];
      colors := [];
    }

    /** initializeGL, for the model's state. */
    method InitializeGL()
      modifies this`initialized
      ensures initialized
    {
      initialized := true;
    }

    /** updateVertices: resize both vectors to the frame size and fill them bin by bin. */
    method UpdateVertices()
      modifies this`vertices, this`colors
      ensures !initialized || magnitudes == [] ==> vertices == old(vertices) && colors == old(colors)
      ensures initialized && magnitudes != [] ==>
                vertices == LineVertices(magnitudes, scale, offset) && colors == LineColors(magnitudes, scale, offset)
    {
      if !initialized || magnitudes == [] {
        return;
      }
      var numPoints := |magnitudes|;
      var mags, sc, off := magnitudes, scale, offset;
      ghost var targetVertices := LineVertices(mags, sc, off);
      ghost var targetColors := LineColors(mags, sc, off);
      var vs := ResizeVectors(vertices, numPoints);
      var cs := ResizeVectors(colors, numPoints);
      var i := 0;
      while i < numPoints
        invariant 0 <= i <= numPoints
        invariant |vs| == numPoints && |cs| == numPoints
        invariant forall k :: 0 <= k < i ==> vs[k] == targetVertices[k]
        invariant forall k :: 0 <= k < i ==> cs[k] == targetColors[k]
      {
        var x := i as real / numPoints as real * 2.0 - 1.0;
        var y := mags[i] * sc + off;
        vs := vs[i := Waterfall.Vec3(x, y, 0.0)];
        var intensity := (y + 1.0) / 2.0;
        cs := cs[i := Waterfall.Vec3(0.2 + intensity * 0.8, 0.5 + intensity * 0.5, 0.8 + intensity * 0.2)];
        assert vs[i] == targetVertices[i] && cs[i] == targetColors[i];
        i := i + 1;
      }
      vertices, colors := vs, cs;
    }

    /** updateData: the frame replaces the previous one, and the geometry follows. */
    method UpdateData(frame: seq<real>, centerFreq: real, bandwidth: real, sampleRate: real, now: int)
      modifies this
      ensures magnitudes == frame
      ensures this.centerFreq == centerFreq && this.bandwidth == bandwidth && this.sampleRate == sampleRate
      ensures timestamp == now
      ensures scale == old(scale) && offset == old(offset) && initialized == old(initialized)
      ensures !initialized || frame == [] ==> vertices == old(vertices) && colors == old(colors)
      ensures initialized && frame != [] ==>
                vertices == LineVertices(frame, scale, offset) && colors == LineColors(frame, scale, offset)
    {
      magnitudes := frame;
      this.centerFreq := centerFreq;
      this.bandwidth := bandwidth;
      this.sampleRate := sampleRate;
      timestamp := now;
      UpdateVertices();
    }

    /** drawSpectrum: the line and fill paths, or nothing before GL is up or without data. */
    method DrawSpectrum(width: nat, height: nat) returns (paths: Option<(seq<PathElement>, seq<PathElement>)>)
      ensures !initialized || magnitudes == [] ==> paths == None
      ensures initialized && magnitudes != [] ==>
                var line := LinePath(|magnitudes|, magnitudes, scale, offset, width, height);
                paths == Some((line, FillPath(line, width, height)))
    {
      if !initialized || magnitudes == [] {
        return None;
      }
      var numPoints := |magnitudes|;
      var path := [];
      var i := 0;
      while i < numPoints
        invariant 0 <= i <= numPoints
        invariant path == LinePath(i, magnitudes, scale, offset, width, height)
      {
        var x := i as real / numPoints as real * width as real;
        var y := height as real - (magnitudes[i] * scale + offset) * height as real;
        assert x == ScreenPoint(i, magnitudes, scale, offset, width, height).0;
        assert y == ScreenPoint(i, magnitudes, scale, offset, width, height).1;
        if i == 0 {
          path := path + [MoveTo(x, y)];
        } else {
          path := path + [LineTo(x, y)];
        }
        i := i + 1;
      }
      var fillPath := path;
      fillPath := fillPath + [LineTo(width as real, height as real)];
      fillPath := fillPath + [LineTo(0.0, height as real)];
      fillPath := fillPath + [CloseSubpath];
      assert fillPath == FillPath(path, width, height);
      return Some((path, fillPath));
    }

    /** drawGrid: the x and y positions of the grid lines, or the endless loop of a zero step. */
    method DrawGrid(width: nat, height: nat) returns (outcome: GridOutcome)
      ensures outcome == GridSpec(width, height)
    {
      var xStep := width / 10;
      if xStep == 0 {
        return Hangs;
      }
      var vertical := GridLines(width, xStep);
      var yStep := height / 8;
      if yStep == 0 {
        return Hangs;
      }
      var horizontal := GridLines(height, yStep);
      return Lines(vertical, horizontal);
    }

    /** One of drawGrid's two loops: a line every `step` pixels from 0 while within `limit`. */
    static method GridLines(limit: nat, step: nat) returns (lines: seq<int>)
      requires step > 0
      ensures lines == Ticks(limit, step)
    {
      lines := [];
      var x := 0;
      while x <= limit
        invariant x == |lines| * step
        invariant lines == seq(|lines|, k => k * step)
        invariant |lines| == 0 || (|lines| - 1) * step <= limit
        decreases limit + step - x
      {
        lines := lines + [x];
        x := x + step;
      }
      QuotientUnique(|lines| - 1, step, limit);
    }

    /** drawLabels: eleven frequency labels, then nine power labels. */
    method DrawLabels(width: nat, height: nat) returns (labels: seq<Waterfall.Label>)
      ensures labels == Waterfall.FrequencyLabels(11, centerFreq, bandwidth, width, height) + PowerLabels(9, height)
    {
      var frequencyLabels := Waterfall.DrawFrequencyLabels(centerFreq, bandwidth, width, height);
      var powerLabels := DrawPowerLabels(height);
      labels := frequencyLabels + powerLabels;
    }
  }

  /** The power loop of drawLabels: nine ticks from 0 dB down to −120 dB. */
  method DrawPowerLabels(height: nat) returns (labels: seq<Waterfall.Label>)
    ensures labels == PowerLabels(9, height)
  {
    labels := [];
    var i := 0;
    while i <= 8
      invariant 0 <= i <= 9
      invariant labels == PowerLabels(i, height)
    {
      var y := height * i / 8;
      var power := -120 + 120 * (8 - i) / 8;
      labels := labels + [Waterfall.Label(5, y + 15, power as real)];
      i := i + 1;
    }
  }
}
