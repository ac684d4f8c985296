/**
 * The waterfall widget (WaterfallDisplay in src/qtgui/waterfall_display.*):
 * a bounded history of FFT rows, newest first, a 256-entry heat colour
 * table, the dB-to-colour mapping, the vertex strip built from the history
 * and the axis ticks of the label overlay.
 */
module Waterfall {
  import Framing

  /** QVector3D. */
  datatype Vec3 = Vec3(x: real, y: real, z: real)

  // ---------------------------------------------------------------------
  // The history deque

  /** push_front, then pop_back once if the deque has grown past `maxHistory`. */
  function Pushed(history: seq<seq<real>>, row: seq<real>, maxHistory: nat): seq<seq<real>>
  {
    var grown := [row] + history;
    if |grown| > maxHistory then grown[..|grown| - 1] else grown
  }

  /** The new row is first, the older rows follow in order, and at most the oldest is dropped. */
  lemma PushedShape(history: seq<seq<real>>, row: seq<real>, maxHistory: nat)
    ensures var h := Pushed(history, row, maxHistory);
            && |h| == (if |history| + 1 > maxHistory then |history| else |history| + 1)
            && (|h| > 0 ==> h[0] == row)
            && (forall i :: 1 <= i < |h| ==> h[i] == history[i - 1])
  {
  }

  /** `size <= max_history` is preserved by a push, when it held before. */
  lemma PushedKeepsBound(history: seq<seq<real>>, row: seq<real>, maxHistory: nat)
    requires |history| <= maxHistory
    ensures |Pushed(history, row, maxHistory)| <= maxHistory
  {
  }

  /** After max_history has been lowered, a push only pops one row: the size stays put. */
  lemma PushedOverfull(history: seq<seq<real>>, row: seq<real>, maxHistory: nat)
    requires |history| > maxHistory
    ensures |Pushed(history, row, maxHistory)| == |history| > maxHistory
  {
  }

  /** With max_history 0 every push is immediately undone. */
  lemma PushedIntoZero(row: seq<real>)
    ensures Pushed([], row, 0) == []
  {
  }

  /** Pushing `rows` one after the other, `rows[0]` first. */
  function PushAll(history: seq<seq<real>>, rows: seq<seq<real>>, maxHistory: nat): seq<seq<real>>
    decreases |rows|
  {
    if rows == [] then history else PushAll(Pushed(history, rows[0], maxHistory), rows[1..], maxHistory)
  }

  function Reverse<T>(s: seq<T>): (r: seq<T>)
    ensures |r| == |s|
  {
    if s == [] then [] else Reverse(s[1..]) + [s[0]]
  }

  /** The first `n` entries, or all of them when there are fewer. */
  function Take<T>(s: seq<T>, n: nat): seq<T>
  {
    if |s| <= n then s else s[..n]
  }

  lemma TakeAppend<T>(a: seq<T>, b: seq<T>, n: nat)
    ensures Take(a + Take(b, n), n) == Take(a + b, n)
  {
    if |b| > n {
      if |a| + n <= n {
        assert a == [];
        assert a + Take(b, n) == b[..n];
        assert (a + b)[..n] == b[..n];
      } else {
        assert (a + b[..n])[..n] == (a + b)[..n];
      }
    }
  }

  /**
   * Starting within the bound, any sequence of pushes leaves exactly the newest
   * `max_history` rows (or all rows, when fewer were ever seen), newest first.
   */
  lemma {:induction false} PushAllKeepsNewest(history: seq<seq<real>>, rows: seq<seq<real>>, maxHistory: nat)
    requires |history| <= maxHistory
    ensures PushAll(history, rows, maxHistory) == Take(Reverse(rows) + history, maxHistory)
    decreases |rows|
  {
    if rows == [] {
    } else {
      var h' := Pushed(history, rows[0], maxHistory);
      assert h' == Take([rows[0]] + history, maxHistory);
      PushAllKeepsNewest(h', rows[1..], maxHistory);
      TakeAppend(Reverse(rows[1..]), [rows[0]] + history, maxHistory);
      assert Reverse(rows[1..]) + ([rows[0]] + history) == Reverse(rows) + history;
    }
  }

  // ---------------------------------------------------------------------
  // The heat colour table

  /** Entry `i` of the table: black to blue to red to yellow to white in t = i/255. */
  function HeatColor(i: nat): Vec3
  {
    var t := i as real / 255.0;
    if t < 0.25 then Vec3(0.0, 0.0, t * 4.0)
    else if t < 0.5 then
      var s := (t - 0.25) * 4.0;
      Vec3(s, 0.0, 1.0 - s)
    else if t < 0.75 then
      var s := (t - 0.5) * 4.0;
      Vec3(1.0, s, 0.0)
    else
      var s := (t - 0.75) * 4.0;
      Vec3(1.0, 1.0, s)
  }

  const ColorMapSize := 256

  /** The table initializeColorMap builds: entry `i` is HeatColor(i). */
  function HeatMap(): (r: seq<Vec3>)
    ensures |r| == ColorMapSize
  {
    seq(ColorMapSize, i requires 0 <= i < ColorMapSize => HeatColor(i))
  }

  predicate InUnitCube(c: Vec3)
  {
    0.0 <= c.x <= 1.0 && 0.0 <= c.y <= 1.0 && 0.0 <= c.z <= 1.0
  }

  /** The sum of the three channels, a measure of how bright an entry is. */
  function Brightness(c: Vec3): real
  {
    c.x + c.y + c.z
  }

  /**
   * The table has 256 entries inside the unit cube, starts at black, ends at
   * white, and gets brighter (never darker) from each entry to the next.
   */
  lemma HeatMapShape()
    ensures |HeatMap()| == 256
    ensures forall k :: 0 <= k < 256 ==> HeatMap()[k] == HeatColor(k) && InUnitCube(HeatMap()[k])
    ensures HeatMap()[0] == Vec3(0.0, 0.0, 0.0)
    ensures HeatMap()[255] == Vec3(1.0, 1.0, 1.0)
    ensures forall j, k :: 0 <= j <= k < 256 ==> Brightness(HeatMap()[j]) <= Brightness(HeatMap()[k])
  {
    forall j, k | 0 <= j <= k < 256
      ensures Brightness(HeatMap()[j]) <= Brightness(HeatMap()[k])
    {
      BrightnessMonotone(j, k);
    }
  }

  lemma BrightnessMonotone(j: nat, k: nat)
    requires j <= k
    ensures Brightness(HeatColor(j)) <= Brightness(HeatColor(k))
  {
    var tj, tk := j as real / 255.0, k as real / 255.0;
    assert tj <= tk;
  }

  // ---------------------------------------------------------------------
  // Colour of a dB value

  /**
   * Where `value` falls in the window [lo, hi], clamped into [0, 1]. For an
   * empty window the single-precision division yields +inf, -inf or NaN,
   * which qBound sends to 1, 0 and 0.
   */
  function Position(value: real, lo: real, hi: real): (t: real)
    ensures 0.0 <= t <= 1.0
  {
    if hi == lo then (if value > lo then 1.0 else 0.0)
    else
      var t := (value - lo) / (hi - lo);
      if t < 0.0 then 0.0 else if t > 1.0 then 1.0 else t
  }

  /** `static_cast<int>(t * (size - 1))`. */
  function ColorIndex(value: real, lo: real, hi: real, size: nat): (i: nat)
    requires size >= 1
    ensures i < size
  {
    var t := Position(value, lo, hi);
    ScaleAtMost(t, (size - 1) as real);
    (t * (size - 1) as real).Floor
  }

  lemma ScaleAtMost(t: real, m: real)
    requires 0.0 <= t <= 1.0 && m >= 0.0
    ensures 0.0 <= t * m <= m
  {
  }

  /** getColorForValue with the window and the table passed in. */
  function ColorForValue(value: real, lo: real, hi: real, colormap: seq<Vec3>): Vec3
    requires |colormap| >= 1
  {
    colormap[ColorIndex(value, lo, hi, |colormap|)]
  }

  /** getColorForValue of a widget whose window is [lo, hi] and whose table is `colormap`: always a table entry. */
  function Shade(lo: real, hi: real, colormap: seq<Vec3>): (shade: real -> Vec3)
    requires |colormap| >= 1
    ensures forall v :: shade(v) == ColorForValue(v, lo, hi, colormap) && shade(v) in colormap
  {
    v => ColorForValue(v, lo, hi, colormap)
  }

  /**
   * In a proper window, values at or below the minimum take the first entry,
   * values at or above the maximum the last, and a larger value never takes
   * an earlier entry.
   */
  lemma ColorIndexClamps(value: real, lo: real, hi: real, size: nat)
    requires size >= 1 && lo < hi
    ensures value <= lo ==> ColorIndex(value, lo, hi, size) == 0
    ensures value >= hi ==> ColorIndex(value, lo, hi, size) == size - 1
  {
    if value <= lo {
      QuotientSign(value - lo, hi - lo);
    }
    if value >= hi {
      QuotientAtLeastOne(value - lo, hi - lo);
    }
  }

  lemma ColorIndexMonotone(v: real, w: real, lo: real, hi: real, size: nat)
    requires size >= 1 && lo < hi && v <= w
    ensures ColorIndex(v, lo, hi, size) <= ColorIndex(w, lo, hi, size)
  {
    var d := hi - lo;
    QuotientMonotone(v - lo, w - lo, d);
    var tv, tw := Position(v, lo, hi), Position(w, lo, hi);
    assert tv <= tw;
    var m := (size - 1) as real;
    ScaleMonotone(tv, tw, m);
    FloorMonotone(tv * m, tw * m);
  }

  lemma FloorMonotone(x: real, y: real)
    requires x <= y
    ensures x.Floor <= y.Floor
  {
    assert x.Floor as real <= x;
    assert y < y.Floor as real + 1.0;
  }

  /** setMinMax does not check the order: with min above max the colours run backwards. */
  lemma InvertedWindow(value: real, lo: real, hi: real, size: nat)
    requires size >= 1 && hi < lo
    ensures value >= lo ==> ColorIndex(value, lo, hi, size) == 0
    ensures value <= hi ==> ColorIndex(value, lo, hi, size) == size - 1
  {
    QuotientNegate(value - lo, hi - lo);
    if value >= lo {
      QuotientSign(lo - value, lo - hi);
    }
    if value <= hi {
      QuotientAtLeastOne(lo - value, lo - hi);
    }
  }

  lemma QuotientSign(a: real, d: real)
    requires a <= 0.0 < d
    ensures a / d <= 0.0
  {
    var q := a / d;
    assert q * d == a;
  }

  lemma QuotientAtLeastOne(a: real, d: real)
    requires a >= d > 0.0
    ensures a / d >= 1.0
  {
    var q := a / d;
    assert q * d == a;
  }

  lemma QuotientMonotone(a: real, b: real, d: real)
    requires a <= b && d > 0.0
    ensures a / d <= b / d
  {
    var qa, qb := a / d, b / d;
    assert qa * d == a && qb * d == b;
  }

  lemma QuotientNegate(a: real, d: real)
    requires d != 0.0
    ensures a / d == (-a) / (-d)
  {
  }

  lemma ScaleMonotone(x: real, y: real, m: real)
    requires x <= y && m >= 0.0
    ensures x * m <= y * m
  {
  }

  /** With min equal to max the map is a threshold: above it white, otherwise black. */
  lemma EmptyWindow(value: real, level: real)
    ensures ColorForValue(value, level, level, HeatMap())
            == if value > level then Vec3(1.0, 1.0, 1.0) else Vec3(0.0, 0.0, 0.0)
  {
    HeatMapShape();
  }

  // ---------------------------------------------------------------------
  // The vertex strip built by updateVertices

  /** Every row has at least `width` bins, so `row[x]` is defined for x < width. */
  predicate CoversWidth(grid: seq<seq<real>>, width: nat)
  {
    forall y :: 0 <= y < |grid| ==> |grid[y]| >= width
  }

  /** updateVertices reads every row up to the newest row's width. */
  predicate GeometryDefined(grid: seq<seq<real>>)
  {
    grid != [] ==> CoversWidth(grid, |grid[0]|)
  }

  function XPos(x: nat, width: nat): real
    requires width > 0
  {
    2.0 * x as real / width as real - 1.0
  }

  function YPos(y: nat, height: nat): real
    requires height > 0
  {
    1.0 - 2.0 * y as real / height as real
  }

  /** The vertices appended for bin x of row y: its own and, except on the last row, the one below. */
  function CellVertices(x: nat, y: nat, width: nat, height: nat): seq<Vec3>
    requires x < width && y < height
  {
    [Vec3(XPos(x, width), YPos(y, height), 0.0)]
    + (if y < height - 1 then [Vec3(XPos(x, width), YPos(y + 1, height), 0.0)] else [])
  }

  function RowVertices(n: nat, y: nat, width: nat, height: nat): seq<Vec3>
    requires n <= width && y < height
  {
    if n == 0 then [] else RowVertices(n - 1, y, width, height) + CellVertices(n - 1, y, width, height)
  }

  /** The vertices of the first `n` rows. */
  function StripVertices(n: nat, width: nat, height: nat): seq<Vec3>
    requires n <= height
  {
    if n == 0 then [] else StripVertices(n - 1, width, height) + RowVertices(width, n - 1, width, height)
  }

  /** The colours matching CellVertices. */
  function CellColors(grid: seq<seq<real>>, x: nat, y: nat, width: nat, shade: real -> Vec3): seq<Vec3>
    requires y < |grid| && x < width && CoversWidth(grid, width)
  {
    [shade(grid[y][x])] + (if y < |grid| - 1 then [shade(grid[y + 1][x])] else [])
  }

  function RowColors(grid: seq<seq<real>>, n: nat, y: nat, width: nat, shade: real -> Vec3): (r: seq<Vec3>)
    requires y < |grid| && n <= width && CoversWidth(grid, width)
    ensures |r| == n + (if y < |grid| - 1 then n else 0)
  {
    if n == 0 then []
    else RowColors(grid, n - 1, y, width, shade) + CellColors(grid, n - 1, y, width, shade)
  }

  function StripColors(grid: seq<seq<real>>, n: nat, width: nat, shade: real -> Vec3): (r: seq<Vec3>)
    requires n <= |grid| && CoversWidth(grid, width)
    ensures |r| == StripSize(n, width, |grid|)
  {
    if n == 0 then []
    else StripColors(grid, n - 1, width, shade) + RowColors(grid, width, n - 1, width, shade)
  }

  /** One more row extends the strip by that row's vertices and colours. */
  lemma StripSnoc(grid: seq<seq<real>>, y: nat, width: nat, shade: real -> Vec3)
    requires y < |grid| && CoversWidth(grid, width)
    ensures StripVertices(y + 1, width, |grid|) == StripVertices(y, width, |grid|) + RowVertices(width, y, width, |grid|)
    ensures StripColors(grid, y + 1, width, shade) == StripColors(grid, y, width, shade) + RowColors(grid, width, y, width, shade)
  {
  }

  lemma {:induction false} RowVertexCount(n: nat, y: nat, width: nat, height: nat)
    requires n <= width && y < height
    ensures |RowVertices(n, y, width, height)| == n + (if y < height - 1 then n else 0)
  {
    if n > 0 {
      RowVertexCount(n - 1, y, width, height);
    }
  }

  /** Row by row: `width` vertices per row, and `width` more for a row with a row below. */
  function StripSize(n: nat, width: nat, height: nat): nat
  {
    if n == 0 then 0 else StripSize(n - 1, width, height) + width + (if n - 1 < height - 1 then width else 0)
  }

  lemma {:induction false} StripSizeClosed(n: nat, width: nat, height: nat)
    requires n <= height && height > 0
    ensures StripSize(n, width, height) == width * n + width * (if n < height then n else n - 1)
  {
    if n > 0 {
      StripSizeClosed(n - 1, width, height);
      var p := width * (n - 1);
      assert StripSize(n - 1, width, height) == p + p;
      assert width * n == p + width;
      var rest := if n < height then n else n - 1;
      if n < height {
        assert StripSize(n, width, height) == p + p + width + width;
        assert width * rest == p + width;
      } else {
        assert StripSize(n, width, height) == p + p + width;
        assert width * rest == p;
      }
    }
  }

  /** The first `n` rows contribute as StripSize counts. */
  lemma {:induction false} StripVertexCount(n: nat, width: nat, height: nat)
    requires n <= height
    ensures |StripVertices(n, width, height)| == StripSize(n, width, height)
  {
    if n > 0 {
      StripVertexCount(n - 1, width, height);
      RowVertexCount(width, n - 1, width, height);
    }
  }

  /** The whole strip has width·height + width·(height − 1) vertices and as many colours. */
  lemma VertexCount(grid: seq<seq<real>>, shade: real -> Vec3)
    requires grid != [] && GeometryDefined(grid)
    ensures var w, h := |grid[0]|, |grid|;
            |StripVertices(h, w, h)| == |StripColors(grid, h, w, shade)| == w * h + w * (h - 1)
  {
    StripVertexCount(|grid|, |grid[0]|, |grid|);
    StripSizeClosed(|grid|, |grid[0]|, |grid|);
  }

  predicate InClipSpace(v: Vec3)
  {
    -1.0 <= v.x < 1.0 && -1.0 < v.y <= 1.0 && v.z == 0.0
  }

  lemma PositionsInRange(x: nat, width: nat, y: nat, height: nat)
    requires x < width && y < height
    ensures -1.0 <= XPos(x, width) < 1.0
    ensures -1.0 < YPos(y, height) <= 1.0
  {
    var w, h := width as real, height as real;
    assert x as real / w < 1.0;
    assert y as real / h < 1.0;
  }

  lemma {:induction false} RowInClipSpace(n: nat, y: nat, width: nat, height: nat)
    requires n <= width && y < height
    ensures forall v :: v in RowVertices(n, y, width, height) ==> InClipSpace(v)
  {
    if n > 0 {
      RowInClipSpace(n - 1, y, width, height);
      PositionsInRange(n - 1, width, y, height);
      if y < height - 1 {
        PositionsInRange(n - 1, width, y + 1, height);
      }
    }
  }

  /** Every vertex of the strip lies in the z = 0 plane of OpenGL's clip square. */
  lemma {:induction false} StripInClipSpace(n: nat, width: nat, height: nat)
    requires n <= height
    ensures forall v :: v in StripVertices(n, width, height) ==> InClipSpace(v)
  {
    if n > 0 {
      StripInClipSpace(n - 1, width, height);
      RowInClipSpace(width, n - 1, width, height);
      var before, row := StripVertices(n - 1, width, height), RowVertices(width, n - 1, width, height);
      assert StripVertices(n, width, height) == before + row;
      forall v | v in before + row
        ensures InClipSpace(v)
      {
        if v !in before {
          assert v in row;
        }
      }
    }
  }

  lemma {:induction false} RowColorsFromTable(grid: seq<seq<real>>, n: nat, y: nat, width: nat, shade: real -> Vec3, colormap: seq<Vec3>)
    requires y < |grid| && n <= width && CoversWidth(grid, width)
    requires forall v :: shade(v) in colormap
    ensures forall c :: c in RowColors(grid, n, y, width, shade) ==> c in colormap
  {
    if n > 0 {
      RowColorsFromTable(grid, n - 1, y, width, shade, colormap);
    }
  }

  /** Every colour of the strip is an entry of the colour table. */
  lemma {:induction false} StripColorsFromTable(grid: seq<seq<real>>, n: nat, width: nat, shade: real -> Vec3, colormap: seq<Vec3>)
    requires n <= |grid| && CoversWidth(grid, width)
    requires forall v :: shade(v) in colormap
    ensures forall c :: c in StripColors(grid, n, width, shade) ==> c in colormap
  {
    if n > 0 {
      StripColorsFromTable(grid, n - 1, width, shade, colormap);
      RowColorsFromTable(grid, width, n - 1, width, shade, colormap);
    }
  }

  // ---------------------------------------------------------------------
  // Axis ticks of drawLabels

  /** A text label: its anchor in widget pixels and the number it shows (MHz or seconds). */
  datatype Label = Label(x: int, y: int, value: real)

  /** Frequency tick `i` of 10 across [center − bw/2, center + bw/2]. */
  function FrequencyTick(i: nat, centerFreq: real, bandwidth: real): real
  {
    var startFreq := centerFreq - bandwidth / 2.0;
    var endFreq := centerFreq + bandwidth / 2.0;
    startFreq + (endFreq - startFreq) * i as real / 10.0
  }

  function FrequencyLabel(i: nat, centerFreq: real, bandwidth: real, width: nat, height: nat): Label
  {
    Label(width * i / 10 - 20, height - 5, FrequencyTick(i, centerFreq, bandwidth) / 1000000.0)
  }

  /** Time tick `i` of 5 across [0, span], shown negated (seconds ago). */
  function TimeLabel(i: nat, timeSpan: real, height: nat): Label
  {
    Label(5, height * i / 5 + 15, -(timeSpan * i as real / 5.0))
  }

  /** The labels drawn by the first `n` steps of a tick loop. */
  function FrequencyLabels(n: nat, centerFreq: real, bandwidth: real, width: nat, height: nat): (r: seq<Label>)
    ensures |r| == n
  {
    if n == 0 then [] else FrequencyLabels(n - 1, centerFreq, bandwidth, width, height)
                           + [FrequencyLabel(n - 1, centerFreq, bandwidth, width, height)]
  }

  function TimeLabels(n: nat, timeSpan: real, height: nat): (r: seq<Label>)
    ensures |r| == n
  {
    if n == 0 then [] else TimeLabels(n - 1, timeSpan, height) + [TimeLabel(n - 1, timeSpan, height)]
  }

  lemma {:induction false} FrequencyLabelsAt(n: nat, k: nat, centerFreq: real, bandwidth: real, width: nat, height: nat)
    requires k < n
    ensures FrequencyLabels(n, centerFreq, bandwidth, width, height)[k] == FrequencyLabel(k, centerFreq, bandwidth, width, height)
  {
    if k < n - 1 {
      FrequencyLabelsAt(n - 1, k, centerFreq, bandwidth, width, height);
    }
  }

  lemma {:induction false} TimeLabelsAt(n: nat, k: nat, timeSpan: real, height: nat)
    requires k < n
    ensures TimeLabels(n, timeSpan, height)[k] == TimeLabel(k, timeSpan, height)
  {
    if k < n - 1 {
      TimeLabelsAt(n - 1, k, timeSpan, height);
    }
  }

  /**
   * The 11 frequency ticks run from center − bw/2 to center + bw/2 in equal
   * steps of bw/10, left to right across the widget's width.
   */
  lemma FrequencyTicks(centerFreq: real, bandwidth: real, width: nat, height: nat)
    ensures var ls := FrequencyLabels(11, centerFreq, bandwidth, width, height);
            && ls[0] == Label(-20, height - 5, (centerFreq - bandwidth / 2.0) / 1000000.0)
            && ls[10] == Label(width - 20, height - 5, (centerFreq + bandwidth / 2.0) / 1000000.0)
            && (forall i :: 0 <= i < 10 ==> ls[i + 1].value - ls[i].value == bandwidth / 10.0 / 1000000.0)
            && (forall i :: 0 <= i < 10 ==> ls[i].x <= ls[i + 1].x)
  {
    var ls := FrequencyLabels(11, centerFreq, bandwidth, width, height);
    FrequencyLabelsAt(11, 0, centerFreq, bandwidth, width, height);
    FrequencyLabelsAt(11, 10, centerFreq, bandwidth, width, height);
    forall i | 0 <= i < 10
      ensures ls[i + 1].value - ls[i].value == bandwidth / 10.0 / 1000000.0
      ensures ls[i].x <= ls[i + 1].x
    {
      FrequencyLabelsAt(11, i, centerFreq, bandwidth, width, height);
      FrequencyLabelsAt(11, i + 1, centerFreq, bandwidth, width, height);
      assert width * i <= width * (i + 1);
    }
  }

  /** The 6 time ticks run from 0 to −span, top to bottom. */
  lemma TimeTicks(timeSpan: real, height: nat)
    ensures var ls := TimeLabels(6, timeSpan, height);
            && ls[0] == Label(5, 15, 0.0)
            && ls[5] == Label(5, height + 15, -timeSpan)
            && (forall i :: 0 <= i < 5 ==> ls[i].y <= ls[i + 1].y)
  {
    var ls := TimeLabels(6, timeSpan, height);
    TimeLabelsAt(6, 0, timeSpan, height);
    TimeLabelsAt(6, 5, timeSpan, height);
    forall i | 0 <= i < 5
      ensures ls[i].y <= ls[i + 1].y
    {
      TimeLabelsAt(6, i, timeSpan, height);
      TimeLabelsAt(6, i + 1, timeSpan, height);
      assert height * i <= height * (i + 1);
    }
  }

  /**
   * The nested loops of updateVertices: for every row, newest first, and every
   * bin of the newest row, the bin's vertex and colour and, except on the last
   * row, those of the same bin one row further back.
   */
  method BuildStrip(grid: seq<seq<real>>, shade: real -> Vec3) returns (vs: seq<Vec3>, cs: seq<Vec3>)
    requires grid != [] && GeometryDefined(grid)
    ensures vs == StripVertices(|grid|, |grid[0]|, |grid|)
    ensures cs == StripColors(grid, |grid|, |grid[0]|, shade)
  {
    var width := |grid[0]|;
    var height := |grid|;
    assert CoversWidth(grid, width);
    vs := [];
    cs := [];
    var y := 0;
    while y < height
      invariant 0 <= y <= height
      invariant vs == StripVertices(y, width, height)
      invariant cs == StripColors(grid, y, width, shade)
    {
      var rowVertices, rowColors := BuildRow(grid, y, shade);
      StripSnoc(grid, y, width, shade);
      vs := vs + rowVertices;
      cs := cs + rowColors;
      y := y + 1;
    }
    assert y == |grid| && width == |grid[0]|;
  }

  /** The inner loop of updateVertices: the cells of row `y`, bin by bin. */
  method BuildRow(grid: seq<seq<real>>, y: nat, shade: real -> Vec3) returns (vs: seq<Vec3>, cs: seq<Vec3>)
    requires y < |grid| && GeometryDefined(grid)
    ensures vs == RowVertices(|grid[0]|, y, |grid[0]|, |grid|)
    ensures cs == RowColors(grid, |grid[0]|, y, |grid[0]|, shade)
  {
    var width := |grid[0]|;
    var height := |grid|;
    var row := grid[y];
    vs := [];
    cs := [];
    var x := 0;
    while x < width
      invariant 0 <= x <= width
      invariant vs == RowVertices(x, y, width, height)
      invariant cs == RowColors(grid, x, y, width, shade)
    {
      var xPos := XPos(x, width);
      var cellVertices := [Vec3(xPos, YPos(y, height), 0.0)];
      var cellColors := [shade(row[x])];
      if y < height - 1 {
        cellVertices := cellVertices + [Vec3(xPos, YPos(y + 1, height), 0.0)];
        cellColors := cellColors + [shade(grid[y + 1][x])];
      }
      assert cellVertices == CellVertices(x, y, width, height);
      assert cellColors == CellColors(grid, x, y, width, shade);
      vs := vs + cellVertices;
      cs := cs + cellColors;
      x := x + 1;
    }
  }

  // ---------------------------------------------------------------------
  // The widget

  const InitialMaxHistory := 1024
  const InitialMinDb := -120.0
  const InitialMaxDb := -20.0
  const InitialTimeSpan := 10.0
  /** The display is assumed to receive 60 rows a second. */
  const RowsPerSecond := 60.0

  class WaterfallDisplay {
    var history: seq<seq<real>>
    var centerFreq: real
    var bandwidth: real
    var sampleRate: real
    var lastUpdate: int
    var maxHistory: nat
    var vertices: seq<Vec3>
    var colors: seq<Vec3>
    var minDb: real
    var maxDb: real
    var timeSpan: real
    var initialized: bool
    var colormap: seq<Vec3>

    /** Once the GL context is up, the colour table is the heat map. */
    predicate Valid()
      reads this
    {
      initialized ==> colormap == HeatMap()
    }

    constructor (now: int)
      ensures Valid() && !initialized
      ensures history == [] && maxHistory == InitialMaxHistory && lastUpdate == now
      ensures minDb == InitialMinDb && maxDb == InitialMaxDb && timeSpan == InitialTimeSpan
      ensures vertices == [] && colors == [] && colormap == []
    {
      history := [];
      maxHistory := InitialMaxHistory;
      lastUpdate := now;
      minDb := InitialMinDb;
      maxDb := InitialMaxDb;
      timeSpan := InitialTimeSpan;
      initialized := false;
      vertices := [];
      colors := [];
      colormap := [];
    }

    /** The strip updateVertices would build from the current state. */
    predicate GeometryIsCurrent()
      reads this
      requires Valid() && initialized && GeometryDefined(history)
    {
      var w, h := if history == [] then 0 else |history[0]|, |history|;
      vertices == StripVertices(h, w, h) && colors == StripColors(history, h, w, Shade(minDb, maxDb, colormap))
    }

    /** initializeColorMap: fills the table entry by entry. */
    method InitializeColorMap()
      modifies this`colormap
      ensures colormap == HeatMap()
    {
      colormap := [];
      var i := 0;
      while i < ColorMapSize
        invariant 0 <= i <= ColorMapSize
        invariant |colormap| == i && forall k :: 0 <= k < i ==> colormap[k] == HeatColor(k)
      {
        colormap := colormap + [HeatColor(i)];
        i := i + 1;
      }
      assert colormap == HeatMap();
    }

    /** initializeGL, for the model's state: build the table, mark the widget ready. */
    method InitializeGL()
      modifies this`colormap, this`initialized
      ensures initialized && colormap == HeatMap() && Valid()
    {
      InitializeColorMap();
      initialized := true;
    }

    /** updateVertices: rebuilds the strip from the history, or does nothing before GL is up or without rows. */
    method UpdateVertices()
      requires Valid() && (initialized ==> GeometryDefined(history))
      modifies this`vertices, this`colors
      ensures !initialized || history == [] ==> vertices == old(vertices) && colors == old(colors)
      ensures initialized && history != [] ==> GeometryIsCurrent()
    {
      if !initialized || history == [] {
        return;
      }
      vertices, colors := BuildStrip(history, Shade(minDb, maxDb, colormap));
    }

    /** updateData: the newest row goes first, the oldest may drop, the tuning is overwritten. */
    method UpdateData(row: seq<real>, centerFreq: real, bandwidth: real, sampleRate: real, now: int)
      requires Valid() && (initialized ==> GeometryDefined(Pushed(history, row, maxHistory)))
      modifies this
      ensures Valid()
      ensures history == Pushed(old(history), row, maxHistory)
      ensures this.centerFreq == centerFreq && this.bandwidth == bandwidth && this.sampleRate == sampleRate
      ensures lastUpdate == now
      ensures maxHistory == old(maxHistory) && minDb == old(minDb) && maxDb == old(maxDb)
      ensures timeSpan == old(timeSpan) && initialized == old(initialized) && colormap == old(colormap)
      ensures !initialized || history == [] ==> vertices == old(vertices) && colors == old(colors)
      ensures initialized && history != [] ==> GeometryIsCurrent()
    {
      this.centerFreq := centerFreq;
      this.bandwidth := bandwidth;
      this.sampleRate := sampleRate;
      var rows := [row] + history;
      if |rows| > maxHistory {
        rows := rows[..|rows| - 1];
      }
      assert rows == Pushed(history, row, maxHistory);
      history := rows;
      lastUpdate := now;
      UpdateVertices();
    }

    /**
     * setTimeSpan: max_history becomes trunc(seconds × 60); no row is removed
     * here. The float-to-size_t conversion is only defined when the truncated
     * value is representable.
     */
    method SetTimeSpan(seconds: real)
      requires -1.0 < seconds * RowsPerSecond < 18446744073709551616.0
      requires Valid() && (initialized ==> GeometryDefined(history))
      modifies this`timeSpan, this`maxHistory, this`vertices, this`colors
      ensures timeSpan == seconds
      ensures maxHistory == Framing.Trunc(seconds * RowsPerSecond)
      ensures !initialized || history == [] ==> vertices == old(vertices) && colors == old(colors)
      ensures initialized && history != [] ==> GeometryIsCurrent()
    {
      timeSpan := seconds;
      maxHistory := Framing.Trunc(seconds * RowsPerSecond);
      UpdateVertices();
    }

    /** setColorMap: the name is ignored and the same heat map is rebuilt. */
    method SetColorMap(name: string)
      requires Valid() && (initialized ==> GeometryDefined(history))
      modifies this`colormap, this`vertices, this`colors
      ensures colormap == HeatMap() && Valid()
      ensures !initialized || history == [] ==> vertices == old(vertices) && colors == old(colors)
      ensures initialized && history != [] ==> GeometryIsCurrent()
    {
      InitializeColorMap();
      UpdateVertices();
    }

    /** setMinMax: both bounds are stored as given, in either order. */
    method SetMinMax(minDb: real, maxDb: real)
      requires Valid() && (initialized ==> GeometryDefined(history))
      modifies this`minDb, this`maxDb, this`vertices, this`colors
      ensures this.minDb == minDb && this.maxDb == maxDb
      ensures !initialized || history == [] ==> vertices == old(vertices) && colors == old(colors)
      ensures initialized && history != [] ==> GeometryIsCurrent()
    {
      this.minDb := minDb;
      this.maxDb := maxDb;
      UpdateVertices();
    }

    /** The label anchors and values of drawLabels for a widget of the given size. */
    method DrawLabels(width: nat, height: nat) returns (labels: seq<Label>)
      ensures labels == FrequencyLabels(11, centerFreq, bandwidth, width, height) + TimeLabels(6, timeSpan, height)
    {
      var frequencyLabels := DrawFrequencyLabels(centerFreq, bandwidth, width, height);
      var timeLabels := DrawTimeLabels(timeSpan, height);
      labels := frequencyLabels + timeLabels;
    }
  }

  /** The frequency loop of drawLabels: eleven ticks across the band. */
  method DrawFrequencyLabels(centerFreq: real, bandwidth: real, width: nat, height: nat) returns (labels: seq<Label>)
    ensures labels == FrequencyLabels(11, centerFreq, bandwidth, width, height)
  {
    var startFreq := centerFreq - bandwidth / 2.0;
    var endFreq := centerFreq + bandwidth / 2.0;
    labels := [];
    var i := 0;
    while i <= 10
      invariant 0 <= i <= 11
      invariant labels == FrequencyLabels(i, centerFreq, bandwidth, width, height)
    {
      var freq := startFreq + (endFreq - startFreq) * i as real / 10.0;
      var x := width * i / 10;
      assert freq == FrequencyTick(i, centerFreq, bandwidth);
      labels := labels + [Label(x - 20, height - 5, freq / 1000000.0)];
      i := i + 1;
    }
  }

  /** The time loop of drawLabels: six ticks down the history. */
  method DrawTimeLabels(timeSpan: real, height: nat) returns (labels: seq<Label>)
    ensures labels == TimeLabels(6, timeSpan, height)
  {
    labels := [];
    var i := 0;
    while i <= 5
      invariant 0 <= i <= 6
      invariant labels == TimeLabels(i, timeSpan, height)
    {
      var time := timeSpan * i as real / 5.0;
      var y := height * i / 5;
      labels := labels + [Label(5, y + 15, -time)];
      i := i + 1;
    }
  }

  /** Setting the colour map twice leaves the same table as setting it once. */
  method SetColorMapIdempotent(display: WaterfallDisplay)
    requires display.Valid() && (display.initialized ==> GeometryDefined(display.history))
    modifies display
  {
    display.SetColorMap("heat");
    var first := display.colormap;
    display.SetColorMap("anything else");
    assert display.colormap == first;
  }
}
