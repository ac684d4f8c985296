/**
 * The QPSK phase-transition transmitter (resources/nancy_qpsk.py): a fixed
 * 1200-symbol pattern, with the symbols given by their phase in degrees.
 * Long runs of each phase come first, then two clockwise and two
 * counter-clockwise cycles of shorter runs.
 */
module NancyQpsk {
  import opened Wrappers
  import opened Framing

  const SymbolsPerState := 100

  /**
   * The pattern as 24 runs of 50 symbols: the four 100-symbol runs are two
   * runs each here.
   */
  const Runs: seq<int> := [45, 45, 135, 135, 225, 225, 315, 315,
                           45, 135, 225, 315, 45, 135, 225, 315,
                           45, 315, 225, 135, 45, 315, 225, 135]

  /** create_qpsk_pattern. */
  method CreateQpskPattern() returns (pattern: seq<int>)
    ensures pattern == Hold(Runs, SymbolsPerState / 2)
  {
    var half := SymbolsPerState / 2;
    pattern := [];
    pattern := pattern + Repeat(45, SymbolsPerState);
    pattern := pattern + Repeat(135, SymbolsPerState);
    pattern := pattern + Repeat(225, SymbolsPerState);
    pattern := pattern + Repeat(315, SymbolsPerState);
    assert pattern == Hold(Runs[..8], half) by {
      LongRuns();
    }
    RunSections();
    pattern := AppendCycles(pattern, Runs[..8], [45, 135, 225, 315], half);
    pattern := AppendCycles(pattern, Runs[..16], [45, 315, 225, 135], half);
  }

  /** The runs are the long section, the clockwise cycle twice, then the counter-clockwise cycle twice. */
  lemma RunSections()
    ensures Runs[..8] + [45, 135, 225, 315] + [45, 135, 225, 315] == Runs[..16]
    ensures Runs[..16] + [45, 315, 225, 135] + [45, 315, 225, 135] == Runs
  {
  }

  /** One `for _ in range(2)` loop: the four phases in order, `n` symbols each, twice. */
  method AppendCycles(pattern: seq<int>, ghost done: seq<int>, four: seq<int>, n: nat) returns (extended: seq<int>)
    requires |four| == 4 && pattern == Hold(done, n)
    ensures extended == Hold(done + four + four, n)
  {
    extended := pattern;
    for cycle := 0 to 2
      invariant extended == Hold(if cycle == 0 then done else if cycle == 1 then done + four else done + four + four, n)
    {
      AppendRuns(if cycle == 0 then done else done + four, four, n);
      extended := extended + Repeat(four[0], n);
      extended := extended + Repeat(four[1], n);
      extended := extended + Repeat(four[2], n);
      extended := extended + Repeat(four[3], n);
    }
  }

  /** Four runs of 100 are the first eight runs of 50. */
  lemma LongRuns()
    ensures Repeat(45, 100) + Repeat(135, 100) + Repeat(225, 100) + Repeat(315, 100) == Hold(Runs[..8], 50)
  {
    var h := Hold(Runs[..8], 50);
    forall i | 0 <= i < 400
      ensures h[i] == (Repeat(45, 100) + Repeat(135, 100) + Repeat(225, 100) + Repeat(315, 100))[i]
    {
      HoldAt(Runs[..8], 50, i / 50, i % 50);
      assert i / 50 * 50 + i % 50 == i;
    }
  }

  /** Appending four runs of `n` symbols each. */
  lemma AppendRuns(done: seq<int>, four: seq<int>, n: nat)
    requires |four| == 4
    ensures Hold(done, n) + Repeat(four[0], n) + Repeat(four[1], n) + Repeat(four[2], n) + Repeat(four[3], n)
         == Hold(done + four, n)
  {
    var p1 := done + [four[0]];
    HoldSnoc(done, four[0], n);
    var p2 := p1 + [four[1]];
    HoldSnoc(p1, four[1], n);
    var p3 := p2 + [four[2]];
    HoldSnoc(p2, four[2], n);
    HoldSnoc(p3, four[3], n);
    assert four == [four[0], four[1], four[2], four[3]];
    assert p3 + [four[3]] == done + four;
  }

  /** Symbol i of the pattern is the phase of run i / 50; there are 1200 of them. */
  lemma PatternAt(i: nat)
    requires i < 1200
    ensures |Hold(Runs, 50)| == 1200
    ensures Hold(Runs, 50)[i] == Runs[i / 50]
  {
    HoldAt(Runs, 50, i / 50, i % 50);
    assert i / 50 * 50 + i % 50 == i;
  }

  /**
   * The three sections: symbols 0–399 are 100 each of 45°, 135°, 225°, 315°;
   * 400–799 two clockwise cycles and 800–1199 two counter-clockwise cycles,
   * 50 symbols per phase.
   */
  lemma PatternSections(i: nat)
    requires i < 1200
    ensures i < 400 ==> Hold(Runs, 50)[i] == [45, 135, 225, 315][i / 100]
    ensures 400 <= i < 800 ==> Hold(Runs, 50)[i] == [45, 135, 225, 315][(i - 400) / 50 % 4]
    ensures 800 <= i ==> Hold(Runs, 50)[i] == [45, 315, 225, 135][(i - 800) / 50 % 4]
  {
    PatternAt(i);
  }

  /**
   * The phase changes between symbols i and i+1 exactly at the end of one
   * of the source's runs: after 100, 200 and 300 symbols, then every 50
   * symbols from 400 on.
   */
  lemma PhaseChanges(i: nat)
    requires i + 1 < 1200
    ensures Hold(Runs, 50)[i] != Hold(Runs, 50)[i + 1] <==>
              (i + 1) in {100, 200, 300} || (i + 1 >= 400 && (i + 1) % 50 == 0)
  {
    PatternAt(i);
    PatternAt(i + 1);
    if (i + 1) % 50 != 0 {
      assert i / 50 == (i + 1) / 50;
    } else {
      var k := (i + 1) / 50;
      assert i / 50 == k - 1;
      assert 1 <= k < 24;
    }
  }

  /** Each of the four phases occurs in exactly 300 symbols. */
  lemma PhaseCounts(phase: int)
    requires phase in {45, 135, 225, 315}
    ensures multiset(Hold(Runs, 50))[phase] == 300
  {
    HoldCount(Runs, 50, phase);
    RunCounts(phase);
  }

  /** Each phase heads six of the 24 runs. */
  lemma RunCounts(phase: int)
    requires phase in {45, 135, 225, 315}
    ensures multiset(Runs)[phase] == 6
  {
    var long: seq<int> := [45, 45, 135, 135, 225, 225, 315, 315];
    var clockwise: seq<int> := [45, 135, 225, 315];
    var counter: seq<int> := [45, 315, 225, 135];
    assert Runs == long + clockwise + clockwise + counter + counter;
    PairedCycleCount(45, 135, 225, 315, phase);
    CycleCount(45, 135, 225, 315, phase);
    CycleCount(45, 315, 225, 135, phase);
    SectionCounts(long, clockwise, counter, phase);
  }

  /** The long runs hold every phase twice, each cycle once. */
  lemma SectionCounts(long: seq<int>, clockwise: seq<int>, counter: seq<int>, phase: int)
    requires multiset(long)[phase] == 2
    requires multiset(clockwise)[phase] == 1 && multiset(counter)[phase] == 1
    ensures multiset(long + clockwise + clockwise + counter + counter)[phase] == 6
  {
    assert multiset(long + clockwise + clockwise + counter + counter)
        == multiset(long) + multiset(clockwise) + multiset(clockwise) + multiset(counter) + multiset(counter);
  }

  /** Four distinct phases, each twice in a row, hold each of them twice. */
  lemma PairedCycleCount(a: int, b: int, c: int, d: int, phase: int)
    requires a != b && a != c && a != d && b != c && b != d && c != d
    requires phase in {a, b, c, d}
    ensures multiset([a, a, b, b, c, c, d, d])[phase] == 2
  {
  }

  /** A cycle through four distinct phases visits each of them once. */
  lemma CycleCount(a: int, b: int, c: int, d: int, phase: int)
    requires a != b && a != c && a != d && b != c && b != d && c != d
    requires phase in {a, b, c, d}
    ensures multiset([a, b, c, d])[phase] == 1
  {
  }

  lemma {:induction false} HoldCount(s: seq<int>, n: nat, x: int)
    ensures multiset(Hold(s, n))[x] == n * multiset(s)[x]
  {
    if s != [] {
      var last := |s| - 1;
      var init := s[..last];
      HoldCount(init, n, x);
      RepeatCount(s[last], n, x);
      assert s == init + [s[last]];
      assert Hold(s, n) == Hold(init, n) + Repeat(s[last], n);
      var before := multiset(init)[x];
      if s[last] == x {
        assert multiset(s)[x] == before + 1;
        MulStep(n, before);
      } else {
        assert multiset(s)[x] == before;
      }
    }
  }

  lemma {:induction false} RepeatCount(y: int, n: nat, x: int)
    ensures multiset(Repeat(y, n))[x] == if x == y then n else 0
  {
    if n > 0 {
      RepeatCount(y, n - 1, x);
      assert Repeat(y, n) == Repeat(y, n - 1) + [y];
    }
  }

  /** Downstream every symbol is held for `samples_per_symbol` samples, 20000 at 2 MHz and 100 baud. */
  lemma SampleLayout(sps: nat, i: nat, j: nat)
    requires i < 1200 && j < sps
    ensures |Hold(Hold(Runs, 50), sps)| == 1200 * sps
    ensures i * sps + j < 1200 * sps
    ensures Hold(Hold(Runs, 50), sps)[i * sps + j] == Runs[i / 50]
    ensures SamplesPerSymbol(2000000.0, 100.0) == Some(20000)
  {
    PatternAt(i);
    HoldAt(Hold(Runs, 50), sps, i, j);
  }
}
