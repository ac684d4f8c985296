/**
 * The slow QPSK demonstration transmitter (resources/kevin_qpsk.py): the
 * bits it sends (a message's characters or a repeating dibit pattern),
 * the phase of each bit pair, and the signal as the phase of every sample.
 */
module KevinQpsk {
  import opened Wrappers
  import opened Framing

  /** 00, 01, 10, 11: every QPSK state once. */
  const Pattern: seq<Bit> := [0, 0, 0, 1, 1, 0, 1, 1]
  /** The bit count create_qpsk_modulation asks for. */
  const ModulationBits := 32
  /** The symbol length create_qpsk_modulation uses, whatever the baud rate. */
  const SymbolSamples := 200000

  /**
   * The bits generate_binary_data returns: for a non-empty message its
   * characters' binary digits padded with one 0 to an even count; otherwise
   * the first `numBits` bits of the repeated pattern (none for a negative
   * count, as Python's slicing gives).
   */
  function BinaryData(message: Option<string>, numBits: int): seq<Bit>
  {
    if message.Some? && message.value != [] then
      var bits := TextBits(message.value);
      if |bits| % 2 != 0 then bits + [0] else bits
    else if numBits < 0 then []
    else Times(Pattern, numBits / 8 + 1)[..numBits]
  }

  /** generate_binary_data. */
  method GenerateBinaryData(message: Option<string>, numBits: int) returns (data: seq<Bit>)
    ensures data == BinaryData(message, numBits)
  {
    if message.Some? && message.value != [] {
      var text := message.value;
      data := [];
      var i := 0;
      while i < |text|
        invariant 0 <= i <= |text|
        invariant data == TextBits(text[..i])
      {
        assert text[..i + 1][..i] == text[..i];
        data := data + Format08b(text[i] as int);
        i := i + 1;
      }
      assert text[..i] == text;
      if |data| % 2 != 0 {
        data := data + [0];
      }
    } else if numBits < 0 {
      data := [];
    } else {
      data := Times(Pattern, numBits / 8 + 1)[..numBits];
    }
  }

  /**
   * With a message the bits are its characters' digits, then a single 0
   * exactly when their count is odd, so the count is always even and the
   * bit count requested is ignored; text below code point 256 needs no pad.
   */
  lemma MessageData(text: string, numBits: int)
    requires text != []
    ensures var data := BinaryData(Some(text), numBits);
            && |data| % 2 == 0
            && data[..|TextBits(text)|] == TextBits(text)
            && (|TextBits(text)| % 2 == 0 <==> |data| == |TextBits(text)|)
            && (|TextBits(text)| % 2 != 0 ==> data[|data| - 1] == 0)
  {
    var bits := TextBits(text);
    assert (bits + [0])[..|bits|] == bits;
  }

  /** Text below code point 256 has eight bits per character, so it needs no padding. */
  lemma Latin1MessageData(text: string, numBits: int)
    requires text != [] && forall i :: 0 <= i < |text| ==> (text[i] as int) < 256
    ensures BinaryData(Some(text), numBits) == TextBits(text)
    ensures |BinaryData(Some(text), numBits)| == 8 * |text|
  {
    var bits := TextBits(text);
    assert |bits| == 8 * |text| by { TextBitsLatin1(text); }
    assert |bits| % 2 == 0;
  }

  /** Without a message the bits are the first `numBits` of 0,0,0,1,1,0,1,1 repeated. */
  lemma PatternData(numBits: nat, i: nat)
    requires i < numBits
    ensures |BinaryData(None, numBits)| == numBits
    ensures BinaryData(None, numBits)[i] == Pattern[i % 8]
  {
    var copies := numBits / 8 + 1;
    assert numBits < 8 * copies;
    TimesAt(Pattern, copies, i / 8, i % 8);
    assert i / 8 * 8 + i % 8 == i;
  }

  /** The phase, in degrees, of an (I, Q) bit pair. */
  function PhaseOf(iBit: Bit, qBit: Bit): (r: int)
    ensures r in {45, 135, 225, 315}
  {
    if iBit == 0 && qBit == 0 then 225
    else if iBit == 0 && qBit == 1 then 315
    else if iBit == 1 && qBit == 0 then 135
    else 45
  }

  /** The bit pair a receiver reads back from one of the four phases. */
  function PairOf(phase: int): (r: (Bit, Bit))
  {
    if phase == 225 then (0, 0) else if phase == 315 then (0, 1) else if phase == 135 then (1, 0) else (1, 1)
  }

  /** The four bit pairs get four different phases, and each phase gives its pair back. */
  lemma PhaseRoundTrip(iBit: Bit, qBit: Bit, iOther: Bit, qOther: Bit)
    ensures PairOf(PhaseOf(iBit, qBit)) == (iBit, qBit)
    ensures PhaseOf(iBit, qBit) == PhaseOf(iOther, qOther) ==> iBit == iOther && qBit == qOther
  {
  }

  /** One phase per complete bit pair, read at even positions. */
  function Phases(bits: seq<Bit>): (r: seq<int>)
    ensures |r| == |bits| / 2
  {
    seq(|bits| / 2, k requires 0 <= k < |bits| / 2 => PhaseOf(bits[2 * k], bits[2 * k + 1]))
  }

  /**
   * create_qpsk_modulation, with each sample given as its phase in degrees:
   * the bits for 32 requested bits, one symbol per complete pair, each held
   * for 200000 samples.
   */
  method CreateQpskModulation(message: Option<string>) returns (signal: seq<int>)
    ensures signal == Hold(Phases(BinaryData(message, ModulationBits)), SymbolSamples)
  {
    var data := GenerateBinaryData(message, ModulationBits);
    signal := ModulatePairs(data);
  }

  /** The pair loop of create_qpsk_modulation; a trailing unpaired bit is skipped. */
  method ModulatePairs(data: seq<Bit>) returns (signal: seq<int>)
    ensures signal == Hold(Phases(data), SymbolSamples)
  {
    ghost var phases := Phases(data);
    signal := [];
    var i := 0;
    while i < |data|
      invariant 0 <= i <= |data| && i % 2 == 0
      invariant signal == Hold(phases[..i / 2], SymbolSamples)
    {
      if i + 1 >= |data| {
        break;
      }
      var phase := PhaseOf(data[i], data[i + 1]);
      assert phases[..i / 2 + 1] == phases[..i / 2] + [phase];
      HoldSnoc(phases[..i / 2], phase, SymbolSamples);
      signal := signal + Repeat(phase, SymbolSamples);
      i := i + 2;
    }
    assert i / 2 == |data| / 2;
    assert phases[..i / 2] == phases;
  }

  /**
   * The signal has one 200000-sample symbol per bit pair; every sample of
   * symbol k carries the phase of bits 2k and 2k+1. Without a message that
   * is 16 symbols.
   */
  lemma ModulationLayout(data: seq<Bit>, k: nat, j: nat)
    requires k < |data| / 2 && j < SymbolSamples
    ensures |Hold(Phases(data), SymbolSamples)| == |data| / 2 * SymbolSamples
    ensures Hold(Phases(data), SymbolSamples)[k * SymbolSamples + j] == PhaseOf(data[2 * k], data[2 * k + 1])
    ensures |BinaryData(None, ModulationBits)| / 2 == 16
  {
    HoldAt(Phases(data), SymbolSamples, k, j);
    PatternData(ModulationBits, 0);
  }

  /** The hard-coded symbol length happens to equal `samples_per_symbol` at the default 2 MHz and 10 baud only. */
  lemma SymbolLengthIgnoresBaud()
    ensures SamplesPerSymbol(2000000.0, 10.0) == Some(SymbolSamples)
    ensures SamplesPerSymbol(2000000.0, 20.0) != Some(SymbolSamples)
  {
  }
}
