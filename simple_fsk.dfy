/**
 * The FSK transmitter (resources/simple_fsk.py): text to bits, the framed
 * bit sequence, and the signal as the frequency offset of every sample;
 * a 0 bit is sent below the carrier, a 1 bit above it.
 */
module SimpleFsk {
  import opened Wrappers
  import opened Framing

  const Preamble: seq<Bit> := [1, 0, 1, 0, 1, 0, 1, 0, 1, 0, 1, 0, 1, 0, 1, 0]
  const Postamble: seq<Bit> := [1, 0, 1, 0, 1, 0, 1, 0]
  const DefaultPattern: seq<Bit> := [0, 1, 0, 1, 0, 1, 0, 1, 0, 1]

  /** The ValueError of `np.ones` for a negative length. */
  const NegativeLength := "negative dimensions are not allowed"
  /** The IndexError of `symbol_phases[-1]` on an empty array. */
  const EmptySymbol := "index -1 is out of bounds for axis 0 with size 0"

  /** text_to_bits. */
  method TextToBits(text: string) returns (bits: seq<Bit>)
    ensures bits == TextBits(text)
  {
    bits := [];
    var i := 0;
    while i < |text|
      invariant 0 <= i <= |text|
      invariant bits == TextBits(text[..i])
    {
      var charBits := Format08b(text[i] as int);
      assert text[..i + 1][..i] == text[..i];
      bits := bits + charBits;
      i := i + 1;
    }
    assert text[..i] == text;
  }

  /**
   * The bits create_fsk_modulation sends: for a non-empty message a 16-bit
   * 1,0 preamble, the message bits and an 8-bit 1,0 postamble; for no
   * message or an empty one the fixed 0,1 pattern.
   */
  function FrameBits(message: Option<string>): seq<Bit>
  {
    if message.Some? && message.value != [] then Preamble + TextBits(message.value) + Postamble
    else DefaultPattern
  }

  /**
   * A non-empty message is sent after sixteen alternating bits starting
   * with 1, its own bits in the middle, 24 + 8·len bits in all for text
   * below code point 256.
   */
  lemma FrameBitsMessage(text: string)
    requires text != []
    ensures var bits := FrameBits(Some(text));
            && |bits| == 24 + |TextBits(text)|
            && bits[16..16 + |TextBits(text)|] == TextBits(text)
            && (forall k :: 0 <= k < 16 ==> bits[k] == (k + 1) % 2)
            && bits[16 + |TextBits(text)|..] == Postamble
  {
    var t := TextBits(text);
    assert FrameBits(Some(text)) == Preamble + t + Postamble;
  }

  lemma FrameBitsLatin1(text: string)
    requires text != [] && forall i :: 0 <= i < |text| ==> (text[i] as int) < 256
    ensures |FrameBits(Some(text))| == 24 + 8 * |text|
  {
    TextBitsLatin1(text);
  }

  /** Without a message, or with an empty one, the ten bits 0,1,0,1,… are sent. */
  lemma FrameBitsDefault(message: Option<string>)
    requires message.None? || message.value == []
    ensures |FrameBits(message)| == 10 && forall k :: 0 <= k < 10 ==> FrameBits(message)[k] == k % 2
  {
  }

  lemma FrameBitsNonEmpty(message: Option<string>)
    ensures |FrameBits(message)| >= 10
  {
  }

  /** The frequency offset of a bit: −deviation for 0, +deviation for 1. */
  function Deviation(bit: Bit, freqDeviation: real): real
  {
    if bit == 0 then -freqDeviation else freqDeviation
  }

  /** The offset of every symbol. */
  function Offsets(bits: seq<Bit>, freqDeviation: real): (r: seq<real>)
    ensures |r| == |bits|
  {
    seq(|bits|, i requires 0 <= i < |bits| => Deviation(bits[i], freqDeviation))
  }

  /**
   * create_fsk_modulation, with each sample given as its frequency offset:
   * every bit of FrameBits is held for `samplesPerSymbol` samples. A
   * non-positive symbol length raises before any symbol is finished.
   */
  method CreateFskModulation(message: Option<string>, freqDeviation: real, samplesPerSymbol: int)
    returns (r: Result<seq<real>, string>)
    ensures r.Ok? <==> samplesPerSymbol > 0
    ensures samplesPerSymbol < 0 ==> r == Err(NegativeLength)
    ensures samplesPerSymbol == 0 ==> r == Err(EmptySymbol)
    ensures r.Ok? ==> r.value == Hold(Offsets(FrameBits(message), freqDeviation), samplesPerSymbol)
  {
    FrameBitsNonEmpty(message);
    r := ModulateBits(FrameBits(message), freqDeviation, samplesPerSymbol);
  }

  /** The symbol loop of create_fsk_modulation over a non-empty bit sequence. */
  method ModulateBits(bits: seq<Bit>, freqDeviation: real, samplesPerSymbol: int)
    returns (r: Result<seq<real>, string>)
    requires |bits| > 0
    ensures r.Ok? <==> samplesPerSymbol > 0
    ensures samplesPerSymbol < 0 ==> r == Err(NegativeLength)
    ensures samplesPerSymbol == 0 ==> r == Err(EmptySymbol)
    ensures r.Ok? ==> r.value == Hold(Offsets(bits, freqDeviation), samplesPerSymbol)
  {
    if samplesPerSymbol < 0 {
      return Err(NegativeLength);
    }
    var sps: nat := samplesPerSymbol;
    ghost var offsets := Offsets(bits, freqDeviation);
    var signal: seq<real> := [];
    var i := 0;
    while i < |bits|
      invariant 0 <= i <= |bits|
      invariant signal == Hold(offsets[..i], sps)
      invariant sps == 0 ==> i == 0
    {
      if sps == 0 {
        return Err(EmptySymbol);
      }
      var freq := if bits[i] == 0 then -freqDeviation else freqDeviation;
      assert offsets[..i + 1] == offsets[..i] + [freq];
      HoldSnoc(offsets[..i], freq, sps);
      signal := signal + Repeat(freq, sps);
      i := i + 1;
    }
    assert offsets[..i] == offsets;
    r := Ok(signal);
  }

  /**
   * The signal has len(bits)·samples_per_symbol samples, and every sample
   * of symbol k is −deviation or +deviation as bit k is 0 or 1.
   */
  lemma FskSignalLayout(bits: seq<Bit>, freqDeviation: real, sps: nat, k: nat, j: nat)
    requires k < |bits| && j < sps
    ensures |Hold(Offsets(bits, freqDeviation), sps)| == |bits| * sps
    ensures k * sps + j < |bits| * sps
    ensures Hold(Offsets(bits, freqDeviation), sps)[k * sps + j] == (if bits[k] == 0 then -freqDeviation else freqDeviation)
  {
    HoldAt(Offsets(bits, freqDeviation), sps, k, j);
  }

  /** `samples_per_symbol` at the default 2 MHz sample rate and 50 baud. */
  lemma DefaultSamplesPerSymbol()
    ensures SamplesPerSymbol(2000000.0, 50.0) == Some(40000)
  {
  }
}
