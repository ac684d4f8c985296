/**
 * The BPSK demonstration transmitter (resources/simple_psk.py): ten
 * alternating bits, each held for one symbol as the value e^(jθ) of its
 * phase, +1 for a 0 bit and −1 for a 1 bit.
 */
module SimplePsk {
  import opened Wrappers
  import opened Framing

  /** 0, 1, 0, 1, … ten bits. */
  const Bits: seq<Bit> := Times([0, 1], 5)

  /** e^(jθ) for the phase of a bit: θ = 0 gives +1, θ = π gives −1 (both real). */
  function SymbolValue(bit: Bit): int
  {
    if bit == 0 then 1 else -1
  }

  /** The bit a receiver decides on from a symbol value's sign. */
  function BitOf(value: int): Bit
  {
    if value > 0 then 0 else 1
  }

  /** The two symbols are opposite, and their sign gives the bit back. */
  lemma SymbolRoundTrip(bit: Bit)
    ensures BitOf(SymbolValue(bit)) == bit
    ensures SymbolValue(bit) == -SymbolValue(1 - bit)
  {
  }

  /** The symbol values of the bits, in order. */
  function Symbols(bits: seq<Bit>): (r: seq<int>)
    ensures |r| == |bits|
  {
    seq(|bits|, i requires 0 <= i < |bits| => SymbolValue(bits[i]))
  }

  /** `[value] * n` keeps nothing for a negative `n`. */
  function Held(samplesPerSymbol: int): nat
  {
    if samplesPerSymbol < 0 then 0 else samplesPerSymbol
  }

  /** create_psk_modulation, with each sample given as its (real) value. */
  method CreatePskModulation(samplesPerSymbol: int) returns (signal: seq<int>)
    ensures signal == Hold(Symbols(Bits), Held(samplesPerSymbol))
  {
    signal := Modulate(Bits, Held(samplesPerSymbol));
  }

  /** The loop of create_psk_modulation: each bit's symbol value, `n` times. */
  method Modulate(bits: seq<Bit>, n: nat) returns (signal: seq<int>)
    ensures signal == Hold(Symbols(bits), n)
  {
    ghost var symbols := Symbols(bits);
    signal := [];
    var i := 0;
    while i < |bits|
      invariant 0 <= i <= |bits|
      invariant signal == Hold(symbols[..i], n)
    {
      var value := if bits[i] == 0 then 1 else -1;
      var symbolSamples := Repeat(value, n);
      assert symbols[..i + 1] == symbols[..i] + [value];
      HoldSnoc(symbols[..i], value, n);
      signal := signal + symbolSamples;
      i := i + 1;
    }
    assert symbols[..i] == symbols;
  }

  /**
   * Ten symbols of `samples_per_symbol` samples each (none when it is
   * negative); symbol k is +1 for even k and −1 for odd k, so neighbouring
   * symbols always differ.
   */
  lemma PskLayout(samplesPerSymbol: int, k: nat, j: nat)
    requires k < 10 && j < Held(samplesPerSymbol)
    ensures |Hold(Symbols(Bits), Held(samplesPerSymbol))| == 10 * Held(samplesPerSymbol)
    ensures var n := Held(samplesPerSymbol);
            Hold(Symbols(Bits), n)[k * n + j] == if k % 2 == 0 then 1 else -1
  {
    var n := Held(samplesPerSymbol);
    TimesAt([0, 1], 5, k / 2, k % 2);
    assert k / 2 * 2 + k % 2 == k;
    HoldAt(Symbols(Bits), n, k, j);
  }

  /** `samples_per_symbol` at the default 2 MHz sample rate and 1 baud. */
  lemma DefaultSamplesPerSymbol()
    ensures SamplesPerSymbol(2000000.0, 1.0) == Some(2000000)
  {
  }
}
