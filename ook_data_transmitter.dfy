/**
 * The OOK data transmitter (resources/ook_data_transmitter.py): a message
 * framed by 0xAA bytes and unpacked into one bit per output byte, most
 * significant bit first, at a frequency corrected by a ppm offset.
 */
module OokDataTransmitter {
  import opened Wrappers
  import opened Framing

  /** The `message` argument: a `str`, or a bytes object or list of integers. */
  datatype MessageArg = Text(text: string) | Values(values: seq<int>)

  const Preamble: seq<Byte> := Repeat(0xAA, 8)
  const Postamble: seq<Byte> := Repeat(0xAA, 4)
  const DefaultCorrectionPpm := -69.0

  /** The ValueError of `bytes(...)` for an element outside 0..255. */
  const ByteRangeError := "bytes must be in range(0, 256)"

  /** The `-p` test message. */
  const TestPattern := Values([0xAA, 0x55, 0xAA, 0x55, 0xAA, 0x55])

  /** The message bytes: UTF-8 for a string, the values themselves otherwise. */
  function MessageBytes(message: MessageArg): (r: Result<seq<Byte>, string>)
    ensures message.Text? ==> r == Ok(Utf8Encode(message.text))
    ensures message.Values? ==>
              (r.Ok? <==> forall i :: 0 <= i < |message.values| ==> 0 <= message.values[i] < 256)
    ensures message.Values? && r.Ok? ==> r.value == message.values
  {
    match message
    case Text(text) => Ok(Utf8Encode(text))
    case Values(values) =>
      if forall i :: 0 <= i < |values| ==> 0 <= values[i] < 256
      then Ok(seq(|values|, i requires 0 <= i < |values| => values[i] as Byte))
      else Err(ByteRangeError)
  }

  /** The complete packet: eight 0xAA bytes, the message, four 0xAA bytes. */
  function Packet(message: seq<Byte>): (r: seq<Byte>)
    ensures |r| == |message| + 12
  {
    Preamble + message + Postamble
  }

  /**
   * prepare_message: the packet as bits, `(byte >> (7 - i)) & 1` for
   * i = 0..7 of every byte in order.
   */
  method PrepareMessage(message: MessageArg) returns (r: Result<seq<Bit>, string>)
    ensures r.Err? <==> MessageBytes(message).Err?
    ensures r.Ok? ==> r.value == UnpackMsb(Packet(MessageBytes(message).value))
  {
    var bytes := MessageBytes(message);
    if bytes.Err? {
      return Err(bytes.error);
    }
    var bits := Unpack(Packet(bytes.value));
    r := Ok(bits);
  }

  /** The loops of prepare_message: every byte's eight bits, most significant first. */
  method Unpack(packet: seq<Byte>) returns (bits: seq<Bit>)
    ensures bits == UnpackMsb(packet)
  {
    bits := [];
    var k := 0;
    while k < |packet|
      invariant 0 <= k <= |packet|
      invariant bits == UnpackMsb(packet[..k])
    {
      var b := packet[k];
      var byteBits := ByteBits(b);
      bits := bits + byteBits;
      assert packet[..k + 1] == packet[..k] + [b];
      UnpackMsbSnoc(packet[..k], b);
      k := k + 1;
    }
    assert packet[..k] == packet;
  }

  /** The inner loop of prepare_message: `(b >> (7 - i)) & 1` for i = 0..7. */
  method ByteBits(b: Byte) returns (bits: seq<Bit>)
    ensures bits == BitsMsb(b, 8)
  {
    bits := [];
    var i := 0;
    while i < 8
      invariant 0 <= i <= 8
      invariant bits == BitsMsb(b, 8)[..i]
    {
      BitsMsbAt(b, 8, i);
      assert BitsMsb(b, 8)[..i + 1] == BitsMsb(b, 8)[..i] + [Shr(b, 7 - i) % 2];
      bits := bits + [Shr(b, 7 - i) % 2];
      i := i + 1;
    }
  }

  /**
   * The prepared bits: 8·(12 + n) of them; regrouped by eight, most
   * significant first, they give the packet back; the first 64 alternate
   * 1, 0 starting with 1; the message's own bits follow them.
   */
  lemma PreparedBits(message: seq<Byte>)
    ensures var bits := UnpackMsb(Packet(message));
            && |bits| == 8 * (12 + |message|)
            && Regroup(bits) == Packet(message)
            && (forall p :: 0 <= p < 64 ==> bits[p] == (p + 1) % 2)
            && bits[64..64 + 8 * |message|] == UnpackMsb(message)
  {
    RegroupUnpack(Packet(message));
    forall p | 0 <= p < 64
      ensures UnpackMsb(Packet(message))[p] == (p + 1) % 2
    {
      PreambleBit(message, p);
    }
    MessageBits(message);
  }

  lemma PreambleBit(message: seq<Byte>, p: nat)
    requires p < 64
    ensures UnpackMsb(Packet(message))[p] == (p + 1) % 2
  {
    var k, i := p / 8, p % 8;
    assert p == 8 * k + i;
    assert Packet(message)[k] == 0xAA;
    UnpackMsbAt(Packet(message), k, i);
    BitsMsbAt(0xAA, 8, i);
    AlternatingBytes();
  }

  lemma MessageBits(message: seq<Byte>)
    ensures UnpackMsb(Packet(message))[64..64 + 8 * |message|] == UnpackMsb(message)
  {
    UnpackMiddle(Preamble, message, Postamble);
  }

  lemma UnpackMiddle(pre: seq<Byte>, mid: seq<Byte>, post: seq<Byte>)
    ensures UnpackMsb(pre + mid + post)[8 * |pre|..8 * |pre| + 8 * |mid|] == UnpackMsb(mid)
  {
    assert pre + mid + post == pre + (mid + post);
    UnpackMsbAppend(pre, mid + post);
    UnpackMsbAppend(mid, post);
    var a, m, q := UnpackMsb(pre), UnpackMsb(mid), UnpackMsb(post);
    assert (a + (m + q))[|a|..|a| + |m|] == m;
  }

  /** The `-p` message is accepted as it stands and makes a 144-bit frame. */
  lemma TestPatternFrame()
    ensures MessageBytes(TestPattern) == Ok([0xAA, 0x55, 0xAA, 0x55, 0xAA, 0x55])
    ensures |UnpackMsb(Packet(MessageBytes(TestPattern).value))| == 144
  {
  }

  /** A list holding a value outside 0..255 is refused before any bit is produced. */
  lemma OutOfRangeRefused(values: seq<int>, i: nat)
    requires i < |values| && (values[i] < 0 || values[i] >= 256)
    ensures MessageBytes(Values(values)) == Err(ByteRangeError)
  {
  }

  /**
   * The centre frequency in Hz for a frequency in MHz and a correction in
   * ppm: `f·1e6 + f·1e6·(ppm / 1e6)`, applied even when ppm is zero.
   */
  function CorrectedFrequency(freqMhz: real, ppm: real): (r: real)
    ensures r == freqMhz * (1000000.0 + ppm)
  {
    var freqHz := freqMhz * 1000000.0;
    var offset := freqHz * (ppm / 1000000.0);
    freqHz + offset
  }

  /** The default −69 ppm lowers the frequency by 69 Hz per MHz; 434.6 MHz is sent at 434 570 012.6 Hz. */
  lemma DefaultCorrection(freqMhz: real)
    ensures CorrectedFrequency(freqMhz, DefaultCorrectionPpm) == freqMhz * 1000000.0 - 69.0 * freqMhz
    ensures CorrectedFrequency(434.6, DefaultCorrectionPpm) == 434570012.6
    ensures CorrectedFrequency(freqMhz, 0.0) == freqMhz * 1000000.0
  {
  }

  /** `samples_per_symbol` at the 2 MHz sample rate and the default 1200 baud. */
  lemma DefaultSamplesPerSymbol()
    ensures SamplesPerSymbol(2000000.0, 1200.0) == Some(1666)
  {
  }
}
