/**
 * The OOK test transmitter (resources/ook_transmitter.py): the byte pattern
 * it keys on and off, either a fixed mark/space pattern or a message framed
 * by marker bytes and long pauses, and its ppm frequency correction.
 */
module OokTransmitter {
  import opened Wrappers
  import opened Framing

  const Marks: seq<Byte> := Repeat(0xFF, 16)
  const Spaces: seq<Byte> := Repeat(0x00, 16)
  const Pause: seq<Byte> := Repeat(0x00, 32)

  /** 16×FF, 32×00, 16×00, 32×00, 16×FF. */
  const SimplePattern: seq<Byte> := Marks + Pause + Spaces + Pause + Marks

  const MessagePreamble: seq<Byte> := [0xFF, 0xFF, 0xFF, 0xFF, 0x00, 0x00, 0x00, 0x00]
  const MessagePostamble: seq<Byte> := [0x00, 0x00, 0x00, 0x00, 0xFF, 0xFF, 0xFF, 0xFF]

  /** `self.data` as built in the constructor. */
  function DataPattern(useSimplePattern: bool, message: string): (r: seq<Byte>)
    ensures useSimplePattern ==> |r| == 560
    ensures !useSimplePattern ==> |r| == 80 + |Utf8Encode(message)|
  {
    if useSimplePattern then Times(SimplePattern, 5)
    else MessagePreamble + Pause + Utf8Encode(message) + Pause + MessagePostamble
  }

  /** The simple pattern: marks in its first and last 16 bytes, silence in between. */
  lemma SimplePatternLayout(k: nat)
    requires k < |SimplePattern|
    ensures |SimplePattern| == 112
    ensures SimplePattern[k] == if k < 16 || k >= 96 then 0xFF else 0x00
  {
  }

  /**
   * The transmitted simple pattern is five copies of the 112-byte pattern;
   * the pattern reads the same backwards.
   */
  lemma SimpleDataLayout(message: string, j: nat, k: nat)
    requires j < 5 && k < 112
    ensures DataPattern(true, message)[112 * j + k] == SimplePattern[k]
    ensures SimplePattern[111 - k] == SimplePattern[k]
  {
    TimesAt(SimplePattern, 5, j, k);
    assert j * |SimplePattern| + k == 112 * j + k;
    SimplePatternLayout(k);
    SimplePatternLayout(111 - k);
  }

  /**
   * A receiver's view of a message frame: the bytes between the 40-byte
   * opening (preamble and pause) and the 40-byte closing (pause and
   * postamble).
   */
  function MessageOf(data: seq<Byte>): (r: Option<seq<Byte>>)
    ensures r.Some? ==> |data| == |r.value| + 80 && data[40..|data| - 40] == r.value
  {
    if |data| >= 80 && data[..40] == MessagePreamble + Pause && data[|data| - 40..] == Pause + MessagePostamble
    then Some(data[40..|data| - 40])
    else None
  }

  /**
   * Message mode round trip: the frame holds the UTF-8 bytes of the message
   * between its markers, and its postamble is the preamble reversed.
   */
  lemma MessageRoundTrip(message: string)
    ensures MessageOf(DataPattern(false, message)) == Some(Utf8Encode(message))
    ensures forall k :: 0 <= k < 8 ==> MessagePostamble[k] == MessagePreamble[7 - k]
  {
    var bytes := Utf8Encode(message);
    var data := DataPattern(false, message);
    assert data == (MessagePreamble + Pause) + bytes + (Pause + MessagePostamble);
    assert data[..40] == MessagePreamble + Pause;
    assert data[|data| - 40..] == Pause + MessagePostamble;
    assert data[40..|data| - 40] == bytes;
  }

  /**
   * The centre frequency after correction: `freq + freq·ppm/1e6` when the
   * correction is non-zero, the frequency itself otherwise.
   */
  function CorrectedFrequency(freq: real, ppm: real): (r: real)
    ensures r == freq * (1.0 + ppm / 1000000.0)
    ensures ppm == 0.0 ==> r == freq
    ensures freq > 0.0 && ppm < 0.0 ==> r < freq
  {
    if ppm != 0.0 then
      var offset := freq * (ppm / 1000000.0);
      freq + offset
    else freq
  }

  /** `samples_per_symbol` at the default 2 MHz sample rate and 500 baud. */
  lemma DefaultSamplesPerSymbol()
    ensures SamplesPerSymbol(2000000.0, 500.0) == Some(4000)
  {
  }
}
