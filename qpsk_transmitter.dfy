/**
 * The framed QPSK transmitter (resources/qpsk_transmitter.py): the byte
 * stream it feeds to the modulator. Each packet is a 0xF0 preamble, a sync
 * word, a length byte, the UTF-8 message and a 0xF0 postamble; the packet
 * and sixteen zero bytes are sent five times.
 */
module QpskTransmitter {
  import opened Wrappers
  import opened Framing

  const Preamble: seq<Byte> := Repeat(0xF0, 8)
  const SyncWord: seq<Byte> := [0x1A, 0xCF, 0xFC, 0x1D]
  const Postamble: seq<Byte> := Repeat(0xF0, 4)
  const Padding: seq<Byte> := Repeat(0x00, 16)
  const Repetitions := 5

  /** The ValueError that `bytes([n])` raises for a length above 255. */
  const LengthOutOfRange := "bytes must be in range(0, 256)"

  /** The framed packet for already encoded message bytes. */
  function DataPacket(message: seq<Byte>): (r: seq<Byte>)
    requires |message| <= 255
    ensures |r| == 17 + |message|
  {
    Preamble + SyncWord + [|message|] + message + Postamble
  }

  /**
   * create_data_pattern: five copies of the packet followed by sixteen zero
   * bytes, or the error of a message longer than 255 UTF-8 bytes.
   */
  function CreateDataPattern(message: string): (r: Result<seq<Byte>, string>)
    ensures r.Ok? <==> |Utf8Encode(message)| <= 255
    ensures r.Ok? ==> |r.value| == Repetitions * (33 + |Utf8Encode(message)|)
  {
    var bytes := Utf8Encode(message);
    if |bytes| > 255 then Err(LengthOutOfRange)
    else Ok(Times(DataPacket(bytes) + Padding, Repetitions))
  }

  /**
   * What a receiver reads from a frame that starts at a packet boundary:
   * it checks the preamble and the sync word, then takes as many message
   * bytes as the length byte says.
   */
  function DecodePacket(frame: seq<Byte>): (r: Option<seq<Byte>>)
    ensures r.Some? <==>
              |frame| >= 13 && frame[..8] == Preamble && frame[8..12] == SyncWord && 13 + frame[12] <= |frame|
    ensures r.Some? ==> |r.value| == frame[12] && r.value == frame[13..13 + frame[12]]
  {
    if |frame| >= 13 && frame[..8] == Preamble && frame[8..12] == SyncWord && 13 + frame[12] <= |frame|
    then Some(frame[13..13 + frame[12]])
    else None
  }

  /**
   * The packet layout: preamble, sync word, the length byte at offset 12,
   * the message at 13, the postamble last; and a receiver reading it gets
   * the message back whatever follows the packet.
   */
  lemma PacketLayout(message: seq<Byte>, rest: seq<Byte>)
    requires |message| <= 255
    ensures var p := DataPacket(message);
            && p[..8] == Preamble && p[8..12] == SyncWord
            && p[12] == |message|
            && p[13..13 + |message|] == message
            && p[13 + |message|..] == Postamble
    ensures DecodePacket(DataPacket(message) + rest) == Some(message)
  {
    var p := DataPacket(message);
    var n := |message|;
    assert p[..8] == Preamble;
    assert p[8..12] == SyncWord;
    assert p[13..13 + n] == message;
    assert p[13 + n..] == Postamble;
    var frame := p + rest;
    assert frame[..8] == p[..8] && frame[8..12] == p[8..12] && frame[12] == n;
    assert frame[13..13 + n] == p[13..13 + n];
  }

  /**
   * One repetition of the pattern starts at `start`: the length byte is the
   * number of message bytes, the message follows it, the postamble and
   * sixteen zero bytes close it, and a receiver starting there decodes the
   * message.
   */
  ghost predicate RepetitionAt(data: seq<Byte>, bytes: seq<Byte>, start: nat)
  {
    && start + 33 + |bytes| <= |data|
    && data[start + 12] == |bytes|
    && data[start + 13..start + 13 + |bytes|] == bytes
    && data[start + 13 + |bytes|..start + 17 + |bytes|] == Postamble
    && data[start + 17 + |bytes|..start + 33 + |bytes|] == Padding
    && DecodePacket(data[start..]) == Some(bytes)
  }

  /** Each of the five repetitions of the pattern carries the UTF-8 message. */
  lemma DataPatternRoundTrip(message: string, j: nat)
    requires j < Repetitions && |Utf8Encode(message)| <= 255
    ensures RepetitionAt(CreateDataPattern(message).value, Utf8Encode(message), (33 + |Utf8Encode(message)|) * j)
  {
    RepetitionLayout(Utf8Encode(message), Repetitions, j);
  }

  lemma RepetitionLayout(bytes: seq<Byte>, reps: nat, j: nat)
    requires j < reps && |bytes| <= 255
    ensures RepetitionAt(Times(DataPacket(bytes) + Padding, reps), bytes, (33 + |bytes|) * j)
  {
    var unit := DataPacket(bytes) + Padding;
    TimesSlice(unit, reps, j);
    UnitAt(Times(unit, reps), bytes, |unit| * j);
  }

  /** A copy of the packet and its padding found anywhere in `data` is one repetition. */
  lemma UnitAt(data: seq<Byte>, bytes: seq<Byte>, start: nat)
    requires |bytes| <= 255
    requires start + 33 + |bytes| <= |data|
    requires data[start..start + 33 + |bytes|] == DataPacket(bytes) + Padding
    ensures RepetitionAt(data, bytes, start)
  {
    var n := |bytes|;
    var unit := DataPacket(bytes) + Padding;
    var rest := data[start + 33 + n..];
    var tail := data[start..];
    assert tail == unit + rest;
    UnitLayout(bytes, rest);
    assert data[start + 12] == tail[12];
    assert data[start + 13..start + 13 + n] == tail[13..13 + n];
    assert data[start + 13 + n..start + 17 + n] == tail[13 + n..17 + n];
    assert data[start + 17 + n..start + 33 + n] == tail[17 + n..33 + n];
  }

  lemma UnitLayout(bytes: seq<Byte>, rest: seq<Byte>)
    requires |bytes| <= 255
    ensures var u := DataPacket(bytes) + Padding + rest;
            var n := |bytes|;
            && u[12] == n
            && u[13..13 + n] == bytes
            && u[13 + n..17 + n] == Postamble
            && u[17 + n..33 + n] == Padding
            && DecodePacket(u) == Some(bytes)
  {
    var n := |bytes|;
    var p := DataPacket(bytes);
    PacketLayout(bytes, Padding + rest);
    assert p + Padding + rest == p + (Padding + rest);
    var u := p + Padding + rest;
    assert u[13..13 + n] == p[13..13 + n];
    assert u[13 + n..17 + n] == p[13 + n..];
    assert u[17 + n..33 + n] == Padding;
  }

  /** Messages of more than 255 UTF-8 bytes are refused; a single ASCII character is sent as one byte. */
  lemma LengthLimit(message: string)
    ensures |message| > 255 ==> CreateDataPattern(message).Err?
    ensures |message| == 1 && (message[0] as int) < 0x80 ==>
              CreateDataPattern(message).Ok? && |CreateDataPattern(message).value| == 170
  {
  }

  /** `samples_per_symbol` at the default 2.4 MHz sample rate and 2000 baud. */
  lemma DefaultSamplesPerSymbol()
    ensures SamplesPerSymbol(2400000.0, 2000.0) == Some(1200)
  {
  }
}
