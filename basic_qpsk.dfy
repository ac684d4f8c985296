/**
 * The basic QPSK transmitter (resources/basic_qpsk.py): a fixed 128-byte
 * pattern of four 32-byte blocks, 0x00, 0x55, 0xAA and 0xFF, whatever the
 * configured message.
 */
module BasicQpsk {
  import opened Wrappers
  import opened Framing

  const BlockBytes: seq<Byte> := [0x00, 0x55, 0xAA, 0xFF]

  /** create_simple_pattern; the message is accepted and not used. */
  function CreateSimplePattern(message: string): (r: seq<Byte>)
    ensures |r| == 128
  {
    Repeat(0x00, 32) + Repeat(0x55, 32) + Repeat(0xAA, 32) + Repeat(0xFF, 32)
  }

  /** Byte i is the byte of block i / 32, for every message. */
  lemma PatternLayout(message: string, other: string, i: nat)
    requires i < 128
    ensures CreateSimplePattern(message)[i] == BlockBytes[i / 32]
    ensures CreateSimplePattern(message) == CreateSimplePattern(other)
  {
  }

  /** Unpacked most significant bit first, bit 8k+i of the stream is bit i of the byte of block k / 32. */
  lemma PatternBits(message: string, k: nat, i: nat)
    requires k < 128 && i < 8
    ensures |UnpackMsb(CreateSimplePattern(message))| == 1024
    ensures UnpackMsb(CreateSimplePattern(message))[8 * k + i] == BitsMsb(BlockBytes[k / 32], 8)[i]
  {
    var pattern := CreateSimplePattern(message);
    PatternLayout(message, message, k);
    UnpackMsbAt(pattern, k, i);
    BitsMsbAt(BlockBytes[k / 32], 8, i);
  }

  /** The 0x55 block sends 0,1,0,1,… and the 0xAA block 1,0,1,0,…. */
  lemma AlternatingBlocks(message: string, k: nat, i: nat)
    requires 32 <= k < 96 && i < 8
    ensures k < 64 ==> UnpackMsb(CreateSimplePattern(message))[8 * k + i] == i % 2
    ensures 64 <= k ==> UnpackMsb(CreateSimplePattern(message))[8 * k + i] == (i + 1) % 2
  {
    PatternBits(message, k, i);
    AlternatingBytes();
    if k < 64 {
      assert BlockBytes[k / 32] == 0x55;
    } else {
      assert BlockBytes[k / 32] == 0xAA;
    }
  }

  /** `samples_per_symbol` at the default 2 MHz sample rate and 200 baud. */
  lemma DefaultSamplesPerSymbol()
    ensures SamplesPerSymbol(2000000.0, 200.0) == Some(10000)
  {
  }
}
