/**
  The sample decoder: the first byte of a status report from the button
  device carries two flags. Bit 1 is set while the lid is open; bit 0 is set
  while the button is released, so an even byte means "pressed".
 */
module Decoder {

  /** One decoded status sample. */
  datatype Sample = Sample(lidOpen: bool, buttonPressed: bool)

  /** Interprets the first byte of a report as a sample. */
  function Decode(data0: bv8): (s: Sample)
    ensures s.lidOpen <==> (data0 / 2) % 2 == 1
    ensures s.buttonPressed <==> data0 & 1 == 0
  {
    Sample(data0 & 2 != 0, data0 % 2 == 0)
  }

  /** The smallest report byte a device in state `s` could send. */
  function Encode(s: Sample): (data0: bv8)
    ensures data0 < 4
  {
    (if s.lidOpen then 2 else 0) + (if s.buttonPressed then 0 else 1)
  }

  /** Decoding recovers every sample from its canonical report. */
  lemma DecodeEncode(s: Sample)
    ensures Decode(Encode(s)) == s
  {
  }

  /** Only the two low bits of the report matter: re-encoding a decoded byte keeps exactly those. */
  lemma EncodeDecode(data0: bv8)
    ensures Encode(Decode(data0)) == data0 & 3
  {
  }

  /** Two reports that agree on their two low bits decode to the same sample. */
  lemma LowBitsDetermineSample(a: bv8, b: bv8)
    ensures Decode(a) == Decode(b) <==> a & 3 == b & 3
  {
    EncodeDecode(a);
    EncodeDecode(b);
  }

}
