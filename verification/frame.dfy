/** The serial frame protocol: one sync byte followed by one big-endian
    16-bit reading per sensor, `2 * inN + 1` bytes in all. */
module Frame {

  type Byte = b: int | 0 <= b < 0x100
  type U16 = x: int | 0 <= x < 0x1_0000

  /** SYNC_BYTE, the marker that starts every frame. */
  const SYNC_BYTE: Byte := 0xC7

  /** The number of bytes requested per read for `inN` sensors. */
  function FrameSize(inN: nat): nat
  {
    2 * inN + 1
  }

  /** What one blocking read with timeout gave back: `count` bytes, fewer
      than the `FrameSize(inN)` requested (the timeout expired), or a buffer
      of everything read. A `Short` read never carries a whole frame. */
  datatype ReadOutcome = Short(count: nat) | Full(bytes: seq<Byte>)

  /** How the loops classify a read: timed out, desynchronised, or a frame. */
  datatype FrameStatus = TimedOut | Desync | Valid(buf: seq<Byte>)

  /** The gate both loops apply to a read: it must return exactly
      `FrameSize(inN)` bytes, and the first of them must be the sync byte. */
  function Gate(r: ReadOutcome, inN: nat): (f: FrameStatus)
    ensures f.Valid? <==> r.Full? && |r.bytes| == FrameSize(inN) && r.bytes[0] == SYNC_BYTE
    ensures f.Desync? <==> r.Full? && |r.bytes| == FrameSize(inN) && r.bytes[0] != SYNC_BYTE
    ensures f.Valid? ==> f.buf == r.bytes
  {
    match r
    case Short(_) => TimedOut
    case Full(bytes) =>
      if |bytes| != FrameSize(inN) then TimedOut
      else if bytes[0] != SYNC_BYTE then Desync
      else Valid(bytes)
  }

  /** Sensor `i`'s reading: bytes `2i+1` (high) and `2i+2` (low), read as
      unsigned bytes. */
  function Reading(buf: seq<Byte>, i: nat): (r: U16)
    requires 2 * i + 2 < |buf|
    ensures r / 0x100 == buf[2 * i + 1] && r % 0x100 == buf[2 * i + 2]
  {
    SplitBytes(buf[2 * i + 1], buf[2 * i + 2]);
    (buf[2 * i + 1] as int) * 0x100 + buf[2 * i + 2]
  }

  /** All readings of a frame, in wire order. */
  function Decode(buf: seq<Byte>, inN: nat): (readings: seq<U16>)
    requires |buf| == FrameSize(inN)
    ensures |readings| == inN
    ensures forall i :: 0 <= i < inN ==>
              readings[i] / 0x100 == buf[2 * i + 1] && readings[i] % 0x100 == buf[2 * i + 2]
  {
    seq(inN, i requires 0 <= i < inN => Reading(buf, i))
  }

  /** The big-endian byte pairs of a list of readings. */
  function EncodePairs(readings: seq<U16>): (bytes: seq<Byte>)
  {
    if readings == [] then []
    else [readings[0] / 0x100, readings[0] % 0x100] + EncodePairs(readings[1..])
  }

  /** The frame a device sends for the given readings. */
  function Encode(readings: seq<U16>): seq<Byte>
  {
    [SYNC_BYTE] + EncodePairs(readings)
  }

  lemma {:induction false} EncodePairsAt(readings: seq<U16>, i: nat)
    requires i < |readings|
    ensures |EncodePairs(readings)| == 2 * |readings|
    ensures EncodePairs(readings)[2 * i] == readings[i] / 0x100
    ensures EncodePairs(readings)[2 * i + 1] == readings[i] % 0x100
  {
    if i > 0 {
      EncodePairsAt(readings[1..], i - 1);
    } else if |readings| > 1 {
      EncodePairsAt(readings[1..], 0);
    } else {
      assert readings[1..] == [];
    }
  }

  /** A frame built from readings passes the gate and decodes to them. */
  lemma DecodeEncode(readings: seq<U16>)
    ensures |Encode(readings)| == FrameSize(|readings|)
    ensures Gate(Full(Encode(readings)), |readings|) == Valid(Encode(readings))
    ensures Decode(Encode(readings), |readings|) == readings
  {
    var n := |readings|;
    var frame := Encode(readings);
    if n == 0 {
      assert frame == [SYNC_BYTE];
    } else {
      EncodePairsAt(readings, 0);
      forall i | 0 <= i < n
        ensures Reading(frame, i) == readings[i]
      {
        EncodePairsAt(readings, i);
      }
    }
    assert Decode(frame, n) == readings;
  }

  /** Every frame that passes the gate is the encoding of its readings: the
      decoding loses nothing. */
  lemma {:induction false} EncodeDecode(buf: seq<Byte>, inN: nat)
    requires Gate(Full(buf), inN).Valid?
    ensures Encode(Decode(buf, inN)) == buf
  {
    var readings := Decode(buf, inN);
    var frame := Encode(readings);
    DecodeEncode(readings);
    forall i | 0 <= i < inN
      ensures frame[2 * i + 1] == buf[2 * i + 1] && frame[2 * i + 2] == buf[2 * i + 2]
    {
      EncodePairsAt(readings, i);
      SplitBytes(buf[2 * i + 1], buf[2 * i + 2]);
    }
    forall k | 0 < k < |buf|
      ensures frame[k] == buf[k]
    {
      var i := (k - 1) / 2;
      assert k == 2 * i + 1 || k == 2 * i + 2;
    }
  }

  /** A big-endian pair is recovered from its 16-bit value. */
  lemma SplitBytes(hi: Byte, lo: Byte)
    ensures ((hi as int) * 0x100 + lo) / 0x100 == hi
    ensures ((hi as int) * 0x100 + lo) % 0x100 == lo
  {
  }

  // ---------------------------------------------------------------------
  // The reading as written, where plain `char` is a signed type.

  /** The value a plain `char` holding byte `b` has where `char` is signed. */
  function SignedChar(b: Byte): int
  {
    if b < 0x80 then b else b - 0x100
  }

  /** `(buf[2i+1] << 8) + buf[2i+2]` stored into a uint16_t, with `buf` a
      signed `char` buffer: both bytes are sign-extended first. */
  function ReadingSignedChar(buf: seq<Byte>, i: nat): (r: U16)
    requires 2 * i + 2 < |buf|
    ensures r % 0x100 == buf[2 * i + 2]
    ensures r / 0x100 == ((buf[2 * i + 1] as int) - (if buf[2 * i + 2] < 0x80 then 0 else 1)) % 0x100
  {
    (SignedChar(buf[2 * i + 1]) * 0x100 + SignedChar(buf[2 * i + 2])) % 0x1_0000
  }

  /** With signed bytes the reading is right exactly when the low byte is
      below 0x80; a high byte of 0x80 or more is harmless. */
  lemma ReadingSignedCharAgrees(buf: seq<Byte>, i: nat)
    requires 2 * i + 2 < |buf|
    ensures ReadingSignedChar(buf, i) == Reading(buf, i) <==> buf[2 * i + 2] < 0x80
  {
    var hi: int, lo: int := buf[2 * i + 1], buf[2 * i + 2];
    var r: int := Reading(buf, i);
    var hiPart: int := if hi < 0x80 then 0 else 0x1_0000;
    assert SignedChar(hi) * 0x100 == hi * 0x100 - hiPart;
    if lo < 0x80 {
      assert (r - hiPart) % 0x1_0000 == r;
    } else {
      assert SignedChar(lo) == lo - 0x100;
      if r >= 0x100 {
        assert (r - hiPart - 0x100) % 0x1_0000 == r - 0x100;
      } else {
        assert (r - hiPart - 0x100) % 0x1_0000 == r - 0x100 + 0x1_0000;
      }
    }
  }

  /** The frame C7 00 80 carries the reading 128, but a signed-char reading
      of it gives 65408. */
  lemma ReadingSignedCharCounterexample()
    ensures Reading([0xC7, 0x00, 0x80], 0) == 0x80
    ensures ReadingSignedChar([0xC7, 0x00, 0x80], 0) == 0xFF80
  {
  }
}
