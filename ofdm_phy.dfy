/**
 * The physical layer of the protocol stack: bytes are unpacked into bits
 * (most significant bit first), bit pairs are mapped to QPSK constellation
 * points, and the points are cut into OFDM blocks of 64 subcarriers, the
 * last block padded with zeros. The inverse FFT applied to each block is
 * not part of this model.
 */
module OfdmPhy {
  import opened Framing
  import opened Wrappers

  type Bit = x: int | 0 <= x < 2

  /** The bit `np.append` adds to an odd-length bit string. */
  const PadBit: Bit := 0

  /** `np.unpackbits` of one byte: its eight bits, most significant first. */
  function BitsOf(b: byte): (r: seq<Bit>)
    ensures |r| == 8
  {
    var x0: int := b;
    var x1 := x0 / 2;
    var x2 := x1 / 2;
    var x3 := x2 / 2;
    var x4 := x3 / 2;
    var x5 := x4 / 2;
    var x6 := x5 / 2;
    var x7 := x6 / 2;
    [x7 % 2, x6 % 2, x5 % 2, x4 % 2, x3 % 2, x2 % 2, x1 % 2, x0 % 2]
  }

  /** `np.packbits` of eight bits, most significant first. */
  function PackByte(bs: seq<Bit>): byte
    requires |bs| == 8
  {
    var v: int := bs[0];
    var v := 2 * v + bs[1];
    var v := 2 * v + bs[2];
    var v := 2 * v + bs[3];
    var v := 2 * v + bs[4];
    var v := 2 * v + bs[5];
    var v := 2 * v + bs[6];
    var v := 2 * v + bs[7];
    v
  }

  /** Unpacking and packing one byte are inverse to each other. */
  lemma PackBitsOf(b: byte)
    ensures PackByte(BitsOf(b)) == b
  {
  }

  lemma BitsOfPack(bs: seq<Bit>)
    requires |bs| == 8
    ensures BitsOf(PackByte(bs)) == bs
  {
    var v1: int := bs[0];
    var v2 := 2 * v1 + bs[1];
    var v3 := 2 * v2 + bs[2];
    var v4 := 2 * v3 + bs[3];
    var v5 := 2 * v4 + bs[4];
    var v6 := 2 * v5 + bs[5];
    var v7 := 2 * v6 + bs[6];
    var v8 := 2 * v7 + bs[7];
    assert PackByte(bs) == v8;
    assert v8 / 2 == v7 && v7 / 2 == v6 && v6 / 2 == v5 && v5 / 2 == v4;
    assert v4 / 2 == v3 && v3 / 2 == v2 && v2 / 2 == v1 && v1 / 2 == 0;
  }

  /** `np.unpackbits(np.frombuffer(data, dtype=np.uint8))`. */
  function UnpackBits(data: seq<byte>): (bits: seq<Bit>)
    ensures |bits| == 8 * |data|
  {
    if |data| == 0 then [] else BitsOf(data[0]) + UnpackBits(data[1..])
  }

  /** Bit k of byte i lands at position 8 * i + k. */
  lemma {:induction false} UnpackBitsAt(data: seq<byte>, i: nat, k: nat)
    requires i < |data| && k < 8
    ensures UnpackBits(data)[8 * i + k] == BitsOf(data[i])[k]
  {
    if i > 0 {
      UnpackBitsAt(data[1..], i - 1, k);
    }
  }

  /** Packs each complete group of eight bits into a byte; a trailing incomplete group is dropped. */
  function PackBits(bits: seq<Bit>): (data: seq<byte>)
  {
    if |bits| < 8 then [] else [PackByte(bits[..8])] + PackBits(bits[8..])
  }

  /** No information is lost by unpacking. */
  lemma {:induction false} PackUnpack(data: seq<byte>)
    ensures PackBits(UnpackBits(data)) == data
  {
    if |data| > 0 {
      var bits := UnpackBits(data);
      assert bits[..8] == BitsOf(data[0]);
      assert bits[8..] == UnpackBits(data[1..]);
      PackBitsOf(data[0]);
      PackUnpack(data[1..]);
    }
  }

  /** A complex number with integer parts; every constellation point has parts of modulus at most 1. */
  datatype Point = Point(re: int, im: int)

  const Zero := Point(0, 0)

  /** `MAPPING_TABLE`: the QPSK constellation, indexed by a pair of bits. */
  function QpskMap(b0: Bit, b1: Bit): (p: Point)
    ensures p.re == (if b1 == 0 then 1 else -1)
    ensures p.im == (if b0 == 0 then 1 else -1)
  {
    match (b0, b1)
    case (0, 0) => Point(1, 1)
    case (0, 1) => Point(-1, 1)
    case (1, 1) => Point(-1, -1)
    case (1, 0) => Point(1, -1)
  }

  /** Hard-decision demapping: the sign of each part gives back a bit. */
  function Demap(p: Point): (Bit, Bit)
  {
    (if p.im > 0 then 0 else 1, if p.re > 0 then 0 else 1)
  }

  /** The table maps each bit pair to its own point, and demapping recovers the pair. */
  lemma DemapMap(b0: Bit, b1: Bit)
    ensures Demap(QpskMap(b0, b1)) == (b0, b1)
  {
  }

  /** Neighbouring points (one part differs) carry pairs that differ in one bit: the table is Gray-coded. */
  lemma QpskGray(a0: Bit, a1: Bit, b0: Bit, b1: Bit)
    ensures QpskMap(a0, a1).re == QpskMap(b0, b1).re <==> a1 == b1
    ensures QpskMap(a0, a1).im == QpskMap(b0, b1).im <==> a0 == b0
  {
  }

  /** The symbol list the loop over bit pairs builds. */
  function Modulate(bits: seq<Bit>): (symbols: seq<Point>)
    ensures |symbols| == |bits| / 2
  {
    seq(|bits| / 2, j requires 0 <= j < |bits| / 2 => QpskMap(bits[2 * j], bits[2 * j + 1]))
  }

  /** Demaps every point, two bits per point. */
  function Demodulate(symbols: seq<Point>): (bits: seq<Bit>)
    ensures |bits| == 2 * |symbols|
  {
    if |symbols| == 0 then []
    else
      var (b0, b1) := Demap(symbols[0]);
      [b0, b1] + Demodulate(symbols[1..])
  }

  /** Demodulation undoes modulation. */
  lemma {:induction false} DemodulateModulate(bits: seq<Bit>)
    requires |bits| % 2 == 0
    ensures Demodulate(Modulate(bits)) == bits
  {
    if |bits| > 0 {
      var s := Modulate(bits);
      assert s[0] == QpskMap(bits[0], bits[1]);
      DemapMap(bits[0], bits[1]);
      assert s[1..] == Modulate(bits[2..]);
      DemodulateModulate(bits[2..]);
      assert bits == [bits[0], bits[1]] + bits[2..];
    }
  }

  /** Number of subcarriers of one OFDM block. */
  const N: nat := 64

  function Zeros(n: nat): (z: seq<Point>)
    ensures |z| == n && forall k :: 0 <= k < n ==> z[k] == Zero
  {
    seq(n, _ => Zero)
  }

  /** The blocks laid end to end, in order. */
  function Flatten(blocks: seq<seq<Point>>): seq<Point>
  {
    if |blocks| == 0 then [] else Flatten(blocks[..|blocks| - 1]) + blocks[|blocks| - 1]
  }

  /** The first n points of the symbols followed by zeros: what the first n / 64 blocks hold. */
  function Padded(symbols: seq<Point>, n: nat): (p: seq<Point>)
    ensures |p| == n
  {
    if n <= |symbols| then symbols[..n] else symbols + Zeros(n - |symbols|)
  }

  /** One more block, cut at i and padded with zeros, extends the padded prefix by N. */
  lemma PaddedStep(symbols: seq<Point>, i: nat, blk: seq<Point>)
    requires i < |symbols|
    requires blk == if i + N <= |symbols| then symbols[i..i + N] else symbols[i..] + Zeros(N - (|symbols| - i))
    ensures Padded(symbols, i) + blk == Padded(symbols, i + N)
  {
    if i + N <= |symbols| {
      assert symbols[..i] + symbols[i..i + N] == symbols[..i + N];
    } else {
      assert symbols[..i] + symbols[i..] == symbols;
    }
  }

  /** What `L1_ofdm` returns: its bits, its constellation and its (pre-transform) blocks, or the `ValueError` of concatenating no blocks. */
  datatype L1Result =
    | Transmitted(bits: seq<Bit>, constellation: seq<Point>, blocks: seq<seq<Point>>)
    | ValueError

  /**
   * `L1_ofdm`: unpack, pad to an even number of bits, map each pair to a
   * point, then cut the points into blocks of 64, zero-padding the last.
   * An empty frame yields no blocks, and concatenating none fails.
   */
  method L1Ofdm(data: seq<byte>) returns (r: L1Result)
    ensures r.Transmitted? <==> |data| > 0
    ensures r.Transmitted? ==>
      && r.bits == UnpackBits(data)
      && r.constellation == Modulate(r.bits)
      && |r.blocks| == (|data| + 15) / 16
      && (forall j :: 0 <= j < |r.blocks| ==> |r.blocks[j]| == N)
      && Flatten(r.blocks) == r.constellation + Zeros(N * |r.blocks| - |r.constellation|)
  {
    var bits := UnpackBits(data);
    if |bits| % 2 == 1 {
      bits := bits + [PadBit];
    }
    var symbols := MapPairs(bits);
    var blocks := CutBlocks(symbols);
    BlockCount(|data|);
    if |blocks| == 0 {
      return ValueError;
    }
    r := Transmitted(bits, symbols, blocks);
  }

  /** The loop of `L1_ofdm` over bit pairs: each pair becomes its table entry. */
  method MapPairs(bits: seq<Bit>) returns (symbols: seq<Point>)
    requires |bits| % 2 == 0
    ensures symbols == Modulate(bits)
  {
    symbols := [];
    var i := 0;
    while i < |bits|
      invariant 0 <= i <= |bits| && i % 2 == 0
      invariant |symbols| == i / 2
      invariant forall j :: 0 <= j < |symbols| ==> symbols[j] == QpskMap(bits[2 * j], bits[2 * j + 1])
    {
      symbols := symbols + [QpskMap(bits[i], bits[i + 1])];
      i := i + 2;
    }
  }

  /** The loop of `L1_ofdm` over the points, N at a time: each slice becomes a block, the last one zero-padded. */
  method CutBlocks(symbols: seq<Point>) returns (blocks: seq<seq<Point>>)
    ensures |blocks| == (|symbols| + N - 1) / N
    ensures forall j :: 0 <= j < |blocks| ==> |blocks[j]| == N
    ensures Flatten(blocks) == symbols + Zeros(N * |blocks| - |symbols|)
  {
    blocks := [];
    var i := 0;
    while i < |symbols|
      invariant 0 <= i < |symbols| + N && i == N * |blocks|
      invariant forall j :: 0 <= j < |blocks| ==> |blocks[j]| == N
      invariant Flatten(blocks) == Padded(symbols, i)
    {
      var end := if i + N <= |symbols| then i + N else |symbols|;
      var blk := symbols[i..end];
      if |blk| < N {
        blk := blk + Zeros(N - |blk|);
      }
      assert Flatten(blocks + [blk]) == Flatten(blocks) + blk by {
        assert (blocks + [blk])[..|blocks|] == blocks;
      }
      PaddedStep(symbols, i, blk);
      blocks := blocks + [blk];
      i := i + N;
    }
    CeilDiv(|symbols|, |blocks|);
  }

  /** A multiple of N within N of n is n rounded up to a multiple of N. */
  lemma CeilDiv(n: nat, b: nat)
    requires n <= N * b < n + N
    ensures b == (n + N - 1) / N
  {
  }

  /** The 4 * d points of d bytes fill ceil(d / 16) blocks. */
  lemma BlockCount(d: nat)
    ensures (4 * d + N - 1) / N == (d + 15) / 16
  {
  }

  /** Unpacked bytes always come in whole bit pairs. */
  lemma UnpackedEven(data: seq<byte>)
    ensures |UnpackBits(data)| % 2 == 0
  {
    var half := 4 * |data|;
    assert |UnpackBits(data)| == half + half;
  }

  /** The bytes the sender's step 6 expects under "data": the constellation demapped and packed. */
  function ReceivedBytes(constellation: seq<Point>): seq<byte>
  {
    PackBits(Demodulate(constellation))
  }

  /** Demodulating the constellation of any frame gives the frame back. */
  lemma ReceivedBytesRecovers(data: seq<byte>)
    ensures ReceivedBytes(Modulate(UnpackBits(data))) == data
  {
    UnpackedEven(data);
    DemodulateModulate(UnpackBits(data));
    PackUnpack(data);
  }

  /**
   * The stack below the presentation layer with step 6 as the sender intends
   * it (the received bytes are the demodulated constellation): framing by L5
   * to L2, modulation, demodulation, then removal by L2 to L5 gives the
   * payload back. As written, step 6 stops with `KeyError` instead; see
   * `SenderStep6AsWritten`.
   */
  lemma StackRoundTrip(payload: seq<byte>)
    ensures Unframe(ReceivedBytes(Modulate(UnpackBits(Frame(payload))))) == Ok(payload)
  {
    ReceivedBytesRecovers(Frame(payload));
    UnframeFrame(payload);
  }

  /** A value of the dictionary `L1_ofdm` returns, or of the one the sender expects. */
  datatype Entry =
    | BitsEntry(bits: seq<Bit>)
    | PointsEntry(points: seq<Point>)
    | BlocksEntry(blocks: seq<seq<Point>>)
    | BytesEntry(bytes: seq<byte>)

  /** `result[key]` on the dictionary `L1_ofdm` returns: its keys are "bits", "constellation" and "tx". */
  function Entries(r: L1Result, key: string): (e: Option<Entry>)
    requires r.Transmitted?
    ensures e.Some? <==> key == "bits" || key == "constellation" || key == "tx"
  {
    if key == "bits" then Some(BitsEntry(r.bits))
    else if key == "constellation" then Some(PointsEntry(r.constellation))
    else if key == "tx" then Some(BlocksEntry(r.blocks))
    else None
  }

  /** The dictionary the sender expects: the same entries plus "data", the demodulated bytes. */
  function IntendedEntries(r: L1Result, key: string): Option<Entry>
    requires r.Transmitted?
  {
    if key == "data" then Some(BytesEntry(ReceivedBytes(r.constellation))) else Entries(r, key)
  }

  /**
   * For the result `L1_ofdm` gives on a frame, the intended dictionary holds
   * that frame itself under "data".
   */
  lemma IntendedEntriesHoldFrame(data: seq<byte>, r: L1Result)
    requires r.Transmitted? && r.constellation == Modulate(UnpackBits(data))
    ensures IntendedEntries(r, "data") == Some(BytesEntry(data))
  {
    ReceivedBytesRecovers(data);
  }

  /** How the sender's step 6 ends: the value stored as the new data, a `KeyError`, or the `ValueError` raised inside `L1_ofdm`. */
  datatype Step6 = Delivered(entry: Entry) | KeyError | L1Raised

  /** Step 6 as written: `self.data = result["data"]` on the dictionary `L1_ofdm` returns. */
  function ReadData(r: L1Result): (v: Step6)
    ensures r.Transmitted? ==> v == KeyError
    ensures r.ValueError? ==> v == L1Raised
  {
    if r.ValueError? then L1Raised
    else match Entries(r, "data")
      case None => KeyError
      case Some(e) => Delivered(e)
  }

  /** Step 6 as intended: the same read on the dictionary that holds "data". */
  function ReadDataIntended(r: L1Result): Step6
  {
    if r.ValueError? then L1Raised
    else match IntendedEntries(r, "data")
      case None => KeyError
      case Some(e) => Delivered(e)
  }

  /**
   * For the result `L1_ofdm` gives on a frame, the intended step 6 delivers
   * that frame itself: no `KeyError`, and the bytes are the ones sent.
   */
  lemma ReadDataIntendedFrame(data: seq<byte>, r: L1Result)
    requires r.Transmitted? && r.constellation == Modulate(UnpackBits(data))
    ensures ReadDataIntended(r) == Delivered(BytesEntry(data))
  {
    IntendedEntriesHoldFrame(data, r);
  }

  /** The sender's step 6 as written, on the frame L5 to L2 built: every payload ends in `KeyError`. */
  method SenderStep6AsWritten(payload: seq<byte>) returns (v: Step6)
    ensures v == KeyError
  {
    var r := L1Ofdm(Frame(payload));
    v := ReadData(r);
  }

  /** The sender's step 6 as intended: every payload's frame is delivered to the receiver unchanged. */
  method SenderStep6Intended(payload: seq<byte>) returns (v: Step6)
    ensures v == Delivered(BytesEntry(Frame(payload)))
    ensures Unframe(v.entry.bytes) == Ok(payload)
  {
    var r := L1Ofdm(Frame(payload));
    v := ReadDataIntended(r);
    ReadDataIntendedFrame(Frame(payload), r);
    UnframeFrame(payload);
  }
}
