/** Little-endian unsigned integers, the only numeric encoding of the format. */
module ByteUtil {
  import opened Errors

  /** One octet of an input buffer. */
  type byte = b: int | 0 <= b < 0x100

  /** 256^k: the number of values a k-byte field can hold, and the weight
      of the byte at position k (a left shift by 8k bits). */
  function Pow256(k: nat): (r: nat)
    ensures r >= 1
  {
    if k == 0 then 1 else 256 * Pow256(k - 1)
  }

  /** The ranges of the 2-, 4- and 8-byte fields. */
  lemma Pow256Values()
    ensures Pow256(2) == 0x1_0000
    ensures Pow256(4) == 0x1_0000_0000
    ensures Pow256(8) == 0x1_0000_0000_0000_0000
  {
  }

  /** The value of `s` read as a little-endian unsigned integer: the first
      byte is the least significant, each later one weighs 256 times more. */
  function LittleEndian(s: seq<byte>): nat
  {
    if |s| == 0 then 0 else s[0] + 256 * LittleEndian(s[1..])
  }

  /** Appending a byte adds it at the next higher byte position: the step of
      the accumulation loop in `byteToInt`. */
  lemma {:induction false} LittleEndianAppend(s: seq<byte>, b: byte)
    ensures LittleEndian(s + [b]) == LittleEndian(s) + b * Pow256(|s|)
  {
    if |s| == 0 {
      assert (s + [b])[1..] == [];
    } else {
      var rest := s[1..];
      assert (s + [b])[1..] == rest + [b];
      LittleEndianAppend(rest, b);
      var p := Pow256(|rest|);
      assert Pow256(|s|) == 256 * p;
      assert b * (256 * p) == 256 * (b * p);
      calc {
        LittleEndian(s + [b]);
        s[0] + 256 * LittleEndian(rest + [b]);
        s[0] + 256 * (LittleEndian(rest) + b * p);
        LittleEndian(s) + 256 * (b * p);
      }
    }
  }

  /** A k-byte read yields a value below 2^(8k), and a 1-byte read the byte itself. */
  lemma {:induction false} LittleEndianBound(s: seq<byte>)
    ensures LittleEndian(s) < Pow256(|s|)
    ensures |s| == 1 ==> LittleEndian(s) == s[0]
  {
    if |s| > 0 {
      var rest := s[1..];
      LittleEndianBound(rest);
      assert Pow256(|s|) == 256 * Pow256(|rest|);
      if |s| == 1 {
        assert rest == [];
      }
    }
  }

  /** The k-byte little-endian encoding of v; the inverse of LittleEndian. */
  function EncodeLE(v: nat, k: nat): (r: seq<byte>)
    requires v < Pow256(k)
    ensures |r| == k
    ensures LittleEndian(r) == v
    decreases k
  {
    if k == 0 then []
    else
      var rest := EncodeLE(v / 256, k - 1);
      assert ([v % 256] + rest)[1..] == rest;
      [v % 256] + rest
  }

  /** Equal lengths and equal values mean equal byte sequences, so EncodeLE
      also inverts LittleEndian from the other side. */
  lemma {:induction false} EncodeLittleEndian(s: seq<byte>)
    ensures LittleEndian(s) < Pow256(|s|)
    ensures EncodeLE(LittleEndian(s), |s|) == s
  {
    LittleEndianBound(s);
    if |s| > 0 {
      var rest := s[1..];
      var v, w := LittleEndian(s), LittleEndian(rest);
      assert s == [s[0]] + rest;
      assert v % 256 == s[0] && v / 256 == w;
      EncodeLittleEndian(rest);
    }
  }

  /** `byteToInt`: accumulates each byte shifted left by 8 bits per position.
      The accumulator is unbounded here; for the reads of at most 4 bytes that
      the decoder makes this agrees with Go's 64-bit `int`. */
  method ByteToInt(data: seq<byte>) returns (num: nat)
    ensures num == LittleEndian(data)
    ensures num < Pow256(|data|)
    ensures |data| == 0 ==> num == 0
    ensures |data| == 1 ==> num == data[0]
  {
    num := 0;
    for i := 0 to |data|
      invariant num == LittleEndian(data[..i])
    {
      assert data[..i + 1] == data[..i] + [data[i]];
      LittleEndianAppend(data[..i], data[i]);
      // `int(b) << n` with the shift n == 8 * i
      num := num + data[i] * Pow256(i);
    }
    assert data[..|data|] == data;
    LittleEndianBound(data);
  }

  /** The `width`-byte little-endian integer at `offset`: the slice read
      `byteToInt(data[offset : offset + width])`, which fails as `Truncated`
      where Go's slice expression would panic. */
  function ReadUint(data: seq<byte>, offset: nat, width: nat): (r: Result<nat>)
    ensures r.Ok? <==> offset + width <= |data|
    ensures r.Ok? ==> r.value < Pow256(width)
  {
    if offset + width <= |data| then
      LittleEndianBound(data[offset..offset + width]);
      Ok(LittleEndian(data[offset..offset + width]))
    else
      Err(Truncated)
  }
}
