/** Bytes, fixed-width integers and the positional encodings the wire formats use. */
module Bytes {
  type byte = b: int | 0 <= b < 0x100

  const U16_LIMIT := 0x1_0000
  const U64_LIMIT := 0x1_0000_0000_0000_0000

  type u16 = n: int | 0 <= n < U16_LIMIT
  type u64 = n: int | 0 <= n < U64_LIMIT

  datatype Option<+T> = None | Some(value: T)

  datatype Result<+T, +E> = Ok(value: T) | Err(error: E)

  function Min(a: int, b: int): int {
    if a <= b then a else b
  }

  function Max(a: int, b: int): int {
    if a <= b then b else a
  }

  /** The number of values `width` bytes can hold. */
  function Power256(width: nat): (n: nat)
    ensures n > 0
  {
    if width == 0 then 1 else 0x100 * Power256(width - 1)
  }

  /** `to_be_bytes` for an integer of `width` bytes. */
  function BigEndian(n: nat, width: nat): (bs: seq<byte>)
    ensures |bs| == width
  {
    if width == 0 then [] else BigEndian(n / 0x100, width - 1) + [n % 0x100]
  }

  /** `from_be_bytes`. */
  function FromBigEndian(bs: seq<byte>): nat {
    if bs == [] then 0 else 0x100 * FromBigEndian(bs[..|bs| - 1]) + bs[|bs| - 1]
  }

  /** `to_le_bytes` for an integer of `width` bytes. */
  function LittleEndian(n: nat, width: nat): (bs: seq<byte>)
    ensures |bs| == width
  {
    if width == 0 then [] else [n % 0x100] + LittleEndian(n / 0x100, width - 1)
  }

  lemma {:induction false} BigEndianRoundTrip(n: nat, width: nat)
    requires n < Power256(width)
    ensures FromBigEndian(BigEndian(n, width)) == n
  {
    if width > 0 {
      BigEndianRoundTrip(n / 0x100, width - 1);
      var bs := BigEndian(n, width);
      assert bs[..|bs| - 1] == BigEndian(n / 0x100, width - 1);
    }
  }

  lemma {:induction false} FromBigEndianRoundTrip(bs: seq<byte>)
    ensures FromBigEndian(bs) < Power256(|bs|)
    ensures BigEndian(FromBigEndian(bs), |bs|) == bs
  {
    if bs != [] {
      FromBigEndianRoundTrip(bs[..|bs| - 1]);
      assert FromBigEndian(bs) / 0x100 == FromBigEndian(bs[..|bs| - 1]);
    }
  }

  lemma {:induction false} LittleEndianInjective(m: nat, n: nat, width: nat)
    requires m < Power256(width) && n < Power256(width)
    requires LittleEndian(m, width) == LittleEndian(n, width)
    ensures m == n
  {
    if width > 0 {
      var ms, ns := LittleEndian(m, width), LittleEndian(n, width);
      assert ms[1..] == LittleEndian(m / 0x100, width - 1);
      assert ns[1..] == LittleEndian(n / 0x100, width - 1);
      LittleEndianInjective(m / 0x100, n / 0x100, width - 1);
      assert ms[0] == ns[0];
    }
  }

  lemma Powers()
    ensures Power256(2) == U16_LIMIT
    ensures Power256(4) == 0x1_0000_0000
    ensures Power256(8) == U64_LIMIT
  {
    assert Power256(1) == 0x100;
    assert Power256(3) == 0x100 * Power256(2);
    assert Power256(4) == 0x100 * Power256(3);
    assert Power256(5) == 0x100 * Power256(4);
    assert Power256(6) == 0x100 * Power256(5);
    assert Power256(7) == 0x100 * Power256(6);
    assert Power256(8) == 0x100 * Power256(7);
  }

  lemma Associative<T>(a: seq<T>, b: seq<T>, c: seq<T>)
    ensures (a + b) + c == a + (b + c)
  {
  }

  lemma HeadAndTail<T>(s: seq<T>, more: seq<T>)
    requires s != []
    ensures [s[0]] + (s[1..] + more) == s + more
  {
  }
}
