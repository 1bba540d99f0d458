/**
 * How go-ethereum's rlp package writes and reads the Go values that occur in the handshake options,
 * at the level of items: unsigned integers as minimal big-endian strings, booleans as the integers
 * 0 and 1, byte slices as strings, and fixed-size byte arrays as strings of exactly their length.
 */
module RlpValues {
  import opened Wrappers
  import opened Rlp

  type uint64 = x: int | 0 <= x < 0x1_0000_0000_0000_0000

  function Pow256(k: nat): (r: nat)
    ensures r > 0
  {
    if k == 0 then 1 else 256 * Pow256(k - 1)
  }

  lemma {:induction false} Pow256Monotone(j: nat, k: nat)
    requires j <= k
    ensures Pow256(j) <= Pow256(k)
  {
    if j < k {
      Pow256Monotone(j, k - 1);
    }
  }

  /** The minimal big-endian bytes of n: none for 0, and no leading zero byte otherwise. */
  function UintBytes(n: nat): seq<byte>
    decreases n
  {
    if n == 0 then [] else UintBytes(n / 256) + [n % 256]
  }

  /** The number that a big-endian byte string stands for. */
  function BigEndian(bs: seq<byte>): nat {
    if bs == [] then 0 else BigEndian(bs[..|bs| - 1]) * 256 + bs[|bs| - 1]
  }

  /** The only integer strings the decoder accepts: empty, or without a leading zero byte. */
  predicate Canonical(bs: seq<byte>) {
    bs == [] || bs[0] != 0
  }

  lemma {:induction false} BigEndianBound(bs: seq<byte>)
    ensures BigEndian(bs) < Pow256(|bs|)
  {
    if bs != [] {
      BigEndianBound(bs[..|bs| - 1]);
    }
  }

  lemma {:induction false} BigEndianOfUintBytes(n: nat)
    ensures BigEndian(UintBytes(n)) == n
    decreases n
  {
    if n != 0 {
      BigEndianOfUintBytes(n / 256);
      var bs := UintBytes(n);
      assert bs[..|bs| - 1] == UintBytes(n / 256);
    }
  }

  lemma {:induction false} UintBytesShape(n: nat, k: nat)
    requires n < Pow256(k)
    ensures Canonical(UintBytes(n)) && |UintBytes(n)| <= k
    decreases n
  {
    if n != 0 {
      UintBytesShape(n / 256, k - 1);
      if n / 256 == 0 {
        assert UintBytes(n) == [n % 256];
      }
    }
  }

  /** Decoding accepts exactly the strings that encoding produces. */
  lemma {:induction false} UintBytesOfBigEndian(bs: seq<byte>)
    requires Canonical(bs)
    ensures UintBytes(BigEndian(bs)) == bs
  {
    if bs != [] {
      var init := bs[..|bs| - 1];
      var last := bs[|bs| - 1];
      var n := BigEndian(bs);
      assert n == BigEndian(init) * 256 + last;
      DivModByte(BigEndian(init), last);
      if init == [] {
        assert n == last;
      } else {
        assert init[0] == bs[0];
        UintBytesOfBigEndian(init);
        BigEndianPositive(init);
      }
      assert n != 0;
      assert UintBytes(n) == UintBytes(n / 256) + [n % 256];
      assert bs == init + [last];
    }
  }

  lemma DivModByte(q: nat, b: byte)
    ensures (q * 256 + b) / 256 == q && (q * 256 + b) % 256 == b
  {
  }

  lemma {:induction false} BigEndianPositive(bs: seq<byte>)
    requires bs != [] && bs[0] != 0
    ensures BigEndian(bs) > 0
  {
    if |bs| > 1 {
      BigEndianPositive(bs[..|bs| - 1]);
    }
  }

  function EncodeUint(n: nat): Item {
    Str(UintBytes(n))
  }

  /** Stream.uint with room for `width` bytes: a list, a wider string or a leading zero is refused. */
  function DecodeUint(x: Item, width: nat): (r: Result<nat, RlpError>)
    ensures r.Ok? ==> r.value < Pow256(width)
  {
    match x
    case List(_) => Err(ExpectedString)
    case Str(bs) =>
      if |bs| > width then Err(UintOverflow)
      else if !Canonical(bs) then Err(CanonInt)
      else
        BigEndianBound(bs);
        Pow256Monotone(|bs|, width);
        Ok(BigEndian(bs))
  }

  lemma UintRoundTrip(n: nat, width: nat)
    requires n < Pow256(width)
    ensures DecodeUint(EncodeUint(n), width) == Ok(n)
  {
    UintBytesShape(n, width);
    BigEndianOfUintBytes(n);
  }

  lemma UintDecodeInverse(x: Item, width: nat)
    requires DecodeUint(x, width).Ok?
    ensures EncodeUint(DecodeUint(x, width).value) == x
  {
    UintBytesOfBigEndian(x.bytes);
  }

  /** A uint64 is read from a canonical string of at most eight bytes, which is exactly its encoding. */
  function DecodeUint64(x: Item): (r: Result<uint64, RlpError>)
    ensures r.Ok? <==> x.Str? && |x.bytes| <= 8 && Canonical(x.bytes)
    ensures r.Ok? ==> EncodeUint(r.value) == x
  {
    assert Pow256(8) == 0x1_0000_0000_0000_0000;
    var n :- DecodeUint(x, 8);
    UintDecodeInverse(x, 8);
    Ok(n)
  }

  function EncodeBool(b: bool): Item {
    EncodeUint(if b then 1 else 0)
  }

  /** Stream.Bool: an integer of at most one byte that is 0 (false) or 1 (true). */
  function DecodeBool(x: Item): (r: Result<bool, RlpError>)
    ensures r.Ok? <==> x == Str([]) || x == Str([1])
    ensures r.Ok? ==> (r.value <==> x == Str([1]))
  {
    assert BigEndian([1]) == 1;
    var n :- DecodeUint(x, 1);
    if n == 0 then Ok(false) else if n == 1 then Ok(true) else Err(InvalidBool(n))
  }

  lemma BoolRoundTrip(b: bool)
    ensures DecodeBool(EncodeBool(b)) == Ok(b)
  {
    UintRoundTrip(if b then 1 else 0, 1);
  }

  /** The bool decoder accepts only the two strings the encoder writes. */
  lemma BoolDecodeInverse(x: Item)
    requires DecodeBool(x).Ok?
    ensures EncodeBool(DecodeBool(x).value) == x
  {
    var n := DecodeUint(x, 1).value;
    UintDecodeInverse(x, 1);
    assert DecodeBool(x).value == (n == 1);
    assert (if n == 1 then 1 else 0) == n;
  }

  /** A Go byte slice is written as the string of its bytes. */
  function DecodeBytes(x: Item): (r: Result<seq<byte>, RlpError>)
    ensures r.Ok? <==> x.Str?
    ensures r.Ok? ==> x == Str(r.value)
  {
    match x
    case List(_) => Err(ExpectedString)
    case Str(b) => Ok(b)
  }

  /** A Go byte array of length n is read from a string of exactly n bytes. */
  function DecodeByteArray(x: Item, n: nat): (r: Result<seq<byte>, RlpError>)
    ensures r.Ok? ==> |r.value| == n
  {
    match x
    case List(_) => Err(ExpectedString)
    case Str(b) =>
      if |b| < n then Err(StringTooShort)
      else if |b| > n then Err(StringTooLong)
      else Ok(b)
  }
}
