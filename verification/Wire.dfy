/** Big-endian packing and unpacking, and Python's slices past the end. */
module Wire {
  type Byte = b: int | 0 <= b < 256

  type Bytes = seq<Byte>

  /** A double is carried as its eight bytes. */
  type Double = d: Bytes | |d| == 8 witness [0, 0, 0, 0, 0, 0, 0, 0]

  /** `struct.error` and the `ValueError` of an unknown enum number. */
  datatype Error = StructError | UnknownDirection

  datatype Result<+T> = Ok(value: T) | Err(error: Error) {
    predicate IsFailure() {
      Err?
    }

    function PropagateFailure<U>(): Result<U>
      requires IsFailure()
    {
      Err(error)
    }

    function Extract(): T
      requires !IsFailure()
    {
      value
    }
  }

  const TWO_TO_THE_63 := 0x8000_0000_0000_0000
  const TWO_TO_THE_64 := 0x1_0000_0000_0000_0000

  /** 256 to the k: one more than the largest number of k bytes. */
  function Capacity(k: nat): (c: nat)
    ensures c > 0
  {
    if k == 0 then 1 else 256 * Capacity(k - 1)
  }

  function BigEndian(n: nat, k: nat): (bs: Bytes)
    ensures |bs| == k
  {
    if k == 0 then [] else BigEndian(n / 256, k - 1) + [n % 256]
  }

  function Unsigned(bs: Bytes): nat {
    if bs == [] then 0 else 256 * Unsigned(bs[..|bs| - 1]) + bs[|bs| - 1]
  }

  lemma {:induction false} UnsignedOfBigEndian(n: nat, k: nat)
    requires n < Capacity(k)
    ensures Unsigned(BigEndian(n, k)) == n
  {
    if k > 0 {
      UnsignedOfBigEndian(n / 256, k - 1);
      assert BigEndian(n, k)[..k - 1] == BigEndian(n / 256, k - 1);
    }
  }

  lemma {:induction false} BigEndianOfUnsigned(bs: Bytes)
    ensures Unsigned(bs) < Capacity(|bs|)
    ensures BigEndian(Unsigned(bs), |bs|) == bs
  {
    if bs != [] {
      var n := |bs| - 1;
      BigEndianOfUnsigned(bs[..n]);
      assert Unsigned(bs) / 256 == Unsigned(bs[..n]) && Unsigned(bs) % 256 == bs[n];
    }
  }

  lemma Capacities()
    ensures Capacity(2) == 0x1_0000 && Capacity(8) == TWO_TO_THE_64
  {
    assert Capacity(4) == 0x1_0000_0000;
    assert Capacity(6) == 0x1_0000_0000_0000;
  }

  /** The unsigned formats `>H` (2 bytes) and `>Q` (8 bytes): an error out of range. */
  function Pack(n: int, k: nat): Result<Bytes> {
    if 0 <= n < Capacity(k) then Ok(BigEndian(n, k)) else Err(StructError)
  }

  /** The signed format `>q`: two's complement. */
  function PackSigned(n: int): Result<Bytes> {
    if -TWO_TO_THE_63 <= n < TWO_TO_THE_63 then Ok(BigEndian(n % TWO_TO_THE_64, 8)) else Err(StructError)
  }

  function Signed(bs: Bytes): int {
    var n := Unsigned(bs);
    if n < TWO_TO_THE_63 then n else n - TWO_TO_THE_64
  }

  lemma SignedOfPacked(n: int)
    requires -TWO_TO_THE_63 <= n < TWO_TO_THE_63
    ensures Signed(BigEndian(n % TWO_TO_THE_64, 8)) == n
  {
    Capacities();
    UnsignedOfBigEndian(n % TWO_TO_THE_64, 8);
  }

  lemma PackedOfSigned(bs: Bytes)
    requires |bs| == 8
    ensures PackSigned(Signed(bs)) == Ok(bs)
  {
    Capacities();
    BigEndianOfUnsigned(bs);
    WrapsBack(Unsigned(bs));
  }

  lemma WrapsBack(n: nat)
    requires n < TWO_TO_THE_64
    ensures n % TWO_TO_THE_64 == n && (n - TWO_TO_THE_64) % TWO_TO_THE_64 == n
  {}

  // ---------------------------------------------------------------------
  // Reading at an offset, as the decoders do
  // ---------------------------------------------------------------------

  /** `struct.unpack_from`: an error when the buffer ends too early. */
  function UnpackFrom(data: Bytes, offset: nat, k: nat): (r: Result<Bytes>)
    ensures r.Ok? ==> |r.value| == k
  {
    if offset + k <= |data| then Ok(data[offset..offset + k]) else Err(StructError)
  }

  /** `data[lo:hi]`: bounds past the end are cut off without an error. */
  function Slice(data: Bytes, lo: nat, hi: nat): Bytes
    requires lo <= hi
  {
    if lo >= |data| then [] else data[lo..if hi < |data| then hi else |data|]
  }

  // ---------------------------------------------------------------------
  // Reading a field off the front, as the specifications do
  // ---------------------------------------------------------------------

  function Take(data: Bytes, k: nat): (r: Result<(Bytes, Bytes)>)
    ensures r.Ok? ==> data == r.value.0 + r.value.1 && |r.value.0| == k
  {
    if k <= |data| then Ok((data[..k], data[k..])) else Err(StructError)
  }

  /** A length-prefixed string; a length past the end takes what there is. */
  function TakeString(data: Bytes): Result<(Bytes, Bytes)> {
    var (prefix, rest) :- Take(data, 2);
    var n := Unsigned(prefix);
    if n <= |rest| then Ok((rest[..n], rest[n..])) else Ok((rest, []))
  }

  predicate Short(s: Bytes) {
    |s| < 0x1_0000
  }

  function Prefixed(s: Bytes): Bytes {
    BigEndian(|s|, 2) + s
  }

  lemma TakePacked(front: Bytes, rest: Bytes)
    ensures Take(front + rest, |front|) == Ok((front, rest))
  {
    assert (front + rest)[..|front|] == front && (front + rest)[|front|..] == rest;
  }

  lemma TakePrefixed(s: Bytes, rest: Bytes)
    requires Short(s)
    ensures TakeString(Prefixed(s) + rest) == Ok((s, rest))
  {
    Capacities();
    UnsignedOfBigEndian(|s|, 2);
    assert Prefixed(s) + rest == BigEndian(|s|, 2) + (s + rest);
    TakePacked(BigEndian(|s|, 2), s + rest);
    assert (s + rest)[..|s|] == s && (s + rest)[|s|..] == rest;
  }

  /** A string that has lost its last bytes is read without them. */
  lemma TakeCutOff(s: Bytes, kept: nat)
    requires Short(s) && kept <= |s|
    ensures TakeString(BigEndian(|s|, 2) + s[..kept]) == Ok((s[..kept], []))
  {
    Capacities();
    UnsignedOfBigEndian(|s|, 2);
    TakePacked(BigEndian(|s|, 2), s[..kept]);
    assert kept == |s| ==> s[..kept][..|s|] == s[..kept] && s[..kept][|s|..] == [];
  }

  /** What was read is what stands at the front, unless the string was cut off. */
  lemma TakenString(data: Bytes)
    requires TakeString(data).Ok?
    ensures var (s, rest) := TakeString(data).value;
      && Short(s)
      && (data == Prefixed(s) + rest <==> Unsigned(data[..2]) <= |data| - 2)
      && (data == Prefixed(s) + rest || rest == [])
  {
    Capacities();
    var prefix, tail := data[..2], data[2..];
    BigEndianOfUnsigned(prefix);
    var n := Unsigned(prefix);
    if n <= |tail| {
      assert data == BigEndian(n, 2) + tail[..n] + tail[n..];
    } else {
      UnsignedOfBigEndian(|tail|, 2);
      assert (Prefixed(tail) + [])[..2] == BigEndian(|tail|, 2);
    }
  }

  /** A string is all of the data exactly when its announced length says so. */
  lemma WholeString(data: Bytes)
    requires TakeString(data).Ok?
    ensures data == Prefixed(TakeString(data).value.0) <==> |data| == 2 + Unsigned(data[..2])
  {
    TakenString(data);
    var (s, rest) := TakeString(data).value;
    assert Prefixed(s) + [] == Prefixed(s);
    Capacities();
    UnsignedOfBigEndian(|s|, 2);
    assert Prefixed(s)[..2] == BigEndian(|s|, 2);
  }

  /** What is left from an offset on; nothing past the end. */
  function Rest(data: Bytes, offset: nat): Bytes {
    if offset <= |data| then data[offset..] else []
  }

  lemma RestOfRest(data: Bytes, offset: nat, n: nat)
    requires offset + n <= |data|
    ensures Rest(data, offset)[..n] == data[offset..offset + n]
    ensures Rest(data, offset)[n..] == Rest(data, offset + n)
  {}

  /** A slice after an offset is what the rest starts with, as far as it goes. */
  lemma SliceOfRest(data: Bytes, start: nat, n: nat)
    requires start <= |data|
    ensures var rest := Rest(data, start);
      if n <= |rest| then rest[..n] == Slice(data, start, start + n) && rest[n..] == Rest(data, start + n)
      else rest == Slice(data, start, start + n) && Rest(data, start + n) == []
  {
    if start + n <= |data| {
      RestOfRest(data, start, n);
    }
  }

  /** A length-prefixed string at an offset, and what is left behind it. */
  function StringFrom(data: Bytes, offset: nat): Result<(Bytes, Bytes)> {
    var prefix :- UnpackFrom(data, offset, 2);
    var end := offset + 2 + Unsigned(prefix);
    Ok((Slice(data, offset + 2, end), Rest(data, end)))
  }

  function FieldFrom(data: Bytes, offset: nat, k: nat): Result<(Bytes, Bytes)> {
    var field :- UnpackFrom(data, offset, k);
    Ok((field, Rest(data, offset + k)))
  }

  /** Reading at an offset is reading off the front of what is left. */
  lemma FieldAtOffset(data: Bytes, offset: nat, k: nat)
    requires k > 0
    ensures Take(Rest(data, offset), k) == FieldFrom(data, offset, k)
  {
    if offset + k <= |data| {
      RestOfRest(data, offset, k);
    }
  }

  lemma StringAtOffset(data: Bytes, offset: nat)
    ensures TakeString(Rest(data, offset)) == StringFrom(data, offset)
  {
    FieldAtOffset(data, offset, 2);
    if offset + 2 <= |data| {
      SliceOfRest(data, offset + 2, Unsigned(data[offset..offset + 2]));
    }
  }
}
