/**
 Big-endian byte strings, and the canonical 32-byte encoding of field elements
 that both the program and the client insist on.
 */
module Bytes {
  import opened Arith
  import opened Fields
  import opened Wrappers

  type byte = b: int | 0 <= b < 256

  const FIELD_BYTES := 32

  function Pow256(k: nat): (r: nat)
    ensures r > 0
  {
    if k == 0 then 1 else 256 * Pow256(k - 1)
  }

  function BigEndian(s: seq<byte>): (v: nat)
    ensures v < Pow256(|s|)
  {
    if s == [] then 0 else 256 * BigEndian(s[..|s| - 1]) + s[|s| - 1]
  }

  // The low `width` bytes of `v`, most significant first.
  function Encode(v: nat, width: nat): (s: seq<byte>)
    ensures |s| == width
  {
    if width == 0 then [] else Encode(v / 256, width - 1) + [v % 256]
  }

  lemma {:induction false} EncodeBigEndian(s: seq<byte>)
    ensures Encode(BigEndian(s), |s|) == s
  {
    if s == [] {
    } else {
      var front := s[..|s| - 1];
      DivUnique(BigEndian(s), 256, BigEndian(front), s[|s| - 1]);
      EncodeBigEndian(front);
    }
  }

  lemma {:induction false} BigEndianEncode(v: nat, width: nat)
    requires v < Pow256(width)
    ensures BigEndian(Encode(v, width)) == v
  {
    if width == 0 {
    } else {
      BigEndianEncode(v / 256, width - 1);
      assert Encode(v, width)[..width - 1] == Encode(v / 256, width - 1);
    }
  }

  /** Equal values of equal length are equal strings. */
  lemma BigEndianInjective(a: seq<byte>, b: seq<byte>)
    requires |a| == |b| && BigEndian(a) == BigEndian(b)
    ensures a == b
  {
    EncodeBigEndian(a);
    EncodeBigEndian(b);
  }

  function Zeros(n: nat): (s: seq<byte>)
    ensures |s| == n
  {
    seq(n, _ => 0)
  }

  lemma {:induction false} EncodeZero(width: nat)
    ensures Encode(0, width) == Zeros(width)
  {
    if width == 0 {
    } else {
      EncodeZero(width - 1);
    }
  }

  lemma {:induction false} EncodePadded(v: nat, pad: nat, width: nat)
    requires v < Pow256(width)
    ensures Encode(v, pad + width) == Zeros(pad) + Encode(v, width)
  {
    if width == 0 {
      EncodeZero(pad);
    } else {
      EncodePadded(v / 256, pad, width - 1);
    }
  }

  lemma Pow256Eight()
    ensures Pow256(4) == 0x1_0000_0000 && Pow256(8) == TWO_64
  {
    assert Pow256(1) == 256;
    assert Pow256(2) == 0x1_0000;
    assert Pow256(3) == 0x100_0000;
    assert Pow256(4) == 0x1_0000_0000;
    assert Pow256(5) == 0x100_0000_0000;
    assert Pow256(6) == 0x1_0000_0000_0000;
    assert Pow256(7) == 0x100_0000_0000_0000;
  }

  lemma {:induction false} Pow256Monotone(m: nat, n: nat)
    requires m <= n
    ensures Pow256(m) <= Pow256(n)
    decreases n
  {
    if m == n {
    } else {
      Pow256Monotone(m, n - 1);
    }
  }

  // ----- Concatenation -----

  function Flatten(pieces: seq<seq<byte>>): seq<byte> {
    if pieces == [] then [] else pieces[0] + Flatten(pieces[1..])
  }

  lemma {:induction false} FlattenAppend(pieces: seq<seq<byte>>, piece: seq<byte>)
    ensures Flatten(pieces + [piece]) == Flatten(pieces) + piece
  {
    if pieces == [] {
      assert Flatten([piece]) == piece + Flatten([]);
    } else {
      FlattenAppend(pieces[1..], piece);
      assert (pieces + [piece])[1..] == pieces[1..] + [piece];
    }
  }

  lemma FlattenStep(pieces: seq<seq<byte>>, k: nat)
    requires k < |pieces|
    ensures Flatten(pieces[k..]) == pieces[k] + Flatten(pieces[k + 1..])
  {
    assert pieces[k..][1..] == pieces[k + 1..];
  }

  // A hash over slices is the hash of their concatenation.
  method Hashv(hash: seq<byte> -> seq<byte>, slices: seq<seq<byte>>) returns (digest: seq<byte>)
    ensures digest == hash(Flatten(slices))
  {
    var data := [];
    for i := 0 to |slices|
      invariant data == Flatten(slices[..i])
    {
      assert slices[..i + 1] == slices[..i] + [slices[i]];
      FlattenAppend(slices[..i], slices[i]);
      data := data + slices[i];
    }
    assert slices[..|slices|] == slices;
    digest := hash(data);
  }

  // ----- Integers -----

  // `i64::to_be_bytes`: two's complement, eight bytes.
  function I64Bytes(amount: int): (s: seq<byte>)
    requires IsI64(amount)
    ensures |s| == 8
  {
    Encode(amount % TWO_64, 8)
  }

  // `u32::to_be_bytes`.
  function U32Bytes(n: nat): (s: seq<byte>)
    requires n < 0x1_0000_0000
    ensures |s| == 4
  {
    Encode(n, 4)
  }

  // Two's complement, read back.
  lemma I64BytesMeans(amount: int)
    requires IsI64(amount)
    ensures BigEndian(I64Bytes(amount)) == if amount >= 0 then amount else amount + TWO_64
  {
    Pow256Eight();
    BigEndianEncode(amount % TWO_64, 8);
    if amount >= 0 {
      DivUnique(amount, TWO_64, 0, amount);
    } else {
      DivUnique(amount, TWO_64, -1, amount + TWO_64);
    }
  }

  /** The first byte weighs most. */
  lemma {:induction false} FirstByteFirst(first: byte, rest: seq<byte>)
    ensures BigEndian([first] + rest) == first * Pow256(|rest|) + BigEndian(rest)
  {
    if rest == [] {
      assert [first] + rest == [first] && [first][..0] == [];
    } else {
      var n := |rest| - 1;
      FirstByteFirst(first, rest[..n]);
      assert ([first] + rest)[..|rest|] == [first] + rest[..n];
      assert 256 * (first * Pow256(n)) == first * (256 * Pow256(n));
    }
  }

  lemma I64BytesInjective(a: int, b: int)
    requires IsI64(a) && IsI64(b)
    requires I64Bytes(a) == I64Bytes(b)
    ensures a == b
  {
    Pow256Eight();
    BigEndianEncode(a % TWO_64, 8);
    BigEndianEncode(b % TWO_64, 8);
    ResidueExact(TWO_64, a, b);
  }

  // ----- Field elements -----

  const TWO_256: nat := 0x1_0000_0000_0000_0000_0000_0000_0000_0000_0000_0000_0000_0000_0000_0000_0000_0000

  // What the encoding needs of the modulus: every residue fits 32 bytes.
  ghost predicate Encodable(p: Modulus) {
    TWO_64 < p <= TWO_256
  }

  lemma {:induction false} Pow256Sum(m: nat, n: nat)
    ensures Pow256(m + n) == Pow256(m) * Pow256(n)
  {
    if m == 0 {
    } else {
      Pow256Sum(m - 1, n);
      assert 256 * (Pow256(m - 1) * Pow256(n)) == 256 * Pow256(m - 1) * Pow256(n);
    }
  }

  lemma FieldCapacity()
    ensures Pow256(FIELD_BYTES) == TWO_256
  {
    Pow256Eight();
    Pow256Sum(8, 8);
    Pow256Sum(16, 16);
  }

  function FieldBytes(v: nat): (s: seq<byte>)
    ensures |s| == FIELD_BYTES
  {
    Encode(v, FIELD_BYTES)
  }

  // `Fr::from_be_bytes_mod_order`.
  function Reduce(p: Modulus, s: seq<byte>): (v: nat)
    ensures v < p
  {
    Residue(p, BigEndian(s))
  }

  // The program's test: decode, reduce, encode, compare.
  predicate IsCanonical(p: Modulus, s: seq<byte>) {
    FieldBytes(Reduce(p, s)) == s
  }

  // The client's parser.
  function ParseField(p: Modulus, s: seq<byte>): Option<nat> {
    var value := Reduce(p, s);
    if FieldBytes(value) == s then Some(value) else None
  }

  lemma FieldBytesRoundTrip(p: Modulus, v: nat)
    requires Encodable(p) && v < p
    ensures BigEndian(FieldBytes(v)) == v && IsCanonical(p, FieldBytes(v))
  {
    FieldCapacity();
    BigEndianEncode(v, FIELD_BYTES);
  }

  /** Canonical strings are exactly the 32-byte strings whose value is below the modulus. */
  lemma CanonicalExact(p: Modulus, s: seq<byte>)
    requires Encodable(p)
    ensures IsCanonical(p, s) <==> |s| == FIELD_BYTES && BigEndian(s) < p
    ensures ParseField(p, s) == if IsCanonical(p, s) then Some(BigEndian(s)) else None
  {
    FieldCapacity();
    BigEndianEncode(Reduce(p, s), FIELD_BYTES);
    if |s| == FIELD_BYTES {
      EncodeBigEndian(s);
    }
  }

  /** One field element, one byte string. */
  lemma CanonicalUnique(p: Modulus, a: seq<byte>, b: seq<byte>)
    requires Encodable(p) && IsCanonical(p, a) && IsCanonical(p, b)
    requires BigEndian(a) == BigEndian(b)
    ensures a == b
  {
    CanonicalExact(p, a);
    CanonicalExact(p, b);
    BigEndianInjective(a, b);
  }

  /** The low `|low|` bytes of a zeroed field, filled in place. */
  method CopyLow(low: seq<byte>) returns (encoded: seq<byte>)
    requires |low| <= FIELD_BYTES
    ensures encoded == FieldBytes(BigEndian(low))
  {
    var pad := FIELD_BYTES - |low|;
    var bytes := new byte[FIELD_BYTES](_ => 0);
    forall i | 0 <= i < |low| {
      bytes[pad + i] := low[i];
    }
    encoded := bytes[..];
    assert encoded == Zeros(pad) + low;
    EncodeBigEndian(low);
    EncodePadded(BigEndian(low), pad, |low|);
  }

  /** A 64-bit integer goes into the low eight bytes. */
  method U64Be32(value: nat) returns (encoded: seq<byte>)
    requires IsU64(value)
    ensures encoded == FieldBytes(value)
  {
    Pow256Eight();
    BigEndianEncode(value, 8);
    encoded := CopyLow(Encode(value, 8));
  }
}
