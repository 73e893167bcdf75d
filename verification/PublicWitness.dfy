/**
 The serialized public witness: a counted header and seven 32-byte fields, as
 the program fills it and as the client does.
 */
module PublicWitnesses {
  import opened Bytes
  import opened Circuit
  import opened Fields
  import opened Notes

  const PUBLIC_INPUT_COUNT: nat := 7
  const GNARK_HEADER_BYTES: nat := 12
  const WITNESS_BYTES: nat := 236
  const COUNT_BE: seq<byte> := [0, 0, 0, 7]
  const HEADER: seq<byte> := [0, 0, 0, 7, 0, 0, 0, 0, 0, 0, 0, 7]

  predicate IsField(s: seq<byte>) {
    |s| == FIELD_BYTES
  }

  function Concat(fields: seq<seq<byte>>): (s: seq<byte>)
    requires forall f | f in fields :: IsField(f)
    ensures |s| == 32 * |fields|
  {
    if fields == [] then []
    else
      var last := fields[|fields| - 1];
      assert IsField(last);
      Concat(fields[..|fields| - 1]) + last
  }

  function Layout(fields: seq<seq<byte>>): (s: seq<byte>)
    requires |fields| == PUBLIC_INPUT_COUNT && forall f | f in fields :: IsField(f)
    ensures |s| == WITNESS_BYTES
  {
    assert |HEADER| == GNARK_HEADER_BYTES;
    HEADER + Concat(fields)
  }

  lemma AppendsEqual(a: seq<byte>, b: seq<byte>, a': seq<byte>, b': seq<byte>)
    requires |a| == |a'| && a + b == a' + b'
    ensures a == a' && b == b'
  {
    assert a == (a + b)[..|a|] && a' == (a' + b')[..|a|];
    assert b == (a + b)[|a|..] && b' == (a' + b')[|a|..];
  }

  lemma {:induction false} ConcatInjective(a: seq<seq<byte>>, b: seq<seq<byte>>)
    requires |a| == |b| && (forall f | f in a :: IsField(f)) && (forall f | f in b :: IsField(f))
    requires Concat(a) == Concat(b)
    ensures a == b
  {
    if a == [] {
    } else {
      var n := |a| - 1;
      assert IsField(a[n]) && IsField(b[n]);
      AppendsEqual(Concat(a[..n]), a[n], Concat(b[..n]), b[n]);
      ConcatInjective(a[..n], b[..n]);
      assert a == a[..n] + [a[n]] && b == b[..n] + [b[n]];
    }
  }

  /** Different field strings never share a witness. */
  lemma LayoutInjective(a: seq<seq<byte>>, b: seq<seq<byte>>)
    requires |a| == |b| == PUBLIC_INPUT_COUNT
    requires (forall f | f in a :: IsField(f)) && (forall f | f in b :: IsField(f))
    requires Layout(a) == Layout(b)
    ensures a == b
  {
    AppendsEqual(HEADER, Concat(a), HEADER, Concat(b));
    ConcatInjective(a, b);
  }

  lemma {:induction false} ConcatAt(fields: seq<seq<byte>>, i: nat)
    requires i < |fields| && forall f | f in fields :: IsField(f)
    ensures Concat(fields)[32 * i..32 * i + 32] == fields[i]
  {
    var n := |fields| - 1;
    assert IsField(fields[n]);
    if i < n {
      ConcatAt(fields[..n], i);
      assert Concat(fields)[32 * i..32 * i + 32] == Concat(fields[..n])[32 * i..32 * i + 32];
    }
  }

  /** Read as gnark reads it: so many public values, no secret ones, so many in the vector, then each in its place. */
  lemma LayoutReads(fields: seq<seq<byte>>, i: nat)
    requires |fields| == PUBLIC_INPUT_COUNT && (forall f | f in fields :: IsField(f)) && i < |fields|
    ensures var bytes := Layout(fields);
      && BigEndian(bytes[0..4]) == |fields| && BigEndian(bytes[4..8]) == 0 && BigEndian(bytes[8..12]) == |fields|
      && bytes[12 + 32 * i..12 + 32 * i + 32] == fields[i]
  {
    var bytes := Layout(fields);
    HeaderCounts();
    assert bytes[0..4] == [0, 0, 0, 7] && bytes[4..8] == [0, 0, 0, 0] && bytes[8..12] == [0, 0, 0, 7];
    ConcatAt(fields, i);
    assert bytes[12 + 32 * i..12 + 32 * i + 32] == Concat(fields)[32 * i..32 * i + 32];
  }

  lemma HeaderCounts()
    ensures BigEndian([0, 0, 0, 7]) == 7 && BigEndian([0, 0, 0, 0]) == 0
  {
    assert [0, 0, 0, 7][..3] == [0, 0, 0] && [0, 0, 0, 0][..3] == [0, 0, 0];
    assert [0, 0, 0][..2] == [0, 0] && [0, 0][..1] == [0] && [0][..0] == [];
    assert BigEndian([0]) == 0 && BigEndian([0, 0]) == 0 && BigEndian([0, 0, 0]) == 0;
  }

  /** The program: two counts into a zeroed buffer, then one chunk per field. */
  method EncodeInputs(fields: seq<seq<byte>>) returns (bytes: seq<byte>)
    requires |fields| == PUBLIC_INPUT_COUNT && forall f | f in fields :: IsField(f)
    ensures bytes == Layout(fields)
  {
    var buffer := new byte[WITNESS_BYTES](_ => 0);
    forall i | 0 <= i < 4 {
      buffer[i] := COUNT_BE[i];
    }
    forall i | 0 <= i < 4 {
      buffer[8 + i] := COUNT_BE[i];
    }
    for chunk := 0 to PUBLIC_INPUT_COUNT
      invariant buffer[..GNARK_HEADER_BYTES + 32 * chunk] == HEADER + Concat(fields[..chunk])
    {
      CopyField(buffer, GNARK_HEADER_BYTES + 32 * chunk, fields[chunk]);
      assert fields[..chunk + 1][..chunk] == fields[..chunk];
    }
    assert fields[..PUBLIC_INPUT_COUNT] == fields;
    bytes := buffer[..];
  }

  /** The client: the whole header at once, then each field at its offset. */
  method WitnessBytes(pub: PublicInputs) returns (bytes: seq<byte>)
    requires |pub.nullifiers| == INPUTS && |pub.commitments| == OUTPUTS
    ensures bytes == Layout(EncodedFields(pub))
  {
    var buffer := new byte[WITNESS_BYTES](_ => 0);
    forall i | 0 <= i < GNARK_HEADER_BYTES {
      buffer[i] := HEADER[i];
    }
    var fields := EncodedFields(pub);
    for offset := 0 to PUBLIC_INPUT_COUNT
      invariant buffer[..GNARK_HEADER_BYTES + 32 * offset] == HEADER + Concat(fields[..offset])
    {
      CopyField(buffer, GNARK_HEADER_BYTES + 32 * offset, fields[offset]);
      assert fields[..offset + 1][..offset] == fields[..offset];
    }
    assert fields[..PUBLIC_INPUT_COUNT] == fields;
    bytes := buffer[..];
  }

  method CopyField(buffer: array<byte>, start: nat, field: seq<byte>)
    requires IsField(field) && start + FIELD_BYTES <= buffer.Length
    modifies buffer
    ensures buffer[..start + FIELD_BYTES] == old(buffer[..start]) + field
  {
    forall i | 0 <= i < FIELD_BYTES {
      buffer[start + i] := field[i];
    }
  }

  // The seven public inputs in verifier order.
  function EncodedFields(pub: PublicInputs): (fields: seq<seq<byte>>)
    requires |pub.nullifiers| == INPUTS && |pub.commitments| == OUTPUTS
    ensures |fields| == PUBLIC_INPUT_COUNT && forall f | f in fields :: IsField(f)
  {
    [ FieldBytes(pub.root), FieldBytes(pub.nullifiers[0]), FieldBytes(pub.nullifiers[1]),
      FieldBytes(pub.commitments[0]), FieldBytes(pub.commitments[1]), FieldBytes(pub.amount), FieldBytes(pub.hash) ]
  }

  /** On field elements the witness determines every public input. */
  lemma WitnessDetermines(c: Crypto, a: PublicInputs, b: PublicInputs)
    requires Encodable(c.p) && PublicTyped(c, a) && PublicTyped(c, b)
    requires Layout(EncodedFields(a)) == Layout(EncodedFields(b))
    ensures a == b
  {
    var fa, fb := EncodedFields(a), EncodedFields(b);
    LayoutInjective(fa, fb);
    SameField(c.p, a.root, b.root, fa[0], fb[0]);
    SameField(c.p, a.nullifiers[0], b.nullifiers[0], fa[1], fb[1]);
    SameField(c.p, a.nullifiers[1], b.nullifiers[1], fa[2], fb[2]);
    SameField(c.p, a.commitments[0], b.commitments[0], fa[3], fb[3]);
    SameField(c.p, a.commitments[1], b.commitments[1], fa[4], fb[4]);
    SameField(c.p, a.amount, b.amount, fa[5], fb[5]);
    SameField(c.p, a.hash, b.hash, fa[6], fb[6]);
    assert a.nullifiers == b.nullifiers && a.commitments == b.commitments;
  }

  lemma SameField(p: Modulus, x: nat, y: nat, sx: seq<byte>, sy: seq<byte>)
    requires Encodable(p) && x < p && y < p && sx == FieldBytes(x) && sy == FieldBytes(y) && sx == sy
    ensures x == y
  {
    FieldBytesRoundTrip(p, x);
    FieldBytesRoundTrip(p, y);
  }
}
