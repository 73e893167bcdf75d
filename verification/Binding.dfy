/**
 The external data a proof is bound to: its byte string, why that string can be
 read back in only one way, and its hash into the field.
 */
module Binding {
  import opened Bytes
  import opened Fields
  import opened Notes
  import opened PublicWitnesses
  import opened Wrappers

  type Key = k: seq<byte> | |k| == 32 witness Zeros(32)

  // b"veil402:transact:v4"
  const BINDING_DOMAIN: seq<byte> :=
    [118, 101, 105, 108, 52, 48, 50, 58, 116, 114, 97, 110, 115, 97, 99, 116, 58, 118, 52]

  // Where a proof may be used.
  datatype Deployment = Deployment(domain: Key, program: Key, pool: Key, mint: Key, verifier: Key)

  // What it does there.
  datatype External = External(recipient: Key, notes: seq<seq<byte>>)

  // `u32::try_from(len)` succeeds.
  predicate LengthFits(note: seq<byte>) {
    |note| < 0x1_0000_0000
  }

  predicate Bindable(e: External) {
    |e.notes| == 2 && LengthFits(e.notes[0]) && LengthFits(e.notes[1])
  }

  function NoteField(note: seq<byte>): seq<byte>
    requires LengthFits(note)
  {
    U32Bytes(|note|) + note
  }

  function Preimage(d: Deployment, e: External, amount: int): seq<byte>
    requires Bindable(e) && IsI64(amount)
  {
    BINDING_DOMAIN + (d.domain + (d.program + (d.pool + (d.mint + (d.verifier + (e.recipient
      + (I64Bytes(amount) + (NoteField(e.notes[0]) + NoteField(e.notes[1])))))))))
  }

  // The twelve slices both builders hash, spelled out.
  predicate Slices(s: seq<seq<byte>>, d: Deployment, e: External, amount: int)
    requires Bindable(e) && IsI64(amount)
  {
    && |s| == 12 && s[0] == BINDING_DOMAIN && s[1] == d.domain && s[2] == d.program && s[3] == d.pool
    && s[4] == d.mint && s[5] == d.verifier && s[6] == e.recipient && s[7] == I64Bytes(amount)
    && s[8] == U32Bytes(|e.notes[0]|) && s[9] == e.notes[0] && s[10] == U32Bytes(|e.notes[1]|) && s[11] == e.notes[1]
  }

  // The tail of a slice list, from the amount on.
  lemma TailIsNotes(s: seq<seq<byte>>, e: External, amount: int)
    requires Bindable(e) && IsI64(amount) && |s| == 12 && s[7] == I64Bytes(amount)
    requires s[8] == U32Bytes(|e.notes[0]|) && s[9] == e.notes[0]
    requires s[10] == U32Bytes(|e.notes[1]|) && s[11] == e.notes[1]
    ensures Flatten(s[7..]) == I64Bytes(amount) + (NoteField(e.notes[0]) + NoteField(e.notes[1]))
  {
    FlattenStep(s, 7);
    FlattenStep(s, 8);
    FlattenStep(s, 9);
    FlattenStep(s, 10);
    FlattenStep(s, 11);
    assert Flatten(s[12..]) == [];
    assert s[8] + (s[9] + (s[10] + (s[11] + []))) == s[8] + s[9] + (s[10] + s[11]);
  }

  lemma SlicesArePreimage(s: seq<seq<byte>>, d: Deployment, e: External, amount: int)
    requires Bindable(e) && IsI64(amount) && Slices(s, d, e, amount)
    ensures Flatten(s) == Preimage(d, e, amount)
  {
    TailIsNotes(s, e, amount);
    FlattenStep(s, 6);
    FlattenStep(s, 5);
    FlattenStep(s, 4);
    FlattenStep(s, 3);
    FlattenStep(s, 2);
    FlattenStep(s, 1);
    FlattenStep(s, 0);
    assert s[0..] == s;
  }

  // Keccak reduced into the field.
  function BindingHash(p: Modulus, keccak: seq<byte> -> seq<byte>, d: Deployment, e: External, amount: int): Option<nat>
    requires |e.notes| == 2 && IsI64(amount)
  {
    if Bindable(e) then Some(Reduce(p, keccak(Preimage(d, e, amount)))) else None
  }

  lemma NoteFieldPrefix(a: seq<byte>, rest: seq<byte>, a': seq<byte>, rest': seq<byte>)
    requires LengthFits(a) && LengthFits(a') && NoteField(a) + rest == NoteField(a') + rest'
    ensures a == a' && rest == rest'
  {
    assert NoteField(a) + rest == U32Bytes(|a|) + (a + rest);
    assert NoteField(a') + rest' == U32Bytes(|a'|) + (a' + rest');
    AppendsEqual(U32Bytes(|a|), a + rest, U32Bytes(|a'|), a' + rest');
    Pow256Eight();
    BigEndianEncode(|a|, 4);
    BigEndianEncode(|a'|, 4);
    AppendsEqual(a, rest, a', rest');
  }

  lemma NotesDetermined(e: External, e': External, amount: int, amount': int)
    requires Bindable(e) && Bindable(e') && IsI64(amount) && IsI64(amount')
    requires I64Bytes(amount) + (NoteField(e.notes[0]) + NoteField(e.notes[1]))
          == I64Bytes(amount') + (NoteField(e'.notes[0]) + NoteField(e'.notes[1]))
    ensures amount == amount' && e.notes == e'.notes
  {
    AppendsEqual(I64Bytes(amount), NoteField(e.notes[0]) + NoteField(e.notes[1]),
                 I64Bytes(amount'), NoteField(e'.notes[0]) + NoteField(e'.notes[1]));
    I64BytesInjective(amount, amount');
    NoteFieldPrefix(e.notes[0], NoteField(e.notes[1]), e'.notes[0], NoteField(e'.notes[1]));
    assert NoteField(e.notes[1]) + [] == NoteField(e'.notes[1]) + [];
    NoteFieldPrefix(e.notes[1], [], e'.notes[1], []);
    assert e.notes == [e.notes[0], e.notes[1]] && e'.notes == [e'.notes[0], e'.notes[1]];
  }

  /** The preimage can be decoded in one way only, whatever the note lengths. */
  lemma PreimageInjective(d: Deployment, e: External, amount: int, d': Deployment, e': External, amount': int)
    requires Bindable(e) && Bindable(e') && IsI64(amount) && IsI64(amount')
    requires Preimage(d, e, amount) == Preimage(d', e', amount')
    ensures d == d' && e == e' && amount == amount'
  {
    var t0, t0' := I64Bytes(amount) + (NoteField(e.notes[0]) + NoteField(e.notes[1])),
                   I64Bytes(amount') + (NoteField(e'.notes[0]) + NoteField(e'.notes[1]));
    var t1, t1' := e.recipient + t0, e'.recipient + t0';
    var t2, t2' := d.verifier + t1, d'.verifier + t1';
    var t3, t3' := d.mint + t2, d'.mint + t2';
    var t4, t4' := d.pool + t3, d'.pool + t3';
    var t5, t5' := d.program + t4, d'.program + t4';
    AppendsEqual(BINDING_DOMAIN, d.domain + t5, BINDING_DOMAIN, d'.domain + t5');
    AppendsEqual(d.domain, t5, d'.domain, t5');
    AppendsEqual(d.program, t4, d'.program, t4');
    AppendsEqual(d.pool, t3, d'.pool, t3');
    AppendsEqual(d.mint, t2, d'.mint, t2');
    AppendsEqual(d.verifier, t1, d'.verifier, t1');
    AppendsEqual(e.recipient, t0, e'.recipient, t0');
    NotesDetermined(e, e', amount, amount');
  }

  // Keccak, reduced into the field, does not collide on these two strings.
  ghost predicate KeccakDistinguishes(p: Modulus, keccak: seq<byte> -> seq<byte>, x: seq<byte>, y: seq<byte>) {
    Reduce(p, keccak(x)) == Reduce(p, keccak(y)) ==> x == y
  }

  /** The hash binds every part of the external data, the deployment and the amount. */
  lemma BindingHashBinds(p: Modulus, keccak: seq<byte> -> seq<byte>, d: Deployment, e: External, amount: int,
                         d': Deployment, e': External, amount': int)
    requires Bindable(e) && Bindable(e') && IsI64(amount) && IsI64(amount')
    requires KeccakDistinguishes(p, keccak, Preimage(d, e, amount), Preimage(d', e', amount'))
    ensures BindingHash(p, keccak, d, e, amount) == BindingHash(p, keccak, d', e', amount')
       <==> d == d' && e == e' && amount == amount'
  {
    if BindingHash(p, keccak, d, e, amount) == BindingHash(p, keccak, d', e', amount') {
      PreimageInjective(d, e, amount, d', e', amount');
    }
  }

  // The domain is the text "veil402:transact:v4".
  lemma DomainSpelled()
    ensures |BINDING_DOMAIN| == |"veil402:transact:v4"|
    ensures forall i | 0 <= i < |BINDING_DOMAIN| :: BINDING_DOMAIN[i] == "veil402:transact:v4"[i] as int
  {
  }

  // A fixed-width part of a string sits where the parts before it end.
  lemma PartAt(before: seq<byte>, part: seq<byte>, after: seq<byte>)
    ensures (before + (part + after))[|before|..|before| + |part|] == part
    ensures before + (part + after) == before + part + after
  {
  }

  /** Where each fixed-width part of the string sits. */
  lemma PreimageReads(d: Deployment, e: External, amount: int)
    requires Bindable(e) && IsI64(amount)
    ensures var s := Preimage(d, e, amount);
      && |s| >= 219 && s[..19] == BINDING_DOMAIN
      && s[19..51] == d.domain && s[51..83] == d.program && s[83..115] == d.pool && s[115..147] == d.mint
      && s[147..179] == d.verifier && s[179..211] == e.recipient && s[211..219] == I64Bytes(amount)
      && s[219..] == NoteField(e.notes[0]) + NoteField(e.notes[1])
  {
    var t0 := NoteField(e.notes[0]) + NoteField(e.notes[1]);
    var t1 := I64Bytes(amount) + t0;
    var t2 := e.recipient + t1;
    var t3 := d.verifier + t2;
    var t4 := d.mint + t3;
    var t5 := d.pool + t4;
    var t6 := d.program + t5;
    var b1 := BINDING_DOMAIN + d.domain;
    var b2 := b1 + d.program;
    var b3 := b2 + d.pool;
    var b4 := b3 + d.mint;
    var b5 := b4 + d.verifier;
    var b6 := b5 + e.recipient;
    PartAt([], BINDING_DOMAIN, d.domain + t6);
    PartAt(BINDING_DOMAIN, d.domain, t6);
    PartAt(b1, d.program, t5);
    PartAt(b2, d.pool, t4);
    PartAt(b3, d.mint, t3);
    PartAt(b4, d.verifier, t2);
    PartAt(b5, e.recipient, t1);
    PartAt(b6, I64Bytes(amount), t0);
    TailAt(b6 + I64Bytes(amount), t0);
  }

  lemma TailAt(before: seq<byte>, tail: seq<byte>)
    ensures (before + tail)[|before|..] == tail
  {
  }

  // ----- The asset of a mint -----

  ghost function AssetPreimage(mint: Key): seq<nat> {
    [ASSET_DOMAIN, BigEndian(mint[..16]), BigEndian(mint[16..])]
  }

  function AssetOf(c: Crypto, mint: Key): nat {
    AssetId(c, BigEndian(mint[..16]), BigEndian(mint[16..]))
  }

  // One half in the low bytes of a field.
  method HalfField(half: seq<byte>) returns (field: nat)
    requires |half| == 16
    ensures field == BigEndian(half)
  {
    var padded := CopyLow(half);
    Pow256Monotone(16, FIELD_BYTES);
    BigEndianEncode(BigEndian(half), FIELD_BYTES);
    field := BigEndian(padded);
  }

  /** Program and client: split the mint into two zero-padded halves and hash them under a tag. */
  method DeriveAsset(c: Crypto, mint: Key) returns (id: nat)
    ensures id == AssetOf(c, mint)
  {
    var high := HalfField(mint[..16]);
    var low := HalfField(mint[16..]);
    id := Poseidon(c, [ASSET_DOMAIN, high, low]);
  }

  /** Different mints have different assets. */
  lemma AssetBinds(c: Crypto, queries: set<seq<nat>>, mint: Key, mint': Key)
    requires Secure(c, queries) && AssetPreimage(mint) in queries && AssetPreimage(mint') in queries
    requires AssetOf(c, mint) == AssetOf(c, mint')
    ensures mint == mint'
  {
    var a, b := AssetPreimage(mint), AssetPreimage(mint');
    assert Distinguishes(c, a, b);
    assert a[1] == b[1] && a[2] == b[2];
    BigEndianInjective(mint[..16], mint'[..16]);
    BigEndianInjective(mint[16..], mint'[16..]);
    assert mint == mint[..16] + mint[16..] && mint' == mint'[..16] + mint'[16..];
  }
}
