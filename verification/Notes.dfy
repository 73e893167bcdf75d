/**
 The hash roles of the protocol, over an arbitrary hash into the field. No
 global property of the hash is assumed: results name the finite set of
 preimages they rely on and ask only that the hash behaves on that set.
 */
module Notes {
  import opened Fields

  // `raw` stands for Poseidon; reading results outside the field as zero makes any function a hash into it.
  datatype Crypto = Crypto(p: Modulus, raw: seq<nat> -> nat)

  function Poseidon(c: Crypto, inputs: seq<nat>): (h: nat)
    ensures h < c.p
  {
    if c.raw(inputs) < c.p then c.raw(inputs) else 0
  }

  ghost predicate Distinguishes(c: Crypto, x: seq<nat>, y: seq<nat>) {
    Poseidon(c, x) == Poseidon(c, y) ==> x == y
  }

  ghost predicate NonZeroDigest(c: Crypto, x: seq<nat>) {
    Poseidon(c, x) != 0
  }

  // No collision and no zero digest among the preimages in `queries`.
  ghost predicate Secure(c: Crypto, queries: set<seq<nat>>) {
    && (forall x, y {:trigger Distinguishes(c, x, y)} | x in queries && y in queries :: Distinguishes(c, x, y))
    && (forall x {:trigger NonZeroDigest(c, x)} | x in queries :: NonZeroDigest(c, x))
  }

  // A number of its own, from 1 on, for every element of a finite set.
  ghost predicate Numbers(m: map<seq<nat>, nat>, queries: set<seq<nat>>) {
    && m.Keys == queries
    && (forall x | x in m :: 1 <= m[x] <= |queries|)
    && (forall x, y | x in m && y in m && m[x] == m[y] :: x == y)
  }

  lemma {:induction false} Numbered(queries: set<seq<nat>>) returns (m: map<seq<nat>, nat>)
    ensures Numbers(m, queries)
  {
    if queries == {} {
      m := map[];
    } else {
      var x :| x in queries;
      var before := Numbered(queries - {x});
      m := before[x := |queries|];
    }
  }

  /** What is assumed of the hash can be had: on every set smaller than the field some hash is secure. */
  lemma SecureHashExists(p: Modulus, queries: set<seq<nat>>)
    requires |queries| < p
    ensures exists c: Crypto :: c.p == p && Secure(c, queries)
  {
    var m := Numbered(queries);
    var c := Crypto(p, x => if x in m then m[x] else 0);
    assert forall x | x in queries :: Poseidon(c, x) == m[x];
    assert Secure(c, queries);
  }

  const SPEND_KEY_DOMAIN: nat := 1
  const NULLIFIER_KEY_DOMAIN: nat := 2
  const OWNER_DOMAIN: nat := 3
  const NOTE_KEY_DOMAIN: nat := 4
  const NOTE_DOMAIN: nat := 5
  const NULLIFIER_DOMAIN: nat := 6

  // The secrets behind a note key.
  datatype Opening = Opening(spend: nat, view: nat, random: nat)

  function SpendHash(c: Crypto, spend: nat): nat {
    Poseidon(c, [SPEND_KEY_DOMAIN, spend])
  }

  function NullifierKey(c: Crypto, view: nat): nat {
    Poseidon(c, [NULLIFIER_KEY_DOMAIN, view])
  }

  function OwnerId(c: Crypto, spend: nat, view: nat): nat {
    Poseidon(c, [OWNER_DOMAIN, SpendHash(c, spend), NullifierKey(c, view)])
  }

  function NoteKey(c: Crypto, owner: nat, random: nat): nat {
    Poseidon(c, [NOTE_KEY_DOMAIN, owner, random])
  }

  function OpenedKey(c: Crypto, o: Opening): nat {
    NoteKey(c, OwnerId(c, o.spend, o.view), o.random)
  }

  function Commitment(c: Crypto, npk: nat, asset: nat, value: nat): nat {
    Poseidon(c, [NOTE_DOMAIN, npk, asset, value])
  }

  function NullifierPreimage(c: Crypto, view: nat, index: nat): seq<nat> {
    [NULLIFIER_DOMAIN, NullifierKey(c, view), index]
  }

  function Nullifier(c: Crypto, view: nat, index: nat): nat {
    Poseidon(c, NullifierPreimage(c, view, index))
  }

  const ASSET_DOMAIN: nat := 7

  // The asset identifier of a mint: its two halves, each small enough for a field element.
  function AssetId(c: Crypto, high: nat, low: nat): nat {
    Poseidon(c, [ASSET_DOMAIN, high, low])
  }

  // The preimages hashed to derive a note key.
  ghost function KeyQueries(c: Crypto, o: Opening): set<seq<nat>> {
    { [SPEND_KEY_DOMAIN, o.spend],
      [NULLIFIER_KEY_DOMAIN, o.view],
      [OWNER_DOMAIN, SpendHash(c, o.spend), NullifierKey(c, o.view)],
      [NOTE_KEY_DOMAIN, OwnerId(c, o.spend, o.view), o.random] }
  }

  // ----- Roles -----

  // Everything hashed under a tag, by what it is for.
  datatype HashInput =
    | SpendSecret(spend: nat)
    | ViewSecret(view: nat)
    | OwnerKeys(spend: nat, view: nat)
    | NoteOf(owner: nat, random: nat)
    | CommitmentOf(npk: nat, asset: nat, value: nat)
    | NullifierOf(view: nat, index: nat)
    | AssetHalves(high: nat, low: nat)

  // The digest the protocol uses for it.
  function RoleDigest(c: Crypto, x: HashInput): nat {
    match x
    case SpendSecret(spend) => SpendHash(c, spend)
    case ViewSecret(view) => NullifierKey(c, view)
    case OwnerKeys(spend, view) => OwnerId(c, spend, view)
    case NoteOf(owner, random) => NoteKey(c, owner, random)
    case CommitmentOf(npk, asset, value) => Commitment(c, npk, asset, value)
    case NullifierOf(view, index) => Nullifier(c, view, index)
    case AssetHalves(high, low) => AssetId(c, high, low)
  }

  // What that digest is the hash of: a tag of its own, then the parts.
  function Tagged(c: Crypto, x: HashInput): seq<nat> {
    match x
    case SpendSecret(spend) => [1, spend]
    case ViewSecret(view) => [2, view]
    case OwnerKeys(spend, view) => [3, SpendHash(c, spend), NullifierKey(c, view)]
    case NoteOf(owner, random) => [4, owner, random]
    case CommitmentOf(npk, asset, value) => [5, npk, asset, value]
    case NullifierOf(view, index) => [6, NullifierKey(c, view), index]
    case AssetHalves(high, low) => [7, high, low]
  }

  // `queries` holds it, and what its parts are the hashes of.
  ghost predicate RoleHashed(c: Crypto, queries: set<seq<nat>>, x: HashInput) {
    && Tagged(c, x) in queries
    && (x.OwnerKeys? ==> Tagged(c, SpendSecret(x.spend)) in queries)
    && (x.OwnerKeys? || x.NullifierOf? ==> Tagged(c, ViewSecret(x.view)) in queries)
  }

  lemma RoleOfDigest(c: Crypto, queries: set<seq<nat>>, x: HashInput, y: HashInput)
    requires Secure(c, queries) && Tagged(c, x) in queries && Tagged(c, y) in queries
    requires RoleDigest(c, x) == RoleDigest(c, y)
    ensures Tagged(c, x) == Tagged(c, y)
  {
    assert Distinguishes(c, Tagged(c, x), Tagged(c, y));
  }

  /** A digest has one role and one content: values from one role are unusable in another. */
  lemma RolesSeparate(c: Crypto, queries: set<seq<nat>>, x: HashInput, y: HashInput)
    requires Secure(c, queries) && RoleHashed(c, queries, x) && RoleHashed(c, queries, y)
    ensures RoleDigest(c, x) == RoleDigest(c, y) <==> x == y
  {
    if RoleDigest(c, x) == RoleDigest(c, y) {
      RoleOfDigest(c, queries, x, y);
      var a, b := Tagged(c, x), Tagged(c, y);
      assert a[0] == b[0] && a[1] == b[1];
      if |a| > 2 {
        assert a[2] == b[2];
      }
      if |a| > 3 {
        assert a[3] == b[3];
      }
      if x.OwnerKeys? {
        RoleOfDigest(c, queries, SpendSecret(x.spend), SpendSecret(y.spend));
        assert [1, x.spend][1] == [1, y.spend][1];
      }
      if x.OwnerKeys? || x.NullifierOf? {
        RoleOfDigest(c, queries, ViewSecret(x.view), ViewSecret(y.view));
        assert [2, x.view][1] == [2, y.view][1];
      }
    }
  }

  /** A note key has one opening among the preimages a run evaluates. */
  lemma NoteKeyBinds(c: Crypto, queries: set<seq<nat>>, a: Opening, b: Opening)
    requires Secure(c, queries) && KeyQueries(c, a) <= queries && KeyQueries(c, b) <= queries
    requires OpenedKey(c, a) == OpenedKey(c, b)
    ensures a == b
  {
    var ka, kb := [NOTE_KEY_DOMAIN, OwnerId(c, a.spend, a.view), a.random],
                  [NOTE_KEY_DOMAIN, OwnerId(c, b.spend, b.view), b.random];
    assert ka in queries && kb in queries && Distinguishes(c, ka, kb);
    assert ka[1] == kb[1] && ka[2] == kb[2];
    var oa, ob := [OWNER_DOMAIN, SpendHash(c, a.spend), NullifierKey(c, a.view)],
                  [OWNER_DOMAIN, SpendHash(c, b.spend), NullifierKey(c, b.view)];
    assert oa in queries && ob in queries && Distinguishes(c, oa, ob);
    assert oa[1] == ob[1] && oa[2] == ob[2];
    var sa, sb := [SPEND_KEY_DOMAIN, a.spend], [SPEND_KEY_DOMAIN, b.spend];
    assert sa in queries && sb in queries && Distinguishes(c, sa, sb);
    assert sa[1] == sb[1];
    var va, vb := [NULLIFIER_KEY_DOMAIN, a.view], [NULLIFIER_KEY_DOMAIN, b.view];
    assert va in queries && vb in queries && Distinguishes(c, va, vb);
    assert va[1] == vb[1];
  }

  /** A commitment fixes key, asset and value. */
  lemma CommitmentBinds(c: Crypto, queries: set<seq<nat>>,
                        npk: nat, asset: nat, value: nat, npk': nat, asset': nat, value': nat)
    requires Secure(c, queries)
    requires [NOTE_DOMAIN, npk, asset, value] in queries && [NOTE_DOMAIN, npk', asset', value'] in queries
    requires Commitment(c, npk, asset, value) == Commitment(c, npk', asset', value')
    ensures npk == npk' && asset == asset' && value == value'
  {
    var a, b := [NOTE_DOMAIN, npk, asset, value], [NOTE_DOMAIN, npk', asset', value'];
    assert Distinguishes(c, a, b);
    assert a[1] == b[1] && a[2] == b[2] && a[3] == b[3];
  }

  /** A nullifier fixes viewing key and index, and is not zero. */
  lemma NullifierBinds(c: Crypto, queries: set<seq<nat>>, view: nat, index: nat, view': nat, index': nat)
    requires Secure(c, queries)
    requires NullifierPreimage(c, view, index) in queries && NullifierPreimage(c, view', index') in queries
    requires [NULLIFIER_KEY_DOMAIN, view] in queries && [NULLIFIER_KEY_DOMAIN, view'] in queries
    ensures Nullifier(c, view, index) == Nullifier(c, view', index') <==> view == view' && index == index'
    ensures Nullifier(c, view, index) != 0
  {
    var a, b := NullifierPreimage(c, view, index), NullifierPreimage(c, view', index');
    assert NonZeroDigest(c, a) && Distinguishes(c, a, b);
    if a == b {
      assert a[1] == b[1] && a[2] == b[2];
      var ka, kb := [NULLIFIER_KEY_DOMAIN, view], [NULLIFIER_KEY_DOMAIN, view'];
      assert Distinguishes(c, ka, kb);
      assert ka[1] == kb[1];
    }
  }
}
