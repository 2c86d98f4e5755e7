/**
 * Identifier derivation shared by both contracts: an id is the keccak-256
 * digest of the counter written as 32 big-endian bytes.
 *
 * The digest is idealised: `Keccak256(preimage)` is an injective
 * constructor, i.e. a hash without collisions. `ZeroWord` is the all-zero
 * bytes32 that storage yields for a record never written; no preimage
 * hashes to it.
 */
module IdentityGenerator {
  import opened Evm

  /** An octet. */
  type Byte = x: nat | x < 256

  datatype Digest = ZeroWord | Keccak256(preimage: seq<Byte>)

  /** 256^k, the number of values k bytes can hold. */
  function Pow256(k: nat): (r: nat)
    ensures r >= 1
  {
    if k == 0 then 1 else 256 * Pow256(k - 1)
  }

  lemma {:induction false} Pow256Add(a: nat, b: nat)
    ensures Pow256(a + b) == Pow256(a) * Pow256(b)
  {
    if a > 0 {
      Pow256Add(a - 1, b);
      assert Pow256(a + b) == 256 * Pow256(a - 1 + b);
      assert Pow256(a) == 256 * Pow256(a - 1);
    }
  }

  lemma Pow256ThirtyTwo()
    ensures Pow256(32) == MODULUS
  {
    assert Pow256(2) == 0x1_0000;
    Pow256Add(2, 2);
    assert Pow256(4) == 0x1_0000_0000;
    Pow256Add(4, 4);
    assert Pow256(8) == 0x1_0000_0000_0000_0000;
    Pow256Add(8, 8);
    assert Pow256(16) == 0x1_0000_0000_0000_0000_0000_0000_0000_0000;
    Pow256Add(16, 16);
  }

  /** The `width` low-order bytes of `n`, most significant first. */
  function ToBigEndian(n: nat, width: nat): (bytes: seq<Byte>)
    ensures |bytes| == width
  {
    if width == 0 then [] else ToBigEndian(n / 256, width - 1) + [n % 256]
  }

  /** The number whose big-endian representation is `bytes`. */
  function FromBigEndian(bytes: seq<Byte>): (n: nat)
    ensures n < Pow256(|bytes|)
  {
    if bytes == [] then 0 else FromBigEndian(bytes[..|bytes| - 1]) * 256 + bytes[|bytes| - 1]
  }

  /** Decoding undoes encoding for every value that fits the width. */
  lemma {:induction false} FromToBigEndian(n: nat, width: nat)
    requires n < Pow256(width)
    ensures FromBigEndian(ToBigEndian(n, width)) == n
  {
    if width > 0 {
      var q, r := n / 256, n % 256;
      assert n == q * 256 + r;
      assert q < Pow256(width - 1);
      FromToBigEndian(q, width - 1);
      var bytes := ToBigEndian(n, width);
      assert bytes[..width - 1] == ToBigEndian(q, width - 1);
      assert bytes[width - 1] == r;
    }
  }

  /** Encoding undoes decoding: every byte string is the encoding of one value. */
  lemma {:induction false} ToFromBigEndian(bytes: seq<Byte>)
    ensures ToBigEndian(FromBigEndian(bytes), |bytes|) == bytes
  {
    if bytes != [] {
      var init, last := bytes[..|bytes| - 1], bytes[|bytes| - 1];
      ToFromBigEndian(init);
      var n := FromBigEndian(bytes);
      assert n == FromBigEndian(init) * 256 + last;
      assert n / 256 == FromBigEndian(init);
      assert n % 256 == last;
      assert bytes == init + [last];
    }
  }

  /** `hash_id` / `hash_agreement_id`: keccak-256 of `count.to_be_bytes::<32>()`. */
  function HashId(count: U256): (id: Digest)
    ensures id.Keccak256? && |id.preimage| == 32
  {
    Keccak256(ToBigEndian(count, 32))
  }

  /** The counter value an id was derived from, when it was derived from one. */
  function CounterOf(id: Digest): (count: Option<U256>)
    ensures id.Keccak256? && |id.preimage| == 32 ==> count.Some? && HashId(count.value) == id
    ensures !(id.Keccak256? && |id.preimage| == 32) ==> count == None
  {
    if id.Keccak256? && |id.preimage| == 32 then
      Pow256ThirtyTwo();
      ToFromBigEndian(id.preimage);
      Some(FromBigEndian(id.preimage))
    else
      None
  }

  /** Each counter value yields a different id, and the id gives back its counter. */
  lemma HashIdInjective(count: U256)
    ensures CounterOf(HashId(count)) == Some(count)
  {
    Pow256ThirtyTwo();
    FromToBigEndian(count, 32);
  }

  /** Distinct counter values give distinct ids. */
  lemma HashIdDistinct(i: U256, j: U256)
    requires i != j
    ensures HashId(i) != HashId(j)
  {
    HashIdInjective(i);
    HashIdInjective(j);
  }

  /** The ids derived from the counter values below `n`. */
  ghost function IdsBelow(n: nat): set<Digest> {
    set c: U256 | c < n :: HashId(c)
  }

  /**
   * The id of the current counter value is not among the ids issued so far,
   * and advancing the counter adds exactly that id.
   */
  lemma IdsBelowNext(n: U256)
    ensures HashId(n) !in IdsBelow(n)
    ensures IdsBelow(n + 1) == IdsBelow(n) + {HashId(n)}
  {
    forall c: U256 | c < n ensures HashId(c) != HashId(n) {
      HashIdDistinct(c, n);
    }
  }

  /** There are as many ids below `n` as counter values. */
  lemma {:induction false} IdsBelowCount(n: nat)
    requires n <= MODULUS
    ensures |IdsBelow(n)| == n
  {
    if n > 0 {
      IdsBelowNext(n - 1);
      IdsBelowCount(n - 1);
    } else {
      assert IdsBelow(0) == {};
    }
  }
}
