/** Length-prefixed framing of what the Guard authenticates. */
module Framing {
  import opened Common

  const LENGTH_LIMIT := 0x1_0000_0000_0000_0000

  /** A string or byte slice; its length fits the 64 bits it is framed with. */
  type Slice = b: Bytes | |b| < 0x1_0000_0000_0000_0000

  // "aiauth/blind-index/v1", "aiauth/dek-wrap/v1" and "aiauth/field/v1" in ASCII.
  const DOMAIN_BLIND_INDEX: Bytes :=
    [97, 105, 97, 117, 116, 104, 47, 98, 108, 105, 110, 100, 45, 105, 110, 100, 101, 120, 47, 118, 49]
  const DOMAIN_DEK_WRAP: Bytes :=
    [97, 105, 97, 117, 116, 104, 47, 100, 101, 107, 45, 119, 114, 97, 112, 47, 118, 49]
  const DOMAIN_FIELD: Bytes :=
    [97, 105, 97, 117, 116, 104, 47, 102, 105, 101, 108, 100, 47, 118, 49]

  /** The low k bytes of n, most significant first. */
  function BigEndian(n: nat, k: nat): (b: Bytes)
    ensures |b| == k
  {
    if k == 0 then [] else BigEndian(n / 256, k - 1) + [n % 256]
  }

  function Be64(n: nat): (b: Bytes)
    ensures |b| == 8
  {
    BigEndian(n, 8)
  }

  function Pow256(k: nat): nat
  {
    if k == 0 then 1 else 256 * Pow256(k - 1)
  }

  lemma {:induction false} BigEndianIsInjective(m: nat, n: nat, k: nat)
    requires m < Pow256(k) && n < Pow256(k) && BigEndian(m, k) == BigEndian(n, k)
    ensures m == n
  {
    if k > 0 {
      var a, b := BigEndian(m, k), BigEndian(n, k);
      assert a[k - 1] == m % 256 && b[k - 1] == n % 256;
      assert a[..k - 1] == BigEndian(m / 256, k - 1) && b[..k - 1] == BigEndian(n / 256, k - 1);
      BigEndianIsInjective(m / 256, n / 256, k - 1);
    }
  }

  /** The number that bytes spell, most significant first. */
  function Spelled(b: Bytes): nat
  {
    if b == [] then 0 else 256 * Spelled(b[..|b| - 1]) + b[|b| - 1]
  }

  lemma {:induction false} BigEndianSpells(n: nat, k: nat)
    requires n < Pow256(k)
    ensures Spelled(BigEndian(n, k)) == n
  {
    if k > 0 {
      var b := BigEndian(n, k);
      assert b[..k - 1] == BigEndian(n / 256, k - 1) && b[k - 1] == n % 256;
      BigEndianSpells(n / 256, k - 1);
    }
  }

  lemma Be64IsInjective(m: nat, n: nat)
    requires m < LENGTH_LIMIT && n < LENGTH_LIMIT && Be64(m) == Be64(n)
    ensures m == n
  {
    assert Pow256(4) == 0x1_0000_0000;
    assert Pow256(8) == 256 * (256 * (256 * (256 * Pow256(4))));
    BigEndianIsInjective(m, n, 8);
  }

  function Framed(b: Slice): Bytes
  {
    Be64(|b|) + b
  }

  /** The associated data of an authenticated encryption. */
  method Aad(domain: Bytes, tenant: Slice) returns (v: Bytes)
    ensures v == AadOf(domain, tenant)
  {
    v := [];
    v := v + domain;
    v := v + Be64(|tenant|);
    v := v + tenant;
    assert v == domain + (Be64(|tenant|) + tenant);
  }

  function AadOf(domain: Bytes, tenant: Slice): Bytes
  {
    domain + Framed(tenant)
  }

  /** What the blind index hashes. */
  function IndexFrame(tenant: Slice, input: Slice): Bytes
  {
    DOMAIN_BLIND_INDEX + (Framed(tenant) + Framed(input))
  }

  /** A framed field ends where its length says, whatever follows it. */
  lemma FramedPrefix(a: Slice, x: Bytes, b: Slice, y: Bytes)
    requires Framed(a) + x == Framed(b) + y
    ensures a == b && x == y
  {
    var s, t := Framed(a) + x, Framed(b) + y;
    assert s[..8] == Be64(|a|) && t[..8] == Be64(|b|);
    Be64IsInjective(|a|, |b|);
    assert s[8..8 + |a|] == a && t[8..8 + |b|] == b;
    assert s[8 + |a|..] == x && t[8 + |b|..] == y;
  }

  predicate SealingDomain(d: Bytes)
  {
    d == DOMAIN_DEK_WRAP || d == DOMAIN_FIELD
  }

  /** The layout, byte by byte: the domain, the tenant's length in eight bytes, the
      tenant; and of the index frame then the input's length and the input. */
  lemma FramesAreLaidOut(d: Bytes, t: Slice, i: Slice)
    ensures var v, n := AadOf(d, t), |d|;
      |v| == n + 8 + |t| && v[..n] == d && Spelled(v[n..n + 8]) == |t| && v[n + 8..] == t
    ensures var v, n := IndexFrame(t, i), |DOMAIN_BLIND_INDEX|;
      && |v| == n + 8 + |t| + 8 + |i| && v[..n] == DOMAIN_BLIND_INDEX
      && Spelled(v[n..n + 8]) == |t| && v[n + 8..n + 8 + |t|] == t
      && Spelled(v[n + 8 + |t|..n + 16 + |t|]) == |i| && v[n + 16 + |t|..] == i
  {
    Be64Spells(|t|);
    Be64Spells(|i|);
    var v, n := AadOf(d, t), |d|;
    assert v[n..n + 8] == Be64(|t|);
    var x, m := IndexFrame(t, i), |DOMAIN_BLIND_INDEX|;
    assert x == DOMAIN_BLIND_INDEX + Be64(|t|) + t + Be64(|i|) + i;
    assert x[m..m + 8] == Be64(|t|);
    assert x[m + 8 + |t|..m + 16 + |t|] == Be64(|i|);
    hide Be64;
    hide Spelled;
  }

  lemma Be64Spells(n: nat)
    requires n < LENGTH_LIMIT
    ensures Spelled(Be64(n)) == n
  {
    assert Pow256(4) == 0x1_0000_0000;
    assert Pow256(8) == 256 * (256 * (256 * (256 * Pow256(4))));
    BigEndianSpells(n, 8);
  }

  /** Equal associated data means equal domain and equal tenant. */
  lemma AadIsInjective(d: Bytes, t: Slice, d': Bytes, t': Slice)
    requires SealingDomain(d) && SealingDomain(d') && AadOf(d, t) == AadOf(d', t')
    ensures d == d' && t == t'
  {
    assert AadOf(d, t)[7] == d[7] && AadOf(d', t')[7] == d'[7];
    assert d == d';
    assert AadOf(d, t)[|d|..] == Framed(t) && AadOf(d', t')[|d'|..] == Framed(t');
    assert Framed(t) + [] == Framed(t') + [];
    FramedPrefix(t, [], t', []);
  }

  lemma IndexFrameIsInjective(t: Slice, i: Slice, t': Slice, i': Slice)
    requires IndexFrame(t, i) == IndexFrame(t', i')
    ensures t == t' && i == i'
  {
    var n := |DOMAIN_BLIND_INDEX|;
    assert IndexFrame(t, i)[n..] == Framed(t) + Framed(i);
    assert IndexFrame(t', i')[n..] == Framed(t') + Framed(i');
    FramedPrefix(t, Framed(i), t', Framed(i'));
    assert Framed(i) + [] == Framed(i') + [];
    FramedPrefix(i, [], i', []);
  }

  /** Nothing hashed for an index can also be associated data of an encryption. */
  lemma DomainsAreSeparate(t: Slice, i: Slice, d: Bytes, t': Slice)
    requires SealingDomain(d)
    ensures IndexFrame(t, i) != AadOf(d, t')
  {
    assert IndexFrame(t, i)[7] == DOMAIN_BLIND_INDEX[7];
    assert AadOf(d, t')[7] == d[7];
  }
}
