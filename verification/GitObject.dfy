/**
 * Git objects: the bytes that are hashed for a blob or a tree.  The two hash
 * functions are parameters; where a result needs them to be collision-free it
 * says on which byte strings.
 */
module GitObject {
  import opened Bytes

  datatype Format = Sha1 | Sha256

  datatype Hashes = Hashes(sha1: Bytes -> Bytes, sha256: Bytes -> Bytes)

  /** Digests have the length the format promises. */
  ghost predicate FixedLength(h: Hashes) {
    && (forall x :: |h.sha1(x)| == 20)
    && (forall x :: |h.sha256(x)| == 32)
  }

  function HashOf(h: Hashes, format: Format): Bytes -> Bytes {
    match format
    case Sha1 => h.sha1
    case Sha256 => h.sha256
  }

  /** No two of these byte strings share a digest. */
  ghost predicate CollisionFree(f: Bytes -> Bytes, texts: set<Bytes>) {
    forall x, y :: x in texts && y in texts && f(x) == f(y) ==> x == y
  }

  function Decimal(n: nat): (t: Bytes)
    ensures |t| >= 1 && forall k :: 0 <= k < |t| ==> 48 <= t[k] <= 57
  {
    if n < 10 then [48 + n] else Decimal(n / 10) + [48 + n % 10]
  }

  /** The number a text of decimal digits stands for, most significant first. */
  function Number(t: Bytes): int {
    if t == [] then 0
    else
      var digit: int := t[|t| - 1];
      10 * Number(t[..|t| - 1]) + digit - 48
  }

  /** The length is written in decimal, without leading zeros. */
  lemma {:induction false} DecimalIs(n: nat)
    ensures Number(Decimal(n)) == n && (n > 0 ==> Decimal(n)[0] != 48)
  {
    if n < 10 {
      assert Number([]) == 0 && Decimal(n)[..0] == [];
    } else {
      DecimalIs(n / 10);
      assert Decimal(n)[..|Decimal(n)| - 1] == Decimal(n / 10);
    }
  }

  /** `kind`, a space, the length of the body, a zero byte, the body. */
  function Object(kind: Bytes, body: Bytes): Bytes {
    kind + [32] + Decimal(|body|) + [0] + body
  }

  function ObjectHash(h: Hashes, format: Format, kind: Bytes, body: Bytes): Bytes {
    HashOf(h, format)(Object(kind, body))
  }

  /** The first occurrence of a separator splits a text in one way only. */
  lemma ByteSplits(c: byte, a: Bytes, b: Bytes, x: Bytes, y: Bytes)
    requires c !in a && c !in b
    requires a + [c] + x == b + [c] + y
    ensures a == b && x == y
  {
    var s := a + [c] + x;
    assert s == b + [c] + y;
    assert s[|a|] == c && s[|b|] == c;
    assert forall k :: 0 <= k < |a| ==> s[k] == a[k] && a[k] in a;
    assert forall k :: 0 <= k < |b| ==> s[k] == b[k] && b[k] in b;
    assert |a| == |b|;
    assert a == s[..|a|] && b == s[..|b|];
    assert x == s[|a| + 1..] && y == s[|b| + 1..];
  }

  /** An object determines its body. */
  lemma ObjectInjective(kind: Bytes, body: Bytes, other: Bytes)
    requires 0 !in kind
    requires Object(kind, body) == Object(kind, other)
    ensures body == other
  {
    ByteSplits(0, kind + [32] + Decimal(|body|), kind + [32] + Decimal(|other|), body, other);
  }
}
