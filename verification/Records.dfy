/**
 * Length-prefixed records: the byte form every digest preimage is built from,
 * and the reader that takes the fields back off the front.
 */
module Records {
  import opened Wrappers
  import opened Bytes

  function Power(k: nat): nat { if k == 0 then 1 else 256 * Power(k - 1) }

  /** The low `k` bytes of `n`, most significant first. */
  function BigEndian(n: nat, k: nat): (s: Bytes)
    ensures |s| == k
  {
    if k == 0 then [] else BigEndian(n / 256, k - 1) + [n % 256]
  }

  function FromBigEndian(s: Bytes): nat {
    if s == [] then 0 else FromBigEndian(s[..|s| - 1]) * 256 + s[|s| - 1]
  }

  lemma {:induction false} BigEndianRoundTrip(n: nat, k: nat)
    requires n < Power(k)
    ensures FromBigEndian(BigEndian(n, k)) == n
  {
    if k > 0 {
      BigEndianRoundTrip(n / 256, k - 1);
      var s := BigEndian(n, k);
      assert s[..|s| - 1] == BigEndian(n / 256, k - 1);
    }
  }

  lemma EightBytes()
    ensures Power(8) == U64_LIMIT
  {
    assert Power(4) == 0x1_0000_0000;
    assert Power(6) == 0x1_0000_0000_0000;
  }

  // ------------------------------------------------------------ writing

  function U64Bytes(n: U64): Bytes { BigEndian(n, 8) }

  function Lp(t: Text): Bytes { U64Bytes(|t|) + t }

  // ------------------------------------------------------------ reading back

  /** A value read off the front, and what follows it. */
  type Taken<T> = Option<(T, Bytes)>

  function TakeU64(s: Bytes): Taken<nat> {
    if |s| < 8 then None else Some((FromBigEndian(s[..8]), s[8..]))
  }

  function TakeLp(s: Bytes): Taken<Bytes> {
    match TakeU64(s)
    case None => None
    case Some((n, rest)) => if |rest| < n then None else Some((rest[..n], rest[n..]))
  }

  lemma TakesU64(n: U64, rest: Bytes)
    ensures TakeU64(U64Bytes(n) + rest) == Some((n, rest))
  {
    EightBytes();
    BigEndianRoundTrip(n, 8);
    var s := U64Bytes(n) + rest;
    assert s[..8] == U64Bytes(n) && s[8..] == rest;
  }

  lemma TakesLp(t: Text, rest: Bytes)
    ensures TakeLp(Lp(t) + rest) == Some((t, rest))
  {
    assert Lp(t) + rest == U64Bytes(|t|) + (t + rest);
    TakesU64(|t|, t + rest);
    assert (t + rest)[..|t|] == t && (t + rest)[|t|..] == rest;
  }

  lemma {:induction false} FromBigEndianRoundTrip(s: Bytes)
    ensures FromBigEndian(s) < Power(|s|) && BigEndian(FromBigEndian(s), |s|) == s
  {
    if s != [] {
      FromBigEndianRoundTrip(s[..|s| - 1]);
      assert s == s[..|s| - 1] + [s[|s| - 1]];
    }
  }

  /** A field that is taken was written as a length-prefixed record. */
  lemma LpTaken(s: Bytes)
    requires TakeLp(s).Some?
    ensures
      var (t, rest) := TakeLp(s).value;
      |t| < U64_LIMIT && s == Lp(t) + rest
  {
    hide FromBigEndian, BigEndian, Power;
    EightBytes();
    FromBigEndianRoundTrip(s[..8]);
    var (t, rest) := TakeLp(s).value;
    assert s == s[..8] + (t + rest);
  }
}
