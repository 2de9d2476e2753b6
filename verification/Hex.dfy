/** Lower-case hexadecimal text: decoding accepts exactly what encoding writes. */
module Hex {
  import opened Wrappers
  import opened Bytes

  function Nibble(c: byte): Option<nat> {
    if 48 <= c <= 57 then Some(c - 48) else if 97 <= c <= 102 then Some(c - 97 + 10) else None
  }

  function Digit(v: nat): (c: byte)
    requires v < 16
    ensures Nibble(c) == Some(v)
  {
    if v < 10 then 48 + v else 97 + v - 10
  }

  function Decode(t: Bytes): (r: Option<Bytes>)
    ensures r.Some? ==> |t| == 2 * |r.value|
  {
    if t == [] then Some([])
    else if |t| % 2 != 0 then None
    else
      var hi, lo, rest := Nibble(t[0]), Nibble(t[1]), Decode(t[2..]);
      if hi.None? || lo.None? || rest.None? then None else Some([hi.value * 16 + lo.value] + rest.value)
  }

  function Encode(s: Bytes): (t: Bytes)
    ensures |t| == 2 * |s|
  {
    if s == [] then [] else [Digit(s[0] / 16), Digit(s[0] % 16)] + Encode(s[1..])
  }

  lemma {:induction false} DecodeOfEncode(s: Bytes)
    ensures Decode(Encode(s)) == Some(s)
  {
    if s != [] {
      DecodeOfEncode(s[1..]);
      assert Encode(s)[2..] == Encode(s[1..]);
      assert s == [s[0]] + s[1..];
    }
  }

  lemma {:induction false} EncodeOfDecode(t: Bytes)
    requires Decode(t).Some?
    ensures Encode(Decode(t).value) == t
  {
    if t != [] {
      EncodeOfDecode(t[2..]);
      assert t == [t[0], t[1]] + t[2..];
    }
  }

  lemma DecodesIffEncoded(t: Bytes, s: Bytes)
    ensures Decode(t) == Some(s) <==> t == Encode(s)
  {
    DecodeOfEncode(s);
    if Decode(t).Some? { EncodeOfDecode(t); }
  }

  method HexLower(bytes: Bytes) returns (out: Bytes)
    ensures out == Encode(bytes) && Decode(out) == Some(bytes)
  {
    hide Encode, Digit, Decode;
    out := [];
    for k := 0 to |bytes|
      invariant out + Encode(bytes[k..]) == Encode(bytes)
    {
      EncodeStep(bytes, k);
      ghost var before := out;
      out := out + [Digit(bytes[k] / 16)];
      out := out + [Digit(bytes[k] % 16)];
      assert out == before + [Digit(bytes[k] / 16), Digit(bytes[k] % 16)];
    }
    NothingToEncode();
    assert bytes[|bytes|..] == [] && out + [] == out;
    DecodeOfEncode(bytes);
  }

  lemma EncodeStep(s: Bytes, k: nat)
    requires k < |s|
    ensures Encode(s[k..]) == [Digit(s[k] / 16), Digit(s[k] % 16)] + Encode(s[k + 1..])
  {
    hide Digit;
    assert s[k..][1..] == s[k + 1..];
  }

  lemma NothingToEncode()
    ensures Encode([]) == []
  {
  }
}
