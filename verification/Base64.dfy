/**
 * Overlay payloads in the base64 of section 4 of RFC 4648: the decoder accepts
 * exactly the canonical texts, so a payload has one text and a text one payload.
 */
module Base64 {
  import opened Wrappers
  import opened Bytes

  const PAD: byte := 61

  type Sextet = v: nat | v < 64

  /** The six-bit value of a symbol. */
  function Value(c: byte): Option<Sextet> {
    if 65 <= c <= 90 then Some(c - 65)
    else if 97 <= c <= 122 then Some(c - 97 + 26)
    else if 48 <= c <= 57 then Some(c - 48 + 52)
    else if c == 43 then Some(62)
    else if c == 47 then Some(63)
    else None
  }

  function Symbol(v: Sextet): (c: byte)
    ensures Value(c) == Some(v) && c != PAD
  {
    if v < 26 then 65 + v else if v < 52 then 97 + v - 26 else if v < 62 then 48 + v - 52
    else if v == 62 then 43 else 47
  }

  lemma SymbolOfValue(c: byte)
    requires Value(c).Some?
    ensures Symbol(Value(c).value) == c
  {
  }

  lemma ValueOfSymbol(v: Sextet)
    ensures Value(Symbol(v)) == Some(v) && Symbol(v) != PAD
  {
  }

  // ------------------------------------------------------------ one quantum

  /** Four groups of six bits as three bytes.  The shifts and ors on bytes are
      written as arithmetic: a left shift drops the bits that leave the byte, and
      the operands of an or have no bit in common. */
  function High(a: Sextet, b: Sextet): byte { a * 4 + b / 16 }
  function Middle(b: Sextet, c: Sextet): byte { b % 16 * 16 + c / 4 }
  function Low(c: Sextet, d: Sextet): byte { c % 4 * 64 + d }

  /** Three bytes as four groups of six bits. */
  function First(x: byte): Sextet { x / 4 }
  function Second(x: byte, y: byte): Sextet { x % 4 * 16 + y / 16 }
  function Third(y: byte, z: byte): Sextet { y % 16 * 4 + z / 64 }
  function Fourth(z: byte): Sextet { z % 64 }

  lemma Regrouped(a: Sextet, b: Sextet, c: Sextet, d: Sextet)
    ensures
      var x, y, z := High(a, b), Middle(b, c), Low(c, d);
      First(x) == a && Second(x, y) == b && Third(y, z) == c && Fourth(z) == d
    ensures b % 16 == 0 ==> Middle(b, 0) == 0
    ensures c % 4 == 0 ==> Low(c, 0) == 0
  {
  }

  lemma Ungrouped(x: byte, y: byte, z: byte)
    ensures
      var a, b, c, d := First(x), Second(x, y), Third(y, z), Fourth(z);
      High(a, b) == x && Middle(b, c) == y && Low(c, d) == z
    ensures Second(x, 0) % 16 == 0 && Third(y, 0) % 4 == 0
    ensures Third(0, 0) == 0 && Fourth(0) == 0
  {
  }

  function Unpacked(c0: byte, c1: byte, c2: byte, c3: byte, last: bool): Option<Bytes> {
    var a, b := Value(c0), Value(c1);
    var cPad, dPad := c2 == PAD, c3 == PAD;
    var c, d := if cPad then Some(0) else Value(c2), if dPad then Some(0) else Value(c3);
    if a.None? || b.None? || (!last && dPad) || (cPad && !dPad) || c.None? || d.None? then None
    else if (cPad && b.value % 16 != 0) || (dPad && !cPad && c.value % 4 != 0) then None
    else Some([High(a.value, b.value)]
              + (if cPad then [] else [Middle(b.value, c.value)])
              + (if dPad then [] else [Low(c.value, d.value)]))
  }

  function Packed(s: Bytes): (q: Bytes)
    requires 1 <= |s| <= 3
    ensures |q| == 4
  {
    var x, y, z := s[0], if |s| > 1 then s[1] else 0, if |s| > 2 then s[2] else 0;
    [Symbol(First(x)), Symbol(Second(x, y)),
     if |s| > 1 then Symbol(Third(y, z)) else PAD,
     if |s| > 2 then Symbol(Fourth(z)) else PAD]
  }

  lemma UnpackedPacked(s: Bytes, last: bool)
    requires 1 <= |s| <= 3 && (last || |s| == 3)
    ensures var q := Packed(s); Unpacked(q[0], q[1], q[2], q[3], last) == Some(s)
  {
    hide Value, Symbol, High, Middle, Low, First, Second, Third, Fourth;
    var x, y, z := s[0], if |s| > 1 then s[1] else 0, if |s| > 2 then s[2] else 0;
    Ungrouped(x, y, z);
    ValueOfSymbol(First(x));
    ValueOfSymbol(Second(x, y));
    ValueOfSymbol(Third(y, z));
    ValueOfSymbol(Fourth(z));
    var q := Packed(s);
    assert q[0] == Symbol(First(x)) && q[1] == Symbol(Second(x, y));
    assert q[2] == if |s| > 1 then Symbol(Third(y, z)) else PAD;
    assert q[3] == if |s| > 2 then Symbol(Fourth(z)) else PAD;
    assert Unpacked(q[0], q[1], q[2], q[3], last).Some?;
    assert Unpacked(q[0], q[1], q[2], q[3], last).value == s;
  }

  lemma PackedUnpacked(c0: byte, c1: byte, c2: byte, c3: byte, last: bool)
    requires Unpacked(c0, c1, c2, c3, last).Some?
    ensures
      var s := Unpacked(c0, c1, c2, c3, last).value;
      1 <= |s| <= 3 && (!last ==> |s| == 3) && Packed(s) == [c0, c1, c2, c3]
  {
    hide Value, Symbol, High, Middle, Low, First, Second, Third, Fourth;
    SymbolOfValue(c0);
    SymbolOfValue(c1);
    if c2 != PAD { SymbolOfValue(c2); }
    if c3 != PAD { SymbolOfValue(c3); }
    Regrouped(Value(c0).value, Value(c1).value,
              if c2 == PAD then 0 else Value(c2).value, if c3 == PAD then 0 else Value(c3).value);
  }

  // ------------------------------------------------------------ whole texts

  function Encode(s: Bytes): Bytes {
    if s == [] then [] else if |s| <= 3 then Packed(s) else Packed(s[..3]) + Encode(s[3..])
  }

  /** Quantum by quantum; a tail shorter than a quantum is refused. */
  function Decode(t: Bytes): Option<Bytes> {
    if t == [] then Some([])
    else if |t| < 4 then None
    else
      var q := Unpacked(t[0], t[1], t[2], t[3], |t| == 4);
      if q.None? then None
      else
        var rest := Decode(t[4..]);
        if rest.None? then None else Some(q.value + rest.value)
  }

  lemma {:induction false} DecodeOfEncode(s: Bytes)
    ensures Decode(Encode(s)) == Some(s)
  {
    hide Unpacked, Packed;
    if s == [] {
    } else if |s| <= 3 {
      UnpackedPacked(s, true);
      assert Decode([]) == Some([]) && Encode(s)[4..] == [] && s + [] == s;
    } else {
      var t, head := Encode(s), Packed(s[..3]);
      UnpackedPacked(s[..3], false);
      DecodeOfEncode(s[3..]);
      assert Encode(s[3..]) != [];
      assert t[4..] == Encode(s[3..]);
      assert s[..3] + s[3..] == s;
    }
  }

  lemma {:induction false} EncodeOfDecode(t: Bytes)
    requires Decode(t).Some?
    ensures Encode(Decode(t).value) == t
    ensures t != [] ==> Decode(t).value != []
  {
    hide Unpacked, Packed;
    if t != [] {
      var q := Unpacked(t[0], t[1], t[2], t[3], |t| == 4).value;
      PackedUnpacked(t[0], t[1], t[2], t[3], |t| == 4);
      EncodeOfDecode(t[4..]);
      var rest := Decode(t[4..]).value;
      assert t == [t[0], t[1], t[2], t[3]] + t[4..];
      if |t| == 4 {
        assert q + rest == q;
      } else {
        assert (q + rest)[..3] == q && (q + rest)[3..] == rest;
      }
    }
  }

  /** The decoder accepts exactly the canonical encodings, and inverts them. */
  lemma DecodesIffCanonical(t: Bytes, s: Bytes)
    ensures Decode(t) == Some(s) <==> t == Encode(s)
  {
    DecodeOfEncode(s);
    if Decode(t).Some? { EncodeOfDecode(t); }
  }

  /** Two texts of the same payload are the same text. */
  lemma OneTextPerPayload(t: Bytes, u: Bytes)
    requires Decode(t).Some? && Decode(t) == Decode(u)
    ensures t == u
  {
    DecodesIffCanonical(t, Decode(t).value);
    DecodesIffCanonical(u, Decode(t).value);
  }

  lemma {:induction false} RaggedRefused(t: Bytes)
    requires |t| % 4 != 0
    ensures Decode(t).None?
  {
    hide Unpacked;
    if |t| >= 4 { RaggedRefused(t[4..]); }
  }

  lemma DecodeOfNothing()
    ensures Decode([]) == Some([])
  {
  }

  lemma DecodeStep(t: Bytes)
    requires |t| >= 4
    ensures
      var q := Unpacked(t[0], t[1], t[2], t[3], |t| == 4);
      && (q.None? || Decode(t[4..]).None? ==> Decode(t).None?)
      && (q.Some? && Decode(t[4..]).Some? ==> Decode(t) == Some(q.value + Decode(t[4..]).value))
  {
    hide Unpacked;
  }

  /** The decoder as the program runs it, pushing bytes quantum by quantum. */
  method DecodeBase64(input: Bytes) returns (out: Option<Bytes>)
    ensures out == Decode(input)
  {
    hide Value, Decode, High, Middle, Low;
    if input == [] { DecodeOfNothing(); return Some([]); }
    if |input| % 4 != 0 { RaggedRefused(input); return None; }
    var bytes: Bytes := [];
    var k := 0;
    assert input[k..] == input && (Decode(input).Some? ==> bytes + Decode(input).value == Decode(input).value);
    while k < |input|
      invariant 0 <= k <= |input| && k % 4 == 0
      invariant Decode(input) == match Decode(input[k..]) case None => None case Some(rest) => Some(bytes + rest)
    {
      DecodeStep(input[k..]);
      var last := k + 4 == |input|;
      var a, b := Value(input[k]), Value(input[k + 1]);
      if a.None? || b.None? { return None; }
      var cPad, dPad := input[k + 2] == PAD, input[k + 3] == PAD;
      if (!last && dPad) || (cPad && !dPad) { return None; }
      var c: Option<Sextet>, d: Option<Sextet> := Some(0), Some(0);
      if !cPad { c := Value(input[k + 2]); }
      if c.None? { return None; }
      if !dPad { d := Value(input[k + 3]); }
      if d.None? { return None; }
      if (cPad && b.value % 16 != 0) || (dPad && !cPad && c.value % 4 != 0) { return None; }
      ghost var before := bytes;
      ghost var q := Unpacked(input[k], input[k + 1], input[k + 2], input[k + 3], last).value;
      bytes := bytes + [High(a.value, b.value)];
      if !cPad { bytes := bytes + [Middle(b.value, c.value)]; }
      if !dPad { bytes := bytes + [Low(c.value, d.value)]; }
      assert bytes == before + q;
      assert input[k..][4..] == input[k + 4..];
      if Decode(input[k + 4..]).Some? {
        var rest := Decode(input[k + 4..]).value;
        assert before + (q + rest) == bytes + rest;
      }
      k := k + 4;
    }
    DecodeOfNothing();
    assert input[k..] == [] && bytes + [] == bytes;
    return Some(bytes);
  }
}
