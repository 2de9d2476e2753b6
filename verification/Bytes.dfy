/** Byte strings and their order. */
module Bytes {
  type byte = x: int | 0 <= x < 256
  type Bytes = seq<byte>

  const U64_LIMIT: nat := 0x1_0000_0000_0000_0000
  type U64 = n: nat | n < U64_LIMIT

  /** A string or slice of the program: its length fits in 64 bits. */
  type Text = s: Bytes | |s| < U64_LIMIT

  predicate IsAscii(s: string) {
    forall k :: 0 <= k < |s| ==> s[k] as int < 128
  }

  function Ascii(s: string): (b: Bytes)
    requires IsAscii(s)
    ensures |b| == |s| && forall k :: 0 <= k < |s| ==> b[k] == s[k] as int
  {
    seq(|s|, k requires 0 <= k < |s| => s[k] as int)
  }

  /** Byte-wise lexicographic order. */
  predicate Less(a: Bytes, b: Bytes) {
    b != [] && (a == [] || a[0] < b[0] || (a[0] == b[0] && Less(a[1..], b[1..])))
  }

  lemma {:induction false} LessTotal(a: Bytes, b: Bytes)
    ensures a == b || Less(a, b) || Less(b, a)
    ensures !(Less(a, b) && Less(b, a))
  {
    if a != [] && b != [] {
      LessTotal(a[1..], b[1..]);
      assert a == [a[0]] + a[1..] && b == [b[0]] + b[1..];
    }
  }

  lemma {:induction false} LessIrreflexive(a: Bytes)
    ensures !Less(a, a)
  {
    if a != [] { LessIrreflexive(a[1..]); }
  }

  lemma {:induction false} LessTransitive(a: Bytes, b: Bytes, c: Bytes)
    requires Less(a, b) && Less(b, c)
    ensures Less(a, c)
  {
    if a != [] && a[0] == b[0] == c[0] { LessTransitive(a[1..], b[1..], c[1..]); }
  }

  predicate Ascending(s: seq<Bytes>) {
    forall j, k :: 0 <= j < k < |s| ==> Less(s[j], s[k])
  }

  lemma InTail(s: seq<Bytes>, x: Bytes)
    requires Ascending(s) && s != []
    ensures x in s[1..] <==> x in s && x != s[0]
  {
    LessIrreflexive(s[0]);
    if x in s[1..] {
      var k :| 0 <= k < |s| - 1 && s[1..][k] == x;
      assert Less(s[0], s[k + 1]);
    }
    if x in s && x != s[0] {
      var k :| 0 <= k < |s| && s[k] == x;
      assert s[1..][k - 1] == x;
    }
  }

  /** A strictly ascending list is determined by its members. */
  lemma {:induction false} AscendingUnique(s: seq<Bytes>, t: seq<Bytes>)
    requires Ascending(s) && Ascending(t)
    requires forall x :: x in s <==> x in t
    ensures s == t
  {
    assert s == [] || s[0] in s;
    assert t == [] || t[0] in t;
    if s != [] {
      var j :| 0 <= j < |t| && t[j] == s[0];
      var k :| 0 <= k < |s| && s[k] == t[0];
      LessTotal(s[0], t[0]);
      assert s[0] == t[0];
      forall x ensures x in s[1..] <==> x in t[1..] {
        InTail(s, x);
        InTail(t, x);
      }
      AscendingUnique(s[1..], t[1..]);
      assert s == [s[0]] + s[1..] && t == [t[0]] + t[1..];
    }
  }

  // ------------------------------------------------------------ sorting a set

  predicate IsLeast(s: set<Bytes>, x: Bytes) {
    x in s && forall y :: y in s ==> x == y || Less(x, y)
  }

  lemma {:induction false} LeastExists(s: set<Bytes>)
    requires s != {}
    ensures exists x :: IsLeast(s, x)
  {
    var n :| n in s;
    if s == {n} {
      assert IsLeast(s, n);
    } else {
      LeastExists(s - {n});
      var x :| IsLeast(s - {n}, x);
      LessTotal(x, n);
      if Less(x, n) {
        assert IsLeast(s, x);
      } else {
        forall y | y in s ensures n == y || Less(n, y) {
          if y != n && y != x { LessTransitive(n, x, y); }
        }
        assert IsLeast(s, n);
      }
    }
  }

  lemma LeastUnique(s: set<Bytes>)
    ensures forall x, y :: IsLeast(s, x) && IsLeast(s, y) ==> x == y
  {
    forall x, y | IsLeast(s, x) && IsLeast(s, y) ensures x == y { LessTotal(x, y); }
  }

  /** The members of a set in byte order, as an ordered map yields its keys. */
  function SortedSet(s: set<Bytes>): (r: seq<Bytes>)
    ensures |r| == |s| && forall x :: x in r <==> x in s
  {
    if s == {} then []
    else
      LeastExists(s);
      LeastUnique(s);
      var x :| IsLeast(s, x);
      [x] + SortedSet(s - {x})
  }

  lemma {:induction false} SortedSetAscending(s: set<Bytes>)
    ensures Ascending(SortedSet(s))
  {
    if s != {} {
      var r := SortedSet(s);
      var x := r[0];
      assert IsLeast(s, x) && r[1..] == SortedSet(s - {x});
      SortedSetAscending(s - {x});
      forall j, k | 0 <= j < k < |r| ensures Less(r[j], r[k]) {
        assert r[k] == r[1..][k - 1] && r[k] in r[1..];
        if j > 0 { assert r[j] == r[1..][j - 1]; }
      }
    }
  }
}
