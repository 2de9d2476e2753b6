/** Slash-separated paths: splitting into components and joining them back. */
module Paths {
  import opened Bytes

  const SLASH: byte := 47

  /** The pieces between slashes; always at least one. */
  function Split(s: Bytes): (parts: seq<Bytes>)
    ensures |parts| >= 1
  {
    if s == [] then [[]]
    else
      var rest := Split(s[1..]);
      if s[0] == SLASH then [[]] + rest else [[s[0]] + rest[0]] + rest[1..]
  }

  function Join(parts: seq<Bytes>): Bytes
    requires |parts| >= 1
  {
    if |parts| == 1 then parts[0] else parts[0] + [SLASH] + Join(parts[1..])
  }

  predicate Plain(parts: seq<Bytes>) {
    forall k :: 0 <= k < |parts| ==> SLASH !in parts[k]
  }

  lemma {:induction false} JoinOfSplit(s: Bytes)
    ensures Join(Split(s)) == s && Plain(Split(s))
  {
    if s != [] {
      JoinOfSplit(s[1..]);
      var rest := Split(s[1..]);
      assert s == [s[0]] + s[1..];
      if s[0] == SLASH {
        assert Split(s)[1..] == rest;
      } else {
        assert Split(s)[1..] == rest[1..];
        if |rest| > 1 {
          assert [s[0]] + (rest[0] + [SLASH] + Join(rest[1..])) == ([s[0]] + rest[0]) + [SLASH] + Join(rest[1..]);
        }
      }
    }
  }

  lemma {:induction false} SplitOfPlain(s: Bytes)
    requires SLASH !in s
    ensures Split(s) == [s]
  {
    if s != [] {
      assert forall x :: x in s[1..] ==> x in s;
      SplitOfPlain(s[1..]);
      assert s == [s[0]] + s[1..];
    }
  }

  lemma {:induction false} SplitAtSlash(a: Bytes, s: Bytes)
    requires SLASH !in a
    ensures Split(a + [SLASH] + s) == [a] + Split(s)
  {
    var t := a + [SLASH] + s;
    if a == [] {
      assert t[1..] == s;
    } else {
      assert forall x :: x in a[1..] ==> x in a;
      assert t[1..] == a[1..] + [SLASH] + s;
      SplitAtSlash(a[1..], s);
      assert a == [a[0]] + a[1..];
      assert Split(t) == [[a[0]] + a[1..]] + Split(s);
    }
  }

  lemma {:induction false} SplitOfJoin(parts: seq<Bytes>)
    requires |parts| >= 1 && Plain(parts)
    ensures Split(Join(parts)) == parts
  {
    if |parts| == 1 {
      SplitOfPlain(parts[0]);
    } else {
      SplitOfJoin(parts[1..]);
      SplitAtSlash(parts[0], Join(parts[1..]));
      assert parts == [parts[0]] + parts[1..];
    }
  }

  /** Distinct paths have distinct component lists. */
  lemma SplitInjective(s: Bytes, t: Bytes)
    requires Split(s) == Split(t)
    ensures s == t
  {
    JoinOfSplit(s);
    JoinOfSplit(t);
  }

  // ------------------------------------------------------------ where a path leads

  /** Where a path leads from a directory, as a file system resolves it: an empty
      component and "." stay, ".." goes up, and never above the root. */
  function Resolved(at: seq<Bytes>, parts: seq<Bytes>): seq<Bytes>
    decreases |parts|
  {
    if parts == [] then at
    else
      var c := parts[0];
      var next := if c == [] || c == [46] then at
                  else if c == [46, 46] then (if at == [] then [] else at[..|at| - 1])
                  else at + [c];
      Resolved(next, parts[1..])
  }

  lemma {:induction false} ResolvedShrinks(at: seq<Bytes>, parts: seq<Bytes>)
    ensures |Resolved(at, parts)| <= |at| + |parts|
    decreases |parts|
  {
    if parts != [] {
      var c := parts[0];
      ResolvedShrinks(if c == [] || c == [46] then at
                      else if c == [46, 46] then (if at == [] then [] else at[..|at| - 1])
                      else at + [c], parts[1..]);
    }
  }

  predicate Steps(parts: seq<Bytes>) {
    forall c :: c in parts ==> c != [] && c != [46] && c != [46, 46]
  }

  lemma {:induction false} ResolvesToItselfIff(at: seq<Bytes>, parts: seq<Bytes>)
    ensures Resolved(at, parts) == at + parts <==> Steps(parts)
    decreases |parts|
  {
    if parts == [] {
      assert at + parts == at;
    } else {
      var c, rest := parts[0], parts[1..];
      assert parts == [c] + rest;
      if c == [] || c == [46] {
        ResolvedShrinks(at, rest);
        assert c in parts;
      } else if c == [46, 46] {
        ResolvedShrinks(if at == [] then [] else at[..|at| - 1], rest);
        assert c in parts;
      } else {
        ResolvesToItselfIff(at + [c], rest);
        assert (at + [c]) + rest == at + parts;
        assert forall x :: x in parts <==> x == c || x in rest;
        assert Steps(parts) <==> Steps(rest);
      }
    }
  }
}
