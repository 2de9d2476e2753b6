/**
 * The application port range: a bump cursor plus a list of recycled ports, all
 * 16-bit.  Whether the range is handed out without duplicates depends on the
 * cursor being able to step past its end, which it cannot at 65535.
 */
module PortRange {
  import opened Wrappers

  const U16_MAX: nat := 65535

  type Port = p: nat | p <= U16_MAX

  datatype Ports = Ports(next: Port, end: Port, free: seq<Port>)

  /** `next += 1` on a 16-bit cursor. */
  function Bumped(p: Port): Port {
    if p == U16_MAX then 0 else p + 1
  }

  function SaturatingNext(p: Port): Port {
    if p == U16_MAX then p else p + 1
  }

  function Allocated(p: Ports): (Ports, Option<Port>) {
    if p.free != [] then (p.(free := p.free[..|p.free| - 1]), Some(p.free[|p.free| - 1]))
    else if p.next <= p.end then (p.(next := Bumped(p.next)), Some(p.next))
    else (p, None)
  }

  function Returned(p: Ports, port: Port): Ports {
    if port in p.free then p else p.(free := p.free + [port])
  }

  function Position(s: seq<Port>, x: Port): (k: nat)
    requires x in s
    ensures k < |s| && s[k] == x
  {
    if s[0] == x then 0 else 1 + Position(s[1..], x)
  }

  /** The last element takes the place of the removed one. */
  function SwapRemove(s: seq<Port>, k: nat): seq<Port>
    requires k < |s|
  {
    var last := s[|s| - 1];
    s[k := last][..|s| - 1]
  }

  /** The ports the cursor jumps over join the free list. */
  function Skipped(free: seq<Port>, lo: nat, hi: Port): seq<Port>
    decreases hi - lo
  {
    if lo >= hi then free else Skipped(if lo in free then free else free + [lo], lo + 1, hi)
  }

  function Reserved(p: Ports, port: Port): Ports {
    if port in p.free then p.(free := SwapRemove(p.free, Position(p.free, port)))
    else if p.next <= port <= p.end then
      p.(free := Skipped(p.free, p.next, port), next := SaturatingNext(port))
    else p
  }

  // ------------------------------------------------------------ the partition

  predicate Distinct(s: seq<Port>) {
    forall j, k :: 0 <= j < k < |s| ==> s[j] != s[k]
  }

  /** Free, un-issued and issued ports split the range [start, end]. */
  ghost predicate Partition(p: Ports, start: Port, issued: set<Port>) {
    && start <= p.next <= p.end + 1
    && Distinct(p.free)
    && (forall q :: q in p.free ==> start <= q < p.next)
    && (forall q: Port :: q in issued <==> start <= q < p.next && q !in p.free)
  }

  ghost predicate InRange(p: Ports, start: Port, q: Port) {
    start <= q <= p.end
  }

  /** What a caller relies on: an answer is a port of the range nobody holds,
      and no answer means that every port of the range is held. */
  ghost predicate AllocSound(p: Ports, start: Port, issued: set<Port>) {
    var (p1, answer) := Allocated(p);
    match answer
    case None => p1 == p && forall q: Port :: InRange(p, start, q) ==> q in issued
    case Some(q) => InRange(p, start, q) && q !in issued && p1.end == p.end && Partition(p1, start, issued + {q})
  }

  lemma AllocRecycles(p: Ports, start: Port, issued: set<Port>)
    requires Partition(p, start, issued) && p.free != []
    ensures AllocSound(p, start, issued)
  {
    var n := |p.free| - 1;
    var q := p.free[n];
    assert p.free == p.free[..n] + [q];
    assert q in p.free && q !in p.free[..n];
    forall r | r in p.free[..n] ensures start <= r < p.next {
      assert r in p.free;
    }
  }

  /** Allocation is sound exactly until the cursor stands on 65535 with nothing
      to recycle: handing 65535 out wraps the cursor round to 0. */
  lemma AllocSoundIff(p: Ports, start: Port, issued: set<Port>)
    requires Partition(p, start, issued)
    ensures AllocSound(p, start, issued) <==> !(p.free == [] && p.next == U16_MAX && p.end == U16_MAX)
  {
    if p.free != [] {
      AllocRecycles(p, start, issued);
    } else if p.next == U16_MAX == p.end {
      var q: Port := U16_MAX;
      assert q in issued + {q};
    }
  }

  lemma ReleaseReturns(p: Ports, start: Port, issued: set<Port>, port: Port)
    requires Partition(p, start, issued) && port in issued
    ensures Partition(Returned(p, port), start, issued - {port})
  {
    var p1 := Returned(p, port);
    assert forall q :: q in p1.free <==> q in p.free || q == port;
  }

  /** Releasing a port twice is the same as releasing it once. */
  lemma ReleaseTwice(p: Ports, port: Port)
    ensures Returned(Returned(p, port), port) == Returned(p, port)
  {
  }

  /** A port given back is the next one handed out, and that undoes the release. */
  lemma ReleasedIsNext(p: Ports, port: Port)
    requires port !in p.free
    ensures Allocated(Returned(p, port)) == (p, Some(port))
  {
    assert (p.free + [port])[..|p.free|] == p.free;
  }

  lemma {:induction false} SkippedIs(free: seq<Port>, lo: nat, hi: Port)
    requires Distinct(free)
    ensures Distinct(Skipped(free, lo, hi))
    ensures forall q: Port :: q in Skipped(free, lo, hi) <==> q in free || lo <= q < hi
    decreases hi - lo
  {
    if lo < hi {
      SkippedIs(if lo in free then free else free + [lo], lo + 1, hi);
    }
  }

  lemma SwapRemoveIs(s: seq<Port>, k: nat)
    requires Distinct(s) && k < |s|
    ensures Distinct(SwapRemove(s, k))
    ensures forall q: Port :: q in SwapRemove(s, k) <==> q in s && q != s[k]
  {
    var t, n := SwapRemove(s, k), |s| - 1;
    assert forall j :: 0 <= j < n ==> t[j] == if j == k then s[n] else s[j];
    forall q: Port | q in s && q != s[k] ensures q in t {
      var j :| 0 <= j < |s| && s[j] == q;
      assert t[if j == n then k else j] == q;
    }
  }

  /** Reserving pins the port and leaves every other port as it was, exactly
      when the port is not 65535: the cursor cannot move past that one, so it
      would be handed out again. */
  lemma ReserveSoundIff(p: Ports, start: Port, issued: set<Port>, port: Port)
    requires Partition(p, start, issued)
    ensures Partition(Reserved(p, port), start, if InRange(p, start, port) then issued + {port} else issued)
            <==> !(port == U16_MAX && p.end == U16_MAX)
  {
    if port in p.free {
      SwapRemoveIs(p.free, Position(p.free, port));
    } else if p.next <= port <= p.end {
      SkippedIs(p.free, p.next, port);
      assert port in issued + {port};
    }
  }

  /** The reserved top port is issued a second time. */
  lemma ReservedTopPortIsReissued()
    ensures
      var p := Reserved(Ports(U16_MAX, U16_MAX, []), U16_MAX);
      Allocated(p).1 == Some(U16_MAX)
  {
  }

  /** After 65535 is handed out the cursor restarts below the range. */
  lemma CursorWraps()
    ensures
      var p := Allocated(Ports(U16_MAX, U16_MAX, [])).0;
      Allocated(p).1 == Some(0)
  {
  }

  // ------------------------------------------------------------ the allocator

  class PortAllocator {
    var next: Port
    const end: Port
    var free: seq<Port>

    ghost function Model(): Ports
      reads this
    {
      Ports(next, end, free)
    }

    constructor (start: Port, end: Port)
      ensures Model() == Ports(start, end, [])
    {
      next := start;
      this.end := end;
      free := [];
    }

    method Alloc() returns (port: Option<Port>)
      modifies this
      ensures (Model(), port) == Allocated(old(Model()))
    {
      if free != [] {
        port := Some(free[|free| - 1]);
        free := free[..|free| - 1];
      } else if next <= end {
        port := Some(next);
        next := Bumped(next);
      } else {
        port := None;
      }
    }

    method Release(port: Port)
      modifies this
      ensures Model() == Returned(old(Model()), port)
    {
      if port !in free {
        free := free + [port];
      }
    }

    method Reserve(port: Port)
      modifies this
      ensures Model() == Reserved(old(Model()), port)
    {
      if port in free {
        var k := Position(free, port);
        free := SwapRemove(free, k);
        return;
      }
      if next <= port <= end {
        var p := next;
        while p < port
          invariant next == old(next) && next <= p <= port
          invariant Skipped(old(free), next, port) == Skipped(free, p, port)
        {
          if p !in free {
            free := free + [p];
          }
          p := p + 1;
        }
        next := SaturatingNext(port);
      }
    }
  }
}
