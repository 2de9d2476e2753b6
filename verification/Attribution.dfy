/**
 * Differential attribution: which errors of an overlay its base does not
 * already account for, by line-insensitive fingerprint and count.
 */
module Attribution {
  datatype Severity = Error | Warning | Info | Hint

  datatype Diagnostic = Diagnostic(severity: Severity, text: string, line: nat)

  type Fingerprint = string

  type Counts = map<Fingerprint, nat>

  /** How a diagnostic is identified across compiles; the root is part of it. */
  type Identity = Diagnostic -> Fingerprint

  function Count(counts: Counts, f: Fingerprint): nat {
    if f in counts then counts[f] else 0
  }

  function Errors(ds: seq<Diagnostic>): seq<Diagnostic> {
    if ds == [] then [] else (if ds[0].severity.Error? then [ds[0]] else []) + Errors(ds[1..])
  }

  /** The error fingerprints of a list, with their multiplicities. */
  function Prints(id: Identity, ds: seq<Diagnostic>): multiset<Fingerprint> {
    if ds == [] then multiset{}
    else (if ds[0].severity.Error? then multiset{id(ds[0])} else multiset{}) + Prints(id, ds[1..])
  }

  lemma {:induction false} PrintsAppend(id: Identity, ds: seq<Diagnostic>, d: Diagnostic)
    ensures Prints(id, ds + [d]) == Prints(id, ds) + (if d.severity.Error? then multiset{id(d)} else multiset{})
  {
    if ds == [] {
      assert [] + [d] == [d];
    } else {
      assert (ds + [d])[1..] == ds[1..] + [d];
      PrintsAppend(id, ds[1..], d);
    }
  }

  /** Counts that are exactly a multiset: positive, and only where it has members. */
  predicate CountsOf(counts: Counts, m: multiset<Fingerprint>) {
    && (forall f :: f in counts ==> counts[f] == m[f] > 0)
    && (forall f :: f in m ==> f in counts)
  }

  method FingerprintCounts(id: Identity, ds: seq<Diagnostic>) returns (out: Counts)
    ensures CountsOf(out, Prints(id, ds))
  {
    out := map[];
    for k := 0 to |ds|
      invariant CountsOf(out, Prints(id, ds[..k]))
    {
      assert ds[..k + 1] == ds[..k] + [ds[k]];
      PrintsAppend(id, ds[..k], ds[k]);
      if ds[k].severity.Error? {
        var f := id(ds[k]);
        out := out[f := Count(out, f) + 1];
      }
    }
    assert ds[..|ds|] == ds;
  }

  /** Nothing current goes beyond the base; an empty set is not called inherited. */
  predicate AreInherited(current: Counts, base: Counts) {
    current != map[] && forall f :: f in current ==> Count(base, f) >= current[f]
  }

  // ------------------------------------------------------------ the difference

  /** Errors the remaining base credits do not cover, in order. */
  function New(id: Identity, ds: seq<Diagnostic>, remaining: Counts): seq<Diagnostic> {
    if ds == [] then []
    else if !ds[0].severity.Error? then New(id, ds[1..], remaining)
    else
      var f := id(ds[0]);
      if Count(remaining, f) > 0 then New(id, ds[1..], remaining[f := remaining[f] - 1])
      else [ds[0]] + New(id, ds[1..], remaining)
  }

  method NewDiagnostics(id: Identity, overlay: seq<Diagnostic>, base: Counts) returns (added: seq<Diagnostic>)
    ensures added == New(id, overlay, base)
  {
    var remaining := base;
    added := [];
    for k := 0 to |overlay|
      invariant added + New(id, overlay[k..], remaining) == New(id, overlay, base)
    {
      assert overlay[k..][1..] == overlay[k + 1..];
      if overlay[k].severity.Error? {
        var f := id(overlay[k]);
        if f in remaining && remaining[f] > 0 {
          remaining := remaining[f := remaining[f] - 1];
        } else {
          added := added + [overlay[k]];
        }
      }
    }
  }

  function Less(a: nat, b: nat): nat { if a < b then 0 else a - b }

  /** The fingerprints of the new errors are the overlay's less the base's, count
      by count. */
  lemma {:induction false} NewIsTheDifference(id: Identity, ds: seq<Diagnostic>, base: Counts)
    ensures forall f :: Prints(id, New(id, ds, base))[f] == Less(Prints(id, ds)[f], Count(base, f))
    decreases |ds|
  {
    if ds != [] {
      var rest := ds[1..];
      if !ds[0].severity.Error? {
        NewIsTheDifference(id, rest, base);
      } else {
        var g := id(ds[0]);
        if Count(base, g) > 0 {
          NewIsTheDifference(id, rest, base[g := base[g] - 1]);
        } else {
          NewIsTheDifference(id, rest, base);
          var tail := New(id, rest, base);
          assert ([ds[0]] + tail)[1..] == tail;
        }
      }
    }
  }

  /** The error at `k` is beyond the base: earlier errors of its fingerprint have
      used up all that the base has of it. */
  predicate Beyond(id: Identity, ds: seq<Diagnostic>, base: Counts, k: nat)
    requires k < |ds|
  {
    ds[k].severity.Error? && Prints(id, ds[..k])[id(ds[k])] >= Count(base, id(ds[k]))
  }

  function BeyondFrom(id: Identity, ds: seq<Diagnostic>, base: Counts, k: nat): seq<Diagnostic>
    requires k <= |ds|
    decreases |ds| - k
  {
    if k == |ds| then []
    else (if Beyond(id, ds, base, k) then [ds[k]] else []) + BeyondFrom(id, ds, base, k + 1)
  }

  lemma NewStep(id: Identity, ds: seq<Diagnostic>, k: nat, remaining: Counts)
    requires k < |ds|
    ensures
      var d := ds[k];
      New(id, ds[k..], remaining) ==
      if d.severity.Error? && Count(remaining, id(d)) > 0
      then New(id, ds[k + 1..], remaining[id(d) := remaining[id(d)] - 1])
      else (if d.severity.Error? then [d] else []) + New(id, ds[k + 1..], remaining)
  {
    assert ds[k..][0] == ds[k] && ds[k..][1..] == ds[k + 1..];
  }

  /** A credit spent on an error is one fewer of what is left of its fingerprint. */
  lemma CreditStep(id: Identity, ds: seq<Diagnostic>, base: Counts, k: nat, remaining: Counts)
    requires k < |ds|
    requires forall f :: Count(remaining, f) == Less(Count(base, f), Prints(id, ds[..k])[f])
    ensures
      var d := ds[k];
      var spent := d.severity.Error? && Count(remaining, id(d)) > 0;
      && (d.severity.Error? ==> (spent <==> !Beyond(id, ds, base, k)))
      && var left := if spent then remaining[id(d) := remaining[id(d)] - 1] else remaining;
         forall f :: Count(left, f) == Less(Count(base, f), Prints(id, ds[..k + 1])[f])
  {
    hide Prints;
    assert ds[..k + 1] == ds[..k] + [ds[k]];
    PrintsAppend(id, ds[..k], ds[k]);
  }

  lemma {:induction false} NewFrom(id: Identity, ds: seq<Diagnostic>, base: Counts, k: nat, remaining: Counts)
    requires k <= |ds|
    requires forall f :: Count(remaining, f) == Less(Count(base, f), Prints(id, ds[..k])[f])
    ensures New(id, ds[k..], remaining) == BeyondFrom(id, ds, base, k)
    decreases |ds| - k
  {
    if k == |ds| {
      assert ds[k..] == [];
    } else {
      hide New, Prints, Less;
      var d := ds[k];
      NewStep(id, ds, k, remaining);
      CreditStep(id, ds, base, k, remaining);
      if d.severity.Error? && Count(remaining, id(d)) > 0 {
        NewFrom(id, ds, base, k + 1, remaining[id(d) := remaining[id(d)] - 1]);
      } else {
        NewFrom(id, ds, base, k + 1, remaining);
      }
    }
  }

  /** Which errors are new: exactly those beyond what the base has of their
      fingerprint, counting from the front, and so the last of each kind. */
  lemma NewAreTheLast(id: Identity, ds: seq<Diagnostic>, base: Counts)
    ensures New(id, ds, base) == BeyondFrom(id, ds, base, 0)
  {
    assert ds[0..] == ds && ds[..0] == [];
    NewFrom(id, ds, base, 0, base);
  }

  /** `sub` keeps some members of `all`, in order. */
  predicate Subsequence(sub: seq<Diagnostic>, all: seq<Diagnostic>) {
    if sub == [] then true
    else if all == [] then false
    else if sub[0] == all[0] then Subsequence(sub[1..], all[1..])
    else Subsequence(sub, all[1..])
  }

  lemma {:induction false} SubsequenceSkips(sub: seq<Diagnostic>, all: seq<Diagnostic>, d: Diagnostic)
    requires Subsequence(sub, all)
    ensures Subsequence(sub, [d] + all)
    decreases |all|, 1
  {
    assert ([d] + all)[1..] == all;
    if sub != [] && sub[0] == d {
      DropsFirst(sub, all);
    }
  }

  lemma {:induction false} DropsFirst(sub: seq<Diagnostic>, all: seq<Diagnostic>)
    requires sub != [] && Subsequence(sub, all)
    ensures Subsequence(sub[1..], all)
    decreases |all|, 0
  {
    if sub[0] == all[0] {
      if sub[1..] != [] {
        SubsequenceSkips(sub[1..], all[1..], all[0]);
        assert [all[0]] + all[1..] == all;
      }
    } else {
      DropsFirst(sub, all[1..]);
      SubsequenceSkips(sub[1..], all[1..], all[0]);
      assert [all[0]] + all[1..] == all;
    }
  }

  /** The new errors are errors of the overlay, in its order. */
  lemma {:induction false} NewKeepsOrder(id: Identity, ds: seq<Diagnostic>, base: Counts)
    ensures Subsequence(New(id, ds, base), Errors(ds))
    decreases |ds|
  {
    if ds != [] {
      if !ds[0].severity.Error? {
        NewKeepsOrder(id, ds[1..], base);
        assert Errors(ds) == Errors(ds[1..]);
      } else {
        var f := id(ds[0]);
        assert Errors(ds)[1..] == Errors(ds[1..]);
        if Count(base, f) > 0 {
          NewKeepsOrder(id, ds[1..], base[f := base[f] - 1]);
          SubsequenceSkips(New(id, ds, base), Errors(ds[1..]), ds[0]);
        } else {
          NewKeepsOrder(id, ds[1..], base);
          assert New(id, ds, base)[1..] == New(id, ds[1..], base);
        }
      }
    }
  }

  lemma {:induction false} OnlyErrorsAreNew(id: Identity, ds: seq<Diagnostic>, base: Counts)
    ensures forall d :: d in New(id, ds, base) ==> d.severity.Error? && d in ds
    decreases |ds|
  {
    if ds != [] {
      var rest := ds[1..];
      var f := id(ds[0]);
      OnlyErrorsAreNew(id, rest, base);
      if Count(base, f) > 0 { OnlyErrorsAreNew(id, rest, base[f := base[f] - 1]); }
      assert ds == [ds[0]] + rest;
    }
  }

  lemma {:induction false} ErrorsHavePrints(id: Identity, ds: seq<Diagnostic>)
    ensures Errors(ds) == [] <==> Prints(id, ds) == multiset{}
    ensures forall d :: d in ds && d.severity.Error? ==> Prints(id, ds)[id(d)] > 0
    decreases |ds|
  {
    if ds != [] {
      ErrorsHavePrints(id, ds[1..]);
      if ds[0].severity.Error? { assert Prints(id, ds)[id(ds[0])] > 0; }
      assert ds == [ds[0]] + ds[1..];
    }
  }

  /** For an overlay with errors, none is new exactly when all are inherited; for
      one without, none is new and yet nothing is called inherited. */
  lemma NothingNewIffInherited(id: Identity, ds: seq<Diagnostic>, base: Counts, current: Counts)
    requires CountsOf(current, Prints(id, ds))
    ensures Errors(ds) != [] ==> (New(id, ds, base) == [] <==> AreInherited(current, base))
    ensures Errors(ds) == [] ==> New(id, ds, base) == [] && !AreInherited(current, base)
  {
    var added := New(id, ds, base);
    NewIsTheDifference(id, ds, base);
    OnlyErrorsAreNew(id, ds, base);
    ErrorsHavePrints(id, ds);
    ErrorsHavePrints(id, added);
    if added != [] { assert added[0] in added; }
    if Errors(ds) != [] {
      var f :| f in Prints(id, ds);
      assert f in current;
    }
    if AreInherited(current, base) {
      forall f ensures Prints(id, added)[f] == 0 {
        if f in Prints(id, ds) { assert f in current; }
      }
    }
    if added == [] {
      forall f | f in current ensures Count(base, f) >= current[f] {
        assert Prints(id, added)[f] == 0;
      }
    }
  }
}
