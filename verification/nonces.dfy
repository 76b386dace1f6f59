/** Nonces in ascending order, as a sort of the keys of a map or an ascending store iterator gives them. */
module Nonces {

  ghost predicate IsAscending(ns: seq<nat>) {
    forall i, j | 0 <= i < j < |ns| :: ns[i] < ns[j]
  }

  function Insert(ns: seq<nat>, n: nat): seq<nat> {
    if ns == [] then [n]
    else if n < ns[0] then [n] + ns
    else [ns[0]] + Insert(ns[1..], n)
  }

  lemma {:induction false} InsertElements(ns: seq<nat>, n: nat)
    ensures forall x: nat :: x in Insert(ns, n) <==> x in ns || x == n
  {
    if ns != [] && n >= ns[0] {
      InsertElements(ns[1..], n);
      assert ns == [ns[0]] + ns[1..];
    }
  }

  lemma PrependAscending(n: nat, ns: seq<nat>)
    requires IsAscending(ns) && forall x | x in ns :: n < x
    ensures IsAscending([n] + ns)
  {
    assert forall i | 0 <= i < |ns| :: ns[i] in ns;
  }

  lemma {:induction false} InsertAscending(ns: seq<nat>, n: nat)
    requires IsAscending(ns) && n !in ns
    ensures IsAscending(Insert(ns, n))
  {
    if ns != [] {
      if n < ns[0] {
        PrependAscending(n, ns);
      } else {
        InsertAscending(ns[1..], n);
        InsertElements(ns[1..], n);
        PrependAscending(ns[0], Insert(ns[1..], n));
      }
    }
  }

  method Sorted(keys: set<nat>) returns (ns: seq<nat>)
    ensures IsAscending(ns) && forall x: nat :: x in ns <==> x in keys
  {
    ns := [];
    var rest := keys;
    while rest != {}
      invariant rest <= keys && IsAscending(ns)
      invariant forall x: nat :: x in ns <==> x in keys && x !in rest
      decreases |rest|
    {
      var n :| n in rest;
      InsertAscending(ns, n);
      InsertElements(ns, n);
      ns := Insert(ns, n);
      rest := rest - {n};
    }
  }
}
