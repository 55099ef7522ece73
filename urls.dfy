/**
  Query strings as ordered lists of key/value pairs, the way `URLSearchParams`
  keeps them before serialisation. Percent-encoding on serialisation is not
  modelled.
*/
module Urls {
  import opened Wrappers

  datatype Param = Param(key: string, value: string)

  /** The keys of the pairs, in order. */
  function Keys(q: seq<Param>): (ks: seq<string>)
    ensures |ks| == |q|
    ensures forall i :: 0 <= i < |q| ==> ks[i] == q[i].key
  {
    if |q| == 0 then [] else [q[0].key] + Keys(q[1..])
  }

  /** Position i holds the first pair with the key. */
  predicate IsFirst(q: seq<Param>, key: string, i: int) {
    0 <= i < |q| && q[i].key == key && forall j :: 0 <= j < i ==> q[j].key != key
  }

  /** `searchParams.get(key)`: the value of the first pair with that key, or None. */
  function Lookup(q: seq<Param>, key: string): Option<string> {
    if |q| == 0 then None
    else if q[0].key == key then Some(q[0].value)
    else Lookup(q[1..], key)
  }

  /** A lookup fails exactly when no pair has the key, and otherwise gives the value of the first such pair. */
  lemma {:induction false} LookupMeaning(q: seq<Param>, key: string)
    ensures Lookup(q, key).None? <==> key !in Keys(q)
    ensures Lookup(q, key).Some? ==> exists i :: IsFirst(q, key, i) && q[i].value == Lookup(q, key).value
  {
    if |q| > 0 && q[0].key != key {
      LookupMeaning(q[1..], key);
      assert Keys(q) == [q[0].key] + Keys(q[1..]);
      assert forall i :: IsFirst(q[1..], key, i) ==> IsFirst(q, key, i + 1);
    } else if |q| > 0 {
      assert IsFirst(q, key, 0);
    }
  }

  /** The value at the first position holding the key is what a lookup of that key gives. */
  lemma {:induction false} LookupFirst(q: seq<Param>, key: string, i: int)
    requires IsFirst(q, key, i)
    ensures Lookup(q, key) == Some(q[i].value)
  {
    if i > 0 {
      assert IsFirst(q[1..], key, i - 1);
      LookupFirst(q[1..], key, i - 1);
    }
  }

  /** The mutable parameter list of a `URL` object (`url.searchParams`). */
  class SearchParams {
    var pairs: seq<Param>

    constructor ()
      ensures pairs == []
    {
      pairs := [];
    }

    /** `append(key, value)`: adds a pair at the end, even when the key is already present. */
    method Append(key: string, value: string)
      modifies this
      ensures pairs == old(pairs) + [Param(key, value)]
    {
      pairs := pairs + [Param(key, value)];
    }
  }
}
