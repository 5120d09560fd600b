/** Finite sets and sequences as the scripts go through them. */
module Collections {

  /** `s.startswith(prefix)` */
  predicate StartsWith(s: string, prefix: string)
  {
    |prefix| <= |s| && s[..|prefix|] == prefix
  }

  /** Some enumeration of a finite set, each element once. The scripts go through sets in sorted order; which
      order it is makes no difference to what they decide. */
  method Enumerate<T(==)>(elements: set<T>) returns (listed: seq<T>)
    ensures forall k :: k in elements ==> k in listed
    ensures forall i :: 0 <= i < |listed| ==> listed[i] in elements
    ensures forall i, j :: 0 <= i < j < |listed| ==> listed[i] != listed[j]
  {
    listed := [];
    var rest := elements;
    while rest != {}
      invariant rest <= elements
      invariant forall k :: k in listed <==> k in elements - rest
      invariant forall i :: 0 <= i < |listed| ==> listed[i] in elements - rest
      invariant forall i, j :: 0 <= i < j < |listed| ==> listed[i] != listed[j]
      decreases rest
    {
      var k :| k in rest;
      listed := listed + [k];
      rest := rest - {k};
    }
  }

  function When<V>(condition: bool, v: V): seq<V>
  {
    if condition then [v] else []
  }

  /** What is said of each key, one after the other. */
  function Gather<K, V>(keys: seq<K>, at: K -> seq<V>): seq<V>
  {
    if keys == [] then [] else Gather(keys[..|keys| - 1], at) + at(keys[|keys| - 1])
  }

  lemma {:induction false} GatherHolds<K, V>(keys: seq<K>, at: K -> seq<V>, v: V)
    ensures v in Gather(keys, at) <==> exists i :: 0 <= i < |keys| && v in at(keys[i])
  {
    if keys != [] {
      var init, last := keys[..|keys| - 1], keys[|keys| - 1];
      GatherHolds(init, at, v);
      assert forall i :: 0 <= i < |init| ==> init[i] == keys[i];
      if v in Gather(init, at) {
        var i :| 0 <= i < |init| && v in at(init[i]);
        assert v in at(keys[i]);
      }
    }
  }

  lemma {:induction false} GatherNothing<K, V>(keys: seq<K>, at: K -> seq<V>)
    ensures Gather(keys, at) == [] <==> forall i :: 0 <= i < |keys| ==> at(keys[i]) == []
  {
    if keys != [] {
      var init, last := keys[..|keys| - 1], keys[|keys| - 1];
      GatherNothing(init, at);
      assert forall i :: 0 <= i < |init| ==> init[i] == keys[i];
      assert Gather(keys, at) == Gather(init, at) + at(last);
      if Gather(init, at) == [] && at(last) == [] {
        forall i | 0 <= i < |keys| ensures at(keys[i]) == [] {
          assert i < |init| ==> at(init[i]) == [];
        }
      }
    }
  }

  /** Exactly the elements of a set, once each. */
  predicate Lists<K(==)>(keys: seq<K>, common: set<K>)
  {
    && (forall i :: 0 <= i < |keys| ==> keys[i] in common) && (forall k :: k in common ==> k in keys)
    && (forall i, j :: 0 <= i < j < |keys| ==> keys[i] != keys[j])
  }

  lemma GatherEverywhere<K, V>(keys: seq<K>, common: set<K>, at: K -> seq<V>)
    requires Lists(keys, common)
    ensures Gather(keys, at) == [] <==> forall k :: k in common ==> at(k) == []
    ensures forall v :: v in Gather(keys, at) <==> exists k :: k in common && v in at(k)
  {
    GatherNothing(keys, at);
    forall k | k in common
      ensures exists i :: 0 <= i < |keys| && keys[i] == k
    {
    }
    forall v
      ensures v in Gather(keys, at) <==> exists k :: k in common && v in at(k)
    {
      GatherHolds(keys, at, v);
    }
  }
}
