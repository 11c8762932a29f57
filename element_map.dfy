/** The maps the engraving library uses while cloning a score to find the copy of an
    element from the original (elementmap.cpp). Engine objects are pointers, modelled
    by their identity; `Null` is the null pointer. */
module ElementMaps {

  datatype Ptr = Null | Item(id: nat)

  /** `ElementMap`: a dictionary from an old element to its new copy. */
  class ElementMap {
    var entries: map<Ptr, Ptr>

    constructor ()
      ensures entries == map[]
    {
      entries := map[];
    }

    /** The copy recorded for `o`; the null pointer when nothing is recorded. */
    function FindNew(o: Ptr): (n: Ptr)
      reads this
      ensures o in entries ==> n == entries[o]
      ensures o !in entries ==> n == Null
    {
      if o in entries then entries[o] else Null
    }

    /** Records `n` as the copy of `o`, replacing any earlier copy (insert-or-assign). */
    method Add(o: Ptr, n: Ptr)
      modifies this
      ensures entries == old(entries)[o := n]
      ensures FindNew(o) == n
      ensures forall k :: k != o ==> FindNew(k) == old(FindNew(k))
    {
      entries := entries[o := n];
    }
  }

  /** One entry of a `TupletMap`: an old tuplet and its new copy. */
  datatype Tuplet2 = Tuplet2(o: Ptr, n: Ptr)

  /** `i` holds the first pair of `pairs` whose old tuplet is `o`. */
  predicate IsFirstMatch(pairs: seq<Tuplet2>, o: Ptr, i: int) {
    0 <= i < |pairs| && pairs[i].o == o && forall j :: 0 <= j < i ==> pairs[j].o != o
  }

  /** `TupletMap`: a list of (old, new) pairs searched front to back. */
  datatype TupletMap = TupletMap(pairs: seq<Tuplet2>) {

    /** The new tuplet of the first pair whose old tuplet is `o`, or null when no pair has
        `o`. A value of the datatype cannot change, so the search leaves the list as it was. */
    function FindNew(o: Ptr): (n: Ptr)
      ensures forall i :: IsFirstMatch(pairs, o, i) ==> n == pairs[i].n
      ensures (forall i :: 0 <= i < |pairs| ==> pairs[i].o != o) ==> n == Null
      decreases |pairs|
    {
      if |pairs| == 0 then Null
      else if pairs[0].o == o then pairs[0].n
      else
        var rest := TupletMap(pairs[1..]);
        assert forall i :: IsFirstMatch(pairs, o, i) ==> IsFirstMatch(rest.pairs, o, i - 1);
        rest.FindNew(o)
    }
  }

  /** Whenever some pair has `o`, the first match lies at or before it. */
  lemma {:induction false} FirstMatchExists(pairs: seq<Tuplet2>, o: Ptr, k: int)
    requires 0 <= k < |pairs| && pairs[k].o == o
    ensures exists i :: IsFirstMatch(pairs, o, i) && i <= k
  {
    if !IsFirstMatch(pairs, o, k) {
      var j :| 0 <= j < k && pairs[j].o == o;
      FirstMatchExists(pairs, o, j);
    }
  }

  /** When some pair has key `o`, `FindNew` answers with the new tuplet of such a pair at or before it. */
  lemma FindNewFound(t: TupletMap, o: Ptr, k: int)
    requires 0 <= k < |t.pairs| && t.pairs[k].o == o
    ensures exists i :: 0 <= i <= k && t.pairs[i].o == o && t.FindNew(o) == t.pairs[i].n
  {
    FirstMatchExists(t.pairs, o, k);
  }
}
