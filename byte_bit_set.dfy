// The fixed-width bit set over field indices that the stemmer fills for
// each stem, and the `addAll` helper that adds an array of field indices
// to it (LanguageModelStemmer.java, lines 191-197).
module ByteBitSets {

  /** The elements of `r` in strictly ascending order. */
  ghost predicate StrictlyIncreasing(r: seq<int>)
  {
    forall i, j :: 0 <= i < j < |r| ==> r[i] < r[j]
  }

  /** The set of values listed in `r`. */
  ghost function Elements(r: seq<int>): set<int>
  {
    set x | x in r
  }

  /** The members of `s` below `k`, in ascending order. */
  ghost function AscendingBelow(s: set<int>, k: nat): seq<int>
  {
    if k == 0 then []
    else if k - 1 in s then AscendingBelow(s, k - 1) + [k - 1]
    else AscendingBelow(s, k - 1)
  }

  /** `AscendingBelow` lists exactly the members below `k`, each once and in ascending order. */
  lemma {:induction false} AscendingBelowLists(s: set<int>, k: nat)
    ensures var r := AscendingBelow(s, k);
      && StrictlyIncreasing(r)
      && (forall j :: 0 <= j < |r| ==> 0 <= r[j] < k)
      && Elements(r) == set x | x in s && 0 <= x < k
  {
    if k > 0 {
      AscendingBelowLists(s, k - 1);
      assert (set x | x in s && 0 <= x < k) == (set x | x in s && 0 <= x < k - 1) + (if k - 1 in s then {k - 1} else {});
    }
  }

  /** A bit set whose capacity, fixed at construction, is the number of fields. */
  class ByteBitSet {
    const bits: array<bool>

    /** The indices whose bit is set. */
    ghost function Members(): set<int>
      reads bits
    {
      set i | 0 <= i < bits.Length && bits[i]
    }

    constructor (capacity: nat)
      ensures bits.Length == capacity && fresh(bits)
      ensures Members() == {}
    {
      bits := new bool[capacity](_ => false);
    }

    /** Sets bit `b`; an index outside the capacity is refused. */
    method Add(b: int)
      requires 0 <= b < bits.Length
      modifies bits
      ensures Members() == old(Members()) + {b}
    {
      bits[b] := true;
    }

    /** Clears every bit. */
    method Clear()
      modifies bits
      ensures Members() == {}
    {
      forall i | 0 <= i < bits.Length {
        bits[i] := false;
      }
    }

    /** The set bits as an array of indices in ascending order. */
    method ToArray() returns (r: seq<int>)
      ensures r == AscendingBelow(Members(), bits.Length)
      ensures StrictlyIncreasing(r) && Elements(r) == Members()
    {
      r := [];
      for i := 0 to bits.Length
        invariant r == AscendingBelow(Members(), i)
      {
        if bits[i] {
          r := r + [i];
        }
      }
      AscendingBelowLists(Members(), bits.Length);
    }
  }

  /** Adds every field index of `values` to `fields`. */
  method AddAll(fields: ByteBitSet, values: seq<int>)
    requires forall k :: 0 <= k < |values| ==> 0 <= values[k] < fields.bits.Length
    modifies fields.bits
    ensures fields.Members() == old(fields.Members()) + Elements(values)
  {
    for k := 0 to |values|
      invariant fields.Members() == old(fields.Members()) + Elements(values[..k])
    {
      assert Elements(values[..k + 1]) == Elements(values[..k]) + {values[k]} by {
        assert values[..k + 1] == values[..k] + [values[k]];
      }
      fields.Add(values[k]);
    }
    assert values[..|values|] == values;
  }
}
