/**
 * The range write of changeGeneColour (src/clusterMap.js): when the colour
 * picker commits a value for legend group `d`, entry `d` of the colour
 * scale's range is replaced and the range is written back to the scale.
 *
 * Group keys are the non-negative integers the range is indexed by. A
 * JavaScript array write past the end grows the array and leaves holes, so a
 * range entry is an Option: None is a hole (undefined).
 */
module ColourScale {
  import opened Wrappers

  type Colour = string

  /**
   * `a[d] = v` on a JavaScript array: entry `d` becomes `v`, every other
   * entry keeps its value, and an index past the end first extends the array
   * with holes.
   */
  function AssignIndex<T>(a: seq<Option<T>>, d: nat, v: T): (r: seq<Option<T>>)
    ensures |r| == if d < |a| then |a| else d + 1
    ensures r[d] == Some(v)
    ensures forall i :: 0 <= i < |r| && i != d ==> r[i] == if i < |a| then a[i] else None
  {
    if d < |a| then a[d := Some(v)]
    else a + seq(d - |a|, _ => None) + [Some(v)]
  }

  /** Picking the same colour again changes nothing more. */
  lemma AssignIndexIdempotent<T>(a: seq<Option<T>>, d: nat, v: T)
    ensures AssignIndex(AssignIndex(a, d, v), d, v) == AssignIndex(a, d, v)
  {
  }

  /** Of two picks for the same group, the later one wins. */
  lemma AssignIndexLastWins<T>(a: seq<Option<T>>, d: nat, v: T, w: T)
    ensures AssignIndex(AssignIndex(a, d, v), d, w) == AssignIndex(a, d, w)
  {
  }

  /** Recolouring two different groups gives the same range in either order. */
  lemma AssignIndexCommutes<T>(a: seq<Option<T>>, d: nat, v: T, e: nat, w: T)
    requires d != e
    ensures AssignIndex(AssignIndex(a, d, v), e, w) == AssignIndex(AssignIndex(a, e, w), d, v)
  {
  }

  /**
   * The ordinal colour scale, reduced to its range: the colours of the
   * groups. Its domain is the group list GetHiddenGeneGroups takes, and it
   * is never written here.
   */
  class OrdinalScale {
    var range: seq<Option<Colour>>

    constructor (range: seq<Option<Colour>>)
      ensures this.range == range
    {
      this.range := range;
    }

    /**
     * The picker's change handler in changeGeneColour: takes a copy of the
     * range, writes the picked value at index `d` and sets the range back.
     */
    method ChangeGeneColour(d: nat, value: Colour)
      modifies this`range
      ensures range == AssignIndex(old(range), d, value)
      ensures range[d] == Some(value)
      ensures forall i :: 0 <= i < |old(range)| && i != d ==> range[i] == old(range)[i]
    {
      var copy := range;
      copy := AssignIndex(copy, d, value);
      range := copy;
    }
  }
}
