/** A JavaScript array of strings, as far as the log streams use it: the array a
    log response holds, which `splice` cuts in place. */
module JsArray {

  /** Where `splice(start)` starts cutting an array of `length` elements: a negative
      start counts from the end, and both ends are clamped. */
  function SpliceStart(start: int, length: nat): (k: nat)
    ensures k <= length
    ensures 0 <= start <= length ==> k == start
    ensures start > length ==> k == length
  {
    if start < 0 then (if length + start < 0 then 0 else length + start)
    else if start > length then length
    else start
  }

  class StringArray {
    var elements: seq<string>

    constructor(elements: seq<string>)
      ensures this.elements == elements
    {
      this.elements := elements;
    }

    /** `array.splice(start)`: removes every element from `start` on and returns them,
        in order; what stays and what is returned make up the old array. */
    method Splice(start: int) returns (removed: seq<string>)
      modifies this
      ensures var k := SpliceStart(start, |old(elements)|);
        && removed == old(elements)[k..]
        && elements == old(elements)[..k]
      ensures elements + removed == old(elements)
    {
      var k := SpliceStart(start, |elements|);
      removed := elements[k..];
      elements := elements[..k];
      assert elements + removed == old(elements);
    }
  }
}
