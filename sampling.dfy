/**
 * The state reader (`gpio_read`): the monitored lines are read one at a
 * time, in order, and each level is or-ed into its bit of the vector.
 * The driver is an oracle: a scan is the sequence of values
 * `gpiod_line_get_value` would return for lines 0, 1, ... in turn.
 */
module Sampling {
  import opened Wrappers
  import opened BitVector

  /** What `gpiod_line_get_value` returns for one line: its level (0 or 1),
      or a negative error code. */
  type LineValue = v: int | v <= 1

  /** Every value of the scan is a level, none an error. */
  predicate Readable(values: seq<LineValue>)
  {
    forall i :: 0 <= i < |values| ==> values[i] >= 0
  }

  /** The levels of a readable scan. */
  function LevelsOf(values: seq<LineValue>): (levels: seq<Level>)
    requires Readable(values)
    ensures |levels| == |values|
    ensures forall i :: 0 <= i < |values| ==> levels[i] == values[i]
  {
    seq(|values|, i requires 0 <= i < |values| => values[i] as Level)
  }

  /** The vector one scan yields, or None when the program exits on a read. */
  function ReadVector(values: seq<LineValue>): Option<nat>
  {
    if Readable(values) then Some(Vector(LevelsOf(values))) else None
  }

  /** `gpio_read`: reads lines 0 .. n-1 in order and builds the vector with
      `vec |= res << i`; the first negative value stops the scan, which the
      program answers with exit(1). `count` is the number of values read. */
  method GpioRead(values: seq<LineValue>) returns (vec: Option<nat>, count: nat)
    requires |values| <= MaxLines
    ensures vec == ReadVector(values)
    ensures vec.Some? ==> count == |values|
    ensures vec.None? ==> 1 <= count <= |values| && values[count - 1] < 0
    ensures vec.None? ==> forall j :: 0 <= j < count - 1 ==> values[j] >= 0
  {
    var acc := 0;
    var i := 0;
    while i != |values|
      invariant i <= |values|
      invariant Readable(values[..i])
      invariant acc == Vector(LevelsOf(values[..i]))
    {
      var res := values[i];
      if res < 0 {
        assert !Readable(values);
        return None, i + 1;
      }
      assert values[..i + 1] == values[..i] + [res];
      assert LevelsOf(values[..i + 1]) == LevelsOf(values[..i]) + [res as Level];
      VectorAppend(LevelsOf(values[..i]), res as Level);
      acc := Or(acc, Shl(res, i));
      i := i + 1;
    }
    assert values[..i] == values;
    return Some(acc), i;
  }

  /** A readable scan's vector has bit i equal to line i's value and no bit
      above the last line. */
  lemma ReadVectorBits(values: seq<LineValue>)
    requires Readable(values)
    ensures ReadVector(values).Some?
    ensures ReadVector(values).value < Pow2(|values|)
    ensures forall i :: 0 <= i < |values| ==> BitAt(ReadVector(values).value, i) == values[i]
  {
    var levels := LevelsOf(values);
    VectorBound(levels);
    forall i | 0 <= i < |values|
      ensures BitAt(Vector(levels), i) == values[i]
    {
      VectorBit(levels, i);
    }
  }

  /** A scan reads as `(1 << n) - 1` exactly when every line reads 1. */
  lemma ReadAllUp(values: seq<LineValue>)
    ensures ReadVector(values) == Some(AllUp(|values|)) <==> forall i :: 0 <= i < |values| ==> values[i] == 1
  {
    if Readable(values) {
      AllUpExactly(LevelsOf(values));
    }
  }
}
