/** `Array.prototype.flatMap` as flattening of a list of lists, with the
    position of every element of the result. */
module Seqs {

  /** The total length of the first `m` lists. */
  function LengthBefore<T>(parts: seq<seq<T>>, m: nat): nat
    requires m <= |parts|
  {
    if m == 0 then 0 else LengthBefore(parts, m - 1) + |parts[m - 1]|
  }

  /** The first `m` lists, concatenated in order. */
  function FlattenFirst<T>(parts: seq<seq<T>>, m: nat): (r: seq<T>)
    requires m <= |parts|
    ensures |r| == LengthBefore(parts, m)
  {
    if m == 0 then [] else FlattenFirst(parts, m - 1) + parts[m - 1]
  }

  /** All the lists, concatenated in order. */
  function Flatten<T>(parts: seq<seq<T>>): (r: seq<T>)
    ensures |r| == LengthBefore(parts, |parts|)
  {
    FlattenFirst(parts, |parts|)
  }

  /** Element `j` of list `i` sits at position (lengths of the lists before
      `i`) + `j` of the flattening. */
  lemma {:induction false} FlattenFirstAt<T>(parts: seq<seq<T>>, m: nat, i: nat, j: nat)
    requires i < m <= |parts| && j < |parts[i]|
    ensures LengthBefore(parts, i) + j < |FlattenFirst(parts, m)|
    ensures FlattenFirst(parts, m)[LengthBefore(parts, i) + j] == parts[i][j]
  {
    var head := FlattenFirst(parts, m - 1);
    if i < m - 1 {
      FlattenFirstAt(parts, m - 1, i, j);
      assert (head + parts[m - 1])[LengthBefore(parts, i) + j] == head[LengthBefore(parts, i) + j];
    }
  }

  /** Every position of the flattening holds an element of one of the lists. */
  lemma {:induction false} FlattenFirstFrom<T>(parts: seq<seq<T>>, m: nat, k: nat)
    requires m <= |parts| && k < |FlattenFirst(parts, m)|
    ensures exists i, j :: 0 <= i < m && 0 <= j < |parts[i]| && FlattenFirst(parts, m)[k] == parts[i][j]
  {
    var head := FlattenFirst(parts, m - 1);
    if k < |head| {
      FlattenFirstFrom(parts, m - 1, k);
      var i, j :| 0 <= i < m - 1 && 0 <= j < |parts[i]| && head[k] == parts[i][j];
      assert FlattenFirst(parts, m)[k] == parts[i][j];
    } else {
      assert FlattenFirst(parts, m)[k] == parts[m - 1][k - |head|];
    }
  }

  /** `Flatten` versions of the two lemmas above. */
  lemma FlattenAt<T>(parts: seq<seq<T>>, i: nat, j: nat)
    requires i < |parts| && j < |parts[i]|
    ensures LengthBefore(parts, i) + j < |Flatten(parts)|
    ensures Flatten(parts)[LengthBefore(parts, i) + j] == parts[i][j]
  {
    FlattenFirstAt(parts, |parts|, i, j);
  }

  lemma FlattenFrom<T>(parts: seq<seq<T>>, k: nat)
    requires k < |Flatten(parts)|
    ensures exists i, j :: 0 <= i < |parts| && 0 <= j < |parts[i]| && Flatten(parts)[k] == parts[i][j]
  {
    FlattenFirstFrom(parts, |parts|, k);
  }
}
