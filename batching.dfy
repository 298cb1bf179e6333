/**
 * The chunking helper the plugin uses to group exported values into batches
 * (`collection.Batch(iterable, size)`): consecutive pieces of the input, each
 * of exactly `size` elements except possibly the last one, which is shorter
 * but never empty.
 */
module Batching {

  /** The concatenation of a sequence of sequences. */
  function Flatten<T>(ss: seq<seq<T>>): seq<T>
  {
    if ss == [] then [] else ss[0] + Flatten(ss[1..])
  }

  /** The sum of the lengths of a sequence of sequences. */
  function TotalLength<T>(ss: seq<seq<T>>): nat
  {
    if ss == [] then 0 else |ss[0]| + TotalLength(ss[1..])
  }

  /** Splits `s` into consecutive batches of `size` elements; only the last may be shorter. */
  function Batch<T>(s: seq<T>, size: nat): (r: seq<seq<T>>)
    requires size > 0
    ensures Flatten(r) == s
    ensures forall i :: 0 <= i < |r| ==> 1 <= |r[i]| <= size
    ensures forall i :: 0 <= i < |r| - 1 ==> |r[i]| == size
    decreases |s|
  {
    if s == [] then []
    else if |s| <= size then [s]
    else
      var rest := Batch(s[size..], size);
      assert ([s[..size]] + rest)[1..] == rest;
      assert s[..size] + s[size..] == s;
      [s[..size]] + rest
  }

  lemma {:induction false} TotalLengthIsFlattenLength<T>(ss: seq<seq<T>>)
    ensures TotalLength(ss) == |Flatten(ss)|
    decreases |ss|
  {
    if ss != [] {
      TotalLengthIsFlattenLength(ss[1..]);
    }
  }

  /** One more piece adds its length to the total. */
  lemma TotalLengthSnoc<T>(ss: seq<seq<T>>, i: nat)
    requires i < |ss|
    ensures TotalLength(ss[..i + 1]) == TotalLength(ss[..i]) + |ss[i]|
  {
    assert ss[..i + 1] == ss[..i] + [ss[i]];
    TotalLengthAppend(ss[..i], [ss[i]]);
    assert [ss[i]][1..] == [];
  }

  lemma {:induction false} TotalLengthAppend<T>(ss: seq<seq<T>>, ts: seq<seq<T>>)
    ensures TotalLength(ss + ts) == TotalLength(ss) + TotalLength(ts)
    decreases |ss|
  {
    if ss == [] {
      assert ss + ts == ts;
    } else {
      assert (ss + ts)[0] == ss[0] && (ss + ts)[1..] == ss[1..] + ts;
      TotalLengthAppend(ss[1..], ts);
    }
  }

  /** Batching loses nothing: the batch lengths add up to the input length. */
  lemma BatchTotalLength<T>(s: seq<T>, size: nat)
    requires size > 0
    ensures TotalLength(Batch(s, size)) == |s|
  {
    TotalLengthIsFlattenLength(Batch(s, size));
  }

  /** A step lemma kept out of `BatchCount`, where the solver finds it slowly. */
  lemma MulSucc(k: nat, size: nat)
    ensures (k + 1) * size == k * size + size
  {
  }

  /** The number of batches is the input length divided by `size`, rounded up. */
  lemma {:induction false} BatchCount<T>(s: seq<T>, size: nat)
    requires size > 0
    ensures |s| <= |Batch(s, size)| * size < |s| + size
    decreases |s|
  {
    if s == [] {
      assert |Batch(s, size)| * size == 0;
    } else if |s| <= size {
      assert |Batch(s, size)| * size == size;
    } else {
      BatchCount(s[size..], size);
      var k := |Batch(s[size..], size)|;
      assert |Batch(s, size)| == k + 1;
      MulSucc(k, size);
    }
  }
}
