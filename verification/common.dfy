/** Shared building blocks: optional values, random-choice oracles and the
    chunking of a row sequence into consecutive batches. */
module Common {

  /** A value that may be absent (SQL NULL, Python None, a missing dict key). */
  datatype Option<+T> = None | Some(value: T)

  /** A uniform integer draw from the inclusive range `lo..hi`, with the
      random draw supplied as `pick`: every pick selects one value of the
      range. */
  function PickInRange(lo: int, hi: int, pick: nat): (r: int)
    requires lo <= hi
    ensures lo <= r <= hi
    ensures pick <= hi - lo ==> r == lo + pick
  {
    lo + pick % (hi - lo + 1)
  }

  /** A uniform choice of one element of `xs`, with the random draw supplied
      as `pick`. Choosing from an empty list raises an error in the source;
      callers model that case themselves. */
  function Choose<T>(xs: seq<T>, pick: nat): (r: T)
    requires |xs| > 0
    ensures r in xs
    ensures pick < |xs| ==> r == xs[pick]
  {
    xs[pick % |xs|]
  }

  /** Concatenation of a sequence of batches. */
  function Flatten<T>(batches: seq<seq<T>>): seq<T>
  {
    if |batches| == 0 then [] else batches[0] + Flatten(batches[1..])
  }

  lemma {:induction false} FlattenAppend<T>(a: seq<seq<T>>, b: seq<seq<T>>)
    ensures Flatten(a + b) == Flatten(a) + Flatten(b)
  {
    if |a| == 0 {
      assert a + b == b;
    } else {
      assert (a + b)[1..] == a[1..] + b;
      FlattenAppend(a[1..], b);
    }
  }

  /** Consecutive slices of `size` rows starting at index 0, the last one
      possibly shorter, as a slicing loop with step `size` produces them. */
  function SliceChunks<T>(data: seq<T>, size: nat): (r: seq<seq<T>>)
    requires size >= 1
    ensures Flatten(r) == data
    ensures |data| == 0 <==> |r| == 0
    decreases |data|
  {
    if |data| == 0 then []
    else
      var n := if |data| < size then |data| else size;
      assert data == data[..n] + data[n..];
      [data[..n]] + SliceChunks(data[n..], size)
  }

  /** Every slice holds between one and `size` rows, and every slice but
      the last holds exactly `size`. */
  lemma {:induction false} SliceChunksSizes<T>(data: seq<T>, size: nat)
    requires size >= 1
    ensures forall i :: 0 <= i < |SliceChunks(data, size)| ==> 0 < |SliceChunks(data, size)[i]| <= size
    ensures forall i :: 0 <= i < |SliceChunks(data, size)| - 1 ==> |SliceChunks(data, size)[i]| == size
    decreases |data|
  {
    if |data| > 0 {
      var n := if |data| < size then |data| else size;
      var r := SliceChunks(data, size);
      SliceChunksSizes(data[n..], size);
      assert r[1..] == SliceChunks(data[n..], size);
      if |data| < size {
        assert |r| == 1;
      }
    }
  }

  /** Slicing from `start` takes `data[start..stop]` as the next slice and
      carries on from `stop`, whenever that slice is full (`size` rows) or
      runs to the end of the data. */
  lemma SliceChunksStep<T>(data: seq<T>, size: nat, start: nat, stop: nat)
    requires size >= 1 && start < stop <= |data|
    requires stop - start == size || (stop == |data| && stop - start <= size)
    ensures SliceChunks(data[start..], size) == [data[start..stop]] + SliceChunks(data[stop..], size)
  {
    var rest := data[start..];
    assert rest[..stop - start] == data[start..stop];
    assert rest[stop - start..] == data[stop..];
  }

  /** The batches committed when batch `failAt` (counting from 0) is the
      first to fail: all of those before it, or all of them when none
      fails. */
  function BeforeFailure<T>(batches: seq<seq<T>>, failAt: Option<nat>): (r: seq<seq<T>>)
    ensures r <= batches
    ensures |r| == |batches| <==> failAt.None? || failAt.value >= |batches|
    ensures |r| < |batches| ==> |r| == failAt.value
  {
    if failAt.Some? && failAt.value < |batches| then batches[..failAt.value] else batches
  }

  /** Each row of a prefix of `rows` is a row of `rows`. */
  lemma PrefixMembers<T>(prefix: seq<T>, rows: seq<T>)
    requires prefix <= rows
    ensures forall x :: x in prefix ==> x in rows
  {
    forall x | x in prefix ensures x in rows {
      var k :| 0 <= k < |prefix| && prefix[k] == x;
      assert rows[k] == x;
    }
  }

  /** The rows of the first `count` batches form a prefix of all the rows. */
  lemma FlattenPrefix<T>(batches: seq<seq<T>>, count: nat)
    requires count <= |batches|
    ensures Flatten(batches[..count]) <= Flatten(batches)
  {
    assert batches == batches[..count] + batches[count..];
    FlattenAppend(batches[..count], batches[count..]);
  }

  /** A dictionary built from key/value pairs in order, as a dict
      comprehension builds it: a later pair with the same key replaces an
      earlier one. */
  function DictOf<K(!new), V>(pairs: seq<(K, V)>): (r: map<K, V>)
    ensures forall k :: k in r <==> exists i :: 0 <= i < |pairs| && pairs[i].0 == k
    decreases |pairs|
  {
    if |pairs| == 0 then map[]
    else
      var init := pairs[..|pairs| - 1];
      var last := pairs[|pairs| - 1];
      assert forall i :: 0 <= i < |init| ==> init[i] == pairs[i];
      DictOf(init)[last.0 := last.1]
  }

  /** The value kept for a key is the one of the last pair with that key. */
  lemma {:induction false} DictOfLaterWins<K(!new), V>(pairs: seq<(K, V)>, i: nat)
    requires i < |pairs|
    requires forall j :: i < j < |pairs| ==> pairs[j].0 != pairs[i].0
    ensures pairs[i].0 in DictOf(pairs)
    ensures DictOf(pairs)[pairs[i].0] == pairs[i].1
    decreases |pairs|
  {
    if i < |pairs| - 1 {
      var init := pairs[..|pairs| - 1];
      assert init[i] == pairs[i];
      forall j | i < j < |init| ensures init[j].0 != init[i].0 {
        assert init[j] == pairs[j];
      }
      DictOfLaterWins(init, i);
    }
  }

  /** Every value of a dictionary built from pairs comes from some pair. */
  lemma {:induction false} DictValueFromPair<K(!new), V>(pairs: seq<(K, V)>, k: K)
    requires k in DictOf(pairs)
    ensures exists i :: 0 <= i < |pairs| && pairs[i] == (k, DictOf(pairs)[k])
    decreases |pairs|
  {
    var init := pairs[..|pairs| - 1];
    var last := pairs[|pairs| - 1];
    if last.0 != k {
      DictValueFromPair(init, k);
      var i :| 0 <= i < |init| && init[i] == (k, DictOf(init)[k]);
      assert pairs[i] == init[i];
    }
  }

  /** Whether `st.rerun()` ends the script by raising. It does: the rerun is
      signalled by an exception that unwinds every enclosing block. */
  const RerunRaises: bool := true
}
