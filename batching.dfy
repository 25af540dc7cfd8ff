/** The buffering discipline of `load_data`, stated on the whole stream of readings: the
    flushed batches are consecutive slices of the stream, each of the flush size except
    possibly the last. */
module Batching {

  /** The rows of a sequence of batches, in flush order. */
  function Flatten<T>(batches: seq<seq<T>>): (s: seq<T>)
  {
    if batches == [] then [] else batches[0] + Flatten(batches[1..])
  }

  /** Cuts a stream into batches of `size` rows, the last one holding what is left: every
      batch holds between 1 and `size` rows, every batch but the last holds exactly `size`,
      and there is a batch exactly when the stream is not empty. */
  function Chunks<T>(s: seq<T>, size: nat): (batches: seq<seq<T>>)
    requires size >= 1
    ensures (batches == []) == (s == [])
    ensures forall i :: 0 <= i < |batches| ==> 1 <= |batches[i]| <= size
    ensures forall i :: 0 <= i < |batches| - 1 ==> |batches[i]| == size
    decreases |s|
  {
    if s == [] then
      []
    else if |s| <= size then
      assert [s][1..] == [];
      [s]
    else
      var rest := Chunks(s[size..], size);
      var batches := [s[..size]] + rest;
      assert batches[1..] == rest;
      batches
  }

  /** Conservation: the batches, concatenated in flush order, are the stream itself. */
  lemma {:induction false} ChunksConserve<T>(s: seq<T>, size: nat)
    requires size >= 1
    ensures Flatten(Chunks(s, size)) == s
    decreases |s|
  {
    if s != [] && |s| > size {
      var batches := Chunks(s, size);
      assert batches[1..] == Chunks(s[size..], size);
      ChunksConserve(s[size..], size);
      assert s[..size] + s[size..] == s;
    } else if s != [] {
      assert Chunks(s, size)[1..] == [];
    }
  }

  predicate AllFull<T>(batches: seq<seq<T>>, size: nat) {
    forall i :: 0 <= i < |batches| ==> |batches[i]| == size
  }

  /** Flushing one more batch of 1 to `size` rows after a run of full batches extends the
      chunking of the stream by exactly that batch. */
  lemma {:induction false} ChunksSnoc<T>(prefix: seq<T>, batch: seq<T>, size: nat)
    requires size >= 1
    requires AllFull(Chunks(prefix, size), size)
    requires 1 <= |batch| <= size
    ensures Chunks(prefix + batch, size) == Chunks(prefix, size) + [batch]
    decreases |prefix|
  {
    if prefix == [] {
      assert prefix + batch == batch;
    } else if |prefix| <= size {
      assert Chunks(prefix, size) == [prefix];
      assert |Chunks(prefix, size)[0]| == size;
      var s := prefix + batch;
      assert s[..size] == prefix;
      assert s[size..] == batch;
    } else {
      var s := prefix + batch;
      var rest := Chunks(prefix[size..], size);
      assert Chunks(prefix, size) == [prefix[..size]] + rest;
      assert AllFull(rest, size) by {
        forall i | 0 <= i < |rest|
          ensures |rest[i]| == size
        {
          assert rest[i] == Chunks(prefix, size)[i + 1];
        }
      }
      assert s[..size] == prefix[..size];
      assert s[size..] == prefix[size..] + batch;
      ChunksSnoc(prefix[size..], batch, size);
    }
  }
}
