/** Cutting a stream of items into consecutive fixed-size chunks, the last one possibly shorter. */
module Chunking {
  import opened Options

  function Flatten<T>(parts: seq<seq<T>>): seq<T> {
    if parts == [] then [] else parts[0] + Flatten(parts[1..])
  }

  function Chunks<T>(s: seq<T>, size: nat): (r: seq<seq<T>>)
    requires size > 0
    decreases |s|
  {
    if s == [] then []
    else if |s| <= size then [s]
    else [s[..size]] + Chunks(s[size..], size)
  }

  /** Nothing is lost, doubled or reordered. */
  lemma {:induction false} ChunksFlatten<T>(s: seq<T>, size: nat)
    requires size > 0
    ensures Flatten(Chunks(s, size)) == s
    decreases |s|
  {
    if s == [] {
    } else if |s| <= size {
      assert Chunks(s, size) == [s] && [s][1..] == [];
    } else {
      ChunksFlatten(s[size..], size);
      assert s == s[..size] + s[size..];
      ChunksCons(s[..size], s[size..], size);
      var rest := Chunks(s[size..], size);
      hide Chunks;
      assert ([s[..size]] + rest)[1..] == rest;
    }
  }

  /** Every chunk but the last is full, and the last one holds between 1 and `size` items. */
  lemma {:induction false} ChunksFull<T>(s: seq<T>, size: nat)
    requires size > 0
    ensures forall i :: 0 <= i < |Chunks(s, size)| ==>
      && 0 < |Chunks(s, size)[i]| <= size
      && (i < |Chunks(s, size)| - 1 ==> |Chunks(s, size)[i]| == size)
    decreases |s|
  {
    if |s| > size {
      var rest := Chunks(s[size..], size);
      ChunksFull(s[size..], size);
      forall i | 0 <= i < |Chunks(s, size)|
        ensures 0 < |Chunks(s, size)[i]| <= size
        ensures i < |Chunks(s, size)| - 1 ==> |Chunks(s, size)[i]| == size
      {
        if i > 0 {
          assert Chunks(s, size)[i] == rest[i - 1];
        }
      }
    }
  }

  lemma DivStep(i: nat, size: nat)
    requires 0 < size <= i
    ensures i / size == (i - size) / size + 1 && i % size == (i - size) % size
  {
    var q := (i - size) / size;
    assert i - size == size * q + (i - size) % size;
    assert i == size * (q + 1) + (i - size) % size by {
      assert size * (q + 1) == size * q + size;
    }
    DivModUnique(i, size, q + 1, (i - size) % size);
  }

  lemma DivModUnique(n: nat, size: nat, q: nat, r: nat)
    requires n == size * q + r && r < size
    ensures n / size == q && n % size == r
  {
    var d := n / size - q;
    assert n == size * (n / size) + n % size;
    assert size * d == r - n % size by {
      assert size * (n / size) - size * q == size * d;
    }
    assert d >= 1 ==> size * d >= size;
    assert d <= -1 ==> size * d + size <= 0;
  }

  /** Item `i` is found in chunk `i / size` at place `i % size`. */
  lemma {:induction false} ChunkAt<T>(s: seq<T>, size: nat, i: nat)
    requires size > 0 && i < |s|
    ensures i / size < |Chunks(s, size)| && i % size < |Chunks(s, size)[i / size]|
    ensures Chunks(s, size)[i / size][i % size] == s[i]
    decreases |s|
  {
    if i < size {
      DivModUnique(i, size, 0, i);
    } else {
      DivStep(i, size);
      ChunkAt(s[size..], size, i - size);
      assert Chunks(s, size)[i / size] == Chunks(s[size..], size)[(i - size) / size];
    }
  }

  ghost predicate AllFull<T>(done: seq<seq<T>>, size: nat) {
    forall i :: 0 <= i < |done| ==> |done[i]| == size
  }

  lemma {:induction false} FlattenSnoc<T>(done: seq<seq<T>>, chunk: seq<T>)
    ensures Flatten(done + [chunk]) == Flatten(done) + chunk
  {
    if done == [] {
      assert [chunk][1..] == [] && [] + [chunk] == [chunk];
    } else {
      FlattenSnoc(done[1..], chunk);
      assert (done + [chunk])[1..] == done[1..] + [chunk];
    }
  }

  /** Full chunks followed by a shorter rest are the chunks of what they hold. */
  lemma {:induction false} ChunksAre<T>(done: seq<seq<T>>, chunk: seq<T>, size: nat)
    requires size > 0 && AllFull(done, size) && |chunk| < size
    ensures Chunks(Flatten(done) + chunk, size) == done + if chunk == [] then [] else [chunk]
    ensures |Flatten(done)| == size * |done|
    decreases |done|
  {
    if done == [] {
      assert Flatten(done) + chunk == chunk;
    } else {
      var rest := Flatten(done[1..]) + chunk;
      ChunksAre(done[1..], chunk, size);
      assert size * |done| == size * |done[1..]| + size;
      Assoc(done[0], Flatten(done[1..]), chunk);
      assert |done[0]| == size && Flatten(done) + chunk == done[0] + rest;
      hide Flatten, AllFull;
      ChunksCons(done[0], rest, size);
      Assoc([done[0]], done[1..], if chunk == [] then [] else [chunk]);
      assert done == [done[0]] + done[1..];
    }
  }

  /** A full chunk comes off the front. */
  lemma ChunksCons<T>(full: seq<T>, rest: seq<T>, size: nat)
    requires |full| == size > 0
    ensures Chunks(full + rest, size) == [full] + Chunks(rest, size)
  {
    var s := full + rest;
    assert s[..size] == full && s[size..] == rest;
    if rest == [] { assert s == full; }
  }
}
