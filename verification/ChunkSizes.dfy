/** `random_chunk_sizes`: a random split of a file whose bounds and size are certain. */
module ChunkSizes {
  import opened Base

  const CHUNK_SIZE_MIN: nat := 1024
  const CHUNK_SIZE_MAX: nat := 192 * 1024

  /** `gen_range(lo..=hi)` driven by one draw of an arbitrary random stream. */
  function GenRange(draw: nat, lo: nat, hi: nat): (n: nat)
    requires lo <= hi
    ensures lo <= n <= hi
  {
    lo + draw % (hi - lo + 1)
  }

  ghost predicate ValidSplit(sizes: seq<nat>, total: nat) {
    && Sum(sizes) == total
    && (forall i :: 0 <= i < |sizes| ==> 1 <= sizes[i] <= CHUNK_SIZE_MAX)
    && (forall i :: 0 <= i < |sizes| - 1 ==> CHUNK_SIZE_MIN <= sizes[i])
  }

  /** The split of `rest` bytes that the stream gives from its draw `k` on. */
  function SizesDrawn(rest: nat, rng: nat -> nat, k: nat): seq<nat>
    decreases rest
  {
    if rest == 0 then []
    else if rest <= CHUNK_SIZE_MIN then [rest]
    else
      var size := GenRange(rng(k), CHUNK_SIZE_MIN, Min(CHUNK_SIZE_MAX, rest));
      [size] + SizesDrawn(rest - size, rng, k + 1)
  }

  /** Every valid split comes out for some random stream. */
  lemma {:induction false} EverySplit(total: nat, sizes: seq<nat>, k: nat) returns (rng: nat -> nat)
    requires ValidSplit(sizes, total)
    ensures SizesDrawn(total, rng, k) == sizes
    decreases |sizes|
  {
    hide ValidSplit, GenRange, Min;
    rng := n => 0;
    NoSizes(total, sizes);
    if sizes != [] {
      var rest := sizes[1..];
      assert sizes == [sizes[0]] + rest;
      RestIsSplit(total, sizes);
      var rng1 := EverySplit(total - sizes[0], rest, k + 1);
      var draw := if sizes[0] < CHUNK_SIZE_MIN then 0 else sizes[0] - CHUNK_SIZE_MIN;
      rng := n => if n == k then draw else rng1(n);
      DrawnFrom(total - sizes[0], rng, rng1, k + 1);
      FirstSize(total, sizes, draw);
    }
  }

  lemma NoSizes(total: nat, sizes: seq<nat>)
    requires ValidSplit(sizes, total)
    ensures sizes == [] <==> total == 0
  {
  }

  lemma RestIsSplit(total: nat, sizes: seq<nat>)
    requires ValidSplit(sizes, total) && sizes != []
    ensures sizes[0] <= total && ValidSplit(sizes[1..], total - sizes[0])
  {
    var rest := sizes[1..];
    assert forall i :: 0 <= i < |rest| ==> rest[i] == sizes[i + 1];
  }

  lemma {:induction false} DrawnFrom(rest: nat, a: nat -> nat, b: nat -> nat, k: nat)
    requires forall n :: n >= k ==> a(n) == b(n)
    ensures SizesDrawn(rest, a, k) == SizesDrawn(rest, b, k)
    decreases rest
  {
    if rest > CHUNK_SIZE_MIN {
      DrawnFrom(rest - GenRange(a(k), CHUNK_SIZE_MIN, Min(CHUNK_SIZE_MAX, rest)), a, b, k + 1);
    }
  }

  /** The first size of a valid split is forced, or can be drawn. */
  lemma FirstSize(total: nat, sizes: seq<nat>, draw: nat)
    requires ValidSplit(sizes, total) && sizes != []
    requires draw == if sizes[0] < CHUNK_SIZE_MIN then 0 else sizes[0] - CHUNK_SIZE_MIN
    ensures total <= CHUNK_SIZE_MIN ==> sizes == [total]
    ensures total > CHUNK_SIZE_MIN ==> GenRange(draw, CHUNK_SIZE_MIN, Min(CHUNK_SIZE_MAX, total)) == sizes[0]
  {
    var rest := sizes[1..];
    assert Sum(sizes) == sizes[0] + Sum(rest);
    if |sizes| > 1 {
      assert sizes[0] >= CHUNK_SIZE_MIN;
      assert Sum(rest) == rest[0] + Sum(rest[1..]) && rest[0] == sizes[1];
    } else {
      assert rest == [];
    }
    if total > CHUNK_SIZE_MIN {
      DrawnExactly(sizes[0], Min(CHUNK_SIZE_MAX, total));
    }
  }

  lemma DrawnExactly(size: nat, hi: nat)
    requires CHUNK_SIZE_MIN <= size <= hi
    ensures GenRange(size - CHUNK_SIZE_MIN, CHUNK_SIZE_MIN, hi) == size
  {
  }

  method RandomChunkSizes(total: nat, rng: nat -> nat) returns (sizes: seq<nat>)
    ensures sizes == SizesDrawn(total, rng, 0)
    ensures ValidSplit(sizes, total)
    ensures CeilDiv(total, CHUNK_SIZE_MAX) <= |sizes| <= CeilDiv(total, CHUNK_SIZE_MIN)
  {
    hide GenRange, SizesDrawn, Sum, CeilDiv;
    sizes := [];
    var remaining := total;
    SumOfNone();
    NothingBefore(SizesDrawn(total, rng, 0));
    while remaining > 0
      invariant 0 <= remaining <= total && Sum(sizes) + remaining == total
      invariant forall i :: 0 <= i < |sizes| ==> 1 <= sizes[i] <= CHUNK_SIZE_MAX
      invariant forall i :: 0 <= i < |sizes| - 1 ==> CHUNK_SIZE_MIN <= sizes[i]
      invariant remaining > 0 ==> forall i :: 0 <= i < |sizes| ==> CHUNK_SIZE_MIN <= sizes[i]
      invariant sizes + SizesDrawn(remaining, rng, |sizes|) == SizesDrawn(total, rng, 0)
    {
      var size := if remaining <= CHUNK_SIZE_MIN then remaining
                  else GenRange(rng(|sizes|), CHUNK_SIZE_MIN, Min(CHUNK_SIZE_MAX, remaining));
      SumNext(sizes, size);
      DrawnStep(sizes, size, remaining, rng);
      sizes := sizes + [size];
      remaining := remaining - size;
    }
    NothingDrawn(rng);
    NothingAfter(sizes);
    SplitCount(sizes, total);
  }

  lemma SumOfNone()
    ensures Sum([]) == 0
  {
  }

  lemma SumNext(sizes: seq<nat>, size: nat)
    ensures Sum(sizes + [size]) == Sum(sizes) + size
  {
    SumAppend(sizes, [size]);
    assert Sum([size]) == size + Sum([]);
  }

  lemma NothingBefore(xs: seq<nat>)
    ensures [] + xs == xs
  {
  }

  lemma NothingAfter(xs: seq<nat>)
    ensures xs + [] == xs
  {
  }

  lemma NothingDrawn(rng: nat -> nat)
    ensures forall k :: SizesDrawn(0, rng, k) == []
  {
  }

  lemma DrawnStep(sizes: seq<nat>, size: nat, rest: nat, rng: nat -> nat)
    requires 0 < rest && size == if rest <= CHUNK_SIZE_MIN then rest
                                 else GenRange(rng(|sizes|), CHUNK_SIZE_MIN, Min(CHUNK_SIZE_MAX, rest))
    ensures sizes + SizesDrawn(rest, rng, |sizes|) == sizes + [size] + SizesDrawn(rest - size, rng, |sizes| + 1)
  {
    hide GenRange, SizesDrawn;
    DrawnUnfolds(size, rest, rng, |sizes|);
    Regroup(sizes, [size], SizesDrawn(rest - size, rng, |sizes| + 1));
  }

  lemma DrawnUnfolds(size: nat, rest: nat, rng: nat -> nat, k: nat)
    requires 0 < rest && size == if rest <= CHUNK_SIZE_MIN then rest
                                 else GenRange(rng(k), CHUNK_SIZE_MIN, Min(CHUNK_SIZE_MAX, rest))
    ensures SizesDrawn(rest, rng, k) == [size] + SizesDrawn(rest - size, rng, k + 1)
  {
  }

  lemma Regroup(a: seq<nat>, b: seq<nat>, c: seq<nat>)
    ensures a + (b + c) == a + b + c
  {
  }

  lemma {:induction false} SumBounds(sizes: seq<nat>, lo: nat, hi: nat)
    requires forall i :: 0 <= i < |sizes| ==> lo <= sizes[i] <= hi
    ensures |sizes| * lo <= Sum(sizes) <= |sizes| * hi
  {
    if sizes != [] {
      SumBounds(sizes[1..], lo, hi);
      assert |sizes| * lo == lo + (|sizes| - 1) * lo;
      assert |sizes| * hi == hi + (|sizes| - 1) * hi;
    }
  }

  /** The number of chunks of any valid split lies between the two ceilings. */
  lemma SplitCount(sizes: seq<nat>, total: nat)
    requires ValidSplit(sizes, total)
    ensures CeilDiv(total, CHUNK_SIZE_MAX) <= |sizes| <= CeilDiv(total, CHUNK_SIZE_MIN)
  {
    SumBounds(sizes, 0, CHUNK_SIZE_MAX);
    if sizes != [] {
      var n := |sizes| - 1;
      SumBounds(sizes[..n], CHUNK_SIZE_MIN, CHUNK_SIZE_MAX);
      assert sizes == sizes[..n] + [sizes[n]];
      SumAppend(sizes[..n], [sizes[n]]);
      assert Sum([sizes[n]]) == sizes[n] + Sum([]);
    }
  }

  /** Where chunk `i` starts. */
  function Offset(sizes: seq<nat>, i: nat): nat
    requires i <= |sizes|
  {
    Sum(sizes[..i])
  }

  lemma OffsetStep(sizes: seq<nat>, i: nat)
    requires i < |sizes|
    ensures Offset(sizes, i + 1) == Offset(sizes, i) + sizes[i] <= Sum(sizes)
  {
    assert sizes[..i + 1] == sizes[..i] + [sizes[i]];
    SumAppend(sizes[..i], [sizes[i]]);
    assert Sum([sizes[i]]) == sizes[i] + Sum([]);
    assert sizes == sizes[..i + 1] + sizes[i + 1..];
    SumAppend(sizes[..i + 1], sizes[i + 1..]);
  }

  lemma OffsetWithin(sizes: seq<nat>, i: nat)
    requires i <= |sizes|
    ensures Offset(sizes, i) <= Sum(sizes)
  {
    assert sizes == sizes[..i] + sizes[i..];
    SumAppend(sizes[..i], sizes[i..]);
  }
}
