/** Random key order: Fisher-Yates in place, and the recursive reordering of object keys. */
module Shuffle {
  import opened Base
  import opened Json
  import opened Sorting

  /** An arbitrary random stream. */
  class Rng {
    const stream: nat -> nat
    var drawn: nat

    constructor (stream: nat -> nat)
      ensures this.stream == stream && drawn == 0
    {
      this.stream := stream;
      drawn := 0;
    }

    method NextU32() returns (n: nat)
      modifies this
      ensures drawn == old(drawn) + 1 && n == stream(old(drawn)) % (U32_MAX + 1)
    {
      n := stream(drawn) % (U32_MAX + 1);
      drawn := drawn + 1;
    }

    method FillBytes(count: nat) returns (bytes: Bytes)
      modifies this
      ensures |bytes| == count && old(drawn) <= drawn
    {
      bytes := [];
      while |bytes| < count
        invariant |bytes| <= count && old(drawn) <= drawn
      {
        var n := NextU32();
        bytes := bytes + [(n % 256) as Byte];
      }
    }
  }

  function Swapped<T>(xs: seq<T>, i: nat, j: nat): seq<T>
    requires i < |xs| && j < |xs|
  {
    xs[i := xs[j]][j := xs[i]]
  }

  /** A place among `n`, from a random number of 32 bits. */
  function Pick(raw: nat, n: nat): (j: nat)
    requires n > 0
    ensures j < n
  {
    raw % (U32_MAX + 1) % n
  }

  lemma PickAny(j: nat, n: nat)
    requires j < n <= U32_MAX + 1
    ensures Pick(j, n) == j
  {
  }

  /** The first `n` items in the order that the stream gives them from its draw `d` on. */
  function Drawn<T>(xs: seq<T>, n: nat, stream: nat -> nat, d: nat): (ys: seq<T>)
    requires n <= |xs|
    ensures |ys| == |xs|
    decreases n
  {
    if n <= 1 then xs
    else Drawn(Swapped(xs, n - 1, Pick(stream(d), n)), n - 1, stream, d + 1)
  }

  /** How many random numbers an order of `n` items takes. */
  function Draws(n: nat): nat { if n == 0 then 0 else n - 1 }

  function KeysOf(fs: seq<Field>): (keys: seq<string>)
    ensures |keys| == |fs|
  {
    seq(|fs|, i requires 0 <= i < |fs| => fs[i].key)
  }

  /** Reordering fields reorders their keys. */
  lemma {:induction false} DrawnKeys(fs: seq<Field>, n: nat, stream: nat -> nat, d: nat)
    requires n <= |fs|
    ensures KeysOf(Drawn(fs, n, stream, d)) == Drawn(KeysOf(fs), n, stream, d)
    decreases n
  {
    if n > 1 {
      var j := Pick(stream(d), n);
      assert KeysOf(Swapped(fs, n - 1, j)) == Swapped(KeysOf(fs), n - 1, j);
      DrawnKeys(Swapped(fs, n - 1, j), n - 1, stream, d + 1);
    }
  }

  method FisherYates<T>(items: array<T>, rng: Rng)
    modifies items, rng
    ensures items[..] == Drawn(old(items[..]), items.Length, rng.stream, old(rng.drawn))
    ensures rng.drawn == old(rng.drawn) + Draws(items.Length)
    ensures multiset(items[..]) == multiset(old(items[..]))
  {
    hide Drawn, Pick, Swapped;
    var i := items.Length;
    while i > 1
      invariant 0 <= i <= items.Length && rng.drawn + Draws(i) == old(rng.drawn) + Draws(items.Length)
      invariant Drawn(items[..], i, rng.stream, rng.drawn) ==
                Drawn(old(items[..]), items.Length, rng.stream, old(rng.drawn))
    {
      ghost var xs, d := items[..], rng.drawn;
      DrawnStep(xs, i, rng.stream, d);
      i := i - 1;
      var n := rng.NextU32();
      var j := n % (i + 1);
      PickIs(rng.stream(d), i + 1);
      Swap(items, i, j);
    }
    DrawnEnd(items[..], i, rng.stream, rng.drawn);
    DrawnPermutes(old(items[..]), items.Length, rng.stream, old(rng.drawn));
  }

  lemma {:induction false} DrawnPermutes<T>(xs: seq<T>, n: nat, stream: nat -> nat, d: nat)
    requires n <= |xs|
    ensures multiset(Drawn(xs, n, stream, d)) == multiset(xs)
    decreases n
  {
    if n > 1 {
      var j := Pick(stream(d), n);
      SwapPermutes(xs, n - 1, j);
      DrawnPermutes(Swapped(xs, n - 1, j), n - 1, stream, d + 1);
    }
  }

  method Swap<T>(items: array<T>, i: nat, j: nat)
    requires i < items.Length && j < items.Length
    modifies items
    ensures items[..] == Swapped(old(items[..]), i, j)
  {
    items[i], items[j] := items[j], items[i];
  }

  lemma DrawnStep<T>(xs: seq<T>, n: nat, stream: nat -> nat, d: nat)
    requires 1 < n <= |xs|
    ensures Drawn(xs, n, stream, d) == Drawn(Swapped(xs, n - 1, Pick(stream(d), n)), n - 1, stream, d + 1)
  {
  }

  lemma DrawnEnd<T>(xs: seq<T>, n: nat, stream: nat -> nat, d: nat)
    requires n <= |xs| && n <= 1
    ensures Drawn(xs, n, stream, d) == xs
  {
  }

  lemma PickIs(raw: nat, n: nat)
    requires n > 0
    ensures Pick(raw, n) == raw % (U32_MAX + 1) % n
  {
  }

  lemma {:induction false} DrawnFrom<T>(xs: seq<T>, n: nat, s1: nat -> nat, s2: nat -> nat, d: nat)
    requires n <= |xs| && forall k :: k >= d ==> s1(k) == s2(k)
    ensures Drawn(xs, n, s1, d) == Drawn(xs, n, s2, d)
    decreases n
  {
    if n > 1 {
      DrawnFrom(Swapped(xs, n - 1, Pick(s1(d), n)), n - 1, s1, s2, d + 1);
    }
  }

  lemma SwapPermutes<T>(xs: seq<T>, i: nat, j: nat)
    requires i < |xs| && j < |xs|
    ensures multiset(Swapped(xs, i, j)) == multiset(xs) && |Swapped(xs, i, j)| == |xs|
  {
  }

  /** What `FisherYates` may yield: every order of at most 2^32 items comes out for some random stream. */
  lemma {:induction false} EveryOrder<T>(xs: seq<T>, ys: seq<T>, n: nat, d: nat) returns (stream: nat -> nat)
    requires n <= |xs| == |ys| && n <= U32_MAX + 1
    requires multiset(xs) == multiset(ys) && xs[n..] == ys[n..]
    ensures Drawn(xs, n, stream, d) == ys
    decreases n
  {
    hide Drawn, Pick, Swapped;
    stream := k => 0;
    if n <= 1 {
      SameButFirst(xs, ys, n);
      DrawnEnd(xs, n, stream, d);
    } else {
      var j := PlaceOf(xs, ys, n);
      var zs := Swapped(xs, n - 1, j);
      SwapPermutes(xs, n - 1, j);
      LastPlaced(xs, ys, n, j);
      var rest := EveryOrder(zs, ys, n - 1, d + 1);
      stream := k => if k == d then j else rest(k);
      PickAny(j, n);
      DrawnFrom(zs, n - 1, stream, rest, d + 1);
      DrawnStep(xs, n, stream, d);
    }
  }

  lemma SameFront<T>(xs: seq<T>, ys: seq<T>, n: nat)
    requires n <= |xs| == |ys| && multiset(xs) == multiset(ys) && xs[n..] == ys[n..]
    ensures multiset(xs[..n]) == multiset(ys[..n])
    ensures xs == xs[..n] + xs[n..] && ys == ys[..n] + ys[n..]
  {
    assert xs == xs[..n] + xs[n..] && ys == ys[..n] + ys[n..];
    assert multiset(xs[..n]) == multiset(xs) - multiset(xs[n..]);
    assert multiset(ys[..n]) == multiset(ys) - multiset(ys[n..]);
  }

  lemma SameButFirst<T>(xs: seq<T>, ys: seq<T>, n: nat)
    requires n <= |xs| == |ys| && n <= 1 && multiset(xs) == multiset(ys) && xs[n..] == ys[n..]
    ensures xs == ys
  {
    SameFront(xs, ys, n);
    if n == 1 {
      assert xs[..1] == [xs[0]] && ys[..1] == [ys[0]];
      assert xs[0] in multiset(ys[..1]);
    }
  }

  lemma LastPlaced<T>(xs: seq<T>, ys: seq<T>, n: nat, j: nat)
    requires j < n <= |xs| == |ys| && xs[n..] == ys[n..] && xs[j] == ys[n - 1]
    ensures Swapped(xs, n - 1, j)[n - 1..] == ys[n - 1..]
  {
    var zs := Swapped(xs, n - 1, j);
    assert zs[n..] == xs[n..];
    assert zs[n - 1..] == [zs[n - 1]] + zs[n..] && ys[n - 1..] == [ys[n - 1]] + ys[n..];
  }

  /** Among the first `n` items there is the one that belongs at place `n - 1`. */
  lemma PlaceOf<T>(xs: seq<T>, ys: seq<T>, n: nat) returns (j: nat)
    requires 0 < n <= |xs| == |ys| && multiset(xs) == multiset(ys) && xs[n..] == ys[n..]
    ensures j < n && xs[j] == ys[n - 1]
  {
    SameFront(xs, ys, n);
    assert ys[n - 1] in ys[..n];
    assert ys[n - 1] in multiset(xs[..n]);
    j :| 0 <= j < n && xs[..n][j] == ys[n - 1];
  }

  function KeySet(fs: seq<Field>): set<string> {
    set i | 0 <= i < |fs| :: fs[i].key
  }

  /** `w` is `v` with the keys of its objects, at every depth, in some other order. */
  ghost predicate Shuffled(v: Value, w: Value)
    decreases v
  {
    match v
    case Arr(xs) =>
      w.Arr? && |w.items| == |xs| && forall i :: 0 <= i < |xs| ==> Shuffled(xs[i], w.items[i])
    case Obj(fs) =>
      && w.Obj? && UniqueKeys(w.fields) && |w.fields| == |fs| && KeySet(w.fields) == KeySet(fs)
      && forall i, j :: 0 <= i < |fs| && 0 <= j < |w.fields| && fs[i].key == w.fields[j].key ==>
           Shuffled(fs[i].val, w.fields[j].val)
    case _ => w == v
  }

  /** `shuffle_object_keys`. */
  method ShuffleObjectKeys(v: Value, rng: Rng) returns (w: Value)
    requires WellFormed(v)
    modifies rng
    ensures Shuffled(v, w)
    ensures v.Obj? ==>
              && w.Obj? && Draws(|v.fields|) <= rng.drawn
              && KeysOf(w.fields) ==
                 Drawn(KeysOf(v.fields), |v.fields|, rng.stream, rng.drawn - Draws(|v.fields|))
    decreases v
  {
    hide Drawn;
    match v {
      case Obj(fs) =>
        var children: seq<Field> := [];
        while |children| < |fs|
          invariant |children| <= |fs|
          invariant forall i :: 0 <= i < |children| ==>
                      children[i].key == fs[i].key && Shuffled(fs[i].val, children[i].val)
        {
          var c := ShuffleObjectKeys(fs[|children|].val, rng);
          children := children + [Field(fs[|children|].key, c)];
        }
        var entries := new Field[|children|](i requires 0 <= i < |children| => children[i]);
        assert entries[..] == children;
        ghost var d := rng.drawn;
        FisherYates(entries, rng);
        DrawnKeys(children, |children|, rng.stream, d);
        assert KeysOf(children) == KeysOf(fs);
        var reordered := entries[..];
        UniqueKeysPermute(children, reordered);
        var out := Collected(reordered);
        w := Obj(out);
        ObjectShuffled(fs, children, w.fields);
      case Arr(xs) =>
        var out: seq<Value> := [];
        while |out| < |xs|
          invariant |out| <= |xs| && forall i :: 0 <= i < |out| ==> Shuffled(xs[i], out[i])
        {
          var c := ShuffleObjectKeys(xs[|out|], rng);
          out := out + [c];
        }
        w := Arr(out);
      case _ =>
        w := v;
    }
  }

  /** Insert the entries into an empty map, one by one. */
  method Collected(entries: seq<Field>) returns (out: seq<Field>)
    requires UniqueKeys(entries)
    ensures out == entries
  {
    out := [];
    var k := 0;
    while k < |entries|
      invariant 0 <= k <= |entries| && out == entries[..k]
    {
      PutAppends(entries[..k], entries[k]);
      out := Put(out, entries[k].key, entries[k].val);
      k := k + 1;
    }
  }

  lemma UniqueKeysPermute(fs: seq<Field>, gs: seq<Field>)
    requires UniqueKeys(fs) && multiset(fs) == multiset(gs)
    ensures UniqueKeys(gs) && |gs| == |fs|
  {
    assert |multiset(fs)| == |multiset(gs)|;
    SameMultisetSameElements(fs, gs);
    forall i, j | 0 <= i < j < |gs|
      ensures gs[i].key != gs[j].key
    {
      assert gs[i] in fs && gs[j] in fs;
      if gs[i].key == gs[j].key {
        RepeatCountsTwice(gs, i, j);
        var k :| 0 <= k < |fs| && fs[k] == gs[i];
        CountsOnce(fs, k);
      }
    }
  }

  lemma {:induction false} PutAppends(fs: seq<Field>, f: Field)
    requires forall i :: 0 <= i < |fs| ==> fs[i].key != f.key
    ensures Put(fs, f.key, f.val) == fs + [f]
  {
    if fs != [] {
      PutAppends(fs[1..], f);
      assert fs + [f] == [fs[0]] + (fs[1..] + [f]);
    }
  }

  lemma ObjectShuffled(fs: seq<Field>, children: seq<Field>, out: seq<Field>)
    requires UniqueKeys(fs) && |children| == |fs| && UniqueKeys(out) && multiset(out) == multiset(children)
    requires |out| == |fs|
    requires forall i :: 0 <= i < |fs| ==> children[i].key == fs[i].key && Shuffled(fs[i].val, children[i].val)
    ensures Shuffled(Obj(fs), Obj(out))
  {
    SameMultisetSameElements(children, out);
    forall key
      ensures key in KeySet(fs) <==> key in KeySet(out)
    {
      if key in KeySet(fs) {
        var i :| 0 <= i < |fs| && fs[i].key == key;
        assert children[i] in out;
      }
      if key in KeySet(out) {
        var j :| 0 <= j < |out| && out[j].key == key;
        assert out[j] in children;
      }
    }
    forall i, j | 0 <= i < |fs| && 0 <= j < |out| && fs[i].key == out[j].key
      ensures Shuffled(fs[i].val, out[j].val)
    {
      assert out[j] in children;
      var k :| 0 <= k < |children| && children[k] == out[j];
      assert fs[k].key == fs[i].key;
    }
  }

  /** A shuffled object has the same members, each shuffled in turn. */
  lemma ShuffledStep(v: Value, w: Value, seg: Segment)
    requires Shuffled(v, w)
    ensures Step(v, seg).None? <==> Step(w, seg).None?
    ensures Step(v, seg).Some? ==> Shuffled(Step(v, seg).value, Step(w, seg).value)
  {
    if v.Obj? && seg.Name? {
      FindByKeySet(v.fields, seg.key);
      FindByKeySet(w.fields, seg.key);
      if Find(v.fields, seg.key).Some? {
        var i :| 0 <= i < |v.fields| && v.fields[i] == Field(seg.key, Find(v.fields, seg.key).value);
        var j :| 0 <= j < |w.fields| && w.fields[j] == Field(seg.key, Find(w.fields, seg.key).value);
      }
    }
  }

  lemma FindByKeySet(fs: seq<Field>, key: string)
    ensures Find(fs, key).Some? <==> key in KeySet(fs)
    ensures Find(fs, key).Some? ==> exists i :: 0 <= i < |fs| && fs[i] == Field(key, Find(fs, key).value)
  {
    FindIsField(fs, key);
  }

  /** Shuffling changes no lookup: a path reads in the shuffled value exactly if it read before, and what it
      reads is what it read before, shuffled. */
  lemma {:induction false} ShuffledGet(v: Value, w: Value, path: Path)
    requires Shuffled(v, w)
    ensures GetAt(v, path).None? <==> GetAt(w, path).None?
    ensures GetAt(v, path).Some? ==> Shuffled(GetAt(v, path).value, GetAt(w, path).value)
    decreases |path|
  {
    if path != [] {
      ShuffledStep(v, w, path[0]);
      if Step(v, path[0]).Some? {
        ShuffledGet(Step(v, path[0]).value, Step(w, path[0]).value, path[1..]);
      }
    }
  }
}
