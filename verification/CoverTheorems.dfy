/** When a covered packet gives its content back: the exact condition, and the round trip for every random stream. */
module CoverTheorems {
  import opened Base
  import opened Cover
  import opened Json
  import opened Shuffle

  // ── reading after several writes ────────────────────────────────────────

  /** A written path still reads its leaf if every later write is independent of it or repeats it. */
  lemma {:induction false} ReadAfterWrites(v: Value, ws: seq<Write>, i: nat)
    requires SetAll(v, ws).1 && i < |ws|
    requires forall j :: i < j < |ws| ==> Independent(ws[j].path, ws[i].path) || ws[j] == ws[i]
    ensures GetAt(SetAll(v, ws).0, ws[i].path) == Some(ws[i].leaf)
    decreases |ws|
  {
    var n := |ws| - 1;
    var before := SetAll(v, ws[..n]).0;
    if i == n || ws[n] == ws[i] {
      ReadWritten(before, ws[n].path, ws[n].leaf, ws[n].path);
      assert ws[n].path[|ws[n].path|..] == [];
    } else {
      ReadAfterWrites(v, ws[..n], i);
      ReadIndependent(before, ws[n].path, ws[n].leaf, ws[i].path);
    }
  }

  /** If later writes are independent or go to the same path, the path reads the leaf of one of them. */
  lemma {:induction false} ReadsSomeWrite(v: Value, ws: seq<Write>, i: nat) returns (j: nat)
    requires SetAll(v, ws).1 && i < |ws|
    requires forall j :: i < j < |ws| ==> Independent(ws[j].path, ws[i].path) || ws[j].path == ws[i].path
    ensures i <= j < |ws| && ws[j].path == ws[i].path
    ensures GetAt(SetAll(v, ws).0, ws[i].path) == Some(ws[j].leaf)
    decreases |ws|
  {
    var n := |ws| - 1;
    var before := SetAll(v, ws[..n]).0;
    if i == n || ws[n].path == ws[i].path {
      j := n;
      ReadWritten(before, ws[n].path, ws[n].leaf, ws[n].path);
      assert ws[n].path[|ws[n].path|..] == [];
    } else {
      j := ReadsSomeWrite(v, ws[..n], i);
      ReadIndependent(before, ws[n].path, ws[n].leaf, ws[i].path);
    }
  }

  /** Key order has no influence on what a carrier reads. */
  lemma ShuffledRead(c: Codec, tree: Value, body: Value, path: string)
    requires Shuffled(tree, body)
    ensures ReadCarrier(c, body, path) == ReadCarrier(c, tree, path)
  {
    ShuffledGet(tree, body, ParsePath(path));
  }

  lemma ShuffledExtract(c: Codec, carriers: seq<string>, tree: Value, body: Value)
    requires Shuffled(tree, body)
    ensures Extracted(c, carriers, body) == Extracted(c, carriers, tree)
  {
    hide ReadCarrier;
    forall i | 0 <= i < |carriers|
      ensures ReadCarrier(c, body, carriers[i]) == ReadCarrier(c, tree, carriers[i])
    {
      ShuffledRead(c, tree, body, carriers[i]);
    }
    assert Readings(c, carriers, body) == Readings(c, carriers, tree);
  }

  // ── the exact condition ─────────────────────────────────────────────────

  /** The optional fields that were included cannot disturb a carrier. */
  ghost predicate ExtrasHarmless(carriers: seq<string>, extras: seq<Write>) {
    forall e, i :: 0 <= e < |extras| && 0 <= i < |carriers| ==> Independent(extras[e].path, ParsePath(carriers[i]))
  }

  /** A later carrier is independent of an earlier one, or repeats its path with the same chunk. */
  ghost predicate Consistent(carriers: seq<string>, chunks: seq<Bytes>)
    requires |carriers| == |chunks|
  {
    forall i, j :: 0 <= i < j < |carriers| ==>
      if ParsePath(carriers[i]) == ParsePath(carriers[j]) then chunks[i] == chunks[j]
      else Independent(ParsePath(carriers[j]), ParsePath(carriers[i]))
  }

  /** What a schema's author can check: every carrier leaves the earlier ones alone. */
  ghost predicate Separate(carriers: seq<string>) {
    forall i, j :: 0 <= i < j < |carriers| ==> Independent(ParsePath(carriers[j]), ParsePath(carriers[i]))
  }

  lemma SeparateConsistent(carriers: seq<string>, chunks: seq<Bytes>)
    requires |carriers| == |chunks| && Separate(carriers)
    ensures Consistent(carriers, chunks)
  {
    forall i, j | 0 <= i < j < |carriers|
      ensures ParsePath(carriers[i]) != ParsePath(carriers[j])
    {
      PathsRelate(ParsePath(carriers[j]), ParsePath(carriers[i]));
    }
  }

  lemma CarrierReads(c: Codec, s: Schema, sealed: Bytes, m: Making, body: Value, i: nat)
    requires Lawful(c) && MadeBy(c, s, sealed, m, body) && ExtrasHarmless(s.carriers, m.extras)
    requires Consistent(s.carriers, m.chunks) && i < |s.carriers|
    ensures ReadCarrier(c, m.tree, s.carriers[i]) == Some(m.chunks[i])
  {
    hide ParsePath, Independent, Shuffled, SetAll;
    var ws := CarrierWrites(c, s.carriers, m.chunks) + m.extras;
    ReadAfterWrites(s.template, ws, i);
  }

  lemma ConsistentExtracts(c: Codec, s: Schema, sealed: Bytes, m: Making, body: Value)
    requires Lawful(c) && MadeBy(c, s, sealed, m, body) && ExtrasHarmless(s.carriers, m.extras)
    requires Consistent(s.carriers, m.chunks)
    ensures Extracted(c, s.carriers, body) == Some(sealed)
  {
    hide ParsePath, Independent, ReadCarrier;
    forall i | 0 <= i < |s.carriers|
      ensures ReadCarrier(c, m.tree, s.carriers[i]) == Some(m.chunks[i])
    {
      CarrierReads(c, s, sealed, m, body, i);
    }
    assert Readings(c, s.carriers, m.tree) == m.chunks;
    ShuffledExtract(c, s.carriers, m.tree, body);
  }

  lemma {:induction false} DominatedLength(xs: seq<Bytes>, ys: seq<Bytes>)
    requires |xs| == |ys| && forall k :: 0 <= k < |xs| ==> |xs[k]| <= |ys[k]|
    ensures |Concat(xs)| <= |Concat(ys)|
  {
    if xs != [] {
      DominatedLength(xs[1..], ys[1..]);
    }
  }

  /** Equal concatenations of dominated parts have equal parts. */
  lemma {:induction false} DominatedEqual(xs: seq<Bytes>, ys: seq<Bytes>)
    requires |xs| == |ys| && (forall k :: 0 <= k < |xs| ==> |xs[k]| <= |ys[k]|) && Concat(xs) == Concat(ys)
    ensures xs == ys
  {
    if xs != [] {
      DominatedLength(xs[1..], ys[1..]);
      assert Concat(xs)[..|xs[0]|] == xs[0] && Concat(ys)[..|ys[0]|] == ys[0];
      assert Concat(xs)[|xs[0]|..] == Concat(xs[1..]) && Concat(ys)[|ys[0]|..] == Concat(ys[1..]);
      DominatedEqual(xs[1..], ys[1..]);
    }
  }

  /** Carriers that all read strings from one tree have equal or independent paths. */
  lemma ReadableCarriers(c: Codec, carriers: seq<string>, tree: Value, i: nat, j: nat)
    requires Readable(c, carriers, tree) && i < |carriers| && j < |carriers|
    ensures ParsePath(carriers[i]) == ParsePath(carriers[j])
            || Independent(ParsePath(carriers[j]), ParsePath(carriers[i]))
  {
    assert ReadCarrier(c, tree, carriers[i]).Some? && ReadCarrier(c, tree, carriers[j]).Some?;
    ReadableTogether(tree, ParsePath(carriers[i]), ParsePath(carriers[j]));
  }

  /** Each carrier reads its own chunk or that of a later carrier with the same path. */
  lemma ReadsLaterChunk(c: Codec, s: Schema, sealed: Bytes, m: Making, body: Value, i: nat)
    requires Lawful(c) && MadeBy(c, s, sealed, m, body) && ExtrasHarmless(s.carriers, m.extras)
    requires Readable(c, s.carriers, m.tree) && i < |s.carriers|
    ensures exists j :: i <= j < |s.carriers| && ReadCarrier(c, m.tree, s.carriers[i]) == Some(m.chunks[j])
  {
    hide ParsePath, Independent, Shuffled, SetAll, Readable;
    var n := |s.carriers|;
    var ws := CarrierWrites(c, s.carriers, m.chunks) + m.extras;
    forall j | i < j < |ws|
      ensures Independent(ws[j].path, ws[i].path) || ws[j].path == ws[i].path
    {
      if j < n {
        ReadableCarriers(c, s.carriers, m.tree, i, j);
      }
    }
    var j := ReadsSomeWrite(s.template, ws, i);
    PathsRelate(ws[j].path, ws[i].path);
    assert j < n;
    assert ReadCarrier(c, m.tree, s.carriers[i]) == Some(m.chunks[j]);
  }

  lemma SamePathReads(c: Codec, tree: Value, a: string, b: string)
    requires ParsePath(a) == ParsePath(b)
    ensures ReadCarrier(c, tree, a) == ReadCarrier(c, tree, b)
  {
  }

  lemma ExtractsConsistent(c: Codec, s: Schema, sealed: Bytes, m: Making, body: Value)
    requires Lawful(c) && MadeBy(c, s, sealed, m, body) && ExtrasHarmless(s.carriers, m.extras)
    requires Extracted(c, s.carriers, body) == Some(sealed)
    ensures Consistent(s.carriers, m.chunks)
  {
    hide ParsePath, Independent, Shuffled, SetAll, Lawful, FromOptionals, ReadCarrier, ExtrasHarmless;
    ShuffledExtract(c, s.carriers, m.tree, body);
    var rs := Readings(c, s.carriers, m.tree);
    forall k | 0 <= k < |rs|
      ensures |rs[k]| <= |m.chunks[k]|
    {
      ReadsLaterChunk(c, s, sealed, m, body, k);
    }
    DominatedEqual(rs, m.chunks);
    forall i, j | 0 <= i < j < |s.carriers|
      ensures if ParsePath(s.carriers[i]) == ParsePath(s.carriers[j]) then m.chunks[i] == m.chunks[j]
              else Independent(ParsePath(s.carriers[j]), ParsePath(s.carriers[i]))
    {
      ReadableCarriers(c, s.carriers, m.tree, i, j);
      if ParsePath(s.carriers[i]) == ParsePath(s.carriers[j]) {
        SamePathReads(c, m.tree, s.carriers[i], s.carriers[j]);
      }
      assert rs[i] == m.chunks[i] && rs[j] == m.chunks[j];
    }
  }

  /** A packet whose optional fields are harmless gives the sealed bytes back exactly if its carriers are
      consistent. */
  lemma ExtractIff(c: Codec, s: Schema, sealed: Bytes, m: Making, body: Value)
    requires Lawful(c) && MadeBy(c, s, sealed, m, body) && ExtrasHarmless(s.carriers, m.extras)
    ensures Extracted(c, s.carriers, body) == Some(sealed) <==> Consistent(s.carriers, m.chunks)
  {
    if Consistent(s.carriers, m.chunks) {
      ConsistentExtracts(c, s, sealed, m, body);
    }
    if Extracted(c, s.carriers, body) == Some(sealed) {
      ExtractsConsistent(c, s, sealed, m, body);
    }
  }

  // ── the round trip ──────────────────────────────────────────────────────

  /** What a profile's author can check: in every schema the carriers leave each other alone, and the optional
      fields leave the carriers alone. */
  ghost predicate Sound(s: Schema) {
    && Separate(s.carriers)
    && forall k, i :: 0 <= k < |s.optionals| && 0 <= i < |s.carriers| ==>
         Independent(ParsePath(s.optionals[k].path), ParsePath(s.carriers[i]))
  }

  lemma SoundExtracts(c: Codec, s: Schema, sealed: Bytes, m: Making, body: Value)
    requires Lawful(c) && MadeBy(c, s, sealed, m, body) && Sound(s)
    ensures Extracted(c, s.carriers, body) == Some(sealed)
  {
    hide ParsePath, Independent, Extracted, SetAll, Shuffled;
    SeparateConsistent(s.carriers, m.chunks);
    assert ExtrasHarmless(s.carriers, m.extras);
    ConsistentExtracts(c, s, sealed, m, body);
  }

  /** Ideal authentication: whatever a schema reads from this packet opens only if it is the sealed bytes. */
  ghost predicate Unforged(c: Codec, key: Bytes, schemas: seq<Schema>, body: Value, sealed: Bytes) {
    forall k :: 0 <= k < |schemas| ==> Genuine(c, key, schemas[k], body, sealed)
  }

  ghost predicate Genuine(c: Codec, key: Bytes, s: Schema, body: Value, sealed: Bytes) {
    Opens(c, key, s, body) ==> Extracted(c, s.carriers, body) == Some(sealed)
  }

  /** Unless something forged opens, a packet gives its content back exactly if some schema reads the sealed
      bytes from it, whichever schema made it. */
  method WrapThenUnwrap(c: Codec, p: Profile, kind: string, inner: Bytes, rng: Rng)
    returns (packet: Result<Value>, back: Result<Bytes>, ghost idx: nat, ghost sealed: Bytes, ghost m: Making)
    requires Lawful(c) && Valid(c, p) && Parsed(p)
    modifies rng
    ensures packet.Ok? ==>
              && kind in p.kinds && idx < |p.kinds[kind].schemas|
              && MadeBy(c, p.kinds[kind].schemas[idx], sealed, m, packet.value)
    ensures packet.Ok? && Unforged(c, CoverKey(c, p).value, p.kinds[kind].schemas, packet.value, sealed) ==>
              (back == Ok(inner) <==> SomeSchemaReads(c, p.kinds[kind].schemas, packet.value, sealed))
    ensures packet.Ok? && Unforged(c, CoverKey(c, p).value, p.kinds[kind].schemas, packet.value, sealed)
              && Sound(p.kinds[kind].schemas[idx]) ==>
              back == Ok(inner)
  {
    hide MadeBy, Extracted, OpenSealed, Sound, Valid, Parsed, Lawful;
    back := Err(NoVariant);
    packet, idx, sealed, m := Wrap(c, p, kind, inner, rng);
    if packet.Err? {
      return;
    }
    ghost var k;
    back, k := Unwrap(c, p, kind, packet.value);
    ghost var schemas := p.kinds[kind].schemas;
    KeyThere(c, p);
    ghost var key := CoverKey(c, p).value;
    if Unforged(c, key, schemas, packet.value, sealed) {
      UnwrapFinds(c, key, schemas, packet.value, sealed, inner, back, k);
      if Sound(schemas[idx]) {
        SoundExtracts(c, schemas[idx], sealed, m, packet.value);
        assert Reads(c, schemas[idx], packet.value, sealed);
      }
    }
  }

  lemma KeyThere(c: Codec, p: Profile)
    requires Valid(c, p)
    ensures CoverKey(c, p).Some?
  {
  }

  ghost predicate Reads(c: Codec, s: Schema, body: Value, sealed: Bytes) {
    Extracted(c, s.carriers, body) == Some(sealed)
  }

  ghost predicate SomeSchemaReads(c: Codec, schemas: seq<Schema>, body: Value, sealed: Bytes) {
    exists k :: 0 <= k < |schemas| && Reads(c, schemas[k], body, sealed)
  }

  lemma UnwrapFinds(c: Codec, key: Bytes, schemas: seq<Schema>, body: Value, sealed: Bytes, inner: Bytes,
                    back: Result<Bytes>, k: nat)
    requires OpenSealed(c, key, sealed) == Some(inner) && Unforged(c, key, schemas, body, sealed)
    requires back.Ok? ==> k < |schemas| && OpensAs(c, key, schemas[k], body, back.value)
    requires back.Err? ==> forall i :: 0 <= i < |schemas| ==> !Opens(c, key, schemas[i], body)
    ensures back == Ok(inner) <==> SomeSchemaReads(c, schemas, body, sealed)
  {
    hide Extracted, OpenSealed;
    if back.Ok? {
      assert Opens(c, key, schemas[k], body) && Genuine(c, key, schemas[k], body, sealed);
      assert Reads(c, schemas[k], body, sealed);
    }
    forall i | 0 <= i < |schemas| && Reads(c, schemas[i], body, sealed)
      ensures Opens(c, key, schemas[i], body)
    {
      assert OpensAs(c, key, schemas[i], body, inner);
    }
  }

  // ── a valid profile is not enough ───────────────────────────────────────

  const OVERLAPPING: Schema := Schema(Obj([]), ["a.b", "a"], [])

  function OverlappingProfile(c: Codec): Profile {
    Profile("shop", c.enc(seq(COVER_KEY_LEN, i => 0 as Byte)), map["push" := KindSpec("/orders", [OVERLAPPING])])
  }

  /** `validate` accepts a profile with a carrier inside another carrier. Its packets can always be built, and
      never give anything back. */
  lemma ValidateIsNotEnough(c: Codec)
    requires Lawful(c)
    ensures Valid(c, OverlappingProfile(c)) && Parsed(OverlappingProfile(c))
    ensures forall chunks :: |chunks| == 2 ==>
              SetAll(OVERLAPPING.template, CarrierWrites(c, OVERLAPPING.carriers, chunks)).1
    ensures forall sealed, m, body :: MadeBy(c, OVERLAPPING, sealed, m, body) ==>
              Extracted(c, OVERLAPPING.carriers, body) == None
  {
    OverlappingPaths();
    OverlappingIsValid(c);
    forall chunks: seq<Bytes> | |chunks| == 2
      ensures SetAll(OVERLAPPING.template, CarrierWrites(c, OVERLAPPING.carriers, chunks)).1
    {
      OverlappingBuilds(c, chunks);
    }
    forall sealed, m, body | MadeBy(c, OVERLAPPING, sealed, m, body)
      ensures Extracted(c, OVERLAPPING.carriers, body) == None
    {
      ShuffledExtract(c, OVERLAPPING.carriers, m.tree, body);
      if Readable(c, OVERLAPPING.carriers, m.tree) {
        ReadableCarriers(c, OVERLAPPING.carriers, m.tree, 0, 1);
      }
    }
  }

  lemma OverlappingPaths()
    ensures ParsePath("a.b") == [Name("a"), Name("b")] && ParsePath("a") == [Name("a")]
    ensures !Independent(ParsePath("a"), ParsePath("a.b"))
  {
    SplitCons('b', "");
    SplitCons('a', "");
    assert ['b'] + "" == "b" && ['a'] + "" == "a";
    assert Split("b") == ["b"] && Split("a") == ["a"];
    assert ".b"[1..] == "b";
    assert Split(".b") == ["", "b"];
    SplitCons('a', ".b");
    assert ['a'] + ".b" == "a.b";
    assert Split("a.b") == ["a", "b"];
    OneLetter('a');
    OneLetter('b');
    assert ParsePath("a.b") == [Name("a"), Name("b")];
  }

  lemma SplitCons(ch: char, rest: string)
    requires ch != '.'
    ensures Split([ch] + rest) == [[ch] + Split(rest)[0]] + Split(rest)[1..]
  {
    assert ([ch] + rest)[1..] == rest;
  }

  lemma OneLetter(ch: char)
    requires !IsDigit(ch) && ch != '+'
    ensures ParseSegment([ch]) == Name([ch])
  {
    var seg := [ch];
    assert seg[0] == ch && WithoutPlus(seg) == seg;
    assert !AllDigits(seg);
  }

  lemma OverlappingIsValid(c: Codec)
    requires Lawful(c)
    ensures Valid(c, OverlappingProfile(c)) && Parsed(OverlappingProfile(c))
  {
    assert !Blank("shop") by {
      assert "shop"[0] == 's';
    }
    assert "push" in OverlappingProfile(c).kinds;
  }

  lemma OverlappingBuilds(c: Codec, chunks: seq<Bytes>)
    requires |chunks| == 2
    ensures SetAll(OVERLAPPING.template, CarrierWrites(c, OVERLAPPING.carriers, chunks)).1
  {
    OverlappingPaths();
    var ws := CarrierWrites(c, OVERLAPPING.carriers, chunks);
    assert ws == [ws[0]] + [ws[1]];
    SetThroughKeys(Obj([]), ws[0].path, ws[0].leaf);
    assert [] + [ws[0]] == [ws[0]];
    SetAllSnoc(Obj([]), [], ws[0]);
    SetAllSnoc(Obj([]), [ws[0]], ws[1]);
    SetThroughKeys(SetAll(Obj([]), [ws[0]]).0, ws[1].path, ws[1].leaf);
  }

  /** A path without indices can always be written. */
  lemma {:induction false} SetThroughKeys(v: Value, p: Path, leaf: Value)
    requires forall i :: 0 <= i < |p| ==> p[i].Name?
    ensures SetAt(v, p, leaf).1
    decreases |p|
  {
    if p != [] {
      SetThroughKeys(Find(EnsureObject(v), p[0].key).GetOr(Obj([])), p[1..], leaf);
    }
  }
}
