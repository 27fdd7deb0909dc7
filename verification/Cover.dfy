/** Hiding sealed bytes in the carrier fields of a plausible JSON packet, and finding them again. */
module Cover {
  import opened Base
  import opened Json
  import opened Shuffle

  const NONCE_LEN: nat := 12
  const COVER_KEY_LEN: nat := 32
  const MAX_SCHEMAS_PER_KIND: nat := 10

  /** Base64 and the AEAD cipher, of which only the round trips matter. */
  datatype Codec = Codec(
    enc: Bytes -> string,
    dec: string -> Option<Bytes>,
    encrypt: (Bytes, Bytes, Bytes) -> Bytes,
    decrypt: (Bytes, Bytes, Bytes) -> Option<Bytes>)

  ghost predicate Lawful(c: Codec) {
    && (forall b :: c.dec(c.enc(b)) == Some(b))
    && (forall key, nonce, plain :: |key| == COVER_KEY_LEN && |nonce| == NONCE_LEN ==>
          c.decrypt(key, nonce, c.encrypt(key, nonce, plain)) == Some(plain))
  }

  datatype OptionalField = OptionalField(path: string, val: Value)

  datatype Schema = Schema(template: Value, carriers: seq<string>, optionals: seq<OptionalField>)

  datatype KindSpec = KindSpec(path: string, schemas: seq<Schema>)

  datatype Profile = Profile(name: string, coverKeyB64: string, kinds: map<string, KindSpec>)

  function CoverKey(c: Codec, p: Profile): Option<Bytes> {
    match c.dec(p.coverKeyB64)
    case Some(raw) => if |raw| == COVER_KEY_LEN then Some(raw) else None
    case None => None
  }

  /** Unicode's White_Space, which `trim` takes off. */
  predicate WhiteSpace(ch: char) {
    || '\U{0009}' <= ch <= '\U{000D}' || ch in {'\U{0020}', '\U{0085}', '\U{00A0}', '\U{1680}'}
    || '\U{2000}' <= ch <= '\U{200A}' || ch in {'\U{2028}', '\U{2029}', '\U{202F}', '\U{205F}', '\U{3000}'}
  }

  predicate Blank(s: string) {
    forall i :: 0 <= i < |s| ==> WhiteSpace(s[i])
  }

  predicate ValidKind(spec: KindSpec) {
    && spec.path != "" && spec.path[0] == '/'
    && 1 <= |spec.schemas| <= MAX_SCHEMAS_PER_KIND
    && forall i :: 0 <= i < |spec.schemas| ==> spec.schemas[i].carriers != []
  }

  /** `MaskingProfile::validate`. */
  predicate Valid(c: Codec, p: Profile) {
    && !Blank(p.name) && CoverKey(c, p).Some? && p.kinds != map[]
    && forall kind :: kind in p.kinds ==> ValidKind(p.kinds[kind])
  }

  /** What a valid profile has: a name, a key of the right length, and for each kind a path and between one and ten
      schemas, each with a carrier. */
  lemma ValidMeans(c: Codec, p: Profile)
    ensures Valid(c, p) <==>
              && (exists ch :: ch in p.name && !WhiteSpace(ch))
              && c.dec(p.coverKeyB64).Some? && |c.dec(p.coverKeyB64).value| == 32
              && p.kinds.Keys != {}
              && forall spec :: spec in p.kinds.Values ==>
                   "/" <= spec.path && 0 < |spec.schemas| <= 10 && forall s :: s in spec.schemas ==> 0 < |s.carriers|
  {
    assert Blank(p.name) <==> !exists ch :: ch in p.name && !WhiteSpace(ch);
    assert p.kinds == map[] <==> p.kinds.Keys == {};
    forall spec
      ensures ValidKind(spec) <==>
                "/" <= spec.path && 0 < |spec.schemas| <= 10 && forall s :: s in spec.schemas ==> 0 < |s.carriers|
    {
      assert "/" <= spec.path <==> spec.path != "" && spec.path[0] == '/';
    }
  }

  /** The checks as they are made: the name, the key, and then kind by kind in any order. */
  method Validate(c: Codec, p: Profile) returns (r: Result<()>)
    ensures r.Err? ==> r.error == BadProfile
    ensures r.Ok? <==> Valid(c, p)
  {
    if Blank(p.name) || CoverKey(c, p).None? || p.kinds == map[] {
      return Err(BadProfile);
    }
    var rest := p.kinds.Keys;
    while rest != {}
      invariant rest <= p.kinds.Keys
      invariant forall kind :: kind in p.kinds && kind !in rest ==> ValidKind(p.kinds[kind])
      decreases |rest|
    {
      var kind :| kind in rest;
      var spec := p.kinds[kind];
      if spec.path == "" || spec.path[0] != '/' || spec.schemas == [] || |spec.schemas| > MAX_SCHEMAS_PER_KIND {
        return Err(BadProfile);
      }
      for i := 0 to |spec.schemas|
        invariant forall j :: 0 <= j < i ==> spec.schemas[j].carriers != []
      {
        if spec.schemas[i].carriers == [] {
          return Err(BadProfile);
        }
      }
      rest := rest - {kind};
    }
    r := Ok(());
  }

  /** A parsed JSON document cannot hold a key twice. */
  ghost predicate Parsed(p: Profile) {
    forall kind :: kind in p.kinds ==>
      forall i :: 0 <= i < |p.kinds[kind].schemas| ==> ParsedSchema(p.kinds[kind].schemas[i])
  }

  ghost predicate ParsedSchema(s: Schema) {
    WellFormed(s.template) && forall i :: 0 <= i < |s.optionals| ==> WellFormed(s.optionals[i].val)
  }

  // ── envelope ────────────────────────────────────────────────────────────

  function OpenSealed(c: Codec, key: Bytes, sealed: Bytes): Option<Bytes> {
    if |sealed| < NONCE_LEN then None else c.decrypt(key, sealed[..NONCE_LEN], sealed[NONCE_LEN..])
  }

  method Seal(c: Codec, key: Bytes, plain: Bytes, rng: Rng) returns (sealed: Bytes)
    requires Lawful(c) && |key| == COVER_KEY_LEN
    modifies rng
    ensures OpenSealed(c, key, sealed) == Some(plain)
  {
    var nonce := rng.FillBytes(NONCE_LEN);
    var ciphertext := c.encrypt(key, nonce, plain);
    sealed := nonce + ciphertext;
    assert sealed[..NONCE_LEN] == nonce && sealed[NONCE_LEN..] == ciphertext;
  }

  // ── splitting ───────────────────────────────────────────────────────────

  /** Later chunks are never longer than earlier ones, and at most one byte shorter. */
  ghost predicate Even(chunks: seq<Bytes>) {
    forall i, j :: 0 <= i < j < |chunks| ==> |chunks[j]| <= |chunks[i]| <= |chunks[j]| + 1
  }

  /** Where chunk `i` starts when the first `rem` chunks hold one byte more than `base`. */
  function Cut(base: nat, rem: nat, i: nat): nat { i * base + Min(i, rem) }

  lemma CutSteps(base: nat, rem: nat, i: nat)
    ensures Cut(base, rem, i + 1) == Cut(base, rem, i) + base + if i < rem then 1 else 0
  {
    assert (i + 1) * base == i * base + base;
  }

  lemma CutEnds(size: nat, n: nat, i: nat)
    requires 0 < n && i <= n
    ensures Cut(Quotient(size, n), Remainder(size, n), i) <= size
    ensures Cut(Quotient(size, n), Remainder(size, n), n) == size && Cut(Quotient(size, n), Remainder(size, n), 0) == 0
  {
    var base, rem := Quotient(size, n), Remainder(size, n);
    DivMod(size, n);
    hide Quotient, Remainder;
    assert n * base == i * base + (n - i) * base;
  }

  function Quotient(a: nat, b: nat): nat
    requires b > 0
  {
    a / b
  }

  function Remainder(a: nat, b: nat): nat
    requires b > 0
  {
    a % b
  }

  lemma DivMod(a: nat, b: nat)
    requires b > 0
    ensures a == b * Quotient(a, b) + Remainder(a, b) && Remainder(a, b) < b
  {
  }

  method SplitBytes(data: Bytes, n: nat) returns (chunks: seq<Bytes>)
    ensures |chunks| == n && Even(chunks)
    ensures n > 0 ==> Concat(chunks) == data
  {
    chunks := [];
    if n == 0 {
      return;
    }
    hide Cut, Quotient, Remainder;
    var base, rem := Quotient(|data|, n), Remainder(|data|, n);
    var pos, i := 0, 0;
    CutEnds(|data|, n, 0);
    while i < n
      invariant 0 <= i <= n && |chunks| == i
      invariant pos == Cut(base, rem, i) && pos <= |data|
      invariant forall k :: 0 <= k < i ==> |chunks[k]| == base + if k < rem then 1 else 0
      invariant Concat(chunks) == data[..pos]
    {
      CutSteps(base, rem, i);
      CutEnds(|data|, n, i + 1);
      var extra := if i < rem then 1 else 0;
      var end := Min(pos + base + extra, |data|);
      ConcatSnoc(chunks, data[pos..end]);
      assert data[..pos] + data[pos..end] == data[..end];
      chunks := chunks + [data[pos..end]];
      pos := end;
      i := i + 1;
    }
    assert data[..pos] == data;
  }

  // ── building ────────────────────────────────────────────────────────────

  datatype Write = Write(path: Path, leaf: Value)

  /** The writes applied in order, until one fails. */
  function SetAll(v: Value, writes: seq<Write>): (Value, bool)
    decreases |writes|
  {
    if writes == [] then (v, true)
    else
      var n := |writes| - 1;
      var before := SetAll(v, writes[..n]);
      if before.1 then SetAt(before.0, writes[n].path, writes[n].leaf) else before
  }

  /** The packet under construction. */
  class Packet {
    var root: Value

    constructor (template: Value)
      ensures root == template
    {
      root := template;
    }

    method SetPath(path: string, leaf: Value) returns (ok: bool)
      modifies this
      ensures (root, ok) == SetAt(old(root), ParsePath(path), leaf)
    {
      var r := SetAt(root, ParsePath(path), leaf);
      root, ok := r.0, r.1;
    }
  }

  function CarrierWrites(c: Codec, carriers: seq<string>, chunks: seq<Bytes>): (ws: seq<Write>)
    requires |carriers| == |chunks|
    ensures |ws| == |carriers|
  {
    seq(|carriers|, i requires 0 <= i < |carriers| => Write(ParsePath(carriers[i]), Str(c.enc(chunks[i]))))
  }

  /** The optional writes are among the schema's optional fields. */
  ghost predicate FromOptionals(s: Schema, ws: seq<Write>) {
    forall i :: 0 <= i < |ws| ==>
      exists k :: 0 <= k < |s.optionals| && ws[i] == Write(ParsePath(s.optionals[k].path), s.optionals[k].val)
  }

  /** The first `n` optional fields, each included if the random number drawn for it is even. */
  function Included(s: Schema, stream: nat -> nat, d: nat, n: nat): (ws: seq<Write>)
    requires n <= |s.optionals|
    ensures FromOptionals(s, ws)
  {
    if n == 0 then []
    else
      var field := s.optionals[n - 1];
      Included(s, stream, d, n - 1) +
      if stream(d + n - 1) % (U32_MAX + 1) % 2 == 0 then [Write(ParsePath(field.path), field.val)] else []
  }

  /** How a packet came about: the chunks of the sealed bytes, the optional fields that were included, and the
      tree before its keys were shuffled. */
  datatype Making = Making(chunks: seq<Bytes>, extras: seq<Write>, tree: Value)

  ghost predicate MadeBy(c: Codec, s: Schema, sealed: Bytes, m: Making, body: Value) {
    && |m.chunks| == |s.carriers| && Even(m.chunks) && Concat(m.chunks) == sealed
    && FromOptionals(s, m.extras)
    && SetAll(s.template, CarrierWrites(c, s.carriers, m.chunks) + m.extras) == (m.tree, true)
    && Shuffled(m.tree, body)
  }

  lemma SetAllSnoc(v: Value, ws: seq<Write>, w: Write)
    requires SetAll(v, ws).1
    ensures SetAll(v, ws + [w]) == SetAt(SetAll(v, ws).0, w.path, w.leaf)
  {
    assert (ws + [w])[..|ws|] == ws;
  }

  /** `build_packet`. */
  method BuildPacket(c: Codec, s: Schema, sealed: Bytes, rng: Rng) returns (r: Result<Value>, ghost m: Making)
    requires ParsedSchema(s) && s.carriers != []
    modifies rng
    ensures r.Ok? ==> MadeBy(c, s, sealed, m, r.value)
    ensures r.Ok? ==> m.extras == Included(s, rng.stream, old(rng.drawn), |s.optionals|)
    ensures r.Err? ==> r.error == BadPath
  {
    hide SetAt, ParsePath, Shuffled, WellFormed, Included;
    var out := new Packet(s.template);
    var chunks := SplitBytes(sealed, |s.carriers|);
    ghost var planned := CarrierWrites(c, s.carriers, chunks);
    m := Making(chunks, [], s.template);
    var i := 0;
    while i < |s.carriers|
      invariant 0 <= i <= |s.carriers| && rng.drawn == old(rng.drawn)
      invariant SetAll(s.template, planned[..i]) == (out.root, true) && WellFormed(out.root)
    {
      assert planned[..i + 1] == planned[..i] + [planned[i]];
      SetAllSnoc(s.template, planned[..i], planned[i]);
      LeafWellFormed(out.root, ParsePath(s.carriers[i]), c.enc(chunks[i]));
      var ok := out.SetPath(s.carriers[i], Str(c.enc(chunks[i])));
      if !ok {
        return Err(BadPath), m;
      }
      i := i + 1;
    }
    assert planned[..i] == planned;
    var all;
    ghost var extras;
    all, extras := AddOptionals(out, s, rng, planned);
    if !all {
      return Err(BadPath), m;
    }
    m := Making(chunks, extras, out.root);
    var shuffled := ShuffleObjectKeys(out.root, rng);
    return Ok(shuffled), m;
  }

  /** Write some of the optional fields after what was `planned`. */
  method AddOptionals(out: Packet, s: Schema, rng: Rng, ghost planned: seq<Write>)
    returns (all: bool, ghost extras: seq<Write>)
    requires ParsedSchema(s) && WellFormed(out.root) && SetAll(s.template, planned) == (out.root, true)
    modifies out, rng
    ensures all ==>
              && extras == Included(s, rng.stream, old(rng.drawn), |s.optionals|)
              && SetAll(s.template, planned + extras) == (out.root, true) && WellFormed(out.root)
  {
    hide SetAt, ParsePath, WellFormed, SetAll, Included;
    extras := [];
    assert planned + extras == planned;
    NothingIncluded(s, rng.stream, rng.drawn);
    var i := 0;
    while i < |s.optionals|
      invariant 0 <= i <= |s.optionals| && rng.drawn == old(rng.drawn) + i
      invariant extras == Included(s, rng.stream, old(rng.drawn), i)
      invariant SetAll(s.template, planned + extras) == (out.root, true) && WellFormed(out.root)
    {
      var n := rng.NextU32();
      ghost var w := Write(ParsePath(s.optionals[i].path), s.optionals[i].val);
      IncludedNext(s, rng.stream, old(rng.drawn), i);
      if n % 2 == 0 {
        assert planned + (extras + [w]) == (planned + extras) + [w];
        SetAllSnoc(s.template, planned + extras, w);
        OptionalWellFormed(s, i);
        SetKeepsWellFormed(out.root, w.path, w.leaf);
        var ok := out.SetPath(s.optionals[i].path, s.optionals[i].val);
        if !ok {
          return false, extras;
        }
        extras := extras + [w];
      } else {
        assert extras + [] == extras;
      }
      i := i + 1;
    }
    return true, extras;
  }

  lemma NothingIncluded(s: Schema, stream: nat -> nat, d: nat)
    ensures Included(s, stream, d, 0) == []
  {
  }

  lemma IncludedNext(s: Schema, stream: nat -> nat, d: nat, i: nat)
    requires i < |s.optionals|
    ensures Included(s, stream, d, i + 1) ==
            Included(s, stream, d, i) +
            if stream(d + i) % (U32_MAX + 1) % 2 == 0
            then [Write(ParsePath(s.optionals[i].path), s.optionals[i].val)] else []
  {
  }

  lemma OptionalWellFormed(s: Schema, i: nat)
    requires ParsedSchema(s) && i < |s.optionals|
    ensures WellFormed(s.optionals[i].val)
  {
  }

  lemma LeafWellFormed(v: Value, p: Path, s: string)
    requires WellFormed(v)
    ensures WellFormed(SetAt(v, p, Str(s)).0)
  {
    SetKeepsWellFormed(v, p, Str(s));
  }

  // ── extracting ──────────────────────────────────────────────────────────

  function ReadCarrier(c: Codec, body: Value, path: string): Option<Bytes> {
    match GetAt(body, ParsePath(path))
    case Some(Str(s)) => c.dec(s)
    case _ => None
  }

  ghost predicate Readable(c: Codec, carriers: seq<string>, body: Value) {
    forall i :: 0 <= i < |carriers| ==> ReadCarrier(c, body, carriers[i]).Some?
  }

  ghost function Readings(c: Codec, carriers: seq<string>, body: Value): seq<Bytes> {
    seq(|carriers|, i requires 0 <= i < |carriers| => ReadCarrier(c, body, carriers[i]).GetOr([]))
  }

  ghost function Extracted(c: Codec, carriers: seq<string>, body: Value): Option<Bytes> {
    if Readable(c, carriers, body) then Some(Concat(Readings(c, carriers, body))) else None
  }

  /** `extract`. */
  method Extract(c: Codec, s: Schema, body: Value) returns (r: Option<Bytes>)
    ensures r == Extracted(c, s.carriers, body)
  {
    hide ReadCarrier;
    var sealed: Bytes := [];
    var i := 0;
    while i < |s.carriers|
      invariant 0 <= i <= |s.carriers|
      invariant Readable(c, s.carriers[..i], body) && sealed == Concat(Readings(c, s.carriers[..i], body))
    {
      var chunk := ReadCarrier(c, body, s.carriers[i]);
      if chunk.None? {
        return None;
      }
      assert Readings(c, s.carriers[..i + 1], body) == Readings(c, s.carriers[..i], body) + [chunk.value];
      ConcatSnoc(Readings(c, s.carriers[..i], body), chunk.value);
      sealed := sealed + chunk.value;
      i := i + 1;
    }
    assert s.carriers[..i] == s.carriers;
    return Some(sealed);
  }

  // ── the two entry points ────────────────────────────────────────────────

  /** Schema `s` finds bytes in the packet that open to `plain`. */
  ghost predicate OpensAs(c: Codec, key: Bytes, s: Schema, body: Value, plain: Bytes) {
    Extracted(c, s.carriers, body).Some? && OpenSealed(c, key, Extracted(c, s.carriers, body).value) == Some(plain)
  }

  ghost predicate Opens(c: Codec, key: Bytes, s: Schema, body: Value) {
    exists plain :: OpensAs(c, key, s, body, plain)
  }

  /** `unwrap`: the first schema of the kind that opens decides. */
  method Unwrap(c: Codec, p: Profile, kind: string, body: Value) returns (r: Result<Bytes>, ghost k: nat)
    ensures r.Ok? ==>
              && kind in p.kinds && CoverKey(c, p).Some? && k < |p.kinds[kind].schemas|
              && OpensAs(c, CoverKey(c, p).value, p.kinds[kind].schemas[k], body, r.value)
              && forall i :: 0 <= i < k ==> !Opens(c, CoverKey(c, p).value, p.kinds[kind].schemas[i], body)
    ensures r == Err(NoVariant) ==>
              && kind in p.kinds && CoverKey(c, p).Some?
              && forall i :: 0 <= i < |p.kinds[kind].schemas| ==>
                   !Opens(c, CoverKey(c, p).value, p.kinds[kind].schemas[i], body)
    ensures r == Err(BadProfile) <==> kind !in p.kinds || CoverKey(c, p).None?
    ensures r.Err? ==> r.error in {NoVariant, BadProfile}
  {
    hide Extracted, OpenSealed, CoverKey;
    k := 0;
    if kind !in p.kinds {
      return Err(BadProfile), k;
    }
    var key := CoverKey(c, p);
    if key.None? {
      return Err(BadProfile), k;
    }
    var schemas := p.kinds[kind].schemas;
    var i := 0;
    while i < |schemas|
      invariant 0 <= i <= |schemas|
      invariant forall j :: 0 <= j < i ==> !Opens(c, key.value, schemas[j], body)
    {
      var sealed := Extract(c, schemas[i], body);
      if sealed.Some? {
        var plain := OpenSealed(c, key.value, sealed.value);
        if plain.Some? {
          return Ok(plain.value), i;
        }
      }
      i := i + 1;
    }
    return Err(NoVariant), k;
  }

  /** `wrap`: a random schema of the kind carries the sealed bytes. */
  method Wrap(c: Codec, p: Profile, kind: string, inner: Bytes, rng: Rng)
    returns (r: Result<Value>, ghost idx: nat, ghost sealed: Bytes, ghost m: Making)
    requires Lawful(c) && Valid(c, p) && Parsed(p)
    modifies rng
    ensures r.Ok? ==>
              && kind in p.kinds && idx < |p.kinds[kind].schemas|
              && OpenSealed(c, CoverKey(c, p).value, sealed) == Some(inner)
              && MadeBy(c, p.kinds[kind].schemas[idx], sealed, m, r.value)
    ensures kind in p.kinds ==> idx == rng.stream(old(rng.drawn)) % (U32_MAX + 1) % |p.kinds[kind].schemas|
    ensures r == Err(BadProfile) <==> kind !in p.kinds
    ensures r.Err? ==> r.error in {BadProfile, BadPath}
  {
    hide MadeBy, WellFormed, OpenSealed, Lawful;
    idx, sealed, m := 0, [], Making([], [], Null);
    if kind !in p.kinds {
      return Err(BadProfile), idx, sealed, m;
    }
    var schemas := p.kinds[kind].schemas;
    assert ValidKind(p.kinds[kind]);
    var n := rng.NextU32();
    var chosen := n % |schemas|;
    idx := chosen;
    var bytes := Seal(c, CoverKey(c, p).value, inner, rng);
    sealed := bytes;
    assert ParsedSchema(schemas[chosen]);
    r, m := BuildPacket(c, schemas[chosen], bytes, rng);
  }
}
