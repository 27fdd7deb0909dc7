/** JSON values with ordered, unique keys, dotted paths into them, and the laws of reading and writing by path. */
module Json {
  import opened Base

  datatype Field = Field(key: string, val: Value)

  datatype Value =
    | Null
    | Bool(b: bool)
    | Num(n: int)
    | Str(s: string)
    | Arr(items: seq<Value>)
    | Obj(fields: seq<Field>)

  ghost predicate UniqueKeys(fs: seq<Field>) {
    forall i, j :: 0 <= i < j < |fs| ==> fs[i].key != fs[j].key
  }

  /** No object holds a key twice. */
  ghost predicate WellFormed(v: Value) {
    match v
    case Arr(xs) => forall i :: 0 <= i < |xs| ==> WellFormed(xs[i])
    case Obj(fs) => UniqueKeys(fs) && forall i :: 0 <= i < |fs| ==> WellFormed(fs[i].val)
    case _ => true
  }

  // ── objects as maps ─────────────────────────────────────────────────────

  function Find(fs: seq<Field>, key: string): Option<Value> {
    if fs == [] then None
    else if fs[0].key == key then Some(fs[0].val)
    else Find(fs[1..], key)
  }

  /** Replace the value in place, or append a new field. */
  function Put(fs: seq<Field>, key: string, val: Value): seq<Field> {
    if fs == [] then [Field(key, val)]
    else if fs[0].key == key then [Field(key, val)] + fs[1..]
    else [fs[0]] + Put(fs[1..], key, val)
  }

  lemma {:induction false} FindPut(fs: seq<Field>, key: string, val: Value, k: string)
    ensures Find(Put(fs, key, val), k) == if k == key then Some(val) else Find(fs, k)
  {
    if fs != [] && fs[0].key != key {
      FindPut(fs[1..], key, val, k);
      assert Put(fs, key, val)[1..] == Put(fs[1..], key, val);
    }
  }

  lemma {:induction false} FindIsField(fs: seq<Field>, key: string)
    ensures Find(fs, key).Some? ==> exists i :: 0 <= i < |fs| && fs[i] == Field(key, Find(fs, key).value)
    ensures Find(fs, key).None? ==> forall i :: 0 <= i < |fs| ==> fs[i].key != key
  {
    if fs != [] && fs[0].key != key {
      FindIsField(fs[1..], key);
      if Find(fs[1..], key).Some? {
        var i :| 0 <= i < |fs[1..]| && fs[1..][i] == Field(key, Find(fs[1..], key).value);
        assert fs[i + 1] == Field(key, Find(fs, key).value);
      }
    }
  }

  lemma {:induction false} PutFields(fs: seq<Field>, key: string, val: Value)
    ensures forall f :: f in Put(fs, key, val) ==> f in fs || f == Field(key, val)
    ensures UniqueKeys(fs) ==> UniqueKeys(Put(fs, key, val))
  {
    if fs != [] && fs[0].key != key {
      var rest := Put(fs[1..], key, val);
      PutFields(fs[1..], key, val);
      if UniqueKeys(fs) {
        forall i | 0 <= i < |rest|
          ensures rest[i].key != fs[0].key
        {
          assert rest[i] in rest;
        }
      }
    }
  }

  // ── paths ───────────────────────────────────────────────────────────────

  /** A path segment that parses as `usize` is an index, any other is a key. */
  datatype Segment = Index(i: nat) | Name(key: string)

  type Path = seq<Segment>

  /** `path.split('.')`. */
  function Split(path: string): (segments: seq<string>)
    ensures segments != []
  {
    if path == "" then [""]
    else
      var rest := Split(path[1..]);
      if path[0] == '.' then [""] + rest else [[path[0]] + rest[0]] + rest[1..]
  }

  function Join(segments: seq<string>): string {
    if segments == [] then ""
    else if |segments| == 1 then segments[0]
    else segments[0] + "." + Join(segments[1..])
  }

  /** Splitting cuts exactly at the dots. */
  lemma {:induction false} JoinOfSplit(path: string)
    ensures Join(Split(path)) == path
    ensures forall i :: 0 <= i < |Split(path)| ==> '.' !in Split(path)[i]
  {
    if path != "" {
      JoinOfSplit(path[1..]);
      var rest := Split(path[1..]);
      if path[0] == '.' {
        assert Split(path)[1..] == rest;
      } else {
        assert Split(path)[1..] == rest[1..];
        assert '.' !in [path[0]] + rest[0];
        if |rest| == 1 {
          assert Join(Split(path)) == [path[0]] + rest[0];
        } else {
          assert Join(Split(path)) == [path[0]] + rest[0] + "." + Join(rest[1..]);
        }
      }
    }
  }

  predicate IsDigit(c: char) { '0' <= c <= '9' }

  function Decimal(digits: string): nat
    requires forall i :: 0 <= i < |digits| ==> IsDigit(digits[i])
  {
    if digits == "" then 0
    else
      var last := digits[|digits| - 1];
      assert IsDigit(last);
      10 * Decimal(digits[..|digits| - 1]) + (last as int - '0' as int)
  }

  predicate AllDigits(s: string) {
    s != "" && forall i :: 0 <= i < |s| ==> IsDigit(s[i])
  }

  function WithoutPlus(s: string): string {
    if s != "" && s[0] == '+' then s[1..] else s
  }

  /** `seg.parse::<usize>()`: an optional plus sign, digits, and a value that fits 64 bits. */
  function ParseSegment(seg: string): Segment {
    var digits := WithoutPlus(seg);
    if AllDigits(digits) && Decimal(digits) <= U64_MAX then Index(Decimal(digits)) else Name(seg)
  }

  /** A number as it is written: decimal digits, no leading zero. */
  function Shown(n: nat): string {
    (if n < 10 then "" else Shown(n / 10)) + [('0' as int + n % 10) as char]
  }

  lemma {:induction false} DecimalOfShown(n: nat)
    ensures AllDigits(Shown(n)) && Decimal(Shown(n)) == n
  {
    var last := ('0' as int + n % 10) as char;
    if n < 10 {
      assert Shown(n) == [last] && Shown(n)[..0] == "";
    } else {
      DecimalOfShown(n / 10);
      assert Shown(n)[..|Shown(n)| - 1] == Shown(n / 10);
    }
  }

  lemma DigitsHaveNoPlus(s: string)
    requires AllDigits(s)
    ensures s != "" && s[0] != '+'
  {
    assert IsDigit(s[0]);
  }

  /** A written number is an index if it fits 64 bits, with or without a plus sign, and a key otherwise; so is any
      segment that is not all digits. */
  lemma ParseWritten(n: nat, seg: string)
    ensures n <= U64_MAX ==> ParseSegment(Shown(n)) == ParseSegment("+" + Shown(n)) == Index(n)
    ensures n > U64_MAX ==> ParseSegment(Shown(n)) == Name(Shown(n))
    ensures !AllDigits(WithoutPlus(seg)) ==> ParseSegment(seg) == Name(seg)
  {
    hide Decimal, Shown, AllDigits;
    DecimalOfShown(n);
    var s := Shown(n);
    DigitsHaveNoPlus(s);
    assert ("+" + s)[1..] == s;
  }

  function ParsePath(path: string): Path {
    var segments := Split(path);
    seq(|segments|, i requires 0 <= i < |segments| => ParseSegment(segments[i]))
  }

  // ── reading and writing ─────────────────────────────────────────────────

  function Step(v: Value, seg: Segment): Option<Value> {
    match seg
    case Index(i) => if v.Arr? && i < |v.items| then Some(v.items[i]) else None
    case Name(key) => if v.Obj? then Find(v.fields, key) else None
  }

  /** `get_path`. */
  function GetAt(v: Value, path: Path): Option<Value>
    decreases |path|
  {
    if path == [] then Some(v)
    else
      var child := Step(v, path[0]);
      if child.None? then None else GetAt(child.value, path[1..])
  }

  function EnsureObject(v: Value): seq<Field> {
    if v.Obj? then v.fields else []
  }

  /** `set_path_rec`: the updated value, and whether the write succeeded. A write that fails may already have
      replaced values on its way. */
  function SetAt(v: Value, path: Path, leaf: Value): (Value, bool)
    decreases |path|
  {
    if path == [] then (leaf, true)
    else match path[0]
      case Index(i) =>
        if v.Arr? && i < |v.items| then
          var r := SetAt(v.items[i], path[1..], leaf);
          (Arr(v.items[i := r.0]), r.1)
        else (v, false)
      case Name(key) =>
        var fs := EnsureObject(v);
        var r := SetAt(Find(fs, key).GetOr(Obj([])), path[1..], leaf);
        (Obj(Put(fs, key, r.0)), r.1)
  }

  /** A write to `p` cannot disturb a read at `q`: they part ways, and not by a key against an index. */
  predicate Independent(p: Path, q: Path) {
    p != [] && q != [] && if p[0] == q[0] then Independent(p[1..], q[1..]) else !(p[0].Name? && q[0].Index?)
  }

  /** They part ways by a key of `p` against an index of `q`. */
  predicate Clashes(p: Path, q: Path) {
    p != [] && q != [] && if p[0] == q[0] then Clashes(p[1..], q[1..]) else p[0].Name? && q[0].Index?
  }

  lemma {:induction false} PathsRelate(p: Path, q: Path)
    ensures p <= q || q <= p || Independent(p, q) || Clashes(p, q)
    ensures !(p <= q && Independent(p, q)) && !(p <= q && Clashes(p, q)) && !(Independent(p, q) && Clashes(p, q))
  {
    if p != [] && q != [] && p[0] == q[0] {
      PathsRelate(p[1..], q[1..]);
      assert p == [p[0]] + p[1..] && q == [q[0]] + q[1..];
    }
  }

  /** A write succeeds exactly if every place that its path names by index is there before. */
  lemma {:induction false} WriteSucceedsIff(v: Value, p: Path, leaf: Value)
    ensures SetAt(v, p, leaf).1 <==> forall k :: 0 <= k < |p| && p[k].Index? ==> GetAt(v, p[..k + 1]).Some?
    decreases |p|
  {
    if p != [] {
      var there := Step(v, p[0]);
      var child := if there.Some? then there.value else Obj([]);
      WriteSucceedsIff(child, p[1..], leaf);
      forall k | 0 <= k < |p|
        ensures k == 0 ==> GetAt(v, p[..k + 1]) == there
        ensures k > 0 && there.Some? ==> GetAt(v, p[..k + 1]) == GetAt(child, p[1..][..k])
        ensures k > 0 && there.None? ==> GetAt(v, p[..k + 1]) == None
        ensures k > 0 && there.None? ==> GetAt(Obj([]), p[1..][..k]) == None
      {
        assert p[..k + 1][1..] == p[1..][..k];
        if k > 0 {
          NothingInEmpty(p[1..][..k]);
        }
      }
      assert forall k :: 0 <= k < |p[1..]| ==> p[1..][k] == p[k + 1];
    }
  }

  /** After a successful write, the written path and everything below it reads from the leaf. */
  lemma {:induction false} ReadWritten(v: Value, p: Path, leaf: Value, q: Path)
    requires SetAt(v, p, leaf).1 && p <= q
    ensures GetAt(SetAt(v, p, leaf).0, q) == GetAt(leaf, q[|p|..])
    decreases |p|
  {
    if p == [] {
      assert q[0..] == q;
    } else {
      assert q[1..][|p[1..]|..] == q[|p|..];
      assert p[0] == q[0] && p[1..] <= q[1..];
      match p[0] {
        case Index(i) =>
          ReadWritten(v.items[i], p[1..], leaf, q[1..]);
        case Name(key) =>
          var fs := EnsureObject(v);
          var child := Find(fs, key).GetOr(Obj([]));
          ReadWritten(child, p[1..], leaf, q[1..]);
          FindPut(fs, key, SetAt(child, p[1..], leaf).0, key);
      }
    }
  }

  /** A write, even one that fails, changes no read at an independent path. */
  lemma {:induction false} ReadIndependent(v: Value, p: Path, leaf: Value, q: Path)
    requires Independent(p, q)
    ensures GetAt(SetAt(v, p, leaf).0, q) == GetAt(v, q)
    decreases |p|
  {
    match p[0] {
      case Index(i) =>
        if v.Arr? && i < |v.items| && p[0] == q[0] {
          ReadIndependent(v.items[i], p[1..], leaf, q[1..]);
        }
      case Name(key) =>
        var fs := EnsureObject(v);
        var child := Find(fs, key).GetOr(Obj([]));
        var r := SetAt(child, p[1..], leaf).0;
        if p[0] == q[0] {
          ReadIndependent(child, p[1..], leaf, q[1..]);
          FindPut(fs, key, r, key);
          if Find(fs, key).None? {
            NothingInEmpty(q[1..]);
          }
        } else {
          FindPut(fs, key, r, q[0].key);
        }
    }
  }

  lemma NothingInEmpty(q: Path)
    requires q != []
    ensures GetAt(Obj([]), q) == None
  {
  }

  /** A successful write through a key replaces an array on its way, so reads by index below are lost. */
  lemma {:induction false} ReadClashing(v: Value, p: Path, leaf: Value, q: Path)
    requires Clashes(p, q) && SetAt(v, p, leaf).1
    ensures GetAt(SetAt(v, p, leaf).0, q) == None
    decreases |p|
  {
    if p[0] == q[0] {
      match p[0] {
        case Index(i) =>
          ReadClashing(v.items[i], p[1..], leaf, q[1..]);
        case Name(key) =>
          var fs := EnsureObject(v);
          var child := Find(fs, key).GetOr(Obj([]));
          ReadClashing(child, p[1..], leaf, q[1..]);
          FindPut(fs, key, SetAt(child, p[1..], leaf).0, key);
      }
    }
  }

  /** Exactly when a read elsewhere survives a successful write of a leaf without members. */
  lemma ReadSurvives(v: Value, p: Path, leaf: Value, q: Path)
    requires SetAt(v, p, leaf).1 && GetAt(v, q).Some? && !(q <= p) && leaf.Str?
    ensures GetAt(SetAt(v, p, leaf).0, q) == GetAt(v, q) <==> Independent(p, q)
  {
    PathsRelate(p, q);
    if Independent(p, q) {
      ReadIndependent(v, p, leaf, q);
    } else if Clashes(p, q) {
      ReadClashing(v, p, leaf, q);
    } else {
      ReadWritten(v, p, leaf, q);
      NothingInString(leaf, q[|p|..]);
    }
  }

  lemma NothingInString(v: Value, q: Path)
    requires v.Str? && q != []
    ensures GetAt(v, q) == None
  {
  }

  /** Two paths that both lead to strings are the same or independent either way. */
  lemma {:induction false} ReadableTogether(v: Value, p: Path, q: Path)
    requires GetAt(v, p).Some? && GetAt(v, p).value.Str? && GetAt(v, q).Some? && GetAt(v, q).value.Str?
    ensures p == q || (Independent(p, q) && Independent(q, p))
    decreases |p|
  {
    if p != [] && q != [] && p[0] == q[0] {
      ReadableTogether(Step(v, p[0]).value, p[1..], q[1..]);
      assert p == [p[0]] + p[1..] && q == [q[0]] + q[1..];
    }
  }

  lemma {:induction false} SetKeepsWellFormed(v: Value, p: Path, leaf: Value)
    requires WellFormed(v) && WellFormed(leaf)
    ensures WellFormed(SetAt(v, p, leaf).0)
    decreases |p|
  {
    if p != [] {
      match p[0] {
        case Index(i) =>
          if v.Arr? && i < |v.items| {
            SetKeepsWellFormed(v.items[i], p[1..], leaf);
          }
        case Name(key) =>
          var fs := EnsureObject(v);
          FindIsField(fs, key);
          var child := Find(fs, key).GetOr(Obj([]));
          SetKeepsWellFormed(child, p[1..], leaf);
          var c := SetAt(child, p[1..], leaf).0;
          PutFields(fs, key, c);
          forall i | 0 <= i < |Put(fs, key, c)|
            ensures WellFormed(Put(fs, key, c)[i].val)
          {
            assert Put(fs, key, c)[i] in Put(fs, key, c);
          }
      }
    }
  }
}
