/** Session keys chosen by sequence number (types.rs, dialogue_store.rs). */
module Keyring {
  import opened Base
  import opened Sorting
  import opened Types

  datatype Entry = Entry(startSeq: nat, key: Key)

  const BY_START: Entry -> nat := (e: Entry) => e.startSeq

  /** What `normalize_keyring` leaves: non-empty, starts positive and strictly increasing. */
  ghost predicate Normal(ring: seq<Entry>) {
    ring != [] && StrictlySortedBy(ring, BY_START) && forall e :: e in ring ==> e.startSeq > 0
  }

  /** What `normalize_keyring` demands of its input. */
  ghost predicate Acceptable(ring: seq<Entry>) {
    && ring != []
    && (forall e :: e in ring ==> e.startSeq > 0)
    && Distinct(ring)
  }

  ghost predicate Distinct(ring: seq<Entry>) {
    forall i, j :: 0 <= i < j < |ring| ==> ring[i].startSeq != ring[j].startSeq
  }

  /** `entry` is in the list, before any other entry with its start. */
  ghost predicate FirstOfStart(entries: seq<Entry>, entry: Entry) {
    exists i :: 0 <= i < |entries| && entries[i] == entry &&
                forall k :: 0 <= k < i ==> entries[k].startSeq != entry.startSeq
  }

  /** Sort, then reject zero and repeated starts. */
  method Normalize(ring: seq<Entry>) returns (r: Result<seq<Entry>>)
    ensures r.Ok? <==> Acceptable(ring)
    ensures r.Ok? ==> Normal(r.value) && multiset(r.value) == multiset(ring)
  {
    if ring == [] {
      return Err(BadKeyring);
    }
    var sorted := SortBy(ring, BY_START);
    SortBySorts(ring, BY_START);
    var previous: Option<nat> := None;
    for i := 0 to |sorted|
      invariant previous == if i == 0 then None else Some(sorted[i - 1].startSeq)
      invariant forall k :: 0 <= k < i ==> sorted[k].startSeq > 0
      invariant forall k :: 0 < k < i ==> sorted[k - 1].startSeq != sorted[k].startSeq
    {
      if sorted[i].startSeq == 0 {
        assert sorted[i] in ring;
        return Err(BadKeyring);
      }
      if previous == Some(sorted[i].startSeq) {
        RepeatSurvivesSorting(ring, sorted, i);
        return Err(BadKeyring);
      }
      previous := Some(sorted[i].startSeq);
    }
    AdjacentDistinct(sorted);
    DistinctSurvivesSorting(ring, sorted);
    return Ok(sorted);
  }

  lemma AdjacentDistinct(xs: seq<Entry>)
    requires SortedBy(xs, BY_START)
    requires forall k :: 0 < k < |xs| ==> xs[k - 1].startSeq != xs[k].startSeq
    ensures StrictlySortedBy(xs, BY_START)
  {
    forall i, j | 0 <= i < j < |xs|
      ensures BY_START(xs[i]) < BY_START(xs[j])
    {
      assert BY_START(xs[i]) <= BY_START(xs[j - 1]) <= BY_START(xs[j]);
    }
  }

  /** Pairwise distinct starts, said without positions: this survives any permutation. */
  ghost predicate DistinctStarts(entries: multiset<Entry>) {
    && (forall e :: entries[e] <= 1)
    && (forall e, f :: e in entries && f in entries && e != f ==> e.startSeq != f.startSeq)
  }

  lemma DistinctPositions(ring: seq<Entry>)
    ensures DistinctStarts(multiset(ring)) <==>
            forall i, j :: 0 <= i < j < |ring| ==> ring[i].startSeq != ring[j].startSeq
  {
    if DistinctStarts(multiset(ring)) {
      forall i, j | 0 <= i < j < |ring|
        ensures ring[i].startSeq != ring[j].startSeq
      {
        assert ring[i] in multiset(ring) && ring[j] in multiset(ring);
        if ring[i] == ring[j] {
          RepeatCountsTwice(ring, i, j);
        }
      }
    } else if forall i, j :: 0 <= i < j < |ring| ==> ring[i].startSeq != ring[j].startSeq {
      DistinctPositionsCountOnce(ring);
    }
  }

  lemma {:induction false} DistinctPositionsCountOnce(ring: seq<Entry>)
    requires forall i, j :: 0 <= i < j < |ring| ==> ring[i].startSeq != ring[j].startSeq
    ensures DistinctStarts(multiset(ring))
  {
    if ring != [] {
      DistinctPositionsCountOnce(ring[1..]);
      assert ring == [ring[0]] + ring[1..];
      assert forall e :: e in multiset(ring[1..]) ==> e in ring[1..];
    }
  }

  lemma RepeatSurvivesSorting(ring: seq<Entry>, sorted: seq<Entry>, i: nat)
    requires multiset(ring) == multiset(sorted)
    requires 0 < i < |sorted| && sorted[i - 1].startSeq == sorted[i].startSeq
    ensures !Acceptable(ring)
  {
    DistinctPositions(ring);
    DistinctPositions(sorted);
  }

  lemma DistinctSurvivesSorting(ring: seq<Entry>, sorted: seq<Entry>)
    requires multiset(ring) == multiset(sorted) && StrictlySortedBy(sorted, BY_START)
    ensures forall i, j :: 0 <= i < j < |ring| ==> ring[i].startSeq != ring[j].startSeq
  {
    forall i, j | 0 <= i < j < |sorted|
      ensures sorted[i].startSeq != sorted[j].startSeq
    {
      assert BY_START(sorted[i]) < BY_START(sorted[j]);
    }
    DistinctPositions(ring);
    DistinctPositions(sorted);
  }

  /** Last entry whose start is at most `s`, searching from the end. */
  function KeyForSeq(ring: seq<Entry>, s: nat): Result<Key> {
    if ring == [] then Err(NoKey)
    else
      var last := ring[|ring| - 1];
      if last.startSeq <= s then Ok(last.key) else KeyForSeq(ring[..|ring| - 1], s)
  }

  /** Entry `e` is the one in force at `s`: the greatest start not above `s`. */
  ghost predicate InForce(ring: seq<Entry>, e: Entry, s: nat) {
    && e in ring && e.startSeq <= s
    && forall o :: o in ring && o.startSeq <= s ==> o.startSeq <= e.startSeq
  }

  /** On a sorted ring the search finds exactly the entry in force, and fails only when none is. */
  lemma {:induction false} KeyForSeqIsInForce(ring: seq<Entry>, s: nat)
    requires StrictlySortedBy(ring, BY_START)
    ensures match KeyForSeq(ring, s)
            case Err(_) => forall e :: e in ring ==> e.startSeq > s
            case Ok(k) => exists e :: InForce(ring, e, s) && e.key == k
  {
    if ring != [] {
      var n := |ring| - 1;
      var last, front := ring[n], ring[..n];
      assert ring == front + [last];
      KeyForSeqIsInForce(front, s);
      if last.startSeq <= s {
        forall e | e in ring
          ensures e.startSeq <= last.startSeq
        {
          var i :| 0 <= i < |ring| && ring[i] == e;
          assert i < n ==> BY_START(ring[i]) < BY_START(ring[n]);
        }
        assert InForce(ring, last, s);
      } else if KeyForSeq(front, s).Ok? {
        var e :| InForce(front, e, s) && e.key == KeyForSeq(front, s).value;
        assert InForce(ring, e, s);
      }
    }
  }

  /** At most one entry is in force at a seq. */
  lemma InForceUnique(ring: seq<Entry>, e: Entry, f: Entry, s: nat)
    requires StrictlySortedBy(ring, BY_START)
    requires InForce(ring, e, s) && InForce(ring, f, s)
    ensures e == f
  {
    var i :| 0 <= i < |ring| && ring[i] == e;
    var j :| 0 <= j < |ring| && ring[j] == f;
    assert i < j ==> BY_START(ring[i]) < BY_START(ring[j]);
    assert j < i ==> BY_START(ring[j]) < BY_START(ring[i]);
  }

  lemma KeyOfInForce(ring: seq<Entry>, e: Entry, s: nat)
    requires StrictlySortedBy(ring, BY_START)
    requires InForce(ring, e, s)
    ensures KeyForSeq(ring, s) == Ok(e.key)
  {
    KeyForSeqIsInForce(ring, s);
    var f :| InForce(ring, f, s) && KeyForSeq(ring, s) == Ok(f.key);
    InForceUnique(ring, e, f, s);
  }

  /** Normalisation forgets the order in which the entries came. */
  lemma NormalFormUnique(a: seq<Entry>, b: seq<Entry>, na: seq<Entry>, nb: seq<Entry>)
    requires multiset(a) == multiset(b)
    requires Normal(na) && multiset(na) == multiset(a)
    requires Normal(nb) && multiset(nb) == multiset(b)
    ensures na == nb
  {
    StrictlySortedUnique(na, nb, BY_START);
  }

  datatype MergeOutcome = Imported | Skipped | Conflict

  /** The per-peer key lists of one profile. */
  class ProfileDialogueStore {
    var dialogues: map<User, seq<Entry>>

    constructor ()
      ensures dialogues == map[]
    {
      dialogues := map[];
    }

    /** `entry(peer).or_default()` as a value. */
    function Entries(peer: User): seq<Entry>
      reads this
    {
      if peer in dialogues then dialogues[peer] else []
    }

    /** Add one entry and sort the list; never overwrite a start that is already bound. The list may come unsorted
        or with repeats from a file: then its first entry with the start decides. */
    method MergeEntry(peer: User, entry: Entry) returns (outcome: MergeOutcome)
      modifies this
      ensures forall p :: p != peer ==> Entries(p) == old(Entries(p))
      ensures outcome.Imported? ==> multiset(Entries(peer)) == multiset(old(Entries(peer))) + multiset{entry}
      ensures !outcome.Imported? ==> Entries(peer) == old(Entries(peer))
      ensures outcome.Imported? <==> forall e :: e in old(Entries(peer)) ==> e.startSeq != entry.startSeq
      ensures outcome.Skipped? <==> FirstOfStart(old(Entries(peer)), entry)
      ensures outcome.Imported? ==> SortedBy(Entries(peer), BY_START)
      ensures outcome.Imported? && Distinct(old(Entries(peer))) ==> StrictlySortedBy(Entries(peer), BY_START)
      ensures StrictlySortedBy(old(Entries(peer)), BY_START) ==> StrictlySortedBy(Entries(peer), BY_START)
    {
      var entries := Entries(peer);
      dialogues := dialogues[peer := entries];
      for i := 0 to |entries|
        invariant dialogues == old(dialogues)[peer := entries]
        invariant forall k :: 0 <= k < i ==> entries[k].startSeq != entry.startSeq
      {
        if entries[i].startSeq == entry.startSeq {
          if entries[i].key == entry.key {
            return Skipped;
          }
          return Conflict;
        }
      }
      var grown := entries + [entry];
      SortBySorts(grown, BY_START);
      if Distinct(entries) {
        SortKeepsDistinct(entries, entry);
      }
      StrictIsDistinct(entries);
      dialogues := dialogues[peer := SortBy(grown, BY_START)];
      return Imported;
    }
  }

  lemma StrictIsDistinct(entries: seq<Entry>)
    ensures StrictlySortedBy(entries, BY_START) ==> Distinct(entries)
  {
    if StrictlySortedBy(entries, BY_START) {
      forall i, j | 0 <= i < j < |entries|
        ensures entries[i].startSeq != entries[j].startSeq
      {
        assert BY_START(entries[i]) < BY_START(entries[j]);
      }
    }
  }

  lemma SortKeepsDistinct(entries: seq<Entry>, entry: Entry)
    requires Distinct(entries)
    requires forall e :: e in entries ==> e.startSeq != entry.startSeq
    ensures StrictlySortedBy(SortBy(entries + [entry], BY_START), BY_START)
  {
    var grown := entries + [entry];
    var sorted := SortBy(grown, BY_START);
    SortBySorts(grown, BY_START);
    forall i, j | 0 <= i < j < |grown|
      ensures grown[i].startSeq != grown[j].startSeq
    {
      assert grown[i] in entries;
    }
    DistinctPositions(grown);
    DistinctPositions(sorted);
    AdjacentDistinct(sorted);
  }

  lemma MembersOfMerged(before: seq<Entry>, after: seq<Entry>, entry: Entry)
    requires multiset(after) == multiset(before) + multiset{entry}
    ensures forall e :: e in after <==> e in before || e == entry
  {
    SameMultisetSameElements(after, before + [entry]);
  }

  /** `entry` is the latest start at or below `s` once it joins `before`. */
  ghost predicate TakesOver(before: seq<Entry>, entry: Entry, s: nat) {
    entry.startSeq <= s && forall e :: e in before ==> !(entry.startSeq < e.startSeq <= s)
  }

  lemma StaysInForce(before: seq<Entry>, after: seq<Entry>, entry: Entry, s: nat, e: Entry)
    requires forall x :: x in after <==> x in before || x == entry
    requires !TakesOver(before, entry, s) && InForce(before, e, s)
    ensures InForce(after, e, s)
  {
    if entry.startSeq <= s {
      var later :| later in before && entry.startSeq < later.startSeq <= s;
      assert later.startSeq <= e.startSeq;
    }
  }

  lemma NoneInForce(before: seq<Entry>, after: seq<Entry>, entry: Entry, s: nat)
    requires forall x :: x in after <==> x in before || x == entry
    requires StrictlySortedBy(after, BY_START)
    requires !TakesOver(before, entry, s) && forall e :: e in before ==> e.startSeq > s
    ensures KeyForSeq(after, s) == Err(NoKey)
  {
    KeyForSeqIsInForce(after, s);
    KeyForSeqError(after, s);
  }

  lemma {:induction false} KeyForSeqError(ring: seq<Entry>, s: nat)
    ensures KeyForSeq(ring, s).Err? ==> KeyForSeq(ring, s) == Err(NoKey)
  {
    if ring != [] {
      KeyForSeqError(ring[..|ring| - 1], s);
    }
  }

  /** An imported entry takes over exactly the seqs from its start up to the next start. */
  lemma MergeChangesOnlyItsWindow(before: seq<Entry>, after: seq<Entry>, entry: Entry, s: nat)
    requires StrictlySortedBy(before, BY_START) && StrictlySortedBy(after, BY_START)
    requires multiset(after) == multiset(before) + multiset{entry}
    ensures KeyForSeq(after, s) == if TakesOver(before, entry, s) then Ok(entry.key) else KeyForSeq(before, s)
  {
    MembersOfMerged(before, after, entry);
    if TakesOver(before, entry, s) {
      assert InForce(after, entry, s);
      KeyOfInForce(after, entry, s);
    } else {
      KeyForSeqIsInForce(before, s);
      KeyForSeqError(before, s);
      if KeyForSeq(before, s).Ok? {
        var e :| InForce(before, e, s) && e.key == KeyForSeq(before, s).value;
        StaysInForce(before, after, entry, s, e);
        KeyOfInForce(after, e, s);
      } else {
        NoneInForce(before, after, entry, s);
      }
    }
  }

  /** `decrypt_packet`: pick the key by seq and open. */
  function Decrypt(ring: seq<Entry>, s: nat, payload: Payload): Option<Inner> {
    match KeyForSeq(ring, s)
    case Err(_) => None
    case Ok(k) => if payload.Sealed? && payload.key == k then Some(payload.inner) else None
  }

  /** A packet sealed before a rotation still opens after the rotation is merged. */
  lemma OldPacketsStillOpen(before: seq<Entry>, after: seq<Entry>, entry: Entry, s: nat, inner: Inner)
    requires StrictlySortedBy(before, BY_START) && StrictlySortedBy(after, BY_START)
    requires multiset(after) == multiset(before) + multiset{entry}
    requires KeyForSeq(before, s).Ok?
    ensures Decrypt(before, s, Sealed(KeyForSeq(before, s).value, inner)) == Some(inner)
    ensures Decrypt(after, s, Sealed(KeyForSeq(before, s).value, inner)) == Some(inner) <==>
            entry.key == KeyForSeq(before, s).value || !TakesOver(before, entry, s)
  {
    MergeChangesOnlyItsWindow(before, after, entry, s);
  }
}
