/**
 The attribute diff of the detail panel (the `changes` memo of
 `DetailPanel`, src/components/DetailPanel.tsx): every key of the resource's
 `before` or `after` record is classified as added, removed, changed or
 unchanged, and the list is then sorted by that classification. The sort
 (`Array.prototype.sort`) is stable, so within one class the keys keep the
 order in which the key set enumerates them: `before`'s keys first, then the
 keys only `after` has.
 */
module AttributeDiff {
  import opened Collections
  import opened Json

  datatype ChangeKind = Add | Remove | Change | Same

  /** One row of the diff; `None` stands for `undefined`. */
  datatype AttributeChange = AttributeChange(key: string, before: Option<Json>, after: Option<Json>, kind: ChangeKind)

  /** The sort key: add < remove < change < same. */
  function Rank(k: ChangeKind): nat {
    match k
    case Add => 0
    case Remove => 1
    case Change => 2
    case Same => 3
  }

  /** `record || {}`: a null record reads as an empty one. */
  function OrEmpty(record: Option<Record>): Record {
    record.GetOr([])
  }

  /** `new Set([...Object.keys(before), ...Object.keys(after)])`, in iteration order. */
  function KeyUnion(before: Record, after: Record): seq<string> {
    Dedup(Keys(before) + Keys(after))
  }

  /** The row the loop pushes for `key`. */
  function ChangeOf(before: Record, after: Record, key: string): AttributeChange {
    if !HasKey(before, key) then AttributeChange(key, None, Get(after, key), Add)
    else if !HasKey(after, key) then AttributeChange(key, Get(before, key), None, Remove)
    else if Get(before, key) != Get(after, key) then AttributeChange(key, Get(before, key), Get(after, key), Change)
    else AttributeChange(key, Get(before, key), Get(after, key), Same)
  }

  /** The rows of the loop, before sorting. */
  function Classified(before: Record, after: Record, keys: seq<string>): (cs: seq<AttributeChange>)
    ensures |cs| == |keys|
  {
    if keys == [] then []
    else Classified(before, after, keys[..|keys| - 1]) + [ChangeOf(before, after, keys[|keys| - 1])]
  }

  lemma {:induction false} ClassifiedAt(before: Record, after: Record, keys: seq<string>, i: nat)
    requires i < |keys|
    ensures Classified(before, after, keys)[i] == ChangeOf(before, after, keys[i])
  {
    if i < |keys| - 1 {
      ClassifiedAt(before, after, keys[..|keys| - 1], i);
    }
  }

  function OfKind(k: ChangeKind): AttributeChange -> bool {
    (c: AttributeChange) => c.kind == k
  }

  /** The stable sort by `Rank`: the rows of each kind, in their original order, kind after kind. */
  function SortByKind(cs: seq<AttributeChange>): seq<AttributeChange> {
    Filter(cs, OfKind(Add)) + Filter(cs, OfKind(Remove)) + Filter(cs, OfKind(Change)) + Filter(cs, OfKind(Same))
  }

  /** The diff as the panel shows it. */
  function AttributeChanges(resourceBefore: Option<Record>, resourceAfter: Option<Record>): seq<AttributeChange> {
    var before, after := OrEmpty(resourceBefore), OrEmpty(resourceAfter);
    SortByKind(Classified(before, after, KeyUnion(before, after)))
  }

  function ChangeKeys(cs: seq<AttributeChange>): seq<string> {
    MapSeq(cs, (c: AttributeChange) => c.key)
  }

  /** The `changes` computation: classify every key, then sort. */
  method ComputeChanges(resourceBefore: Option<Record>, resourceAfter: Option<Record>) returns (result: seq<AttributeChange>)
    ensures result == AttributeChanges(resourceBefore, resourceAfter)
  {
    var before := if resourceBefore.Some? then resourceBefore.value else [];
    var after := if resourceAfter.Some? then resourceAfter.value else [];
    var allKeys := KeyUnion(before, after);
    result := ClassifyKeys(before, after, allKeys);
    result := SortByKind(result);
  }

  /** The loop over the key set, pushing one row per key. */
  method ClassifyKeys(before: Record, after: Record, allKeys: seq<string>) returns (result: seq<AttributeChange>)
    ensures result == Classified(before, after, allKeys)
  {
    result := [];
    for i := 0 to |allKeys|
      invariant result == Classified(before, after, allKeys[..i])
    {
      var key := allKeys[i];
      var beforeVal := Get(before, key);
      var afterVal := Get(after, key);
      if !HasKey(before, key) {
        result := result + [AttributeChange(key, None, afterVal, Add)];
      } else if !HasKey(after, key) {
        result := result + [AttributeChange(key, beforeVal, None, Remove)];
      } else if beforeVal != afterVal {
        result := result + [AttributeChange(key, beforeVal, afterVal, Change)];
      } else {
        result := result + [AttributeChange(key, beforeVal, afterVal, Same)];
      }
      assert allKeys[..i + 1][..i] == allKeys[..i];
    }
    assert allKeys[..|allKeys|] == allKeys;
  }

  // ----- The sort -----

  /** After sorting, the kinds never decrease along the list. */
  lemma SortByKindSorted(cs: seq<AttributeChange>)
    ensures var r := SortByKind(cs);
            forall i, j :: 0 <= i < j < |r| ==> Rank(r[i].kind) <= Rank(r[j].kind)
  {
    var a, b, c, d := Filter(cs, OfKind(Add)), Filter(cs, OfKind(Remove)), Filter(cs, OfKind(Change)), Filter(cs, OfKind(Same));
    var r := SortByKind(cs);
    assert r == a + b + c + d;
    FilterMembers(cs, OfKind(Add));
    FilterMembers(cs, OfKind(Remove));
    FilterMembers(cs, OfKind(Change));
    FilterMembers(cs, OfKind(Same));
    forall i | 0 <= i < |r|
      ensures Rank(r[i].kind) == if i < |a| then 0 else if i < |a| + |b| then 1 else if i < |a| + |b| + |c| then 2 else 3
    {
      if i < |a| {
        assert r[i] == a[i] && OfKind(Add)(a[i]);
      } else if i < |a| + |b| {
        assert r[i] == b[i - |a|] && OfKind(Remove)(b[i - |a|]);
      } else if i < |a| + |b| + |c| {
        assert r[i] == c[i - |a| - |b|] && OfKind(Change)(c[i - |a| - |b|]);
      } else {
        assert r[i] == d[i - |a| - |b| - |c|] && OfKind(Same)(d[i - |a| - |b| - |c|]);
      }
    }
  }

  /** Sorting neither drops nor duplicates a row. */
  lemma SortByKindPermutation(cs: seq<AttributeChange>)
    ensures multiset(SortByKind(cs)) == multiset(cs)
  {
    FilterMultiset(cs, OfKind(Add));
    FilterMultiset(cs, OfKind(Remove));
    FilterMultiset(cs, OfKind(Change));
    FilterMultiset(cs, OfKind(Same));
    var r := SortByKind(cs);
    forall x
      ensures multiset(r)[x] == multiset(cs)[x]
    {
      assert OfKind(x.kind)(x);
    }
  }

  /** Picking the rows of kind `k` out of the rows of kind `j`. */
  lemma FilterKinds(cs: seq<AttributeChange>, j: ChangeKind, k: ChangeKind)
    ensures Filter(Filter(cs, OfKind(j)), OfKind(k)) == if j == k then Filter(cs, OfKind(j)) else []
  {
    FilterMembers(cs, OfKind(j));
    if j == k {
      FilterAll(Filter(cs, OfKind(j)), OfKind(k));
    } else {
      FilterNone(Filter(cs, OfKind(j)), OfKind(k));
    }
  }

  /** Every row of the sorted list is a row of the input. */
  lemma SortedRowFromInput(cs: seq<AttributeChange>, c: AttributeChange)
    requires c in SortByKind(cs)
    ensures c in cs
  {
    FilterMembers(cs, OfKind(Add));
    FilterMembers(cs, OfKind(Remove));
    FilterMembers(cs, OfKind(Change));
    FilterMembers(cs, OfKind(Same));
  }

  /** A single row is already sorted. */
  lemma SortOne(c: AttributeChange)
    ensures SortByKind([c]) == [c]
  {
    assert [c] == [] + [c];
    FilterSnoc([], c, OfKind(Add));
    FilterSnoc([], c, OfKind(Remove));
    FilterSnoc([], c, OfKind(Change));
    FilterSnoc([], c, OfKind(Same));
  }

  /** The rows of one kind keep their relative order: the sort is stable. */
  lemma SortByKindStable(cs: seq<AttributeChange>, k: ChangeKind)
    ensures Filter(SortByKind(cs), OfKind(k)) == Filter(cs, OfKind(k))
  {
    var a, b, c, d := Filter(cs, OfKind(Add)), Filter(cs, OfKind(Remove)), Filter(cs, OfKind(Change)), Filter(cs, OfKind(Same));
    var p := OfKind(k);
    FilterFour(a, b, c, d, p);
    FilterKinds(cs, Add, k);
    FilterKinds(cs, Remove, k);
    FilterKinds(cs, Change, k);
    FilterKinds(cs, Same, k);
    KindPick(k, Filter(a, p), Filter(b, p), Filter(c, p), Filter(d, p), a, b, c, d, Filter(cs, p));
  }

  /** Of four filtered blocks, only the one of kind `k` is left. */
  lemma KindPick<T>(k: ChangeKind, fa: seq<T>, fb: seq<T>, fc: seq<T>, fd: seq<T>,
                    a: seq<T>, b: seq<T>, c: seq<T>, d: seq<T>, r: seq<T>)
    requires fa == (if k == Add then a else []) && fb == (if k == Remove then b else [])
    requires fc == (if k == Change then c else []) && fd == (if k == Same then d else [])
    requires (k == Add ==> r == a) && (k == Remove ==> r == b) && (k == Change ==> r == c) && (k == Same ==> r == d)
    ensures fa + fb + fc + fd == r
  {
    match k
    case Add => assert fa + fb + fc + fd == a + [] + [] + [];
    case Remove => assert fa + fb + fc + fd == [] + b + [] + [];
    case Change => assert fa + fb + fc + fd == [] + [] + c + [];
    case Same => assert fa + fb + fc + fd == [] + [] + [] + d;
  }

  lemma FilterFour<T(!new)>(a: seq<T>, b: seq<T>, c: seq<T>, d: seq<T>, p: T -> bool)
    ensures Filter(a + b + c + d, p) == Filter(a, p) + Filter(b, p) + Filter(c, p) + Filter(d, p)
  {
    FilterAppend(a + b + c, d, p);
    FilterAppend(a + b, c, p);
    FilterAppend(a, b, p);
  }

  // ----- The diff -----

  /** The key set holds the keys of both records and no others, each once. */
  lemma KeyUnionMembers(before: Record, after: Record)
    ensures Distinct(KeyUnion(before, after))
    ensures forall key :: key in KeyUnion(before, after) <==> HasKey(before, key) || HasKey(after, key)
  {
    var all := Keys(before) + Keys(after);
    DedupSpec(all);
  }

  lemma ClassifiedKeys(before: Record, after: Record, keys: seq<string>)
    ensures ChangeKeys(Classified(before, after, keys)) == keys
  {
  }

  /** Every key of `before` or `after` has exactly one row; no other key has one. */
  lemma EveryKeyOnce(resourceBefore: Option<Record>, resourceAfter: Option<Record>)
    ensures var before, after := OrEmpty(resourceBefore), OrEmpty(resourceAfter);
            forall key :: multiset(ChangeKeys(AttributeChanges(resourceBefore, resourceAfter)))[key]
                          == if HasKey(before, key) || HasKey(after, key) then 1 else 0
  {
    var before, after := OrEmpty(resourceBefore), OrEmpty(resourceAfter);
    var keys := KeyUnion(before, after);
    var cs := Classified(before, after, keys);
    SortByKindPermutation(cs);
    MapPermutation(SortByKind(cs), cs, (c: AttributeChange) => c.key);
    ClassifiedKeys(before, after, keys);
    KeyUnionMembers(before, after);
    DistinctOnce(keys);
  }

  /** The diff is empty exactly when both records are (a null record counting as empty). */
  lemma EmptyDiff(resourceBefore: Option<Record>, resourceAfter: Option<Record>)
    ensures AttributeChanges(resourceBefore, resourceAfter) == []
        <==> OrEmpty(resourceBefore) == [] && OrEmpty(resourceAfter) == []
  {
    var before, after := OrEmpty(resourceBefore), OrEmpty(resourceAfter);
    var cs := Classified(before, after, KeyUnion(before, after));
    var r := SortByKind(cs);
    SortByKindPermutation(cs);
    assert r == AttributeChanges(resourceBefore, resourceAfter);
    assert |multiset(r)| == |multiset(cs)|;
    DedupSpec(Keys(before) + Keys(after));
    if before != [] {
      assert Keys(before)[0] in Keys(before) + Keys(after);
    } else if after != [] {
      assert Keys(after)[0] in Keys(before) + Keys(after);
    }
  }

  /** Whether `c` is the row for its key given the two records. */
  predicate ClassifiedBy(before: Record, after: Record, c: AttributeChange) {
    (c.kind == Add <==> !HasKey(before, c.key))
    && (c.kind == Remove <==> HasKey(before, c.key) && !HasKey(after, c.key))
    && (c.kind == Change <==> HasKey(before, c.key) && HasKey(after, c.key) && Get(before, c.key) != Get(after, c.key))
    && (c.kind == Same <==> HasKey(before, c.key) && HasKey(after, c.key) && Get(before, c.key) == Get(after, c.key))
    && c.before == (if c.kind == Add then None else Get(before, c.key))
    && c.after == (if c.kind == Remove then None else Get(after, c.key))
  }

  /**
   Every row is classified by where its key occurs: absent from `before` is
   an addition with no old value, absent from `after` a removal with no new
   value, and otherwise a change exactly when the two values differ.
   */
  lemma RowsClassified(resourceBefore: Option<Record>, resourceAfter: Option<Record>, c: AttributeChange)
    requires c in AttributeChanges(resourceBefore, resourceAfter)
    ensures ClassifiedBy(OrEmpty(resourceBefore), OrEmpty(resourceAfter), c)
  {
    var before, after := OrEmpty(resourceBefore), OrEmpty(resourceAfter);
    var keys := KeyUnion(before, after);
    var cs := Classified(before, after, keys);
    SortedRowFromInput(cs, c);
    var i :| 0 <= i < |cs| && cs[i] == c;
    ClassifiedAt(before, after, keys, i);
  }

  /** A key present in `before` with a null value is never reported as added. */
  lemma NullBeforeIsNotAdded(resourceBefore: Option<Record>, resourceAfter: Option<Record>, c: AttributeChange)
    requires c in AttributeChanges(resourceBefore, resourceAfter)
    requires Get(OrEmpty(resourceBefore), c.key) == Some(JNull)
    ensures c.kind != Add && c.before == Some(JNull)
  {
    RowsClassified(resourceBefore, resourceAfter, c);
    assert HasKey(OrEmpty(resourceBefore), c.key);
  }

  /** Rows of one kind appear in key-set order: `before`'s keys first, then the keys only `after` has. */
  lemma RowsOfAKindInKeyOrder(resourceBefore: Option<Record>, resourceAfter: Option<Record>, k: ChangeKind)
    ensures var before, after := OrEmpty(resourceBefore), OrEmpty(resourceAfter);
            Filter(AttributeChanges(resourceBefore, resourceAfter), OfKind(k))
            == Filter(Classified(before, after, KeyUnion(before, after)), OfKind(k))
  {
    var before, after := OrEmpty(resourceBefore), OrEmpty(resourceAfter);
    SortByKindStable(Classified(before, after, KeyUnion(before, after)), k);
  }

  /** Rows come in the order add, remove, change, same. */
  lemma RowsSortedByKind(resourceBefore: Option<Record>, resourceAfter: Option<Record>)
    ensures var r := AttributeChanges(resourceBefore, resourceAfter);
            forall i, j :: 0 <= i < j < |r| ==> Rank(r[i].kind) <= Rank(r[j].kind)
  {
    var before, after := OrEmpty(resourceBefore), OrEmpty(resourceAfter);
    SortByKindSorted(Classified(before, after, KeyUnion(before, after)));
  }

  /** Two records with the one key `k` give the one row of `k`. */
  lemma SingleKeyDiff(before: Record, after: Record, k: string)
    requires Keys(before) == [k] && Keys(after) == [k]
    ensures AttributeChanges(Some(before), Some(after)) == [ChangeOf(before, after, k)]
  {
    assert Keys(before) + Keys(after) == [k, k];
    DedupTwice(k);
    ClassifiedOne(before, after, k);
    SortOne(ChangeOf(before, after, k));
    assert OrEmpty(Some(before)) == before && OrEmpty(Some(after)) == after;
  }

  lemma DedupTwice(k: string)
    ensures Dedup([k, k]) == [k]
  {
    assert [k, k][..1] == [k];
    assert [k][..0] == [];
    assert Dedup([k]) == [k];
  }

  lemma ClassifiedOne(before: Record, after: Record, k: string)
    ensures Classified(before, after, [k]) == [ChangeOf(before, after, k)]
  {
    assert [k][..0] == [];
  }

  /** A key whose values differ only in the order of an object's members is a change. */
  lemma MemberOrderMatters(k: string, a: string, b: string)
    requires a != b
    ensures var x, y := JObj([(a, JNull), (b, JNull)]), JObj([(b, JNull), (a, JNull)]);
            AttributeChanges(Some([(k, x)]), Some([(k, y)])) == [AttributeChange(k, Some(x), Some(y), Change)]
  {
    var x, y := JObj([(a, JNull), (b, JNull)]), JObj([(b, JNull), (a, JNull)]);
    var before, after := [(k, x)], [(k, y)];
    assert x != y by { assert x.members[0].0 != y.members[0].0; }
    assert Keys(before) == [k] && Keys(after) == [k];
    SingleKeyDiff(before, after, k);
    assert Get(before, k) == Some(x) && Get(after, k) == Some(y);
    ChangedValue(before, after, k, x, y);
  }

  /** Two different values under the same key make a `change` row. */
  lemma ChangedValue(before: Record, after: Record, k: string, x: Json, y: Json)
    requires Get(before, k) == Some(x) && Get(after, k) == Some(y) && x != y
    ensures ChangeOf(before, after, k) == AttributeChange(k, Some(x), Some(y), Change)
  {
  }
}
