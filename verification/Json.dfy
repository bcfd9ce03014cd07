/**
 JSON values as Python's `json` module builds them. A Python `dict` keeps its
 keys in insertion order but compares as a map; both sides are modelled here:
 `Members` is the ordered list, `SameValue` the comparison as nested maps, and
 `SortKeys` the value a printer called with `sort_keys=True` really prints.
 */
module Json {
  import opened Wrappers

  datatype Json =
    | Null
    | Bool(b: bool)
    | Num(n: int)
    | Str(s: string)
    | Arr(items: Items)
    | Obj(members: Members)

  datatype Items = NoItems | Item(head: Json, tail: Items)

  datatype Members = NoMembers | Member(key: string, val: Json, rest: Members)

  // ----- dictionary operations -----

  function Keys(m: Members): set<string> {
    if m.NoMembers? then {} else {m.key} + Keys(m.rest)
  }

  /** `d.get(k)`, telling an absent key apart from a null value. */
  function Get(m: Members, k: string): (r: Option<Json>)
    ensures r.Some? <==> k in Keys(m)
  {
    if m.NoMembers? then None
    else if m.key == k then Some(m.val)
    else Get(m.rest, k)
  }

  /** `d[k] = v`: an existing key keeps its place, a new one goes last. */
  function Put(m: Members, k: string, v: Json): Members {
    if m.NoMembers? then Member(k, v, NoMembers)
    else if m.key == k then Member(k, v, m.rest)
    else Member(m.key, m.val, Put(m.rest, k, v))
  }

  /** `{k: v for k, v in d.items() if k != key}`. */
  function Without(m: Members, k: string): Members {
    if m.NoMembers? then NoMembers
    else if m.key == k then Without(m.rest, k)
    else Member(m.key, m.val, Without(m.rest, k))
  }

  function Append(a: Members, b: Members): Members {
    if a.NoMembers? then b else Member(a.key, a.val, Append(a.rest, b))
  }

  /** `dict(pairs)`: pairs entered one by one, so that the last of equal keys wins. */
  function FromPairs(acc: Members, pairs: Members): Members
    decreases pairs
  {
    if pairs.NoMembers? then acc
    else FromPairs(Put(acc, pairs.key, pairs.val), pairs.rest)
  }

  predicate UniqueKeys(m: Members) {
    m.Member? ==> m.key !in Keys(m.rest) && UniqueKeys(m.rest)
  }

  /** No object inside holds a key twice: true of every value made of Python dicts. */
  predicate Wf(v: Json) {
    match v
    case Arr(items) => WfItems(items)
    case Obj(m) => UniqueKeys(m) && WfMembers(m)
    case _ => true
  }

  predicate WfItems(items: Items) {
    items.Item? ==> Wf(items.head) && WfItems(items.tail)
  }

  predicate WfMembers(m: Members) {
    m.Member? ==> Wf(m.val) && WfMembers(m.rest)
  }

  lemma GetPut(m: Members, k: string, v: Json, q: string)
    ensures Get(Put(m, k, v), q) == if q == k then Some(v) else Get(m, q)
    ensures Keys(Put(m, k, v)) == Keys(m) + {k}
  {
    if m.Member? && m.key != k {
      GetPut(m.rest, k, v, q);
    }
  }

  lemma PutWf(m: Members, k: string, v: Json)
    requires UniqueKeys(m) && WfMembers(m) && Wf(v)
    ensures UniqueKeys(Put(m, k, v)) && WfMembers(Put(m, k, v))
  {
    if m.Member? && m.key != k {
      PutWf(m.rest, k, v);
      GetPut(m.rest, k, v, k);
    }
  }

  lemma GetWithout(m: Members, k: string, q: string)
    ensures Get(Without(m, k), q) == if q == k then None else Get(m, q)
    ensures Keys(Without(m, k)) == Keys(m) - {k}
  {
    if m.Member? {
      GetWithout(m.rest, k, q);
    }
  }

  lemma WithoutWf(m: Members, k: string)
    requires UniqueKeys(m) && WfMembers(m)
    ensures UniqueKeys(Without(m, k)) && WfMembers(Without(m, k))
  {
    if m.Member? {
      WithoutWf(m.rest, k);
      GetWithout(m.rest, k, k);
    }
  }

  lemma WithoutAbsent(m: Members, k: string)
    requires k !in Keys(m)
    ensures Without(m, k) == m
  {
  }

  /** Adding a key and then leaving it out gives the members without it. */
  lemma WithoutPut(m: Members, k: string, v: Json)
    ensures Without(Put(m, k, v), k) == Without(m, k)
  {
  }

  lemma GetWf(m: Members, k: string)
    requires WfMembers(m) && k in Keys(m)
    ensures Wf(Get(m, k).value)
  {
  }

  lemma {:induction false} AppendPut(acc: Members, k: string, v: Json, rest: Members)
    requires k !in Keys(acc)
    ensures Append(Put(acc, k, v), rest) == Append(acc, Member(k, v, rest))
  {
    if acc.Member? {
      AppendPut(acc.rest, k, v, rest);
    }
  }

  /** `dict(pairs)` of pairs with distinct keys keeps them all, in order. */
  lemma {:induction false} FromPairsUnique(acc: Members, pairs: Members)
    requires UniqueKeys(pairs) && Keys(acc) !! Keys(pairs)
    ensures FromPairs(acc, pairs) == Append(acc, pairs)
    decreases pairs
  {
    if pairs.NoMembers? {
      AppendNothing(acc);
    } else {
      GetPut(acc, pairs.key, pairs.val, pairs.key);
      FromPairsUnique(Put(acc, pairs.key, pairs.val), pairs.rest);
      AppendPut(acc, pairs.key, pairs.val, pairs.rest);
    }
  }

  lemma AppendNothing(m: Members)
    ensures Append(m, NoMembers) == m
  {
  }

  // ----- the size of a value, for recursion through sorted members -----

  function Size(v: Json): nat {
    match v
    case Arr(items) => 1 + ItemsSize(items)
    case Obj(m) => 1 + MembersSize(m)
    case _ => 0
  }

  function ItemsSize(items: Items): nat {
    if items.NoItems? then 0 else 1 + Size(items.head) + ItemsSize(items.tail)
  }

  function MembersSize(m: Members): nat {
    if m.NoMembers? then 0 else 1 + Size(m.val) + MembersSize(m.rest)
  }

  // ----- the order of keys -----

  /** Python's `a < b` on strings: by code point, a proper prefix first. */
  predicate Before(a: string, b: string) {
    b != "" && (a == "" || a[0] < b[0] || (a[0] == b[0] && Before(a[1..], b[1..])))
  }

  lemma {:induction false} BeforeTotal(a: string, b: string)
    ensures a == b || Before(a, b) || Before(b, a)
    ensures !(Before(a, b) && Before(b, a))
    ensures !Before(a, a)
  {
    if a != "" {
      BeforeTotal(a[1..], a[1..]);
    }
    if a != "" && b != "" && a[0] == b[0] {
      BeforeTotal(a[1..], b[1..]);
      assert a == [a[0]] + a[1..] && b == [b[0]] + b[1..];
    }
  }

  lemma {:induction false} BeforeTransitive(a: string, b: string, c: string)
    requires Before(a, b) && Before(b, c)
    ensures Before(a, c)
  {
    if a != "" && a[0] == b[0] && b[0] == c[0] {
      BeforeTransitive(a[1..], b[1..], c[1..]);
    }
  }

  function InsertByKey(k: string, v: Json, m: Members): (r: Members)
    ensures Keys(r) == Keys(m) + {k}
    ensures MembersSize(r) == 1 + Size(v) + MembersSize(m)
  {
    if m.NoMembers? || Before(k, m.key) then Member(k, v, m)
    else Member(m.key, m.val, InsertByKey(k, v, m.rest))
  }

  /** `sorted(d.items())`; with distinct keys the values are never compared. */
  function SortByKey(m: Members): (r: Members)
    ensures Keys(r) == Keys(m)
    ensures MembersSize(r) == MembersSize(m)
  {
    if m.NoMembers? then NoMembers
    else InsertByKey(m.key, m.val, SortByKey(m.rest))
  }

  predicate Sorted(m: Members) {
    m.Member? ==> Sorted(m.rest) && (m.rest.Member? ==> Before(m.key, m.rest.key))
  }

  lemma {:induction false} SortedMin(m: Members, k: string)
    requires Sorted(m) && k in Keys(m)
    ensures k == m.key || Before(m.key, k)
    ensures m.key !in Keys(m.rest)
  {
    BeforeTotal(m.key, m.key);
    if m.key in Keys(m.rest) {
      SortedMin(m.rest, m.key);
      BeforeTotal(m.key, m.rest.key);
      assert false;
    }
    if k != m.key {
      SortedMin(m.rest, k);
      if k != m.rest.key {
        BeforeTransitive(m.key, m.rest.key, k);
      }
    }
  }

  lemma {:induction false} InsertByKeySorted(k: string, v: Json, m: Members)
    requires Sorted(m) && k !in Keys(m)
    ensures Sorted(InsertByKey(k, v, m))
  {
    if m.Member? && !Before(k, m.key) {
      BeforeTotal(k, m.key);
      InsertByKeySorted(k, v, m.rest);
    }
  }

  lemma {:induction false} InsertByKeyGet(k: string, v: Json, m: Members, q: string)
    requires k !in Keys(m)
    ensures Get(InsertByKey(k, v, m), q) == if q == k then Some(v) else Get(m, q)
  {
    if m.Member? && !Before(k, m.key) {
      InsertByKeyGet(k, v, m.rest, q);
    }
  }

  lemma {:induction false} SortByKeyCorrect(m: Members, q: string)
    requires UniqueKeys(m)
    ensures Sorted(SortByKey(m))
    ensures Get(SortByKey(m), q) == Get(m, q)
  {
    if m.Member? {
      SortByKeyCorrect(m.rest, q);
      InsertByKeySorted(m.key, m.val, SortByKey(m.rest));
      InsertByKeyGet(m.key, m.val, SortByKey(m.rest), q);
    }
  }

  /** A strictly sorted list of members is determined by its look-ups. */
  lemma {:induction false} SortedExtensional(a: Members, b: Members)
    requires Sorted(a) && Sorted(b)
    requires forall k :: Get(a, k) == Get(b, k)
    ensures a == b
  {
    assert a.Member? ==> Get(a, a.key) == Get(b, a.key);
    assert b.Member? ==> Get(a, b.key) == Get(b, b.key);
    if a.Member? {
      SortedMin(b, a.key);
      SortedMin(a, b.key);
      BeforeTotal(a.key, b.key);
      forall k ensures Get(a.rest, k) == Get(b.rest, k) {
        assert Get(a, k) == Get(b, k);
      }
      SortedExtensional(a.rest, b.rest);
    }
  }

  // ----- sorting at every level -----

  function SortKeys(v: Json): Json {
    match v
    case Arr(items) => Arr(SortKeysItems(items))
    case Obj(m) => Obj(SortByKey(SortKeysMembers(m)))
    case _ => v
  }

  function SortKeysItems(items: Items): Items {
    if items.NoItems? then NoItems
    else Item(SortKeys(items.head), SortKeysItems(items.tail))
  }

  function SortKeysMembers(m: Members): (r: Members)
    ensures Keys(r) == Keys(m)
  {
    if m.NoMembers? then NoMembers
    else Member(m.key, SortKeys(m.val), SortKeysMembers(m.rest))
  }

  lemma SortKeysMembersGet(m: Members, k: string)
    ensures k in Keys(m) ==> Get(SortKeysMembers(m), k) == Some(SortKeys(Get(m, k).value))
    ensures UniqueKeys(m) ==> UniqueKeys(SortKeysMembers(m))
  {
  }

  /** Sorting the members commutes with sorting inside each value. */
  lemma {:induction false} SortKeysMembersSort(m: Members)
    ensures SortKeysMembers(SortByKey(m)) == SortByKey(SortKeysMembers(m))
  {
    if m.Member? {
      SortKeysMembersSort(m.rest);
      SortKeysMembersInsert(m.key, m.val, SortByKey(m.rest));
    }
  }

  lemma {:induction false} SortKeysMembersInsert(k: string, v: Json, m: Members)
    ensures SortKeysMembers(InsertByKey(k, v, m)) == InsertByKey(k, SortKeys(v), SortKeysMembers(m))
  {
    if m.Member? && !Before(k, m.key) {
      SortKeysMembersInsert(k, v, m.rest);
    }
  }

  lemma {:induction false} SortKeysWf(v: Json)
    requires Wf(v)
    ensures Wf(SortKeys(v))
  {
    match v
    case Arr(items) => SortKeysItemsWf(items);
    case Obj(m) =>
      SortKeysMembersWf(m);
      SortKeysMembersGet(m, "");
      SortByKeyWf(SortKeysMembers(m));
    case _ =>
  }

  lemma {:induction false} SortKeysItemsWf(items: Items)
    requires WfItems(items)
    ensures WfItems(SortKeysItems(items))
  {
    if items.Item? {
      SortKeysWf(items.head);
      SortKeysItemsWf(items.tail);
    }
  }

  lemma {:induction false} SortKeysMembersWf(m: Members)
    requires WfMembers(m)
    ensures WfMembers(SortKeysMembers(m))
  {
    if m.Member? {
      SortKeysWf(m.val);
      SortKeysMembersWf(m.rest);
    }
  }

  lemma {:induction false} SortByKeyWf(m: Members)
    requires WfMembers(m) && UniqueKeys(m)
    ensures WfMembers(SortByKey(m)) && UniqueKeys(SortByKey(m))
  {
    if m.Member? {
      SortByKeyWf(m.rest);
      InsertByKeyWf(m.key, m.val, SortByKey(m.rest));
    }
  }

  lemma {:induction false} InsertByKeyWf(k: string, v: Json, m: Members)
    requires WfMembers(m) && UniqueKeys(m) && Wf(v) && k !in Keys(m)
    ensures WfMembers(InsertByKey(k, v, m)) && UniqueKeys(InsertByKey(k, v, m))
  {
    if m.Member? && !Before(k, m.key) {
      InsertByKeyWf(k, v, m.rest);
    }
  }

  // ----- equality as nested maps -----

  /** Python's `a == b` on JSON values of one kind: objects compare as maps,
      whatever their key order; `1`, `True` and `"1"` are told apart. */
  predicate SameValue(a: Json, b: Json) {
    match a
    case Arr(xs) => b.Arr? && SameItems(xs, b.items)
    case Obj(m) => b.Obj? && Keys(m) == Keys(b.members) && Agrees(m, b.members)
    case _ => a == b
  }

  predicate SameItems(a: Items, b: Items) {
    if a.NoItems? then b.NoItems?
    else b.Item? && SameValue(a.head, b.head) && SameItems(a.tail, b.tail)
  }

  /** Every member of `a` has the same value under the same key in `b`. */
  predicate Agrees(a: Members, b: Members) {
    a.Member? ==>
      && a.key in Keys(b)
      && SameValue(a.val, Get(b, a.key).value)
      && Agrees(a.rest, b)
  }

  /** Two values print alike once their keys are sorted exactly when they are
      equal as nested maps. */
  lemma {:induction false} SortKeysDecidesEquality(a: Json, b: Json)
    requires Wf(a) && Wf(b)
    ensures SortKeys(a) == SortKeys(b) <==> SameValue(a, b)
  {
    if a.Arr? && b.Arr? {
      SortKeysItemsDecide(a.items, b.items);
    } else if a.Obj? && b.Obj? {
      if SameValue(a, b) {
        forall k ensures Get(SortKeys(a).members, k) == Get(SortKeys(b).members, k) {
          SortedLookup(a.members, k);
          SortedLookup(b.members, k);
          if k in Keys(a.members) {
            AgreesGivesEqualSorts(a.members, b.members, k);
          }
        }
        SortKeysSorted(a.members);
        SortKeysSorted(b.members);
        SortedExtensional(SortKeys(a).members, SortKeys(b).members);
      }
      if SortKeys(a) == SortKeys(b) {
        forall k | k in Keys(a.members)
          ensures k in Keys(b.members) && SortKeys(Get(a.members, k).value) == SortKeys(Get(b.members, k).value)
        {
          SortedLookup(a.members, k);
          SortedLookup(b.members, k);
        }
        EqualSortsGiveAgrees(a.members, b.members);
      }
    }
  }

  lemma {:induction false} SortKeysItemsDecide(a: Items, b: Items)
    requires WfItems(a) && WfItems(b)
    ensures SortKeysItems(a) == SortKeysItems(b) <==> SameItems(a, b)
  {
    if a.Item? && b.Item? {
      SortKeysDecidesEquality(a.head, b.head);
      SortKeysItemsDecide(a.tail, b.tail);
    }
  }

  lemma SortKeysSorted(m: Members)
    requires UniqueKeys(m)
    ensures Sorted(SortByKey(SortKeysMembers(m)))
  {
    SortKeysMembersGet(m, "");
    SortByKeyCorrect(SortKeysMembers(m), "");
  }

  lemma SortedLookup(m: Members, k: string)
    requires UniqueKeys(m)
    ensures Get(SortByKey(SortKeysMembers(m)), k) ==
            if k in Keys(m) then Some(SortKeys(Get(m, k).value)) else None
  {
    SortKeysMembersGet(m, k);
    SortByKeyCorrect(SortKeysMembers(m), k);
  }

  lemma {:induction false} AgreesGivesEqualSorts(a: Members, b: Members, k: string)
    requires UniqueKeys(a) && WfMembers(a) && WfMembers(b) && Agrees(a, b) && k in Keys(a)
    ensures k in Keys(b)
    ensures SortKeys(Get(a, k).value) == SortKeys(Get(b, k).value)
    decreases a
  {
    if a.key == k {
      GetWf(b, k);
      SortKeysDecidesEquality(a.val, Get(b, k).value);
    } else {
      AgreesGivesEqualSorts(a.rest, b, k);
    }
  }

  lemma {:induction false} EqualSortsGiveAgrees(a: Members, b: Members)
    requires UniqueKeys(a) && WfMembers(a) && WfMembers(b)
    requires forall k | k in Keys(a) :: k in Keys(b) && SortKeys(Get(a, k).value) == SortKeys(Get(b, k).value)
    ensures Agrees(a, b)
    decreases a
  {
    if a.Member? {
      assert Get(a, a.key) == Some(a.val);
      GetWf(b, a.key);
      SortKeysDecidesEquality(a.val, Get(b, a.key).value);
      forall k | k in Keys(a.rest)
        ensures k in Keys(b) && SortKeys(Get(a.rest, k).value) == SortKeys(Get(b, k).value)
      {
        assert Get(a, k) == Get(a.rest, k);
      }
      EqualSortsGiveAgrees(a.rest, b);
    }
  }

  /** Sorting the keys never changes the value as a nested map. */
  lemma SortKeysSameValue(v: Json)
    requires Wf(v)
    ensures Wf(SortKeys(v)) && SameValue(v, SortKeys(v))
  {
    SortKeysWf(v);
    SortKeysTwice(v);
    SortKeysDecidesEquality(v, SortKeys(v));
  }

  lemma {:induction false} SortKeysTwice(v: Json)
    requires Wf(v)
    ensures SortKeys(SortKeys(v)) == SortKeys(v)
  {
    match v
    case Arr(items) => SortKeysItemsTwice(items);
    case Obj(m) =>
      SortKeysMembersTwice(m);
      SortKeysMembersSort(SortKeysMembers(m));
      SortKeysSorted(m);
      SortByKeyOfSorted(SortByKey(SortKeysMembers(m)));
    case _ =>
  }

  lemma {:induction false} SortKeysItemsTwice(items: Items)
    requires WfItems(items)
    ensures SortKeysItems(SortKeysItems(items)) == SortKeysItems(items)
  {
    if items.Item? {
      SortKeysTwice(items.head);
      SortKeysItemsTwice(items.tail);
    }
  }

  lemma {:induction false} SortKeysMembersTwice(m: Members)
    requires WfMembers(m)
    ensures SortKeysMembers(SortKeysMembers(m)) == SortKeysMembers(m)
  {
    if m.Member? {
      SortKeysTwice(m.val);
      SortKeysMembersTwice(m.rest);
    }
  }

  lemma SortByKeyOfSorted(m: Members)
    requires Sorted(m)
    ensures SortByKey(m) == m
  {
  }

  // ----- equal maps have equal parts -----

  lemma SameValueGet(a: Members, b: Members, k: string)
    requires Wf(Obj(a)) && Wf(Obj(b)) && SameValue(Obj(a), Obj(b))
    ensures k in Keys(a) <==> k in Keys(b)
    ensures k in Keys(a) ==> SameValue(Get(a, k).value, Get(b, k).value)
  {
    if k in Keys(a) {
      AgreesGivesEqualSorts(a, b, k);
      GetWf(a, k);
      GetWf(b, k);
      SortKeysDecidesEquality(Get(a, k).value, Get(b, k).value);
    }
  }

  lemma SameValueWithout(a: Members, b: Members, k: string)
    requires Wf(Obj(a)) && Wf(Obj(b)) && SameValue(Obj(a), Obj(b))
    ensures SameValue(Obj(Without(a, k)), Obj(Without(b, k)))
  {
    WithoutWf(a, k);
    WithoutWf(b, k);
    GetWithout(a, k, k);
    GetWithout(b, k, k);
    forall q | q in Keys(Without(a, k))
      ensures q in Keys(Without(b, k))
      ensures SortKeys(Get(Without(a, k), q).value) == SortKeys(Get(Without(b, k), q).value)
    {
      GetWithout(a, k, q);
      GetWithout(b, k, q);
      AgreesGivesEqualSorts(a, b, q);
    }
    EqualSortsGiveAgrees(Without(a, k), Without(b, k));
  }
}
