/**
  Sums over finite maps and duplicate-free lists: the vocabulary in which the
  queue's slot counts, rank measures and list surgery are stated.
 */
module Collections {

  datatype Option<+T> = None | Some(value: T)

  /** The sum of `f` over the values of `m`. */
  ghost function MapSum<K, V>(m: map<K, V>, f: V -> int): int
    decreases |m|
  {
    if m == map[] then 0 else
      var k :| k in m;
      f(m[k]) + MapSum(m - {k}, f)
  }

  /** Any key can be taken out first. */
  lemma {:induction false} MapSumPick<K, V>(m: map<K, V>, k: K, f: V -> int)
    requires k in m
    ensures MapSum(m, f) == f(m[k]) + MapSum(m - {k}, f)
    decreases |m|
  {
    var k0 :| k0 in m && MapSum(m, f) == f(m[k0]) + MapSum(m - {k0}, f);
    if k0 != k {
      MapSumPick(m - {k0}, k, f);
      MapSumPick(m - {k}, k0, f);
      assert m - {k0} - {k} == m - {k} - {k0};
    }
  }

  lemma MapSumUpdate<K, V>(m: map<K, V>, k: K, v: V, f: V -> int)
    ensures MapSum(m[k := v], f) == MapSum(m, f) + f(v) - (if k in m then f(m[k]) else 0)
  {
    MapSumPick(m[k := v], k, f);
    assert m[k := v] - {k} == m - {k};
    if k in m {
      MapSumPick(m, k, f);
    } else {
      assert m - {k} == m;
    }
  }

  lemma MapSumRemove<K, V>(m: map<K, V>, k: K, f: V -> int)
    requires k in m
    ensures MapSum(m - {k}, f) == MapSum(m, f) - f(m[k])
  {
    MapSumPick(m, k, f);
  }

  /** The weight of key `k`, a missing key counting as zero. */
  ghost function WeightAt<K, V>(m: map<K, V>, k: K, f: V -> int): int {
    if k in m then f(m[k]) else 0
  }

  lemma MapSumWithout<K, V>(m: map<K, V>, k: K, f: V -> int)
    ensures MapSum(m - {k}, f) == MapSum(m, f) - WeightAt(m, k, f)
  {
    if k in m {
      MapSumPick(m, k, f);
    } else {
      assert m - {k} == m;
    }
  }

  lemma {:induction false} MapSumNonNegative<K, V>(m: map<K, V>, f: V -> int)
    requires forall k | k in m :: f(m[k]) >= 0
    ensures MapSum(m, f) >= 0
    decreases |m|
  {
    if m != map[] {
      var k :| k in m;
      MapSumPick(m, k, f);
      MapSumNonNegative(m - {k}, f);
    }
  }

  /** Pointwise smaller non-negative weights, missing keys counting as zero, sum to no more. */
  lemma {:induction false} MapSumLe<K, V, W>(m: map<K, V>, f: V -> int, n: map<K, W>, g: W -> int)
    requires forall k | k in n :: g(n[k]) >= 0
    requires forall k | k in m :: f(m[k]) <= WeightAt(n, k, g)
    ensures MapSum(m, f) <= MapSum(n, g)
    decreases |m|
  {
    if m == map[] {
      MapSumNonNegative(n, g);
    } else {
      var k :| k in m;
      MapSumPick(m, k, f);
      MapSumWithout(n, k, g);
      forall x | x in m - {k} ensures f(m[x]) <= WeightAt(n - {k}, x, g) {
        assert f(m[x]) <= WeightAt(n, x, g);
      }
      MapSumLe(m - {k}, f, n - {k}, g);
    }
  }

  /** Keys that weigh nothing may be left out of the sum. */
  lemma {:induction false} MapSumEq<K, V, W>(m: map<K, V>, f: V -> int, n: map<K, W>, g: W -> int)
    requires forall k | k in m :: k in n
    requires forall k | k in n :: g(n[k]) == WeightAt(m, k, f)
    ensures MapSum(m, f) == MapSum(n, g)
    decreases |n|
  {
    if n != map[] {
      var k :| k in n;
      MapSumPick(n, k, g);
      MapSumWithout(m, k, f);
      forall x | x in n - {k} ensures g(n[x]) == WeightAt(m - {k}, x, f) {
        assert g(n[x]) == WeightAt(m, x, f);
      }
      MapSumEq(m - {k}, f, n - {k}, g);
    } else {
      assert m == map[];
    }
  }

  /** A member's own weight is bounded by the whole sum of non-negative weights. */
  lemma MapSumMember<K, V>(m: map<K, V>, k: K, f: V -> int)
    requires k in m
    requires forall x | x in m :: f(m[x]) >= 0
    ensures 0 <= f(m[k]) <= MapSum(m, f)
  {
    MapSumPick(m, k, f);
    MapSumNonNegative(m - {k}, f);
  }

  /** The same sum taken along a list of keys. */
  ghost function ListSum<K, V>(ids: seq<K>, m: map<K, V>, f: V -> int): int {
    if ids == [] then 0 else ListSum(ids[..|ids| - 1], m, f) + WeightAt(m, ids[|ids| - 1], f)
  }

  lemma {:induction false} ListSumIgnores<K, V>(ids: seq<K>, m: map<K, V>, k: K, f: V -> int)
    requires k !in ids
    ensures ListSum(ids, m - {k}, f) == ListSum(ids, m, f)
  {
    if ids != [] {
      ListSumIgnores(ids[..|ids| - 1], m, k, f);
    }
  }

  /** Over a list naming every key once, it is the sum of the map. */
  lemma {:induction false} ListSumIsMapSum<K, V>(ids: seq<K>, m: map<K, V>, f: V -> int)
    requires NoDup(ids) && forall k | k in m :: k in ids
    ensures ListSum(ids, m, f) == MapSum(m, f)
  {
    if ids == [] {
      assert m == map[];
    } else {
      var front, last := ids[..|ids| - 1], ids[|ids| - 1];
      MapSumWithout(m, last, f);
      ListSumIgnores(front, m, last, f);
      forall k | k in m - {last} ensures k in front {
        assert ids == front + [last];
      }
      ListSumIsMapSum(front, m - {last}, f);
    }
  }

  ghost predicate NoDup<T>(s: seq<T>) {
    forall i, j | 0 <= i < j < |s| :: s[i] != s[j]
  }

  /** The members of `s` outside `gone`, in their order. */
  function Without<T(==)>(s: seq<T>, gone: set<T>): seq<T> {
    if s == [] then [] else
      Without(s[..|s| - 1], gone) + if s[|s| - 1] in gone then [] else [s[|s| - 1]]
  }

  lemma WithoutSnoc<T>(s: seq<T>, i: nat, gone: set<T>)
    requires i < |s|
    ensures Without(s[..i + 1], gone) == if s[i] in gone then Without(s[..i], gone) else Without(s[..i], gone) + [s[i]]
  {
    assert s[..i + 1][..i] == s[..i];
  }

  lemma {:induction false} WithoutMembers<T>(s: seq<T>, gone: set<T>, x: T)
    ensures x in Without(s, gone) <==> x in s && x !in gone
  {
    if s != [] {
      var front := s[..|s| - 1];
      assert s == front + [s[|s| - 1]];
      WithoutMembers(front, gone, x);
    }
  }

  lemma WithoutAll<T>(s: seq<T>, gone: set<T>)
    ensures forall x | x in Without(s, gone) :: x in s && x !in gone
    ensures forall x | x in s && x !in gone :: x in Without(s, gone)
  {
    forall x | x in Without(s, gone) ensures x in s && x !in gone {
      WithoutMembers(s, gone, x);
    }
    forall x | x in s && x !in gone ensures x in Without(s, gone) {
      WithoutMembers(s, gone, x);
    }
  }

  lemma {:induction false} WithoutNoDup<T>(s: seq<T>, gone: set<T>)
    requires NoDup(s)
    ensures NoDup(Without(s, gone))
  {
    if s != [] {
      var front, last := s[..|s| - 1], s[|s| - 1];
      WithoutNoDup(front, gone);
      WithoutMembers(front, gone, last);
      assert last !in front;
    }
  }

  lemma {:induction false} WithoutNothing<T>(s: seq<T>, gone: set<T>)
    requires forall x | x in s :: x !in gone
    ensures Without(s, gone) == s
  {
    if s != [] {
      var front := s[..|s| - 1];
      assert s == front + [s[|s| - 1]];
      WithoutNothing(front, gone);
    }
  }

  /** Dropping one element of a duplicate-free list closes the gap it leaves. */
  lemma {:induction false} WithoutOne<T>(s: seq<T>, k: nat)
    requires NoDup(s) && k < |s|
    ensures Without(s, {s[k]}) == s[..k] + s[k + 1..]
  {
    var front, last := s[..|s| - 1], s[|s| - 1];
    if k == |s| - 1 {
      WithoutNothing(front, {s[k]});
    } else {
      WithoutOne(front, k);
      assert s[..k] == front[..k];
      assert s[k + 1..] == front[k + 1..] + [last];
    }
  }

  /** The position of `x` in `s`, or -1. */
  function Pos<T(==)>(s: seq<T>, x: T): (k: int)
    ensures -1 <= k < |s|
    ensures k >= 0 ==> s[k] == x && x !in s[..k]
    ensures k < 0 ==> x !in s
  {
    if s == [] then -1
    else if s[0] == x then 0
    else
      var k := Pos(s[1..], x);
      assert s == [s[0]] + s[1..];
      assert k >= 0 ==> s[..k + 1] == [s[0]] + s[1..][..k];
      if k < 0 then -1 else k + 1
  }

  ghost predicate SameElements<T>(s: seq<T>, t: seq<T>) {
    (forall x | x in s :: x in t) && (forall x | x in t :: x in s)
  }

  /** The element at `k` moved forward to `f`. */
  function Shifted<T>(s: seq<T>, f: nat, k: nat): seq<T>
    requires f < k < |s|
  {
    s[..f] + [s[k]] + s[f..k] + s[k + 1..]
  }

  function Swapped<T>(s: seq<T>, i: nat, j: nat): seq<T>
    requires i < |s| && j < |s|
  {
    s[i := s[j]][j := s[i]]
  }

  lemma ShiftedAt<T>(s: seq<T>, f: nat, k: nat)
    requires f < k < |s|
    ensures |Shifted(s, f, k)| == |s|
    ensures forall i | 0 <= i < |s| :: Shifted(s, f, k)[i] == s[Source(f, k, i)]
  {
  }

  /** Moving the element at `k` forward to `f` keeps the elements and their distinctness. */
  lemma ShiftIsPermutation<T>(s: seq<T>, f: nat, k: nat)
    requires NoDup(s) && f < k < |s|
    ensures NoDup(Shifted(s, f, k)) && SameElements(Shifted(s, f, k), s)
  {
    var t := Shifted(s, f, k);
    ShiftedAt(s, f, k);
    forall x | x in s ensures x in t {
      var i :| 0 <= i < |s| && s[i] == x;
      var j := if i < f || i > k then i else if i == k then f else i + 1;
      assert t[j] == x;
    }
  }

  function Source(f: nat, k: nat, i: nat): nat
    requires f < k
  {
    if i < f || i > k then i else if i == f then k else i - 1
  }

  lemma SwapIsPermutation<T>(s: seq<T>, i: nat, j: nat)
    requires NoDup(s) && i < |s| && j < |s|
    ensures NoDup(Swapped(s, i, j)) && SameElements(Swapped(s, i, j), s)
  {
    var t := Swapped(s, i, j);
    forall x | x in s ensures x in t {
      var a :| 0 <= a < |s| && s[a] == x;
      assert t[if a == i then j else if a == j then i else a] == x;
    }
  }

  function Elements<T(==)>(s: seq<T>): set<T> {
    set x | x in s
  }

  /** The elements before the last occurrence of `x`; none when `x` is absent. */
  function Before<T(==)>(s: seq<T>, x: T): set<T> {
    if s == [] then {}
    else if s[|s| - 1] == x then Elements(s[..|s| - 1])
    else Before(s[..|s| - 1], x)
  }

  lemma {:induction false} BeforeAt<T>(s: seq<T>, i: nat, k: nat)
    requires NoDup(s) && i < k < |s|
    ensures s[i] in Before(s, s[k])
  {
    var front := s[..|s| - 1];
    if k == |s| - 1 {
      assert s[i] == front[i];
    } else {
      BeforeAt(front, i, k);
    }
  }

  lemma {:induction false} BeforeMembers<T>(s: seq<T>, x: T)
    ensures Before(s, x) <= Elements(s)
  {
    if s != [] {
      BeforeMembers(s[..|s| - 1], x);
      assert s == s[..|s| - 1] + [s[|s| - 1]];
    }
  }

  lemma BeforeSnoc<T>(s: seq<T>, y: T, x: T)
    ensures Before(s + [y], x) == if y == x then Elements(s) else Before(s, x)
  {
    assert (s + [y])[..|s|] == s;
  }

  /** Dropping other elements puts nothing new before `x`. */
  lemma {:induction false} BeforeWithout<T>(s: seq<T>, gone: set<T>, x: T)
    requires x !in gone
    ensures Before(Without(s, gone), x) <= Before(s, x)
  {
    if s != [] {
      var front, last := s[..|s| - 1], s[|s| - 1];
      BeforeWithout(front, gone, x);
      if last !in gone {
        BeforeSnoc(Without(front, gone), last, x);
        WithoutAll(front, gone);
      } else {
        assert Without(s, gone) == Without(front, gone);
      }
    }
  }
}
