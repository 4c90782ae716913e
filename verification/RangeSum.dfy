/** The range-sum setting of the persistent range-query tests: keys `K(u8)`,
    the key helpers the storages rely on, and a naive array-backed storage
    that supports range add/assign, range sums and frozen snapshots.
    Rust's debug-build arithmetic panics (u8 and usize underflow or overflow,
    i32 overflow) are the `None` results of the helpers. */
module RangeSum {
  import opened Wrappers

  type U8 = x: nat | x < 256

  const I32Min: int := -0x8000_0000
  const I32Max: int := 0x7fff_ffff

  predicate InI32(x: int) {
    I32Min <= x <= I32Max
  }

  /** The key range `K(start)..K(end)`; it is empty unless start < end. */
  datatype KeyRange = KeyRange(start: U8, end: U8) {
    predicate Contains(key: U8) {
      start <= key < end
    }
  }

  // ----- the key helpers -----

  /** `K::index`: the position of `key` among `all`'s keys; the usize
      subtraction panics for a key below the range. */
  function Index(all: KeyRange, key: U8): (r: Option<nat>)
    ensures r.Some? <==> all.start <= key
    ensures r.Some? ==> all.start + r.value == key
  {
    if key < all.start then None else Some(key - all.start)
  }

  /** `K::element_range`: the one-key range at position `index`. The index is
      truncated to u8 and both u8 additions panic on overflow. */
  function ElementRange(all: KeyRange, index: nat): (r: Option<KeyRange>)
    ensures r.Some? <==> all.start + index % 256 + 1 <= 255
    ensures r.Some? ==> r.value.start == all.start + index % 256 && r.value.end == r.value.start + 1
  {
    var b := index % 256;
    if all.start + b + 1 > 255 then None
    else Some(KeyRange(all.start + b, all.start + b + 1))
  }

  /** `SumOfSameElements::sum` for i32: the sum over `keys` of elements that
      all equal `v`. The u8 subtraction panics on a reversed range and the
      i32 multiplication on overflow. */
  function Sum(v: int, keys: KeyRange): (r: Option<int>)
    requires InI32(v)
    ensures r.None? <==> keys.end < keys.start || !InI32(v * (keys.end - keys.start))
  {
    if keys.end < keys.start then None
    else
      var p := v * (keys.end - keys.start);
      if InI32(p) then Some(p) else None
  }

  /** `MidpointableKey::midpoint`: the key halfway through `range`, rounded
      down; the u8 subtraction panics on a reversed range. */
  function Midpoint(range: KeyRange): (r: Option<U8>)
    ensures r.Some? <==> range.start <= range.end
    ensures r.Some? ==> range.start <= r.value <= range.end
  {
    if range.end < range.start then None
    else Some(range.start + (range.end - range.start) / 2)
  }

  /** Element ranges and indices are inverse, as long as the position fits
      in u8 arithmetic: the element range at position `i` is the single key
      whose index is `i`. */
  lemma ElementRangeIndex(all: KeyRange, i: nat)
    requires all.start + i + 1 <= 255
    ensures ElementRange(all, i).Some?
    ensures var e := ElementRange(all, i).value;
      && Index(all, e.start) == Some(i)
      && e.Contains(e.start)
      && forall key: U8 :: e.Contains(key) <==> Index(all, key) == Some(i)
  {
  }

  /** A key's element range is the range holding exactly that key. */
  lemma IndexElementRange(all: KeyRange, key: U8)
    requires all.start <= key <= 254
    ensures ElementRange(all, Index(all, key).value) == Some(KeyRange(key, key + 1))
  {
  }

  /** The sum of same elements is the sum of that many copies of `v`. */
  lemma SumIsTotalOfCopies(v: int, keys: KeyRange)
    requires InI32(v) && keys.start <= keys.end
    requires InI32(v * (keys.end - keys.start))
    ensures Sum(v, keys) == Some(Total(seq(keys.end - keys.start, _ => v)))
  {
    TotalOfCopies(v, keys.end - keys.start);
  }

  /** The midpoint of a non-empty range lies in it, and for two or more keys
      it splits the range into two non-empty halves whose sizes differ by at
      most one, the left half being the smaller. */
  lemma MidpointSplits(range: KeyRange)
    requires range.start < range.end
    ensures Midpoint(range).Some?
    ensures var m := Midpoint(range).value;
      && range.Contains(m)
      && (range.end - range.start >= 2 ==> range.start < m)
      && (range.end - range.start == 1 ==> m == range.start)
      && m - range.start <= range.end - m <= m - range.start + 1
  {
  }

  // ----- sums of element sequences -----

  function Total(s: seq<int>): int {
    if s == [] then 0 else Total(s[..|s| - 1]) + s[|s| - 1]
  }

  lemma {:induction false} TotalOfCopies(v: int, n: nat)
    ensures Total(seq(n, _ => v)) == v * n
  {
    if n > 0 {
      assert seq(n, _ => v)[..n - 1] == seq(n - 1, _ => v);
      TotalOfCopies(v, n - 1);
    }
  }

  lemma {:induction false} TotalConcat(a: seq<int>, b: seq<int>)
    ensures Total(a + b) == Total(a) + Total(b)
  {
    if b == [] {
      assert a + b == a;
    } else {
      assert (a + b)[..|a + b| - 1] == a + b[..|b| - 1];
      TotalConcat(a, b[..|b| - 1]);
    }
  }

  /** Adding `v` to every element adds `v` once per element. */
  lemma {:induction false} TotalOfAdded(s: seq<int>, v: int)
    ensures Total(seq(|s|, i requires 0 <= i < |s| => s[i] + v)) == Total(s) + v * |s|
  {
    if s != [] {
      var t := seq(|s|, i requires 0 <= i < |s| => s[i] + v);
      var p := s[..|s| - 1];
      assert t[..|t| - 1] == seq(|p|, i requires 0 <= i < |p| => p[i] + v);
      TotalOfAdded(p, v);
    }
  }

  // ----- modifications -----

  /** `AddAssignModification`: add to, or overwrite, every element of a range. */
  datatype Modification = Add(delta: int) | Assign(value: int)

  function ApplyOne(x: int, op: Modification): int {
    match op
    case Add(d) => x + d
    case Assign(v) => v
  }

  /** The elements after applying `op` to positions lo..hi. */
  function Apply(s: seq<int>, lo: nat, hi: nat, op: Modification): (r: seq<int>)
    ensures |r| == |s|
  {
    seq(|s|, i requires 0 <= i < |s| => if lo <= i < hi then ApplyOne(s[i], op) else s[i])
  }

  /** Only the modified part of the sum changes. */
  lemma ApplyTotalSplit(s: seq<int>, lo: nat, hi: nat, op: Modification)
    requires lo <= hi <= |s|
    ensures Total(Apply(s, lo, hi, op)) == Total(s) - Total(s[lo..hi]) + Total(Apply(s, lo, hi, op)[lo..hi])
  {
    var r := Apply(s, lo, hi, op);
    TotalThree(s, lo, hi);
    TotalThree(r, lo, hi);
    assert r[..lo] == s[..lo];
    assert r[hi..] == s[hi..];
  }

  /** An add raises the sum by `delta` per modified element. */
  lemma ApplyAddTotal(s: seq<int>, lo: nat, hi: nat, delta: int)
    requires lo <= hi <= |s|
    ensures Total(Apply(s, lo, hi, Add(delta))) == Total(s) + delta * (hi - lo)
  {
    ApplyTotalSplit(s, lo, hi, Add(delta));
    AddedRange(s, lo, hi, delta);
    TotalOfAdded(s[lo..hi], delta);
  }

  lemma AddedRange(s: seq<int>, lo: nat, hi: nat, delta: int)
    requires lo <= hi <= |s|
    ensures var mid := s[lo..hi];
            Apply(s, lo, hi, Add(delta))[lo..hi] == seq(|mid|, i requires 0 <= i < |mid| => mid[i] + delta)
  {
    var r := Apply(s, lo, hi, Add(delta))[lo..hi];
    var mid := s[lo..hi];
    var added := seq(|mid|, i requires 0 <= i < |mid| => mid[i] + delta);
    assert |r| == |added|;
    forall i | 0 <= i < |r| ensures r[i] == added[i] {
      assert r[i] == ApplyOne(s[lo + i], Add(delta));
    }
  }

  /** An assign replaces the modified elements' sum by `value` per element. */
  lemma ApplyAssignTotal(s: seq<int>, lo: nat, hi: nat, value: int)
    requires lo <= hi <= |s|
    ensures Total(Apply(s, lo, hi, Assign(value))) == Total(s) - Total(s[lo..hi]) + value * (hi - lo)
  {
    var r := Apply(s, lo, hi, Assign(value));
    ApplyTotalSplit(s, lo, hi, Assign(value));
    var copies := seq(hi - lo, _ => value);
    assert r[lo..hi] == copies by {
      forall i | 0 <= i < hi - lo ensures r[lo..hi][i] == copies[i] {
        assert r[lo + i] == value;
      }
    }
    TotalOfCopies(value, hi - lo);
  }

  /** The sum splits at any two positions. */
  lemma TotalThree(s: seq<int>, lo: nat, hi: nat)
    requires lo <= hi <= |s|
    ensures Total(s) == Total(s[..lo]) + Total(s[lo..hi]) + Total(s[hi..])
  {
    assert s == s[..lo] + s[lo..hi] + s[hi..];
    TotalConcat(s[..lo] + s[lo..hi], s[hi..]);
    TotalConcat(s[..lo], s[lo..hi]);
  }

  /** An assign over a range erases whatever was done to that range before. */
  lemma AssignOverrides(s: seq<int>, lo: nat, hi: nat, op: Modification, v: int)
    ensures Apply(Apply(s, lo, hi, op), lo, hi, Assign(v)) == Apply(s, lo, hi, Assign(v))
  {
    var a := Apply(Apply(s, lo, hi, op), lo, hi, Assign(v));
    var b := Apply(s, lo, hi, Assign(v));
    assert forall i :: 0 <= i < |a| ==> a[i] == b[i];
  }

  /** Two adds over the same range are one add of their sum. */
  lemma AddsCombine(s: seq<int>, lo: nat, hi: nat, d1: int, d2: int)
    ensures Apply(Apply(s, lo, hi, Add(d1)), lo, hi, Add(d2)) == Apply(s, lo, hi, Add(d1 + d2))
  {
    var a := Apply(Apply(s, lo, hi, Add(d1)), lo, hi, Add(d2));
    var b := Apply(s, lo, hi, Add(d1 + d2));
    assert forall i :: 0 <= i < |a| ==> a[i] == b[i];
  }

  // ----- the naive storage -----

  /** `NaiveVecStorage`: one stored element per key of `keys`. */
  class NaiveStorage {
    const keys: KeyRange
    const values: array<int>

    ghost predicate Valid()
      reads this
    {
      keys.start <= keys.end && values.Length == keys.end - keys.start
    }

    /** The elements, key by key. */
    function Contents(): seq<int>
      reads this, values
    {
      values[..]
    }

    /** A range of keys this storage holds. */
    predicate Within(range: KeyRange)
      reads this
    {
      keys.start <= range.start <= range.end <= keys.end
    }

    /** `new(all_keys, SameElementsInitializer::new(init))`. */
    constructor(all: KeyRange, init: int)
      requires all.start <= all.end
      ensures Valid() && keys == all && fresh(values)
      ensures Contents() == seq(all.end - all.start, _ => init)
    {
      keys := all;
      values := new int[all.end - all.start](_ => init);
    }

    /** `modify(range, op)`: apply `op` to every key of `range`. */
    method Modify(range: KeyRange, op: Modification)
      requires Valid() && Within(range)
      modifies values
      ensures Valid()
      ensures Contents() == Apply(old(Contents()), range.start - keys.start, range.end - keys.start, op)
    {
      var lo := Index(keys, range.start).value;
      var hi := Index(keys, range.end).value;
      var i := lo;
      while i < hi
        invariant lo <= i <= hi <= values.Length
        invariant forall j :: 0 <= j < values.Length ==>
          values[j] == if lo <= j < i then ApplyOne(old(values[j]), op) else old(values[j])
      {
        values[i] := ApplyOne(values[i], op);
        i := i + 1;
      }
    }

    /** `get(range).sum()`: the sum of the elements of `range`. */
    method Get(range: KeyRange) returns (sum: int)
      requires Valid() && Within(range)
      ensures sum == Total(Contents()[range.start - keys.start..range.end - keys.start])
      ensures range == keys ==> sum == Total(Contents())
    {
      var lo := Index(keys, range.start).value;
      var hi := Index(keys, range.end).value;
      sum := 0;
      var i := lo;
      while i < hi
        invariant lo <= i <= hi <= values.Length
        invariant sum == Total(values[lo..i])
      {
        assert values[lo..i + 1][..i - lo] == values[lo..i];
        sum := sum + values[i];
        i := i + 1;
      }
      assert values[0..values.Length] == values[..];
    }

    /** `freeze()`: a snapshot holding the current elements in storage of
        its own, so later modifications leave it as it is. */
    method Freeze() returns (snapshot: NaiveStorage)
      requires Valid()
      ensures fresh(snapshot) && fresh(snapshot.values)
      ensures snapshot.Valid() && snapshot.keys == keys
      ensures snapshot.Contents() == Contents()
    {
      snapshot := new NaiveStorage(keys, 0);
      var i := 0;
      while i < values.Length
        invariant 0 <= i <= values.Length == snapshot.values.Length
        invariant snapshot.values[..i] == values[..i]
        modifies snapshot.values
      {
        snapshot.values[i] := values[i];
        i := i + 1;
      }
    }
  }

  /** The elements after each modification `test_storage` makes. */
  lemma TestStorageContents(s0: seq<int>, s1: seq<int>, s2: seq<int>, s3: seq<int>)
    requires |s0| == 12 && forall i :: 0 <= i < 12 ==> s0[i] == 0
    requires s1 == Apply(s0, 2, 5, Add(3))
    requires s2 == Apply(s1, 3, 6, Assign(10))
    requires s3 == Apply(s2, 4, 7, Add(2))
    ensures s1 == [0, 0, 3, 3, 3, 0, 0, 0, 0, 0, 0, 0]
    ensures s2 == [0, 0, 3, 10, 10, 10, 0, 0, 0, 0, 0, 0]
    ensures s3 == [0, 0, 3, 10, 12, 12, 2, 0, 0, 0, 0, 0]
  {
    assert s1 == [0, 0, 3, 3, 3, 0, 0, 0, 0, 0, 0, 0];
    assert s2 == [0, 0, 3, 10, 10, 10, 0, 0, 0, 0, 0, 0];
  }

  /** The sums `test_storage` expects, from the elements after each of its
      modifications. */
  lemma TestStorageSums(s0: seq<int>, s1: seq<int>, s2: seq<int>, s3: seq<int>)
    requires |s0| == 12 && forall i :: 0 <= i < 12 ==> s0[i] == 0
    requires s1 == Apply(s0, 2, 5, Add(3))
    requires s2 == Apply(s1, 3, 6, Assign(10))
    requires s3 == Apply(s2, 4, 7, Add(2))
    ensures Total(s0) == 0 && Total(s1) == 9 && Total(s2) == 33 && Total(s3) == 39
    ensures Total(s3[4..6]) == 24 && Total(s1[4..6]) == 3
  {
    SmallTotals();
    assert Total(s0) == 0 by {
      assert s0 == seq(12, _ => 0);
      TotalOfCopies(0, 12);
    }
    assert Total(s1) == 9 by {
      ApplyAddTotal(s0, 2, 5, 3);
    }
    assert s1[3..6] == [3, 3, 0] && s1[4..6] == [3, 0] by {
      TestStorageContents(s0, s1, s2, s3);
    }
    assert Total(s2) == 33 by {
      ApplyAssignTotal(s1, 3, 6, 10);
    }
    assert Total(s3) == 39 by {
      ApplyAddTotal(s2, 4, 7, 2);
    }
    assert s3[4..6] == [12, 12] by {
      TestStorageContents(s0, s1, s2, s3);
    }
  }

  lemma SmallTotals()
    ensures Total([3, 3, 0]) == 6 && Total([12, 12]) == 24 && Total([3, 0]) == 3
  {
    assert [3, 3, 0][..2] == [3, 3];
    assert [3, 3][..1] == [3];
    assert [12, 12][..1] == [12];
    assert [3, 0][..1] == [3];
    assert [3][..0] == [] && [12][..0] == [];
  }

  /** One step of `test_storage`: a modification of the whole-range
      storage `s`, then the sum over all its keys. */
  method ModifyThenSum(s: NaiveStorage, range: KeyRange, op: Modification) returns (total: int)
    requires s.Valid() && s.Within(range)
    modifies s.values
    ensures s.Valid()
    ensures s.Contents() == Apply(old(s.Contents()), range.start - s.keys.start, range.end - s.keys.start, op)
    ensures total == Total(s.Contents())
  {
    s.Modify(range, op);
    total := s.Get(s.keys);
  }

  /** `test_storage` on the naive storage: the six sums it asserts. */
  method TestStorage() returns (sums: seq<int>)
    ensures sums == [0, 9, 33, 39, 24, 3]
  {
    var all := KeyRange(0, 12);
    var s := new NaiveStorage(all, 0);
    var s0 := s.Contents();
    var t0 := s.Get(all);

    var t1 := ModifyThenSum(s, KeyRange(2, 5), Add(3));
    var s1 := s.Contents();
    var snapshot := s.Freeze();

    var t2 := ModifyThenSum(s, KeyRange(3, 6), Assign(10));
    var s2 := s.Contents();
    var t3 := ModifyThenSum(s, KeyRange(4, 7), Add(2));
    var s3 := s.Contents();

    var t4 := s.Get(KeyRange(4, 6));
    var t5 := snapshot.Get(KeyRange(4, 6));
    TestStorageSums(s0, s1, s2, s3);
    sums := [t0, t1, t2, t3, t4, t5];
  }
}
