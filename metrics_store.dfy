/** A store of meter readings grouped into fixed-width time buckets.

    `store` maps each bucket's start time to the bucket, and a bucket maps a
    meter's mRID to the meter holding that meter's readings in the window.
    Both are Python dicts, which iterate in insertion order, so each is
    modelled as a map together with the order in which its keys were first
    inserted. Buckets are created on first use and never removed. */
module MetricsStores {
  import opened Wrappers

  /** The bucket width a store gets when none is given. */
  const DefaultBucketDuration: int := 5000

  /** One reading as passed to `Meter.add_reading`. */
  datatype Reading = Reading(timestamp: int, value: real, kind: string, phase: string, unit: string)

  /** A meter and the readings added to it, in arrival order. */
  datatype Meter = Meter(mrid: string, name: string, psrId: string, readings: seq<Reading>)

  /** `Meter.add_reading`, abstracted as appending the reading. */
  function AddReading(m: Meter, reading: Reading): Meter {
    m.(readings := m.readings + [reading])
  }

  // ---------------------------------------------------------------------
  // Bucket arithmetic

  /** A positive multiple of a positive number is at least that number. */
  lemma MulAtLeast(a: int, b: int)
    requires a > 0 && b > 0
    ensures a * b >= a
  {
  }

  /** A multiple of `d` leaves no remainder. */
  lemma MultipleMod(d: int, q: int)
    requires d != 0
    ensures (d * q) % d == 0
  {
    var x := d * q;
    var m, p := x % d, x / d;
    assert x == d * p + m;
    var k := q - p;
    assert m == d * k by {
      assert d * q - d * p == d * (q - p);
    }
    if k > 0 && d > 0 {
      MulAtLeast(d, k);
    } else if k > 0 {
      MulAtLeast(-d, k);
    } else if k < 0 && d > 0 {
      MulAtLeast(d, -k);
    } else if k < 0 {
      MulAtLeast(-d, -k);
    }
  }

  /** Python's `t % d`: floored, so the remainder takes the sign of `d`. */
  function PyMod(t: int, d: int): (r: int)
    requires d != 0
    ensures d > 0 ==> 0 <= r < d
    ensures d < 0 ==> d < r <= 0
    ensures (t - r) % d == 0
  {
    var e := t % d;
    assert t == d * (t / d) + e;
    if d > 0 || e == 0 then
      MultipleMod(d, t / d);
      e
    else
      assert t - (e + d) == d * (t / d - 1);
      MultipleMod(d, t / d - 1);
      e + d
  }

  /** `_get_bucket`: the start of the window holding `t`; a zero width
      raises `ZeroDivisionError`. */
  function BucketOf(t: int, d: int): Result<int> {
    if d == 0 then Err(ZeroDivisionError) else Ok(t - PyMod(t, d))
  }

  /** With a positive width, a bucket is a multiple of the width, at most the
      timestamp, and less than one width before it. */
  lemma BucketBounds(t: int, d: int)
    requires d > 0
    ensures BucketOf(t, d).Ok?
    ensures var b := BucketOf(t, d).value; b % d == 0 && b <= t && t - b < d
  {
  }

  /** With a negative width (Python floors), a bucket is a multiple of the
      width, at least the timestamp, and less than one width after it. */
  lemma BucketBoundsNegative(t: int, d: int)
    requires d < 0
    ensures BucketOf(t, d).Ok?
    ensures var b := BucketOf(t, d).value; b % d == 0 && t <= b && b - t < -d
  {
  }

  /** A quotient is fixed by the window its dividend lies in. */
  lemma QuotientOfWindow(t: int, d: int, k: int)
    requires d > 0 && k * d <= t < k * d + d
    ensures t / d == k && t % d == t - k * d
  {
    var q, e := t / d, t % d;
    assert t == d * q + e && 0 <= e < d;
    if q > k {
      assert d * q - d * k == d * (q - k);
      MulAtLeast(d, q - k);
    } else if q < k {
      assert d * k - d * q == d * (k - q);
      MulAtLeast(d, k - q);
    }
  }

  /** Two timestamps in the window `[k*d, k*d + d)` share the bucket `k*d`. */
  lemma SameWindowSameBucket(t1: int, t2: int, d: int, k: int)
    requires d > 0
    requires k * d <= t1 < k * d + d && k * d <= t2 < k * d + d
    ensures BucketOf(t1, d) == BucketOf(t2, d) == Ok(k * d)
  {
    QuotientOfWindow(t1, d, k);
    QuotientOfWindow(t2, d, k);
  }

  /** The default width puts 1000 and 4999 in bucket 0 and 5000 in bucket 5000. */
  lemma DefaultBucketExamples()
    ensures BucketOf(1000, DefaultBucketDuration) == BucketOf(4999, DefaultBucketDuration) == Ok(0)
    ensures BucketOf(5000, DefaultBucketDuration) == Ok(5000)
    ensures BucketOf(6000, DefaultBucketDuration) == Ok(5000)
  {
    SameWindowSameBucket(1000, 4999, 5000, 0);
    SameWindowSameBucket(5000, 6000, 5000, 1);
  }

  // ---------------------------------------------------------------------
  // Sorting the bucket times

  predicate StrictlyIncreasing(s: seq<int>) {
    forall i, j :: 0 <= i < j < |s| ==> s[i] < s[j]
  }

  /** `m` is the least element of `s`. */
  predicate IsLeast(m: int, s: set<int>) {
    m in s && forall y :: y in s ==> m <= y
  }

  /** Adding an element keeps the smaller of it and the old least. */
  lemma LeastOfInsert(x: int, m: int, s: set<int>)
    requires IsLeast(m, s)
    ensures IsLeast(if x < m then x else m, s + {x})
  {
  }

  /** A non-empty set has a member. */
  lemma NonEmptyHasMember(s: set<int>)
    requires s != {}
    ensures exists x :: x in s
  {
    if forall x :: x !in s {
      assert false;
    }
  }

  /** A non-empty set of integers has a least element. */
  lemma {:induction false} MinExists(s: set<int>)
    requires s != {}
    ensures exists m :: IsLeast(m, s)
  {
    NonEmptyHasMember(s);
    var x :| x in s;
    if s == {x} {
      assert IsLeast(x, s);
    } else {
      MinExists(s - {x});
      var m :| IsLeast(m, s - {x});
      LeastOfInsert(x, m, s - {x});
      assert s - {x} + {x} == s;
    }
  }

  /** The least element of a non-empty set. */
  function MinOf(s: set<int>): (m: int)
    requires s != {}
    ensures m in s && forall y :: y in s ==> m <= y
  {
    MinExists(s);
    var m :| IsLeast(m, s);
    m
  }

  /** `sorted(s)`: the elements of `s`, each once, in ascending order. */
  function SortedSeq(s: set<int>): (r: seq<int>)
    ensures StrictlyIncreasing(r)
    ensures forall x :: x in r <==> x in s
    ensures |r| == |s|
    decreases |s|
  {
    if s == {} then []
    else
      var m := MinOf(s);
      [m] + SortedSeq(s - {m})
  }

  /** Past its first element, an ascending list holds exactly its other
      elements. */
  lemma TailMembers(r: seq<int>)
    requires StrictlyIncreasing(r) && r != []
    ensures StrictlyIncreasing(r[1..])
    ensures forall x :: x in r[1..] <==> x in r && x != r[0]
  {
    assert forall k :: 0 <= k < |r| - 1 ==> r[1..][k] == r[k + 1] && r[0] < r[k + 1];
    forall x | x in r && x != r[0] ensures x in r[1..] {
      var j :| 0 <= j < |r| && r[j] == x;
      assert r[1..][j - 1] == x;
    }
  }

  /** A non-empty list has a member. */
  lemma HasMember(q: seq<int>)
    ensures q != [] ==> exists x :: x in q
  {
    if q != [] {
      var y := q[0];
      assert y in q;
    }
  }

  /** Two ascending lists of the same elements are equal. */
  lemma {:induction false} IncreasingUnique(r: seq<int>, q: seq<int>)
    requires StrictlyIncreasing(r) && StrictlyIncreasing(q)
    requires forall x :: x in r <==> x in q
    ensures r == q
    decreases |r|
  {
    if r == [] {
      HasMember(q);
    } else {
      assert r[0] in r && r[0] in q;
      assert q[0] in q;
      assert r[0] == q[0] by {
        var i :| 0 <= i < |r| && r[i] == q[0];
        var j :| 0 <= j < |q| && q[j] == r[0];
        assert r[0] <= r[i] && q[0] <= q[j];
      }
      TailMembers(r);
      TailMembers(q);
      IncreasingUnique(r[1..], q[1..]);
      assert r == [r[0]] + r[1..] && q == [q[0]] + q[1..];
    }
  }

  /** A set has only one ascending listing, so `sorted` is the unique such
      list. */
  lemma SortedSeqUnique(s: set<int>, r: seq<int>)
    requires StrictlyIncreasing(r) && forall x :: x in r <==> x in s
    ensures r == SortedSeq(s)
  {
    IncreasingUnique(r, SortedSeq(s));
  }

  // ---------------------------------------------------------------------
  // Buckets: insertion-ordered dicts from meter mRID to meter

  predicate Distinct<T(==)>(s: seq<T>) {
    forall i, j :: 0 <= i < j < |s| ==> s[i] != s[j]
  }

  /** A bucket: the dict's values by key and its keys in insertion order. */
  datatype Bucket = Bucket(order: seq<string>, meters: map<string, Meter>)

  /** The bucket a new window starts with (`{}`). */
  const EmptyBucket: Bucket := Bucket([], map[])

  /** Every listed key has a value. */
  predicate Keyed(b: Bucket) {
    forall k :: k in b.order ==> k in b.meters
  }

  /** The dict invariant: each key listed once, exactly the keys present,
      and each meter filed under its own mRID. */
  ghost predicate BucketValid(b: Bucket) {
    && Distinct(b.order)
    && (forall k :: k in b.meters <==> k in b.order)
    && (forall k :: k in b.meters ==> b.meters[k].mrid == k)
  }

  /** `bucket.values()`, in insertion order. */
  function BucketMeters(b: Bucket): seq<Meter>
    requires Keyed(b)
  {
    seq(|b.order|, i requires 0 <= i < |b.order| => b.meters[b.order[i]])
  }

  /** One more key of a bucket's order adds that key's meter. */
  lemma BucketMetersStep(b: Bucket, j: int)
    requires Keyed(b) && 0 <= j < |b.order|
    ensures b.order[j] in b.meters
    ensures BucketMeters(b)[..j + 1] == BucketMeters(b)[..j] + [b.meters[b.order[j]]]
  {
    assert b.order[j] in b.order;
  }

  /** `bucket[k] = v`: a new key goes to the end, an existing key keeps its
      place. */
  function Put(b: Bucket, k: string, v: Meter): Bucket {
    if k in b.meters then Bucket(b.order, b.meters[k := v])
    else Bucket(b.order + [k], b.meters[k := v])
  }

  /** The meter-level part of `store_meter_reading`: the meter already in
      the bucket for `mrid`, or a new one, gets the reading and is put back. */
  function AddToBucket(b: Bucket, mrid: string, name: string, psrId: string, reading: Reading): Bucket {
    var meter := if mrid in b.meters then b.meters[mrid] else Meter(mrid, name, psrId, []);
    Put(b, mrid, AddReading(meter, reading))
  }

  /** Adding a reading to a bucket reuses the meter already there for its
      mRID or creates exactly one new meter at the end; that meter's readings
      grow by the reading and every other meter is left as it was. */
  lemma AddToBucketSpec(b: Bucket, mrid: string, name: string, psrId: string, reading: Reading)
    requires BucketValid(b)
    ensures var b' := AddToBucket(b, mrid, name, psrId, reading);
      && BucketValid(b')
      && b'.meters.Keys == b.meters.Keys + {mrid}
      && (mrid in b.meters ==> b'.order == b.order && b'.meters[mrid] == AddReading(b.meters[mrid], reading))
      && (mrid !in b.meters ==> b'.order == b.order + [mrid] && b'.meters[mrid] == Meter(mrid, name, psrId, [reading]))
      && (forall k :: k in b.meters && k != mrid ==> b'.meters[k] == b.meters[k])
  {
  }

  // ---------------------------------------------------------------------
  // Meters across buckets

  /** Every bucket of the store has a value for each key it lists. */
  predicate AllKeyed(store: map<int, Bucket>) {
    forall t, k :: t in store && k in store[t].order ==> k in store[t].meters
  }

  lemma StoredBucketKeyed(store: map<int, Bucket>, t: int)
    requires AllKeyed(store) && t in store
    ensures Keyed(store[t])
  {
  }

  /** Every listed bucket time is in the store, whose buckets are keyed. */
  predicate Covers(store: map<int, Bucket>, keys: seq<int>) {
    AllKeyed(store) && forall i :: 0 <= i < |keys| ==> keys[i] in store
  }

  /** The meters of the listed buckets, bucket by bucket in the listed order. */
  function Flatten(store: map<int, Bucket>, keys: seq<int>): seq<Meter>
    requires Covers(store, keys)
    decreases |keys|
  {
    if keys == [] then []
    else
      var last := keys[|keys| - 1];
      assert last in store;
      Flatten(store, keys[..|keys| - 1]) + BucketMeters(store[last])
  }

  /** The number of meters in the listed buckets. */
  function MeterCount(store: map<int, Bucket>, keys: seq<int>): nat
    requires Covers(store, keys)
    decreases |keys|
  {
    if keys == [] then 0
    else
      var last := keys[|keys| - 1];
      assert last in store;
      MeterCount(store, keys[..|keys| - 1]) + |store[last].order|
  }

  /** The flattened meters are as many as the buckets' meter counts add up to. */
  lemma {:induction false} FlattenLength(store: map<int, Bucket>, keys: seq<int>)
    requires Covers(store, keys)
    ensures |Flatten(store, keys)| == MeterCount(store, keys)
    decreases |keys|
  {
    if keys != [] {
      FlattenLength(store, keys[..|keys| - 1]);
    }
  }

  /** Flattening distributes over concatenating the bucket lists. */
  lemma {:induction false} FlattenAppend(store: map<int, Bucket>, a: seq<int>, b: seq<int>)
    requires Covers(store, a) && Covers(store, b)
    ensures Covers(store, a + b)
    ensures Flatten(store, a + b) == Flatten(store, a) + Flatten(store, b)
    decreases |b|
  {
    if b == [] {
      assert a + b == a;
    } else {
      var n := |b| - 1;
      var b0, ab := b[..n], a + b;
      assert Covers(store, b0);
      FlattenAppend(store, a, b0);
      assert ab[..|ab| - 1] == a + b0 && ab[|ab| - 1] == b[n];
      assert Flatten(store, b) == Flatten(store, b0) + BucketMeters(store[b[n]]);
    }
  }

  /** One more bucket of a covered list adds that bucket's meters. */
  lemma FlattenStep(store: map<int, Bucket>, keys: seq<int>, i: int)
    requires Covers(store, keys) && 0 <= i < |keys|
    ensures Covers(store, keys[..i]) && Covers(store, keys[..i + 1])
    ensures keys[i] in store && Keyed(store[keys[i]])
    ensures Flatten(store, keys[..i + 1]) == Flatten(store, keys[..i]) + BucketMeters(store[keys[i]])
  {
    assert keys[..i + 1][..i] == keys[..i];
    StoredBucketKeyed(store, keys[i]);
  }

  /** Taking the last element off one list and a copy of it off another
      keeps the two lists permutations of each other. */
  lemma RemoveMatching(a: seq<int>, b: seq<int>, i: nat)
    requires |a| > 0 && i < |b| && b[i] == a[|a| - 1]
    requires multiset(a) == multiset(b)
    ensures multiset(a[..|a| - 1]) == multiset(b[..i] + b[i + 1..])
  {
    var n, k := |a| - 1, a[|a| - 1];
    assert a == a[..n] + [k];
    assert b == b[..i] + [k] + b[i + 1..];
    var x, y := multiset(a[..n]), multiset(b[..i] + b[i + 1..]);
    assert x + multiset{k} == y + multiset{k};
    assert x == x + multiset{k} - multiset{k};
    assert y == y + multiset{k} - multiset{k};
  }

  /** Taking one bucket out of a list takes exactly its meters out of the
      flattened meters. */
  lemma FlattenRemoveAt(store: map<int, Bucket>, b: seq<int>, i: int)
    requires Covers(store, b) && 0 <= i < |b|
    ensures Covers(store, b[..i] + b[i + 1..])
    ensures b[i] in store && Keyed(store[b[i]])
    ensures multiset(Flatten(store, b))
         == multiset(Flatten(store, b[..i] + b[i + 1..])) + multiset(BucketMeters(store[b[i]]))
  {
    var k, pre, post := b[i], b[..i], b[i + 1..];
    assert b == pre + [k] + post;
    assert Covers(store, pre) && Covers(store, [k]) && Covers(store, post);
    FlattenAppend(store, pre, [k]);
    FlattenAppend(store, pre + [k], post);
    FlattenAppend(store, pre, post);
    assert Flatten(store, [k]) == BucketMeters(store[k]) by {
      assert [k][..0] == [];
    }
    StoredBucketKeyed(store, k);
  }

  /** Listing the same buckets in another order yields the same meters, in
      another order. */
  lemma {:induction false} FlattenPermutation(store: map<int, Bucket>, a: seq<int>, b: seq<int>)
    requires Covers(store, a) && Covers(store, b)
    requires multiset(a) == multiset(b)
    ensures multiset(Flatten(store, a)) == multiset(Flatten(store, b))
    decreases |a|
  {
    if a == [] {
      assert |b| == |multiset(b)| == 0;
    } else {
      var n := |a| - 1;
      assert a[n] in multiset(b);
      var i :| 0 <= i < |b| && b[i] == a[n];
      RemoveMatching(a, b, i);
      FlattenStep(store, a, n);
      assert a[..n + 1] == a;
      FlattenRemoveAt(store, b, i);
      FlattenPermutation(store, a[..n], b[..i] + b[i + 1..]);
    }
  }

  /** A list without repeats holds each of its elements exactly once. */
  lemma {:induction false} DistinctMultiplicity<T>(s: seq<T>, x: T)
    requires Distinct(s)
    ensures multiset(s)[x] == if x in s then 1 else 0
    decreases |s|
  {
    if s != [] {
      assert s == [s[0]] + s[1..];
      assert Distinct(s[1..]);
      DistinctMultiplicity(s[1..], x);
    }
  }

  /** Two repeat-free lists of the same elements are permutations of each
      other. */
  lemma DistinctSameElements(a: seq<int>, b: seq<int>)
    requires Distinct(a) && Distinct(b)
    requires forall x :: x in a <==> x in b
    ensures multiset(a) == multiset(b)
  {
    forall x ensures multiset(a)[x] == multiset(b)[x] {
      DistinctMultiplicity(a, x);
      DistinctMultiplicity(b, x);
    }
  }

  /** The shape of `store` and its insertion order: the order lists each
      bucket time once and nothing else, and every bucket is well formed and
      holds at least one meter (a bucket is only created to file a reading). */
  ghost predicate StoreShape(store: map<int, Bucket>, order: seq<int>) {
    && Distinct(order)
    && (forall i :: 0 <= i < |order| ==> order[i] in store)
    && (forall t :: t in store ==> t in order)
    && AllKeyed(store)
    && (forall t :: t in store ==> BucketValid(store[t]) && store[t].order != [])
  }

  /** Assigning a well-formed bucket to a time keeps the shape, the time
      going to the end of the order when it is new. */
  lemma InsertKeepsShape(store: map<int, Bucket>, order: seq<int>, t: int, b: Bucket)
    requires StoreShape(store, order) && BucketValid(b) && b.order != []
    ensures StoreShape(store[t := b], if t in store then order else order + [t])
  {
    var store', order' := store[t := b], if t in store then order else order + [t];
    if t !in store {
      forall i, j | 0 <= i < j < |order'| ensures order'[i] != order'[j] {
        if j == |order| {
          assert order[i] in store;
        }
      }
    }
    assert forall i :: 0 <= i < |order'| ==> order'[i] in store' by {
      forall i | 0 <= i < |order'| ensures order'[i] in store' {
        if i < |order| {
          assert order'[i] == order[i];
        }
      }
    }
  }

  /** Listing the buckets in insertion order or in ascending order yields
      the same meters, in another order. */
  lemma InsertionOrderPermutesAscending(store: map<int, Bucket>, order: seq<int>)
    requires StoreShape(store, order)
    ensures Covers(store, order) && Covers(store, SortedSeq(store.Keys))
    ensures multiset(Flatten(store, order)) == multiset(Flatten(store, SortedSeq(store.Keys)))
  {
    var asc := SortedSeq(store.Keys);
    assert Distinct(asc);
    DistinctSameElements(order, asc);
    FlattenPermutation(store, order, asc);
  }

  /** A listed bucket that holds a meter makes the flattened meters non-empty. */
  lemma {:induction false} FlattenNonEmpty(store: map<int, Bucket>, keys: seq<int>, i: int)
    requires Covers(store, keys) && 0 <= i < |keys| && store[keys[i]].order != []
    ensures Flatten(store, keys) != []
    decreases |keys|
  {
    var n := |keys| - 1;
    StoredBucketKeyed(store, keys[n]);
    if i == n {
      assert |BucketMeters(store[keys[n]])| > 0;
    } else {
      var front := keys[..n];
      assert front[i] == keys[i];
      assert Covers(store, front);
      FlattenNonEmpty(store, front, i);
    }
  }

  /** A store that holds any bucket yields at least one meter when its
      buckets are listed in ascending order. */
  lemma NonEmptyStoreYieldsMeters(store: map<int, Bucket>)
    requires AllKeyed(store) && store != map[]
    requires forall t :: t in store ==> store[t].order != []
    ensures Covers(store, SortedSeq(store.Keys))
    ensures Flatten(store, SortedSeq(store.Keys)) != []
  {
    var asc := SortedSeq(store.Keys);
    assert store.Keys != {};
    NonEmptyHasMember(store.Keys);
    var t :| t in store.Keys;
    assert t in asc;
    var i :| 0 <= i < |asc| && asc[i] == t;
    FlattenNonEmpty(store, asc, i);
  }

  /** The nested loop of `ascending_iteration` and `__iter__`: for each
      listed bucket time, each meter of that bucket in insertion order. */
  method Traverse(store: map<int, Bucket>, keys: seq<int>) returns (r: seq<Meter>)
    requires Covers(store, keys)
    ensures r == Flatten(store, keys)
  {
    r := [];
    var i := 0;
    while i < |keys|
      invariant 0 <= i <= |keys|
      invariant Covers(store, keys[..i])
      invariant r == Flatten(store, keys[..i])
    {
      FlattenStep(store, keys, i);
      var bucket := store[keys[i]];
      ghost var done := r;
      var j := 0;
      while j < |bucket.order|
        invariant 0 <= j <= |bucket.order|
        invariant r == done + BucketMeters(bucket)[..j]
      {
        BucketMetersStep(bucket, j);
        r := r + [bucket.meters[bucket.order[j]]];
        j := j + 1;
      }
      assert BucketMeters(bucket)[..j] == BucketMeters(bucket);
      i := i + 1;
    }
    assert keys[..i] == keys;
  }

  // ---------------------------------------------------------------------
  // The store

  class MetricsStore {
    /** Bucket start time to bucket (`self.store`). */
    var store: map<int, Bucket>
    /** The order in which `store`'s keys were first inserted. */
    var storeOrder: seq<int>
    /** `self._bucket_times`. */
    var bucketTimes: set<int>
    const bucketDuration: int

    ghost predicate Valid()
      reads this
    {
      store.Keys == bucketTimes && StoreShape(store, storeOrder)
    }

    /** A fresh store has no buckets and no meters. */
    constructor (bucketDuration: int)
      ensures Valid() && this.bucketDuration == bucketDuration
      ensures store == map[] && storeOrder == [] && bucketTimes == {}
      ensures Buckets() == [] && AscendingMeters() == []
    {
      this.bucketDuration := bucketDuration;
      store := map[];
      storeOrder := [];
      bucketTimes := {};
    }

    /** `_get_bucket` for this store's width. */
    function GetBucket(t: int): (r: Result<int>)
      reads this
      ensures bucketDuration == 0 <==> r == Err(ZeroDivisionError)
      ensures bucketDuration > 0 ==> r.Ok? && r.value % bucketDuration == 0 && r.value <= t < r.value + bucketDuration
      ensures bucketDuration < 0 ==> r.Ok? && r.value % bucketDuration == 0 && r.value + bucketDuration < t <= r.value
    {
      BucketOf(t, bucketDuration)
    }

    /** `buckets`: the bucket times present, each once, strictly ascending. */
    function Buckets(): (r: seq<int>)
      reads this
      ensures StrictlyIncreasing(r)
      ensures forall t :: t in r <==> t in bucketTimes
      ensures |r| == |bucketTimes|
    {
      SortedSeq(bucketTimes)
    }

    /** What `ascending_iteration` yields: every bucket's meters, bucket by
        bucket in ascending time, each bucket's in insertion order. */
    function AscendingMeters(): seq<Meter>
      reads this
      requires Valid()
    {
      Flatten(store, Buckets())
    }

    /** `meters`: every meter of every bucket, buckets in the order they were
        created; as many as the buckets hold between them, and the same
        meters as the ascending iteration. */
    method Meters() returns (r: seq<Meter>)
      requires Valid()
      ensures r == Flatten(store, storeOrder)
      ensures |r| == MeterCount(store, storeOrder)
      ensures multiset(r) == multiset(AscendingMeters())
    {
      r := [];
      var i := 0;
      while i < |storeOrder|
        invariant 0 <= i <= |storeOrder|
        invariant Covers(store, storeOrder[..i])
        invariant r == Flatten(store, storeOrder[..i])
      {
        assert storeOrder[..i + 1][..i] == storeOrder[..i];
        StoredBucketKeyed(store, storeOrder[i]);
        r := r + BucketMeters(store[storeOrder[i]]);
        i := i + 1;
      }
      assert storeOrder[..i] == storeOrder;
      FlattenLength(store, storeOrder);
      InsertionOrderPermutesAscending(store, storeOrder);
    }

    /** `ascending_iteration`: yields the meters of each bucket in ascending
        bucket order. Every call on an unchanged store yields the same
        sequence. */
    method AscendingIteration() returns (r: seq<Meter>)
      requires Valid()
      ensures r == AscendingMeters()
      ensures store != map[] ==> r != []
    {
      var bs := Buckets();
      r := Traverse(store, bs);
      if store != map[] {
        NonEmptyStoreYieldsMeters(store);
      }
    }

    /** `__iter__`: the same traversal as `ascending_iteration`. */
    method Iterate() returns (r: seq<Meter>)
      requires Valid()
      ensures r == AscendingMeters()
      ensures store != map[] ==> r != []
    {
      r := AscendingIteration();
    }

    /** `store_meter_reading`: files the reading under its bucket and meter,
        creating either on first use; a zero width raises before anything
        changes. */
    method StoreMeterReading(mrid: string, name: string, psrId: string, timestamp: int,
                             value: real, kind: string, phase: string, unit: string) returns (r: Outcome)
      requires Valid()
      modifies this
      ensures Valid()
      ensures GetBucket(timestamp).Err? ==>
        r == Fail(ZeroDivisionError) && store == old(store) && storeOrder == old(storeOrder) && bucketTimes == old(bucketTimes)
      ensures GetBucket(timestamp).Ok? ==>
        var b := GetBucket(timestamp).value;
        var before := if b in old(store) then old(store)[b] else EmptyBucket;
        && r == Pass
        && store == old(store)[b := AddToBucket(before, mrid, name, psrId, Reading(timestamp, value, kind, phase, unit))]
        && bucketTimes == old(bucketTimes) + {b}
        && storeOrder == if b in old(store) then old(storeOrder) else old(storeOrder) + [b]
    {
      var bucketResult := GetBucket(timestamp);
      if bucketResult.Err? {
        return Fail(bucketResult.error);
      }
      var bucketTime := bucketResult.value;
      var bucket := if bucketTime in store then store[bucketTime] else EmptyBucket;
      var reading := Reading(timestamp, value, kind, phase, unit);
      AddToBucketSpec(bucket, mrid, name, psrId, reading);
      var meter := if mrid in bucket.meters then bucket.meters[mrid] else Meter(mrid, name, psrId, []);
      meter := AddReading(meter, reading);
      bucket := Put(bucket, mrid, meter);
      assert mrid in bucket.order;
      InsertKeepsShape(store, storeOrder, bucketTime, bucket);
      bucketTimes := bucketTimes + {bucketTime};
      if bucketTime !in store {
        storeOrder := storeOrder + [bucketTime];
      }
      store := store[bucketTime := bucket];
      r := Pass;
    }
  }

  /** A bucket start lies in its own bucket, so every key of the store is one. */
  lemma BucketIsOwnBucket(t: int, d: int)
    requires d != 0
    ensures BucketOf(BucketOf(t, d).value, d) == BucketOf(t, d)
  {
    var b := t - PyMod(t, d);
    assert b % d == 0;
    assert PyMod(b, d) == 0;
  }

  /** The bucket times 0 and 5000 are listed as 0, then 5000. */
  lemma TwoBucketsAscending()
    ensures SortedSeq({0, 5000}) == [0, 5000]
  {
    SortedSeqUnique({0, 5000}, [0, 5000]);
  }

  /** A first reading at 100 with the default width goes into bucket 0, under
      a new meter that holds just that reading. */
  method FirstReadingScenario(mrid: string, reading: Reading)
    requires reading.timestamp == 100
  {
    var ms := new MetricsStore(DefaultBucketDuration);
    SameWindowSameBucket(100, 100, 5000, 0);
    var r := ms.StoreMeterReading(mrid, "meter", "psr", 100, reading.value, reading.kind, reading.phase, reading.unit);
    assert r == Pass && ms.bucketTimes == {0};
    assert ms.store[0].meters[mrid].readings == [reading];
  }

  /** Readings at 100 and 6000 with the default width create buckets 0 and
      5000 (which `TwoBucketsAscending` lists in that order). */
  method TwoWindowScenario(mrid: string, reading: Reading)
  {
    var ms := new MetricsStore(DefaultBucketDuration);
    SameWindowSameBucket(100, 100, 5000, 0);
    assert ms.GetBucket(100) == Ok(0);
    var r1 := ms.StoreMeterReading(mrid, "meter", "psr", 100, reading.value, reading.kind, reading.phase, reading.unit);
    assert ms.bucketTimes == {0};
    SameWindowSameBucket(6000, 6000, 5000, 1);
    assert ms.GetBucket(6000) == Ok(5000);
    var r2 := ms.StoreMeterReading(mrid, "meter", "psr", 6000, reading.value, reading.kind, reading.phase, reading.unit);
    assert r1 == r2 == Pass;
    assert ms.bucketTimes == {0, 5000};
  }

  /** After one reading has been stored, two ascending iterations over the
      unchanged store yield the same sequence, and it is not empty. */
  method ReplayScenario(mrid: string, timestamp: int, reading: Reading)
  {
    var ms := new MetricsStore(DefaultBucketDuration);
    var r := ms.StoreMeterReading(mrid, "meter", "psr", timestamp, reading.value, reading.kind, reading.phase, reading.unit);
    assert ms.store != map[];
    var first := ms.AscendingIteration();
    var second := ms.AscendingIteration();
    assert first == second && first != [];
  }
}
