/** The chart series the two dashboards draw: one slice per category with
    a positive count, in the enumeration's order. */
module Charts {
  import opened Types
  import opened ArrayOps

  /** One chart entry: a category and how many records fall in it. */
  datatype Slice<K> = Slice(name: K, value: nat)

  /** The records of one category: `x => of(x) === k`. */
  function Is<T, K(==)>(of: T -> K, k: K): T -> bool
  {
    (x: T) => of(x) == k
  }

  /** The records whose category is one of `keys`. */
  function InKeys<T, K(==)>(keys: seq<K>, of: T -> K): T -> bool
  {
    (x: T) => of(x) in keys
  }

  /** `k => xs.filter(x => of(x) === k).length`. */
  function CountBy<T, K(==)>(xs: seq<T>, of: T -> K): K -> nat
  {
    (k: K) => Count(xs, Is(of, k))
  }

  /** `keys.map(k => ({name: k, value: count(k)})).filter(d => d.value > 0)`. */
  function PositiveSlices<K>(keys: seq<K>, count: K -> nat): (r: seq<Slice<K>>)
    ensures |r| <= |keys|
    ensures forall i :: 0 <= i < |r| ==> r[i].value > 0 && r[i].value == count(r[i].name) && r[i].name in keys
  {
    if keys == [] then []
    else
      var rest := PositiveSlices(keys[1..], count);
      assert forall i :: 1 <= i < |keys| ==> keys[i] == keys[1..][i - 1];
      (if count(keys[0]) > 0 then [Slice(keys[0], count(keys[0]))] else []) + rest
  }

  /** A listed category with a positive count has its slice: with the
      contract of `PositiveSlices`, the series holds exactly the categories
      with a positive count. */
  lemma {:induction false} PositiveSliceListed<K>(keys: seq<K>, count: K -> nat, k: K)
    requires k in keys && count(k) > 0
    ensures Slice(k, count(k)) in PositiveSlices(keys, count)
  {
    if keys[0] != k {
      PositiveSliceListed(keys[1..], count, k);
    }
  }

  /** A slice's category: `d => d.name`. */
  function SliceName<K>(s: Slice<K>): K
  {
    s.name
  }

  /** The categories kept on a chart: `k => count(k) > 0`. */
  function Positive<K>(count: K -> nat): K -> bool
  {
    (k: K) => count(k) > 0
  }

  /** The slice of one category: `k => ({name: k, value: count(k)})`. */
  function SliceOf<K>(count: K -> nat): K -> Slice<K>
  {
    (k: K) => Slice(k, count(k))
  }

  /** The series is the map of the categories with a positive count, in
      the order of `keys`: its names are those categories, listed as
      `keys` lists them. */
  lemma {:induction false} PositiveSlicesOrder<K>(keys: seq<K>, count: K -> nat)
    ensures PositiveSlices(keys, count) == Map(Filter(keys, Positive(count)), SliceOf(count))
    ensures Map(PositiveSlices(keys, count), SliceName) == Filter(keys, Positive(count))
  {
    var r, ks := PositiveSlices(keys, count), Filter(keys, Positive(count));
    if keys != [] {
      PositiveSlicesOrder(keys[1..], count);
      var rest := Filter(keys[1..], Positive(count));
      if count(keys[0]) > 0 {
        assert ks == [keys[0]] + rest;
        assert ks[1..] == rest;
      } else {
        assert ks == rest;
      }
    }
    assert r == Map(ks, SliceOf(count));
    assert forall i :: 0 <= i < |ks| ==> Map(r, SliceName)[i] == ks[i];
  }

  /** The sum of the values of a series. */
  function Total<K>(slices: seq<Slice<K>>): nat
  {
    if slices == [] then 0 else slices[0].value + Total(slices[1..])
  }

  /** The sum of the counts over a list of categories. */
  function SumOver<K>(keys: seq<K>, count: K -> nat): nat
  {
    if keys == [] then 0 else count(keys[0]) + SumOver(keys[1..], count)
  }

  lemma {:induction false} TotalAppend<K>(a: seq<Slice<K>>, b: seq<Slice<K>>)
    ensures Total(a + b) == Total(a) + Total(b)
  {
    if a == [] {
      assert a + b == b;
    } else {
      assert (a + b)[1..] == a[1..] + b;
      TotalAppend(a[1..], b);
    }
  }

  /** Dropping the empty categories does not change the total. */
  lemma {:induction false} PositiveSlicesTotal<K>(keys: seq<K>, count: K -> nat)
    ensures Total(PositiveSlices(keys, count)) == SumOver(keys, count)
  {
    if keys != [] {
      PositiveSlicesTotal(keys[1..], count);
      TotalAppend(if count(keys[0]) > 0 then [Slice(keys[0], count(keys[0]))] else [],
                  PositiveSlices(keys[1..], count));
    }
  }

  /** Counting category by category over distinct categories counts the
      records whose category is among them, each once. */
  lemma {:induction false} SumOverCounts<T, K>(keys: seq<K>, xs: seq<T>, of: T -> K)
    requires NoDuplicates(keys)
    ensures SumOver(keys, CountBy(xs, of)) == Count(xs, InKeys(keys, of))
  {
    if keys == [] {
      CountNone(xs, InKeys(keys, of));
    } else {
      var rest := keys[1..];
      assert NoDuplicates(rest) by {
        forall i, j | 0 <= i < j < |rest| ensures rest[i] != rest[j] {
          assert rest[i] == keys[i + 1] && rest[j] == keys[j + 1];
        }
      }
      SumOverCounts(rest, xs, of);
      assert keys == [keys[0]] + rest;
      assert keys[0] !in rest by {
        forall j | 0 <= j < |rest| ensures rest[j] != keys[0] {
          assert rest[j] == keys[j + 1];
        }
      }
      CountDisjointUnion(xs, Is(of, keys[0]), InKeys(rest, of), InKeys(keys, of));
    }
  }

  /** When every record falls in one of the listed categories, the series
      adds up to the number of records. */
  lemma SeriesCoversAll<T, K>(keys: seq<K>, xs: seq<T>, of: T -> K)
    requires NoDuplicates(keys)
    requires forall x :: of(x) in keys
    ensures Total(PositiveSlices(keys, CountBy(xs, of))) == |xs|
  {
    PositiveSlicesTotal(keys, CountBy(xs, of));
    SumOverCounts(keys, xs, of);
    CountAll(xs, InKeys(keys, of));
  }

  /** The first `n` entries, or all of them when there are fewer:
      `slice(0, n)`. */
  function Take<T>(xs: seq<T>, n: nat): (r: seq<T>)
    ensures |r| == if |xs| < n then |xs| else n
    ensures r == xs[..|r|]
  {
    if |xs| <= n then xs else xs[..n]
  }
}
