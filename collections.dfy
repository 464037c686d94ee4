// Python's built-in containers as the library uses them: the
// insertion-ordered `dict` keyed by strings, and list comprehensions that
// keep the elements satisfying a condition in their original order.

module Collections {

  // ---------------------------------------------------------------------
  // Insertion-ordered dictionaries
  // ---------------------------------------------------------------------

  /** A dictionary as its keys in insertion order plus the key-to-value map. */
  datatype RawDict<K, V> = RawDict(keys: seq<K>, items: map<K, V>)

  ghost predicate Distinct<K>(s: seq<K>)
  {
    forall i, j :: 0 <= i < j < |s| ==> s[i] != s[j]
  }

  ghost predicate WellKeyed<K(!new), V>(d: RawDict<K, V>)
  {
    Distinct(d.keys) && (forall k :: k in d.items <==> k in d.keys)
  }

  /** A Python `dict`: every key once, in the order it was first inserted. */
  type OrderedDict<K(==,!new), V> = d: RawDict<K, V> | WellKeyed(d) witness RawDict([], map[])

  /** Python `dict[str, V]`, the dictionaries of the library. */
  type Dict<V> = OrderedDict<string, V>

  function Empty<K(==,!new), V>(): (r: OrderedDict<K, V>)
    ensures r.keys == [] && r.items == map[]
  {
    RawDict([], map[])
  }

  /** `d[k] = v`: a new key goes to the end, an existing key keeps its place. */
  function Put<K(==,!new), V>(d: OrderedDict<K, V>, k: K, v: V): (r: OrderedDict<K, V>)
    ensures r.items == d.items[k := v]
    ensures k in d.items ==> r.keys == d.keys
    ensures k !in d.items ==> r.keys == d.keys + [k]
  {
    if k in d.items then RawDict(d.keys, d.items[k := v])
    else RawDict(d.keys + [k], d.items[k := v])
  }

  /** A key not yet in a distinct order can go at its end. */
  lemma DistinctSnoc<K>(s: seq<K>, k: K)
    requires Distinct(s) && k !in s
    ensures Distinct(s + [k])
  {
  }

  /** The key order with `k` taken out. */
  function RemoveKey<K(==,!new)>(s: seq<K>, k: K): (r: seq<K>)
    ensures forall x :: x in r <==> x in s && x != k
    ensures |r| <= |s|
  {
    if |s| == 0 then []
    else if s[0] == k then RemoveKey(s[1..], k)
    else [s[0]] + RemoveKey(s[1..], k)
  }

  lemma {:induction false} RemoveKeyDistinct<K(!new)>(s: seq<K>, k: K)
    requires Distinct(s)
    ensures Distinct(RemoveKey(s, k))
    decreases |s|
  {
    if |s| > 0 {
      RemoveKeyDistinct(s[1..], k);
      assert s[0] !in s[1..];
    }
  }

  /** `del d[k]` (for a present key) or `d.pop(k, None)`. */
  function Remove<K(==,!new), V>(d: OrderedDict<K, V>, k: K): (r: OrderedDict<K, V>)
    ensures r.items == d.items - {k}
    ensures r.keys == RemoveKey(d.keys, k)
  {
    RemoveKeyDistinct(d.keys, k);
    RawDict(RemoveKey(d.keys, k), d.items - {k})
  }

  /** Taking out a key that is not there changes nothing. */
  lemma {:induction false} RemoveKeyAbsent<K(!new)>(s: seq<K>, k: K)
    requires k !in s
    ensures RemoveKey(s, k) == s
    decreases |s|
  {
    if |s| > 0 {
      RemoveKeyAbsent(s[1..], k);
    }
  }

  /** Taking a key out of two joined key lists takes it out of each. */
  lemma {:induction false} RemoveKeyAppend<K(!new)>(a: seq<K>, b: seq<K>, k: K)
    ensures RemoveKey(a + b, k) == RemoveKey(a, k) + RemoveKey(b, k)
    decreases |a|
  {
    if |a| > 0 {
      assert (a + b)[0] == a[0] && (a + b)[1..] == a[1..] + b;
      RemoveKeyAppend(a[1..], b, k);
    } else {
      assert a + b == b;
    }
  }

  /** `list(d.values())`. */
  function Values<K(==,!new), V>(d: OrderedDict<K, V>): (r: seq<V>)
    ensures |r| == |d.keys|
    ensures forall i :: 0 <= i < |r| ==> d.keys[i] in d.items && r[i] == d.items[d.keys[i]]
  {
    seq(|d.keys|, i requires 0 <= i < |d.keys| => d.items[d.keys[i]])
  }

  /** `d.update(other)`, or `{**d, **other}`: the keys of `other` are put one after another. */
  function Update<K(==,!new), V>(d: OrderedDict<K, V>, other: OrderedDict<K, V>): (r: OrderedDict<K, V>)
    ensures r.items.Keys == d.items.Keys + other.items.Keys
    ensures forall k :: k in other.items ==> r.items[k] == other.items[k]
    ensures forall k :: k in d.items && k !in other.items ==> r.items[k] == d.items[k]
  {
    PutAll(d, other.keys, other.items)
  }

  function PutAll<K(==,!new), V>(d: OrderedDict<K, V>, ks: seq<K>, m: map<K, V>): (r: OrderedDict<K, V>)
    requires forall k :: k in ks ==> k in m
    ensures r.items.Keys == d.items.Keys + (set k | k in ks)
    ensures forall k :: k in ks ==> r.items[k] == m[k]
    ensures forall k :: k in d.items && k !in ks ==> r.items[k] == d.items[k]
    decreases |ks|
  {
    if |ks| == 0 then d else PutAll(Put(d, ks[0], m[ks[0]]), ks[1..], m)
  }

  /** The members of a non-empty sequence are those of its front and its last element. */
  lemma InSnoc<T>(s: seq<T>)
    requires |s| > 0
    ensures forall x :: x in s <==> x in s[..|s| - 1] || x == s[|s| - 1]
  {
    assert s == s[..|s| - 1] + [s[|s| - 1]];
  }

  lemma SnocThenRest<T>(a: seq<T>, b: seq<T>)
    requires |b| > 0
    ensures (a + [b[0]]) + b[1..] == a + b
  {
    assert b == [b[0]] + b[1..];
  }

  /** Putting keys that are all new appends them in order. */
  lemma {:induction false} PutAllFresh<K(!new), V>(d: OrderedDict<K, V>, ks: seq<K>, m: map<K, V>)
    requires forall k :: k in ks ==> k in m && k !in d.items
    requires Distinct(ks)
    ensures PutAll(d, ks, m).keys == d.keys + ks
    decreases |ks|
  {
    if |ks| > 0 {
      var d1 := Put(d, ks[0], m[ks[0]]);
      var rest := ks[1..];
      assert d1.keys == d.keys + [ks[0]];
      assert Distinct(rest) by {
        forall i, j | 0 <= i < j < |rest| ensures rest[i] != rest[j] {
          assert rest[i] == ks[i + 1] && rest[j] == ks[j + 1];
        }
      }
      assert forall k :: k in rest ==> k in m && k !in d1.items by {
        forall k | k in rest ensures k in m && k !in d1.items {
          var i :| 0 <= i < |rest| && rest[i] == k;
          assert k == ks[i + 1] && ks[i + 1] != ks[0];
        }
      }
      PutAllFresh(d1, rest, m);
      SnocThenRest(d.keys, ks);
    }
  }

  /** A dictionary holds exactly as many entries as it has keys. */
  lemma DictSize<K(!new), V>(d: OrderedDict<K, V>)
    ensures |d.items| == |d.keys|
  {
    DistinctCard(d.keys);
    assert d.items.Keys == set k | k in d.keys;
  }

  lemma {:induction false} DistinctCard<K(!new)>(s: seq<K>)
    requires Distinct(s)
    ensures |set k | k in s| == |s|
    decreases |s|
  {
    if |s| > 0 {
      DistinctCard(s[1..]);
      assert (set k | k in s) == (set k | k in s[1..]) + {s[0]};
      assert s[0] !in s[1..];
    }
  }

  // ---------------------------------------------------------------------
  // Order-preserving selection (list comprehensions with an `if`)
  // ---------------------------------------------------------------------

  /** `[x for x in s if keep(x)]`. */
  function Filter<T(==)>(s: seq<T>, keep: T -> bool): (r: seq<T>)
    ensures |r| <= |s|
    ensures forall i :: 0 <= i < |r| ==> r[i] in s && keep(r[i])
    ensures forall i :: 0 <= i < |s| && keep(s[i]) ==> s[i] in r
  {
    if |s| == 0 then []
    else if keep(s[0]) then [s[0]] + Filter(s[1..], keep)
    else Filter(s[1..], keep)
  }

  /** `a` is `b` with some elements deleted, the rest in the same order. */
  predicate IsSublist<T(==)>(a: seq<T>, b: seq<T>)
    decreases |b|
  {
    if |a| == 0 then true
    else if |b| == 0 then false
    else if a[0] == b[0] then IsSublist(a[1..], b[1..])
    else IsSublist(a, b[1..])
  }

  lemma {:induction false} FilterIsSublist<T>(s: seq<T>, keep: T -> bool)
    ensures IsSublist(Filter(s, keep), s)
    decreases |s|
  {
    if |s| > 0 {
      FilterIsSublist(s[1..], keep);
      if keep(s[0]) {
        assert Filter(s, keep)[1..] == Filter(s[1..], keep);
      } else {
        SublistDropHead(Filter(s, keep), s);
      }
    }
  }

  lemma {:induction false} SublistDropHead<T>(a: seq<T>, b: seq<T>)
    requires |b| > 0 && IsSublist(a, b[1..])
    ensures IsSublist(a, b)
    decreases |b|, 0
  {
    if |a| > 0 && a[0] == b[0] {
      // a[1..] is a sublist of b[1..] because a is.
      SublistTail(a, b[1..]);
    }
  }

  lemma {:induction false} SublistTail<T>(a: seq<T>, b: seq<T>)
    requires |a| > 0 && IsSublist(a, b)
    ensures IsSublist(a[1..], b)
    decreases |b|, 1
  {
    assert |b| > 0;
    if a[0] == b[0] {
      SublistDropHead(a[1..], b);
    } else {
      SublistTail(a, b[1..]);
      SublistDropHead(a[1..], b);
    }
  }

  /** A sublist of a sublist is a sublist. */
  lemma {:induction false} SublistTrans<T>(a: seq<T>, b: seq<T>, c: seq<T>)
    requires IsSublist(a, b) && IsSublist(b, c)
    ensures IsSublist(a, c)
    decreases |c|
  {
    if |a| > 0 {
      assert |b| > 0 && |c| > 0;
      if b[0] == c[0] {
        if a[0] == b[0] {
          SublistTrans(a[1..], b[1..], c[1..]);
        } else {
          SublistTrans(a, b[1..], c[1..]);
          SublistDropHead(a, c);
        }
      } else {
        SublistTrans(a, b, c[1..]);
        SublistDropHead(a, c);
      }
    }
  }

  /** Two selections one after the other select by both conditions. */
  lemma {:induction false} FilterFilter<T>(s: seq<T>, f: T -> bool, g: T -> bool)
    ensures Filter(Filter(s, f), g) == Filter(s, x => f(x) && g(x))
    decreases |s|
  {
    if |s| > 0 {
      FilterFilter(s[1..], f, g);
      if f(s[0]) {
        assert Filter(s, f) == [s[0]] + Filter(s[1..], f);
        assert Filter(s, f)[1..] == Filter(s[1..], f);
      }
    }
  }

  /** A selection keeps, in order, exactly the elements that meet its condition. */
  lemma FilterSpec<T>(s: seq<T>, keep: T -> bool)
    ensures IsSublist(Filter(s, keep), s)
    ensures forall x :: x in Filter(s, keep) <==> x in s && keep(x)
  {
    FilterIsSublist(s, keep);
    forall x | x in s && keep(x) ensures x in Filter(s, keep)
    {
      var i :| 0 <= i < |s| && s[i] == x;
    }
  }

  /** Conditions that agree on every element select the same elements. */
  lemma {:induction false} FilterSameCondition<T>(s: seq<T>, f: T -> bool, g: T -> bool)
    requires forall i :: 0 <= i < |s| ==> f(s[i]) == g(s[i])
    ensures Filter(s, f) == Filter(s, g)
    decreases |s|
  {
    if |s| > 0 {
      FilterSameCondition(s[1..], f, g);
    }
  }

  /** Two selections one after the other keep, in order, the elements that meet both conditions. */
  lemma FilterTwice<T>(s: seq<T>, f: T -> bool, g: T -> bool)
    ensures IsSublist(Filter(Filter(s, f), g), s)
    ensures forall x :: x in Filter(Filter(s, f), g) <==> x in s && f(x) && g(x)
  {
    var once := Filter(s, f);
    var twice := Filter(once, g);
    FilterIsSublist(s, f);
    FilterIsSublist(once, g);
    SublistTrans(twice, once, s);
    forall x | x in s && f(x) && g(x) ensures x in twice
    {
      var i :| 0 <= i < |s| && s[i] == x;
      var j :| 0 <= j < |once| && once[j] == x;
    }
  }

  /** Selecting with a condition that holds everywhere keeps everything. */
  lemma {:induction false} FilterAll<T>(s: seq<T>, keep: T -> bool)
    requires forall i :: 0 <= i < |s| ==> keep(s[i])
    ensures Filter(s, keep) == s
    decreases |s|
  {
    if |s| > 0 {
      FilterAll(s[1..], keep);
    }
  }

  /** `sum(1 for x in s if keep(x))`. */
  function Count<T(==)>(s: seq<T>, keep: T -> bool): (n: nat)
    ensures n <= |s|
    ensures n == |Filter(s, keep)|
  {
    if |s| == 0 then 0
    else (if keep(s[0]) then 1 else 0) + Count(s[1..], keep)
  }

  /** Selecting from a list with one more element at the end. */
  lemma {:induction false} FilterSnoc<T>(s: seq<T>, x: T, keep: T -> bool)
    ensures Filter(s + [x], keep) == Filter(s, keep) + (if keep(x) then [x] else [])
    decreases |s|
  {
    if |s| > 0 {
      assert (s + [x])[1..] == s[1..] + [x];
      FilterSnoc(s[1..], x, keep);
    }
  }

  /** Counting over a list with one more element at the end. */
  lemma CountSnoc<T>(s: seq<T>, x: T, keep: T -> bool)
    ensures Count(s + [x], keep) == Count(s, keep) + (if keep(x) then 1 else 0)
  {
    FilterSnoc(s, x, keep);
  }

  /** Some element is counted exactly when the count is positive. */
  lemma {:induction false} CountPositive<T>(s: seq<T>, keep: T -> bool)
    ensures Count(s, keep) > 0 <==> exists i :: 0 <= i < |s| && keep(s[i])
    decreases |s|
  {
    if |s| > 0 {
      CountPositive(s[1..], keep);
      if exists i :: 0 <= i < |s[1..]| && keep(s[1..][i]) {
        var i :| 0 <= i < |s[1..]| && keep(s[1..][i]);
        assert keep(s[i + 1]);
      }
      if exists i :: 0 <= i < |s| && keep(s[i]) {
        var i :| 0 <= i < |s| && keep(s[i]);
        if i > 0 {
          assert keep(s[1..][i - 1]);
        }
      }
    }
  }
}
